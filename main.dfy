/** The driver around the machine (enigma/Main.java): recognising
    configuration lines, tokenising and validating a configuration,
    normalising message lines, and laying a converted message out in groups
    of five. The rotor registry that buildRotors fills is a parameter here,
    a map from rotor name to rotor object. */
module Simulator {
  import opened Wrappers
  import opened Errors
  import opened Rotors
  import opened SignalPath
  import opened Machines

  /** A configuration line is one that starts with '*'. */
  function IsConfigurationLine(line: string): (b: bool)
    ensures b <==> "*" <= line
  {
    |line| > 0 && line[0] == '*'
  }

  // Tokenising: Java's split("\\s")

  /** The characters the regular expression \s matches: space, and tab,
      line feed, vertical tab, form feed and carriage return (9..13). */
  predicate IsWhitespace(c: char) {
    c == ' ' || 9 <= c as int <= 13
  }

  predicate NoWhitespace(s: string) {
    forall i :: 0 <= i < |s| ==> !IsWhitespace(s[i])
  }

  /** The pieces of s between its whitespace characters, empty pieces
      included: one more piece than s has whitespace characters. */
  function Pieces(s: string): (r: seq<string>)
    ensures |r| >= 1
    ensures forall k :: 0 <= k < |r| ==> NoWhitespace(r[k])
  {
    if s == [] then [""]
    else
      var rest := Pieces(s[1..]);
      if IsWhitespace(s[0]) then [""] + rest
      else [[s[0]] + rest[0]] + rest[1..]
  }

  /** Drops the empty pieces at the end, as split does. */
  function DropTrailingEmpty(ps: seq<string>): (r: seq<string>)
    ensures |r| <= |ps| && r == ps[..|r|]
    ensures r == [] || r[|r| - 1] != ""
    ensures forall k :: |r| <= k < |ps| ==> ps[k] == ""
  {
    if ps != [] && ps[|ps| - 1] == "" then DropTrailingEmpty(ps[..|ps| - 1]) else ps
  }

  /** Java's config.split("\\s"): a string without whitespace is its own only
      token (even the empty string); otherwise the pieces between whitespace
      characters, without the empty pieces at the end. */
  function Split(s: string): seq<string> {
    if NoWhitespace(s) then [s] else DropTrailingEmpty(Pieces(s))
  }

  /** The words joined by single spaces. */
  function JoinSpaced(words: seq<string>): string
    requires |words| >= 1
  {
    if |words| == 1 then words[0] else words[0] + " " + JoinSpaced(words[1..])
  }

  /** A word without whitespace glues onto the first piece of what follows. */
  lemma {:induction false} PiecesAfterWord(w: string, t: string)
    requires NoWhitespace(w)
    ensures Pieces(w + t) == [w + Pieces(t)[0]] + Pieces(t)[1..]
  {
    if w != [] {
      var p := Pieces(t);
      assert (w + t)[0] == w[0] && (w + t)[1..] == w[1..] + t;
      PiecesAfterWord(w[1..], t);
      var rest := Pieces(w[1..] + t);
      assert rest[0] == w[1..] + p[0] && rest[1..] == p[1..];
      assert Pieces(w + t) == [[w[0]] + rest[0]] + rest[1..];
      assert [w[0]] + (w[1..] + p[0]) == w + p[0];
    } else {
      var p := Pieces(t);
      assert w + t == t && w + p[0] == p[0];
      assert p == [p[0]] + p[1..];
    }
  }

  /** Splitting words joined by single spaces at every whitespace character
      gives the words back. */
  lemma {:induction false} PiecesOfJoin(words: seq<string>)
    requires |words| >= 1
    requires forall k :: 0 <= k < |words| ==> NoWhitespace(words[k])
    ensures Pieces(JoinSpaced(words)) == words
  {
    var w := words[0];
    if |words| == 1 {
      PiecesAfterWord(w, "");
      assert w + "" == w;
    } else {
      var rest := JoinSpaced(words[1..]);
      PiecesOfJoin(words[1..]);
      assert w + " " + rest == w + (" " + rest);
      PiecesAfterWord(w, " " + rest);
      assert (" " + rest)[1..] == rest;
      assert w + "" == w;
    }
  }

  /** ... and every string whose only whitespace is the space is the join of
      its pieces. */
  lemma {:induction false} JoinOfPieces(s: string)
    requires forall i :: 0 <= i < |s| ==> IsWhitespace(s[i]) ==> s[i] == ' '
    ensures JoinSpaced(Pieces(s)) == s
  {
    if s != [] {
      var rest := Pieces(s[1..]);
      JoinOfPieces(s[1..]);
      if IsWhitespace(s[0]) {
        assert Pieces(s) == [""] + rest;
        assert ([""] + rest)[1..] == rest;
      } else {
        assert Pieces(s) == [[s[0]] + rest[0]] + rest[1..];
        if |rest| == 1 {
          assert JoinSpaced(rest) == rest[0];
        } else {
          assert rest == [rest[0]] + rest[1..];
          assert JoinSpaced(rest) == rest[0] + " " + JoinSpaced(rest[1..]);
          assert ([[s[0]] + rest[0]] + rest[1..])[1..] == rest[1..];
        }
      }
    }
  }

  lemma {:induction false} JoinHasSpace(words: seq<string>)
    requires |words| >= 2
    ensures !NoWhitespace(JoinSpaced(words))
  {
    var j := JoinSpaced(words);
    assert j == words[0] + " " + JoinSpaced(words[1..]);
    assert j[|words[0]|] == ' ';
  }

  /** At least one word, none holding whitespace, the last one not empty. */
  predicate SplitForm(words: seq<string>) {
    && |words| >= 1 && words[|words| - 1] != ""
    && forall k :: 0 <= k < |words| ==> NoWhitespace(words[k])
  }

  /** The round trip for configuration lines: words without whitespace, the
      last one not empty, joined by single spaces, are split back into
      exactly those words. */
  lemma SplitJoin(words: seq<string>)
    requires SplitForm(words)
    ensures Split(JoinSpaced(words)) == words
  {
    PiecesOfJoin(words);
    if |words| >= 2 {
      JoinHasSpace(words);
    }
  }

  // Normalising: standardize

  /** Java's trim: drops the leading and trailing characters up to ' '. */
  function TrimStart(s: string): (r: string)
    ensures |r| <= |s| && r == s[|s| - |r|..]
    ensures forall k :: 0 <= k < |s| - |r| ==> s[k] <= ' '
    ensures r == [] || r[0] > ' '
  {
    if s != [] && s[0] <= ' ' then TrimStart(s[1..]) else s
  }

  function TrimEnd(s: string): (r: string)
    ensures |r| <= |s| && r == s[..|r|]
    ensures forall k :: |r| <= k < |s| ==> s[k] <= ' '
    ensures r == [] || r[|r| - 1] > ' '
  {
    if s != [] && s[|s| - 1] <= ' ' then TrimEnd(s[..|s| - 1]) else s
  }

  function Trim(s: string): (r: string)
    ensures r == [] || (r[0] > ' ' && r[|r| - 1] > ' ')
  {
    var t := TrimStart(s);
    var r := TrimEnd(t);
    assert r != [] ==> r[0] == t[0];
    r
  }

  /** Java's replace(" ", ""): every space removed, everything else kept in
      order. */
  function RemoveSpaces(s: string): (r: string)
    ensures |r| <= |s|
    ensures s != [] && s[0] != ' ' ==> r != [] && r[0] == s[0]
    ensures s != [] && s[|s| - 1] != ' ' ==> r != [] && r[|r| - 1] == s[|s| - 1]
    ensures forall i :: 0 <= i < |r| ==> r[i] != ' '
    ensures (forall i :: 0 <= i < |s| ==> s[i] != ' ') ==> r == s
  {
    if s == [] then []
    else (if s[0] == ' ' then [] else [s[0]]) + RemoveSpaces(s[1..])
  }

  /** toUpperCase on the ASCII letters; other characters are kept. */
  function UpperChar(c: char): char {
    if 'a' <= c <= 'z' then (c as int - 32) as char else c
  }

  function UpperCase(s: string): (r: string)
    ensures |r| == |s|
    ensures forall i :: 0 <= i < |r| ==> !('a' <= r[i] <= 'z')
    ensures forall i :: 0 <= i < |s| ==>
      if 'a' <= s[i] <= 'z' then r[i] as int == s[i] as int - 32 else r[i] == s[i]
  {
    seq(|s|, i requires 0 <= i < |s| => UpperChar(s[i]))
  }

  /** standardize: trimmed, without spaces, in upper case. */
  function Standardize(line: string): string {
    UpperCase(RemoveSpaces(Trim(line)))
  }

  /** What standardize leaves: no spaces, no lower-case ASCII letters, and
      neither a first nor a last character up to ' '. */
  predicate StandardForm(r: string) {
    && (forall i :: 0 <= i < |r| ==> r[i] != ' ' && !('a' <= r[i] <= 'z'))
    && (r == [] || (r[0] > ' ' && r[|r| - 1] > ' '))
  }

  /** A standardized line is in standard form. */
  lemma StandardizedForm(line: string)
    ensures StandardForm(Standardize(line))
  {
    TrimmedForm(Trim(line));
  }

  lemma TrimmedForm(t: string)
    requires t == [] || (t[0] > ' ' && t[|t| - 1] > ' ')
    ensures StandardForm(UpperCase(RemoveSpaces(t)))
  {
    SpacesRemovedForm(t);
    UpperCaseForm(RemoveSpaces(t));
  }

  lemma SpacesRemovedForm(t: string)
    requires t == [] || (t[0] > ' ' && t[|t| - 1] > ' ')
    ensures var u := RemoveSpaces(t);
      && (forall i :: 0 <= i < |u| ==> u[i] != ' ')
      && (u == [] || (u[0] > ' ' && u[|u| - 1] > ' '))
  {
  }

  lemma UpperCaseForm(u: string)
    requires forall i :: 0 <= i < |u| ==> u[i] != ' '
    requires u == [] || (u[0] > ' ' && u[|u| - 1] > ' ')
    ensures StandardForm(UpperCase(u))
  {
  }

  lemma TrimmedAlready(s: string)
    requires s == [] || (s[0] > ' ' && s[|s| - 1] > ' ')
    ensures Trim(s) == s
  {
    assert TrimStart(s) == s;
    assert TrimEnd(s) == s;
  }

  lemma UpperCaseFixed(s: string)
    requires forall i :: 0 <= i < |s| ==> !('a' <= s[i] <= 'z')
    ensures UpperCase(s) == s
  {
  }

  /** Standardizing a line in standard form changes nothing. */
  lemma StandardFormFixed(s: string)
    requires StandardForm(s)
    ensures Standardize(s) == s
  {
    TrimmedAlready(s);
    assert RemoveSpaces(s) == s;
    UpperCaseFixed(s);
  }

  /** Standardizing twice is standardizing once. */
  lemma StandardizeIdempotent(line: string)
    ensures Standardize(Standardize(line)) == Standardize(line)
  {
    StandardizedForm(line);
    StandardFormFixed(Standardize(line));
  }

  // Validating the chosen rotors

  /** What `r instanceof K` tests: a rotor object (not null) of kind k. */
  predicate IsKind(r: Rotor?, k: Kind) {
    r != null && r.wiring.kind == k
  }

  /** Slots 2..4 reject reflectors and fixed rotors; an unknown name (null)
      passes this test. */
  predicate MayBeRegular(r: Rotor?) {
    !IsKind(r, ReflectorRotor) && !IsKind(r, FixedRotor)
  }

  /** The validation in configure, checked in the code's order. */
  function CheckLayout(chosen: seq<Rotor?>): (r: Outcome<EnigmaError>)
    requires |chosen| == SlotCount
  {
    if !IsKind(chosen[0], ReflectorRotor) then Fail(ReflectorMisplaced)
    else if !IsKind(chosen[1], FixedRotor) then Fail(FixedMisplaced)
    else if !(forall k :: 2 <= k < SlotCount ==> MayBeRegular(chosen[k])) then Fail(RegularExpected)
    else if !Distinct(chosen) then Fail(DuplicateRotor)
    else Pass
  }

  /** The validation loops of configure. */
  method Validate(chosen: array<Rotor?>) returns (r: Outcome<EnigmaError>)
    requires chosen.Length == SlotCount
    ensures r == CheckLayout(chosen[..])
  {
    if !IsKind(chosen[0], ReflectorRotor) {
      return Fail(ReflectorMisplaced);
    }
    if !IsKind(chosen[1], FixedRotor) {
      return Fail(FixedMisplaced);
    }
    for i := 2 to SlotCount
      invariant forall k :: 2 <= k < i ==> MayBeRegular(chosen[k])
    {
      if IsKind(chosen[i], ReflectorRotor) || IsKind(chosen[i], FixedRotor) {
        return Fail(RegularExpected);
      }
    }
    for i := 0 to SlotCount
      invariant forall a, b :: 0 <= a < i && 0 <= b < SlotCount && a != b ==> chosen[a] != chosen[b]
    {
      for j := 0 to SlotCount
        invariant forall b :: 0 <= b < j && i != b ==> chosen[i] != chosen[b]
      {
        if i != j && chosen[i] == chosen[j] {
          return Fail(DuplicateRotor);
        }
      }
    }
    return Pass;
  }

  /** A layout that passes has at most one empty slot, and only among slots
      2..4; when no slot is empty, the rotors are distinct and their wirings
      (if well formed) have the slot layout the machine needs. */
  lemma AcceptedLayout(chosen: seq<Rotor?>)
    requires |chosen| == SlotCount && CheckLayout(chosen) == Pass
    ensures chosen[0] != null && chosen[1] != null
    ensures forall i, j :: 2 <= i < j < SlotCount && chosen[i] == null ==> chosen[j] != null
    ensures (forall k :: 0 <= k < SlotCount ==> chosen[k] != null && WellWired(chosen[k].wiring)) ==>
      Distinct(Present(chosen)) && ValidWirings(WiringsOf(Present(chosen)))
  {
    if forall k :: 0 <= k < SlotCount ==> chosen[k] != null && WellWired(chosen[k].wiring) {
      var rs := Present(chosen);
      forall k | 2 <= k < SlotCount ensures rs[k].wiring.kind == RegularRotor {
        assert MayBeRegular(chosen[k]);
      }
    }
  }

  /** The rotors of a sequence without empty slots. */
  function Present(chosen: seq<Rotor?>): (rs: seq<Rotor>)
    requires forall k :: 0 <= k < |chosen| ==> chosen[k] != null
    ensures |rs| == |chosen| && forall k :: 0 <= k < |chosen| ==> rs[k] == chosen[k]
  {
    if chosen == [] then [] else [chosen[0]] + Present(chosen[1..])
  }

  /** setRotors on the chosen slots: for each of the four positions in turn
      it reads the letter (a short setting ends it), checks it is a letter,
      then sets rotor i + 1, which fails on an empty slot. */
  function SettingFrom(chosen: seq<Rotor?>, position: string, i: nat): Outcome<EnigmaError>
    requires |chosen| == SlotCount && i <= 4
    decreases 4 - i
  {
    if i == 4 then Pass
    else if i >= |position| then Fail(SettingTooShort)
    else if !IsUpper(position[i]) then Fail(SettingNotLetter)
    else if chosen[i + 1] == null then Fail(MissingRotor)
    else SettingFrom(chosen, position, i + 1)
  }

  /** setRotors reaches an empty slot exactly when the slot lies within the
      leading letters of the setting; otherwise it ends as on a full machine. */
  lemma {:induction false} SettingFromOutcome(chosen: seq<Rotor?>, position: string, i: nat)
    requires |chosen| == SlotCount && i <= SettingPrefix(position)
    decreases 4 - i
    ensures SettingFrom(chosen, position, i) ==
      if exists q :: i < q <= SettingPrefix(position) && chosen[q] == null then Fail(MissingRotor)
      else SettingOutcome(position)
  {
    var n := SettingPrefix(position);
    if i == 4 || i >= |position| || !IsUpper(position[i]) {
      assert i == n;
    } else if chosen[i + 1] == null {
      assert i < n;
    } else {
      assert i < n;
      SettingFromOutcome(chosen, position, i + 1);
      assert (exists q :: i < q <= n && chosen[q] == null) <==> (exists q :: i + 1 < q <= n && chosen[q] == null);
    }
  }

  /** The outcome of configure on a line, given the registry. */
  function ConfigureOutcome(config: string, registry: map<string, Rotor>): Outcome<EnigmaError> {
    TokensOutcome(Split(config), registry)
  }

  /** The outcome of configure on the tokens of a line: the token count,
      then the layout of the named rotors, then setRotors. */
  function TokensOutcome(tokens: seq<string>, registry: map<string, Rotor>): Outcome<EnigmaError> {
    if |tokens| != 7 then Fail(WrongTokenCount)
    else LayoutOutcome(Chosen(RotorNames(tokens), registry), Standardize(tokens[6]))
  }

  /** The outcome of configure once the rotors are chosen: the layout checks,
      then setRotors with the standardized setting. */
  function LayoutOutcome(chosen: seq<Rotor?>, position: string): Outcome<EnigmaError>
    requires |chosen| == SlotCount
  {
    var layout := CheckLayout(chosen);
    if layout.Fail? then layout else SettingFrom(chosen, position, 0)
  }

  /** _rotors.get: the registered rotor, or null. */
  function Lookup(registry: map<string, Rotor>, name: string): (r: Rotor?)
    ensures r != null <==> name in registry
    ensures r != null ==> r in registry.Values
  {
    if name in registry then registry[name] else null
  }

  /** The standardized names of the five rotors the configuration names. */
  function RotorNames(tokens: seq<string>): (names: seq<string>)
    requires |tokens| == 7
    ensures |names| == SlotCount
  {
    seq(SlotCount, k requires 0 <= k < SlotCount => Standardize(tokens[k + 1]))
  }

  /** The rotors the five names select, in slot order. */
  function Chosen(names: seq<string>, registry: map<string, Rotor>): (chosen: seq<Rotor?>)
    requires |names| == SlotCount
    ensures |chosen| == SlotCount
    ensures forall k :: 0 <= k < SlotCount ==> chosen[k] == Lookup(registry, names[k])
  {
    seq(SlotCount, k requires 0 <= k < SlotCount => Lookup(registry, names[k]))
  }

  /** setRotors on the chosen slots completes exactly when the setting
      starts with four letters and slots 1..4 all hold a rotor. */
  lemma SettingFromPass(chosen: seq<Rotor?>, position: string)
    requires |chosen| == SlotCount
    ensures SettingFrom(chosen, position, 0) == Pass <==>
      SettingOutcome(position) == Pass && forall q :: 1 <= q < SlotCount ==> chosen[q] != null
  {
    SettingFromOutcome(chosen, position, 0);
  }

  /** A configuration line is accepted exactly when it has seven tokens, the
      five names are registered, name rotors of the right kinds in the right
      slots, name five different rotors, and the setting starts with four
      letters. */
  lemma ConfigureAccepted(tokens: seq<string>, registry: map<string, Rotor>)
    ensures TokensOutcome(tokens, registry) == Pass <==>
      && |tokens| == 7
      && (forall k :: 0 <= k < SlotCount ==> RotorNames(tokens)[k] in registry)
      && CheckLayout(Chosen(RotorNames(tokens), registry)) == Pass
      && SettingOutcome(Standardize(tokens[6])) == Pass
  {
    if |tokens| == 7 {
      var names := RotorNames(tokens);
      var chosen := Chosen(names, registry);
      var position := Standardize(tokens[6]);
      LayoutAndSetting(chosen, position);
      NamesRegistered(names, registry);
    }
  }

  lemma LayoutAndSetting(chosen: seq<Rotor?>, position: string)
    requires |chosen| == SlotCount
    ensures CheckLayout(chosen) == Pass && SettingFrom(chosen, position, 0) == Pass <==>
      && (forall k :: 0 <= k < SlotCount ==> chosen[k] != null)
      && CheckLayout(chosen) == Pass
      && SettingOutcome(position) == Pass
  {
    SettingFromPass(chosen, position);
  }

  lemma NamesRegistered(names: seq<string>, registry: map<string, Rotor>)
    requires |names| == SlotCount
    ensures (forall k :: 0 <= k < SlotCount ==> names[k] in registry) <==>
      (forall k :: 0 <= k < SlotCount ==> Chosen(names, registry)[k] != null)
  {
    var chosen := Chosen(names, registry);
    forall k | 0 <= k < SlotCount ensures names[k] in registry <==> chosen[k] != null {
      assert chosen[k] == Lookup(registry, names[k]);
    }
  }

  // Configuring a machine

  /** Every registered rotor is a valid rotor. */
  ghost predicate ValidRegistry(registry: map<string, Rotor>)
    reads registry.Values
  {
    forall x :: x in registry.Values ==> x.Valid()
  }

  /** The lookup loop of configure: slot k receives the rotor registered
      under the k-th name, or null. */
  method SelectRotors(names: seq<string>, registry: map<string, Rotor>) returns (chosen: array<Rotor?>)
    requires |names| == SlotCount
    ensures fresh(chosen) && chosen[..] == Chosen(names, registry)
  {
    chosen := new Rotor?[SlotCount];
    for i := 1 to 6
      invariant forall k :: 0 <= k < i - 1 ==> chosen[k] == Lookup(registry, names[k])
    {
      chosen[i - 1] := Lookup(registry, names[i - 1]);
    }
  }

  /** configure: the line is split at whitespace, then configured from its
      tokens. */
  method Configure(config: string, registry: map<string, Rotor>) returns (r: Result<Machine, EnigmaError>)
    requires ValidRegistry(registry)
    modifies registry.Values
    ensures ValidRegistry(registry)
    ensures r.Failure? <==> ConfigureOutcome(config, registry).Fail?
    ensures r.Failure? ==> r.error == ConfigureOutcome(config, registry).error
    ensures r.Success? ==> fresh(r.value) && ConfiguredFrom(r.value, Split(config), registry)
    ensures r.Success? ==> forall x :: x in registry.Values && x !in r.value.rotors[1..] ==> x.setting == old(x.setting)
  {
    r := ConfigureTokens(Split(config), registry);
  }

  /** What a successful configuration leaves: a configured machine holding
      the five named rotors, slots 1..4 set from the four setting letters. */
  ghost predicate ConfiguredFrom(m: Machine, tokens: seq<string>, registry: map<string, Rotor>)
    reads m, m.rotors
  {
    |tokens| == 7 && Assembled(m, Chosen(RotorNames(tokens), registry), Standardize(tokens[6]))
  }

  /** A configured machine holding the chosen rotors, slots 1..4 set from the
      first four letters of position. */
  ghost predicate Assembled(m: Machine, chosen: seq<Rotor?>, position: string)
    reads m, m.rotors
  {
    && m.configured && m.Valid() && |m.rotors| == SlotCount
    && |chosen| == SlotCount && (forall k :: 0 <= k < SlotCount ==> m.rotors[k] == chosen[k])
    && |position| >= 4
    && (forall k :: 1 <= k < SlotCount ==> m.rotors[k].setting == ToIndex(position[k - 1]))
  }

  /** The rest of configure, on the tokens of the line: a fresh machine with
      the five named rotors, slots 1..4 set from the setting, marked
      configured; or the first error the code reports. */
  method ConfigureTokens(tokens: seq<string>, registry: map<string, Rotor>) returns (r: Result<Machine, EnigmaError>)
    requires ValidRegistry(registry)
    modifies registry.Values
    ensures ValidRegistry(registry)
    ensures r.Failure? <==> TokensOutcome(tokens, registry).Fail?
    ensures r.Failure? ==> r.error == TokensOutcome(tokens, registry).error
    ensures r.Success? ==> fresh(r.value) && ConfiguredFrom(r.value, tokens, registry)
    ensures r.Success? ==> forall x :: x in registry.Values && x !in r.value.rotors[1..] ==> x.setting == old(x.setting)
  {
    if |tokens| != 7 {
      return Failure(WrongTokenCount);
    }
    var names := RotorNames(tokens);
    var chosen := SelectRotors(names, registry);
    r := Assemble(chosen, Standardize(tokens[6]), registry);
  }

  /** The validation and installation part of configure: check the layout,
      install the rotors, set them from position (setRotors), and mark the
      machine configured. The registry's rotors are shared between
      configurations, so this moves the rotors it installs (slot 0 keeps its
      setting) and no other. */
  method Assemble(chosen: array<Rotor?>, position: string, registry: map<string, Rotor>)
    returns (r: Result<Machine, EnigmaError>)
    requires chosen.Length == SlotCount && ValidRegistry(registry)
    requires forall k :: 0 <= k < SlotCount && chosen[k] != null ==> chosen[k] in registry.Values
    modifies registry.Values
    ensures ValidRegistry(registry)
    ensures r.Failure? <==> LayoutOutcome(chosen[..], position).Fail?
    ensures r.Failure? ==> r.error == LayoutOutcome(chosen[..], position).error
    ensures r.Success? ==> fresh(r.value) && Assembled(r.value, chosen[..], position)
    ensures r.Success? ==> forall x :: x in registry.Values && x !in r.value.rotors[1..] ==> x.setting == old(x.setting)
  {
    var layout := Validate(chosen);
    if layout.Fail? {
      return Failure(layout.error);
    }
    if chosen[2] == null || chosen[3] == null || chosen[4] == null {
      // setRotors stops at the setting error or reaches the empty slot
      SettingFromPass(chosen[..], position);
      return Failure(SettingFrom(chosen[..], position, 0).error);
    }
    SettingFromOutcome(chosen[..], position, 0);
    AcceptedLayout(chosen[..]);
    r := Mount(Present(chosen[..]), position, registry);
  }

  /** replaceRotors, setRotors and setConfigureStatus(true) on a fresh
      machine, once the layout has been accepted. */
  method Mount(rs: seq<Rotor>, position: string, registry: map<string, Rotor>) returns (r: Result<Machine, EnigmaError>)
    requires Installed(rs) && ValidWirings(WiringsOf(rs)) && ValidRegistry(registry)
    requires forall k :: 0 <= k < |rs| ==> rs[k] in registry.Values
    modifies registry.Values
    ensures ValidRegistry(registry)
    ensures r.Failure? <==> SettingOutcome(position).Fail?
    ensures r.Failure? ==> r.error == SettingOutcome(position).error
    ensures r.Success? ==>
      && fresh(r.value) && r.value.configured && r.value.Valid() && r.value.rotors == rs
      && (forall k :: 1 <= k < SlotCount ==> rs[k].setting == ToIndex(position[k - 1]))
    ensures forall x :: x in registry.Values && x !in rs[1..] ==> x.setting == old(x.setting)
  {
    var m := new Machine();
    m.ReplaceRotors(rs);
    var outcome := m.SetRotors(position);
    if outcome.Fail? {
      return Failure(outcome.error);
    }
    m.SetConfigureStatus(true);
    return Success(m);
  }

  // Printing a converted message: printMessageLine

  /** The message in groups of five separated by single spaces, the last
      group holding what is left. */
  function Grouped(msg: string): string
    decreases |msg|
  {
    if |msg| <= 5 then msg else msg[..5] + " " + Grouped(msg[5..])
  }

  /** The groups themselves. */
  function Groups(msg: string): (gs: seq<string>)
    decreases |msg|
    ensures |gs| >= 1
    ensures forall k :: 0 <= k < |gs| - 1 ==> |gs[k]| == 5
    ensures |gs[|gs| - 1]| <= 5 && (msg != [] ==> gs[|gs| - 1] != [])
    ensures Concat(gs) == msg
  {
    if |msg| <= 5 then
      assert Concat([msg]) == msg + Concat([]);
      [msg]
    else
      var rest := Groups(msg[5..]);
      assert ([msg[..5]] + rest)[1..] == rest;
      assert msg[..5] + msg[5..] == msg;
      [msg[..5]] + rest
  }

  function Concat(gs: seq<string>): string {
    if gs == [] then "" else gs[0] + Concat(gs[1..])
  }

  /** The grouped line is the groups joined by single spaces. */
  lemma {:induction false} GroupedIsJoin(msg: string)
    decreases |msg|
    ensures Grouped(msg) == JoinSpaced(Groups(msg))
  {
    if |msg| > 5 {
      GroupedIsJoin(msg[5..]);
      var gs := Groups(msg);
      assert gs[1..] == Groups(msg[5..]);
    }
  }

  /** A group is a piece of the message, so a message without whitespace
      has groups without whitespace. */
  lemma {:induction false} GroupsNoWhitespace(msg: string)
    decreases |msg|
    requires NoWhitespace(msg)
    ensures forall k :: 0 <= k < |Groups(msg)| ==> NoWhitespace(Groups(msg)[k])
    ensures msg != [] ==> SplitForm(Groups(msg))
  {
    if |msg| > 5 {
      GroupsNoWhitespace(msg[5..]);
      var gs := Groups(msg);
      assert gs == [msg[..5]] + Groups(msg[5..]);
      forall k | 0 <= k < |gs| ensures NoWhitespace(gs[k]) {
        if k > 0 {
          assert gs[k] == Groups(msg[5..])[k - 1];
        }
      }
    }
  }

  /** Reading a printed message back: splitting the printed line at its
      spaces yields the groups, five letters each but the last, which holds
      one to five. */
  lemma SplitGrouped(msg: string)
    requires msg != [] && NoWhitespace(msg)
    ensures Split(Grouped(msg)) == Groups(msg)
  {
    var gs := Groups(msg);
    GroupedIsJoin(msg);
    GroupsNoWhitespace(msg);
    SplitJoin(gs);
    assert Grouped(msg) == JoinSpaced(gs);
  }

  lemma {:induction false} RemoveSpacesConcat(a: string, b: string)
    ensures RemoveSpaces(a + b) == RemoveSpaces(a) + RemoveSpaces(b)
  {
    if a != [] {
      var head := if a[0] == ' ' then [] else [a[0]];
      assert (a + b)[0] == a[0] && (a + b)[1..] == a[1..] + b;
      assert RemoveSpaces(a + b) == head + RemoveSpaces(a[1..] + b);
      assert RemoveSpaces(a) == head + RemoveSpaces(a[1..]);
      RemoveSpacesConcat(a[1..], b);
      AppendAssociates(head, RemoveSpaces(a[1..]), RemoveSpaces(b));
    } else {
      assert a + b == b;
    }
  }

  /** replace(" ", "") keeps every character but ' ', as often as it occurs. */
  lemma {:induction false} RemoveSpacesKeeps(s: string)
    ensures forall c :: multiset(RemoveSpaces(s))[c] == if c == ' ' then 0 else multiset(s)[c]
  {
    if s != [] {
      var head := if s[0] == ' ' then [] else [s[0]];
      var rest := RemoveSpaces(s[1..]);
      RemoveSpacesKeeps(s[1..]);
      assert RemoveSpaces(s) == head + rest;
      assert multiset(RemoveSpaces(s)) == multiset(head) + multiset(rest);
      assert s == [s[0]] + s[1..];
      assert multiset(s) == multiset([s[0]]) + multiset(s[1..]);
    }
  }

  /** Removing the separators from a printed message gives back the message. */
  lemma {:induction false} UngroupedIsMessage(msg: string)
    decreases |msg|
    requires forall i :: 0 <= i < |msg| ==> msg[i] != ' '
    ensures RemoveSpaces(Grouped(msg)) == msg
  {
    if |msg| > 5 {
      var head := msg[..5];
      var rest := Grouped(msg[5..]);
      assert Grouped(msg) == head + (" " + rest);
      UngroupedIsMessage(msg[5..]);
      UngroupStep(head, rest, msg[5..]);
      assert head + msg[5..] == msg;
    }
  }

  lemma UngroupStep(head: string, rest: string, tail: string)
    requires forall i :: 0 <= i < |head| ==> head[i] != ' '
    requires RemoveSpaces(rest) == tail
    ensures RemoveSpaces(head + (" " + rest)) == head + tail
  {
    var spaced := " " + rest;
    assert spaced[0] == ' ' && spaced[1..] == rest;
    assert RemoveSpaces(spaced) == tail;
    assert RemoveSpaces(head) == head;
    RemoveSpacesConcat(head, spaced);
  }

  /** Grouping continues the same way from any multiple of five before the
      last group. */
  lemma GroupedStep(msg: string, i: nat)
    requires i + 5 < |msg|
    ensures Grouped(msg[i..]) == (msg[i..i + 5] + " ") + Grouped(msg[i + 5..])
  {
    assert msg[i..][..5] == msg[i..i + 5];
    assert msg[i..][5..] == msg[i + 5..];
  }

  /** printMessageLine, without the line terminator: a message of up to five
      letters as it is; otherwise every five letters followed by a space while
      more than five remain, then the rest. */
  method FormatMessageLine(msg: string) returns (line: string)
    ensures line == Grouped(msg)
  {
    if |msg| <= 5 {
      return msg;
    }
    line := "";
    var i := 0;
    while i < |msg|
      invariant 0 <= i
      invariant i < |msg| ==> line + Grouped(msg[i..]) == Grouped(msg)
      invariant i >= |msg| ==> 5 <= i < |msg| + 5 && line + msg[i - 5..] == Grouped(msg)
    {
      if i + 5 < |msg| {
        GroupedStep(msg, i);
        AppendAssociates(line, msg[i..i + 5] + " ", Grouped(msg[i + 5..]));
        line := line + (msg[i..i + 5] + " ");
      } else {
        assert Grouped(msg[i..]) == msg[i..];
      }
      i := i + 5;
    }
    i := i - 5;
    if i <= |msg| {
      assert msg[i..|msg|] == msg[i..];
      line := line + msg[i..|msg|];
    }
  }

  // The main loop, on a snapshot of the registry's settings

  /** The settings of all registered rotors. */
  ghost function SettingsMap(registry: map<string, Rotor>): (s: map<Rotor, int>)
    reads registry.Values
    ensures s.Keys == registry.Values
  {
    map x | x in registry.Values :: x.setting
  }

  /** The settings of the rotors rs, read from a snapshot. */
  function SettingsIn(settings: map<Rotor, int>, rs: seq<Rotor>): (st: seq<int>)
    requires forall k :: 0 <= k < |rs| ==> rs[k] in settings
    ensures |st| == |rs| && forall k :: 0 <= k < |rs| ==> st[k] == settings[rs[k]]
  {
    seq(|rs|, k requires 0 <= k < |rs| => settings[rs[k]])
  }

  /** The snapshot after rotor rs[k] takes setting st[k], for every k. */
  function Store(settings: map<Rotor, int>, rs: seq<Rotor>, st: seq<int>): map<Rotor, int>
    requires |rs| == |st|
    decreases |rs|
  {
    if rs == [] then settings else Store(settings[rs[0] := st[0]], rs[1..], st[1..])
  }

  /** Storing changes exactly the stored rotors. */
  lemma {:induction false} StoreAt(settings: map<Rotor, int>, rs: seq<Rotor>, st: seq<int>)
    requires |rs| == |st| && Distinct(rs)
    decreases |rs|
    ensures Store(settings, rs, st).Keys == settings.Keys + set k | 0 <= k < |rs| :: rs[k]
    ensures forall k :: 0 <= k < |rs| ==> Store(settings, rs, st)[rs[k]] == st[k]
    ensures forall x :: x in settings && x !in rs ==> Store(settings, rs, st)[x] == settings[x]
  {
    if rs != [] {
      var s1 := settings[rs[0] := st[0]];
      StoreAt(s1, rs[1..], st[1..]);
      assert (set k | 0 <= k < |rs| :: rs[k]) == {rs[0]} + set k | 0 <= k < |rs[1..]| :: rs[1..][k];
      forall k | 0 <= k < |rs| ensures Store(settings, rs, st)[rs[k]] == st[k] {
        if k > 0 {
          assert rs[k] == rs[1..][k - 1];
        } else {
          assert rs[0] !in rs[1..];
        }
      }
    }
  }

  /** Storing settings in range for five loaded rotors leaves a snapshot
      ready for the machine made of them. */
  lemma StoreReady(registry: map<string, Rotor>, settings: map<Rotor, int>, rs: seq<Rotor>, st: seq<int>)
    requires Ready(registry, settings, None) && Loaded(registry, rs)
    requires |st| == SlotCount && forall k :: 0 <= k < SlotCount ==> 0 <= st[k] < AlphabetSize
    ensures Ready(registry, Store(settings, rs, st), Some(rs))
  {
    StoreAt(settings, rs, st);
    var s := Store(settings, rs, st);
    assert (set k | 0 <= k < |rs| :: rs[k]) <= settings.Keys;
    forall x | x in s ensures 0 <= s[x] < AlphabetSize {
      if k :| 0 <= k < |rs| && rs[k] == x {
        assert s[rs[k]] == st[k];
      }
    }
  }

  /** A snapshot that covers the registry and the rotors of the current
      machine, if there is one, laid out as a configuration leaves them. */
  ghost predicate Ready(registry: map<string, Rotor>, settings: map<Rotor, int>, current: Option<seq<Rotor>>) {
    && settings.Keys == registry.Values
    && (forall x :: x in settings ==> WellWired(x.wiring) && 0 <= settings[x] < AlphabetSize)
    && (current.Some? ==> Loaded(registry, current.value))
  }

  /** Five distinct registered rotors with the slot layout of a machine. */
  ghost predicate Loaded(registry: map<string, Rotor>, rs: seq<Rotor>) {
    && |rs| == SlotCount && Distinct(rs) && ValidWirings(WiringsOf(rs))
    && forall k :: 0 <= k < SlotCount ==> rs[k] in registry.Values
  }

  /** What one input line does: stop with an error, or go on with new
      settings, a current machine and possibly a printed line. */
  datatype LineResult = Halt(error: EnigmaError) | Continue(settings: map<Rotor, int>, current: Option<seq<Rotor>>, printed: seq<string>)

  /** One line of main: a configuration line configures a new machine; any
      other line is standardized and converted by the current machine. */
  ghost function LineStep(line: string, registry: map<string, Rotor>, settings: map<Rotor, int>, current: Option<seq<Rotor>>): (s: LineResult)
    requires Ready(registry, settings, current)
    ensures s.Continue? ==> Ready(registry, s.settings, s.current) && s.current.Some?
  {
    if IsConfigurationLine(line) then ConfigureStep(Split(line), registry, settings)
    else if current.None? then Halt(NotInitialized)
    else MessageStep(Standardize(line), registry, settings, current.value)
  }

  /** configure on the tokens of a line: the first error it reports, or the
      new machine, whose slot 0 keeps its setting while slots 1..4 take the
      four setting letters. */
  ghost function ConfigureStep(tokens: seq<string>, registry: map<string, Rotor>, settings: map<Rotor, int>): (s: LineResult)
    requires Ready(registry, settings, None)
    ensures s.Continue? ==> Ready(registry, s.settings, s.current) && s.current.Some? && s.printed == []
  {
    if |tokens| != 7 then Halt(WrongTokenCount)
    else
      var chosen := Chosen(RotorNames(tokens), registry);
      var position := Standardize(tokens[6]);
      match LayoutOutcome(chosen, position)
      case Fail(e) => Halt(e)
      case Pass => Install(chosen, position, registry, settings)
  }

  /** The new machine of an accepted configuration: slot 0 keeps its setting
      and slots 1..4 take the four setting letters. */
  ghost function Install(chosen: seq<Rotor?>, position: string, registry: map<string, Rotor>, settings: map<Rotor, int>): (s: LineResult)
    requires |chosen| == SlotCount && LayoutOutcome(chosen, position) == Pass
    requires forall k :: 0 <= k < SlotCount && chosen[k] != null ==> chosen[k] in registry.Values
    requires Ready(registry, settings, None)
    ensures s.Continue? && Ready(registry, s.settings, s.current) && s.current.Some? && s.printed == []
  {
    var rs := ChosenRotors(chosen, position, registry);
    var st := [settings[rs[0]], ToIndex(position[0]), ToIndex(position[1]), ToIndex(position[2]), ToIndex(position[3])];
    StoreReady(registry, settings, rs, st);
    Continue(Store(settings, rs, st), Some(rs), [])
  }

  /** The rotors of an accepted layout. */
  ghost function ChosenRotors(chosen: seq<Rotor?>, position: string, registry: map<string, Rotor>): (rs: seq<Rotor>)
    requires |chosen| == SlotCount && LayoutOutcome(chosen, position) == Pass
    requires forall k :: 0 <= k < SlotCount && chosen[k] != null ==> chosen[k] in registry.Values
    requires forall x :: x in registry.Values ==> WellWired(x.wiring)
    ensures Loaded(registry, rs) && forall k :: 0 <= k < SlotCount ==> rs[k] == chosen[k]
    ensures |position| >= 4 && forall k :: 0 <= k < 4 ==> IsUpper(position[k])
  {
    LayoutAndSetting(chosen, position);
    AcceptedLayout(chosen);
    Present(chosen)
  }

  /** convert on a standardized message line, then printMessageLine: the
      message in groups of five, with the rotors stepped once per letter;
      or a stop at a character that is not a letter. */
  ghost function MessageStep(msg: string, registry: map<string, Rotor>, settings: map<Rotor, int>, rs: seq<Rotor>): (s: LineResult)
    requires Ready(registry, settings, Some(rs))
    ensures s.Continue? ==> Ready(registry, s.settings, s.current) && s.current == Some(rs)
  {
    if !AllUpper(msg) then Halt(InvalidCharacter)
    else
      var st := SettingsIn(settings, rs);
      var after := SettingsAfter(WiringsOf(rs), st, msg);
      StoreReady(registry, settings, rs, after);
      Continue(Store(settings, rs, after), Some(rs), [Grouped(Output(WiringsOf(rs), st, msg))])
  }

  /** What main prints and the error it stops with, if any. */
  datatype Transcript = Transcript(printed: seq<string>, error: Option<EnigmaError>)

  /** The run of main over the remaining lines. */
  ghost function RunFrom(lines: seq<string>, registry: map<string, Rotor>, settings: map<Rotor, int>, current: Option<seq<Rotor>>): Transcript
    requires Ready(registry, settings, current)
    decreases |lines|
  {
    if lines == [] then Transcript([], None)
    else
      match LineStep(lines[0], registry, settings, current)
      case Halt(e) => Transcript([], Some(e))
      case Continue(s, c, p) =>
        var rest := RunFrom(lines[1..], registry, s, c);
        Transcript(p + rest.printed, rest.error)
  }

  /** A valid registry is ready for a run, with no machine yet. */
  lemma RegistryReady(registry: map<string, Rotor>)
    requires ValidRegistry(registry)
    ensures Ready(registry, SettingsMap(registry), None)
  {
  }

  /** The registry's settings, when the rotors rs hold st and every other
      registered rotor kept its setting from before. */
  lemma SnapshotIs(registry: map<string, Rotor>, before: map<Rotor, int>, rs: seq<Rotor>, st: seq<int>)
    requires |rs| == |st| && Distinct(rs) && forall k :: 0 <= k < |rs| ==> rs[k] in registry.Values
    requires before.Keys == registry.Values
    requires forall k :: 0 <= k < |rs| ==> rs[k].setting == st[k]
    requires forall x :: x in registry.Values && x !in rs ==> x.setting == before[x]
    ensures SettingsMap(registry) == Store(before, rs, st)
  {
    StoreAt(before, rs, st);
    var now := SettingsMap(registry);
    var stored := Store(before, rs, st);
    assert now.Keys == stored.Keys;
    forall x | x in now.Keys ensures now[x] == stored[x] {
      if x in rs {
        var k :| 0 <= k < |rs| && rs[k] == x;
        assert stored[rs[k]] == st[k];
      }
    }
  }

  /** configure on the tokens of a configuration line of main, as a step of
      the run over the registry's settings. */
  method ConfigureLine(tokens: seq<string>, registry: map<string, Rotor>) returns (r: Result<Machine, EnigmaError>)
    requires ValidRegistry(registry) && Ready(registry, SettingsMap(registry), None)
    modifies registry.Values
    ensures ValidRegistry(registry)
    ensures Ready(registry, old(SettingsMap(registry)), None)
    ensures r.Failure? <==> ConfigureStep(tokens, registry, old(SettingsMap(registry))).Halt?
    ensures r.Failure? ==> r.error == ConfigureStep(tokens, registry, old(SettingsMap(registry))).error
    ensures r.Success? ==>
      && fresh(r.value) && r.value.configured && r.value.Valid()
      && ConfigureStep(tokens, registry, old(SettingsMap(registry))) ==
           Continue(SettingsMap(registry), Some(r.value.rotors), [])
  {
    ghost var before := SettingsMap(registry);
    r := ConfigureTokens(tokens, registry);
    if r.Success? {
      InstallSnapshot(registry, before, r.value, Chosen(RotorNames(tokens), registry), Standardize(tokens[6]));
    }
  }

  /** The settings an accepted configuration leaves on the registry are
      those of Install. */
  lemma InstallSnapshot(registry: map<string, Rotor>, before: map<Rotor, int>, m: Machine, chosen: seq<Rotor?>, position: string)
    requires |chosen| == SlotCount && LayoutOutcome(chosen, position) == Pass
    requires forall k :: 0 <= k < SlotCount && chosen[k] != null ==> chosen[k] in registry.Values
    requires Ready(registry, before, None)
    requires Assembled(m, chosen, position)
    requires forall x :: x in registry.Values && x !in m.rotors[1..] ==> x.setting == before[x]
    ensures Install(chosen, position, registry, before) == Continue(SettingsMap(registry), Some(m.rotors), [])
  {
    var rs := ChosenRotors(chosen, position, registry);
    assert rs == m.rotors;
    var st := [before[rs[0]], ToIndex(position[0]), ToIndex(position[1]), ToIndex(position[2]), ToIndex(position[3])];
    assert rs[0] !in m.rotors[1..];
    assert forall x :: x !in rs ==> x !in m.rotors[1..];
    SnapshotIs(registry, before, rs, st);
  }

  /** A message line of main: convert the standardized line on the machine,
      then print it in groups of five. */
  method MessageLine(msg: string, registry: map<string, Rotor>, m: Machine) returns (r: Result<string, EnigmaError>)
    requires ValidRegistry(registry) && m.configured && m.Valid() && Loaded(registry, m.rotors)
    requires Ready(registry, SettingsMap(registry), Some(m.rotors))
    modifies registry.Values
    ensures ValidRegistry(registry) && m.configured && m.Valid() && m.rotors == old(m.rotors)
    ensures r.Failure? <==> MessageStep(msg, registry, old(SettingsMap(registry)), m.rotors).Halt?
    ensures r.Failure? ==> r.error == MessageStep(msg, registry, old(SettingsMap(registry)), m.rotors).error
    ensures r.Success? ==>
      MessageStep(msg, registry, old(SettingsMap(registry)), m.rotors) ==
        Continue(SettingsMap(registry), Some(m.rotors), [r.value])
  {
    ghost var before := SettingsMap(registry);
    ghost var rs := m.rotors;
    ghost var st := SettingsOf(rs);
    assert st == SettingsIn(before, rs);
    var c := m.Convert(msg);
    if c.Failure? {
      return Failure(c.error);
    }
    var printed := FormatMessageLine(c.value);
    SnapshotIs(registry, before, rs, SettingsOf(rs));
    r := Success(printed);
  }

  /** The transcript of a run after the lines already printed. */
  function Continued(printed: seq<string>, rest: Transcript): (t: Transcript)
    ensures |t.printed| == |printed| + |rest.printed|
    ensures t.printed[..|printed|] == printed && t.printed[|printed|..] == rest.printed
    ensures t.error == rest.error
  {
    Transcript(printed + rest.printed, rest.error)
  }

  /** A line that goes on adds what it prints and leaves the rest of the
      run to the lines after it. */
  lemma RunContinues(lines: seq<string>, i: nat, registry: map<string, Rotor>, settings: map<Rotor, int>,
                     current: Option<seq<Rotor>>, printed: seq<string>)
    requires i < |lines| && Ready(registry, settings, current)
    requires LineStep(lines[i], registry, settings, current).Continue?
    ensures var s := LineStep(lines[i], registry, settings, current);
      Continued(printed, RunFrom(lines[i..], registry, settings, current)) ==
      Continued(printed + s.printed, RunFrom(lines[i + 1..], registry, s.settings, s.current))
  {
    var s := LineStep(lines[i], registry, settings, current);
    var tail := lines[i..];
    assert tail[0] == lines[i] && tail[1..] == lines[i + 1..];
    var rest := RunFrom(lines[i + 1..], registry, s.settings, s.current);
    assert RunFrom(tail, registry, settings, current) == Transcript(s.printed + rest.printed, rest.error);
    AppendAssociates(printed, s.printed, rest.printed);
  }

  lemma AppendAssociates<T>(a: seq<T>, b: seq<T>, c: seq<T>)
    ensures a + (b + c) == (a + b) + c
  {
  }

  /** A line that halts ends the run with its error. */
  lemma RunHalts(lines: seq<string>, i: nat, registry: map<string, Rotor>, settings: map<Rotor, int>,
                 current: Option<seq<Rotor>>, printed: seq<string>)
    requires i < |lines| && Ready(registry, settings, current)
    requires LineStep(lines[i], registry, settings, current).Halt?
    ensures Continued(printed, RunFrom(lines[i..], registry, settings, current)) ==
      Transcript(printed, Some(LineStep(lines[i], registry, settings, current).error))
  {
  }

  /** One pass of the main loop: a configuration line configures a new
      machine; any other line needs a machine, and is standardized,
      converted and printed. The result is what LineStep says. */
  method ProcessLine(line: string, registry: map<string, Rotor>, m: Machine?, ghost current: Option<seq<Rotor>>)
    returns (next: Machine?, shown: seq<string>, error: Option<EnigmaError>)
    requires ValidRegistry(registry) && Ready(registry, SettingsMap(registry), current)
    requires current.None? <==> m == null
    requires m != null ==> m.configured && m.Valid() && current == Some(m.rotors)
    modifies registry.Values
    ensures ValidRegistry(registry)
    ensures Ready(registry, old(SettingsMap(registry)), current)
    ensures error.Some? <==> LineStep(line, registry, old(SettingsMap(registry)), current).Halt?
    ensures error.Some? ==> error.value == LineStep(line, registry, old(SettingsMap(registry)), current).error
    ensures error.None? ==>
      && next != null && next.configured && next.Valid()
      && LineStep(line, registry, old(SettingsMap(registry)), current) ==
           Continue(SettingsMap(registry), Some(next.rotors), shown)
  {
    if IsConfigurationLine(line) {
      var r := ConfigureLine(Split(line), registry);
      if r.Failure? {
        return m, [], Some(r.error);
      }
      return r.value, [], None;
    }
    if m == null {
      return m, [], Some(NotInitialized);
    }
    var r := MessageLine(Standardize(line), registry, m);
    if r.Failure? {
      return m, [], Some(r.error);
    }
    return m, [r.value], None;
  }

  /** Before the first line nothing is printed and the whole run lies ahead. */
  lemma RunStarts(lines: seq<string>, registry: map<string, Rotor>, settings: map<Rotor, int>)
    requires Ready(registry, settings, None)
    ensures RunFrom(lines, registry, settings, None) == Continued([], RunFrom(lines[0..], registry, settings, None))
  {
    assert lines[0..] == lines;
  }

  /** After the last line the run ends without error. */
  lemma RunEnds(lines: seq<string>, i: nat, registry: map<string, Rotor>, settings: map<Rotor, int>,
                current: Option<seq<Rotor>>, printed: seq<string>)
    requires i == |lines| && Ready(registry, settings, current)
    ensures Continued(printed, RunFrom(lines[i..], registry, settings, current)) == Transcript(printed, None)
  {
    assert lines[i..] == [];
  }

  /** One pass of the main loop, with the run so far: the line either stops
      the run with what has been printed, or adds its printed lines and
      leaves the rest of the run to the lines after it. */
  method RunLine(lines: seq<string>, i: nat, registry: map<string, Rotor>, m: Machine?,
                 ghost current: Option<seq<Rotor>>, printed: seq<string>, ghost start: map<Rotor, int>)
    returns (next: Machine?, total: seq<string>, stop: Option<EnigmaError>)
    requires i < |lines| && ValidRegistry(registry) && Ready(registry, SettingsMap(registry), current)
    requires current.None? <==> m == null
    requires m != null ==> m.configured && m.Valid() && current == Some(m.rotors)
    requires Ready(registry, start, None)
    requires RunFrom(lines, registry, start, None) ==
      Continued(printed, RunFrom(lines[i..], registry, SettingsMap(registry), current))
    modifies registry.Values
    ensures ValidRegistry(registry)
    ensures stop.Some? ==> RunFrom(lines, registry, start, None) == Transcript(total, stop)
    ensures stop.None? ==>
      && next != null && next.configured && next.Valid()
      && Ready(registry, SettingsMap(registry), Some(next.rotors))
      && RunFrom(lines, registry, start, None) ==
           Continued(total, RunFrom(lines[i + 1..], registry, SettingsMap(registry), Some(next.rotors)))
  {
    ghost var now := SettingsMap(registry);
    var shown;
    next, shown, stop := ProcessLine(lines[i], registry, m, current);
    if stop.Some? {
      RunHalts(lines, i, registry, now, current, printed);
      return next, printed, stop;
    }
    RunContinues(lines, i, registry, now, current, printed);
    total := printed + shown;
  }

  /** The main loop over the input lines: it stops at the first error. What
      it prints, and the error it stops with, are those of the run from the
      registry's settings with no machine. */
  method Simulate(lines: seq<string>, registry: map<string, Rotor>) returns (printed: seq<string>, error: Option<EnigmaError>)
    requires ValidRegistry(registry)
    modifies registry.Values
    ensures ValidRegistry(registry)
    ensures Ready(registry, old(SettingsMap(registry)), None)
    ensures Transcript(printed, error) == RunFrom(lines, registry, old(SettingsMap(registry)), None)
  {
    RegistryReady(registry);
    ghost var start := SettingsMap(registry);
    RunStarts(lines, registry, start);
    var m: Machine? := null;
    ghost var current: Option<seq<Rotor>> := None;
    printed := [];
    var i := 0;
    while i < |lines|
      invariant 0 <= i <= |lines|
      invariant ValidRegistry(registry)
      invariant Ready(registry, SettingsMap(registry), current)
      invariant current.None? <==> m == null
      invariant m != null ==> m.configured && m.Valid() && current == Some(m.rotors)
      invariant RunFrom(lines, registry, start, None) ==
        Continued(printed, RunFrom(lines[i..], registry, SettingsMap(registry), current))
    {
      var next, total, stop := RunLine(lines, i, registry, m, current, printed, start);
      if stop.Some? {
        return total, stop;
      }
      m := next;
      current := Some(m.rotors);
      printed := total;
      i := i + 1;
    }
    RunEnds(lines, i, registry, SettingsMap(registry), current, printed);
    return printed, None;
  }

  // What a run prints

  /** The lines of the input that main converts. */
  function MessageLines(lines: seq<string>): (ms: seq<string>)
    ensures |ms| <= |lines|
    ensures forall k :: 0 <= k < |ms| ==> !IsConfigurationLine(ms[k])
  {
    if lines == [] then []
    else if IsConfigurationLine(lines[0]) then MessageLines(lines[1..])
    else [lines[0]] + MessageLines(lines[1..])
  }

  /** A printed line that holds the letters of a converted message line:
      upper-case letters in groups of five, as many as the standardized
      line holds. */
  ghost predicate PrintedFor(printed: string, line: string) {
    var letters := RemoveSpaces(printed);
    AllUpper(letters) && printed == Grouped(letters) && |letters| == |Standardize(line)|
  }

  /** What main prints: one line for each message line it converts, in
      order, each the converted letters in groups of five; it prints a line
      for every message line when no error stops it. */
  lemma {:induction false} RunPrints(lines: seq<string>, registry: map<string, Rotor>, settings: map<Rotor, int>, current: Option<seq<Rotor>>)
    requires Ready(registry, settings, current)
    decreases |lines|
    ensures |RunFrom(lines, registry, settings, current).printed| <= |MessageLines(lines)|
    ensures RunFrom(lines, registry, settings, current).error.None? ==>
      |RunFrom(lines, registry, settings, current).printed| == |MessageLines(lines)|
    ensures forall k :: 0 <= k < |RunFrom(lines, registry, settings, current).printed| ==>
      PrintedFor(RunFrom(lines, registry, settings, current).printed[k], MessageLines(lines)[k])
  {
    if lines != [] {
      var t := RunFrom(lines, registry, settings, current);
      var ms := MessageLines(lines);
      match LineStep(lines[0], registry, settings, current)
      case Halt(e) =>
      case Continue(s, c, p) =>
        var rest := RunFrom(lines[1..], registry, s, c);
        RunPrints(lines[1..], registry, s, c);
        StepPrints(lines[0], registry, settings, current);
        var head := if IsConfigurationLine(lines[0]) then [] else [lines[0]];
        MessageLinesFirst(lines);
        PrintedAppend(p, rest.printed, head, MessageLines(lines[1..]));
    }
  }

  /** Selecting the message lines of two runs of lines, one after the
      other, selects those of the first run, then those of the second. */
  lemma {:induction false} MessageLinesAppend(a: seq<string>, b: seq<string>)
    decreases |a|
    ensures MessageLines(a + b) == MessageLines(a) + MessageLines(b)
  {
    if a != [] {
      assert (a + b)[0] == a[0] && (a + b)[1..] == a[1..] + b;
      MessageLinesAppend(a[1..], b);
    } else {
      assert a + b == b;
    }
  }

  lemma MessageLinesFirst(lines: seq<string>)
    requires lines != []
    ensures MessageLines(lines) == (if IsConfigurationLine(lines[0]) then [] else [lines[0]]) + MessageLines(lines[1..])
  {
  }

  /** Lines printed for two runs of message lines, one after the other. */
  lemma PrintedAppend(p: seq<string>, rest: seq<string>, head: seq<string>, tail: seq<string>)
    requires |p| == |head| && |rest| <= |tail|
    requires forall k :: 0 <= k < |p| ==> PrintedFor(p[k], head[k])
    requires forall k :: 0 <= k < |rest| ==> PrintedFor(rest[k], tail[k])
    ensures forall k :: 0 <= k < |p + rest| ==> PrintedFor((p + rest)[k], (head + tail)[k])
  {
    PairwiseAppend(p, rest, head, tail, PrintedFor);
  }

  /** A relation that holds pairwise on two sequences and on two others
      holds pairwise on their concatenations. */
  lemma PairwiseAppend<T>(p: seq<T>, rest: seq<T>, head: seq<T>, tail: seq<T>, rel: (T, T) -> bool)
    requires |p| == |head| && |rest| <= |tail|
    requires forall k :: 0 <= k < |p| ==> rel(p[k], head[k])
    requires forall k :: 0 <= k < |rest| ==> rel(rest[k], tail[k])
    ensures forall k :: 0 <= k < |p + rest| ==> rel((p + rest)[k], (head + tail)[k])
  {
    forall k | 0 <= k < |p + rest| ensures rel((p + rest)[k], (head + tail)[k]) {
      if k >= |p| {
        assert (p + rest)[k] == rest[k - |p|] && (head + tail)[k] == tail[k - |p|];
      }
    }
  }

  /** A configuration line prints nothing; a message line that goes on
      prints one line holding its converted letters. */
  lemma StepPrints(line: string, registry: map<string, Rotor>, settings: map<Rotor, int>, current: Option<seq<Rotor>>)
    requires Ready(registry, settings, current)
    requires LineStep(line, registry, settings, current).Continue?
    ensures var p := LineStep(line, registry, settings, current).printed;
      var head := if IsConfigurationLine(line) then [] else [line];
      |p| == |head| && forall k :: 0 <= k < |p| ==> PrintedFor(p[k], head[k])
  {
    if !IsConfigurationLine(line) {
      var msg := Standardize(line);
      var rs := current.value;
      var out := Output(WiringsOf(rs), SettingsIn(settings, rs), msg);
      assert LineStep(line, registry, settings, current) == MessageStep(msg, registry, settings, rs);
      GroupedPrints(out, line);
    }
  }

  lemma GroupedPrints(out: string, line: string)
    requires AllUpper(out) && |out| == |Standardize(line)|
    ensures PrintedFor(Grouped(out), line)
  {
    UngroupedIsMessage(out);
  }

  /** A message line before any configuration line stops main with
      "machine not initialized" and nothing printed. */
  lemma MessageBeforeConfiguration(lines: seq<string>, registry: map<string, Rotor>, settings: map<Rotor, int>)
    requires Ready(registry, settings, None)
    requires lines != [] && !IsConfigurationLine(lines[0])
    ensures RunFrom(lines, registry, settings, None) == Transcript([], Some(NotInitialized))
  {
  }
}


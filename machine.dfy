/** The machine: five rotor slots (slot 0 on the left) and a flag saying
    whether a configuration has been installed. Converting a message steps
    the rotors in place; the result and the new settings are those given by
    SignalPath.Output and SignalPath.SettingsAfter. */
module Machines {
  import opened Wrappers
  import opened Errors
  import opened Rotors
  import opened SignalPath

  function WiringsOf(rs: seq<Rotor>): (ws: seq<Wiring>)
    ensures |ws| == |rs| && forall k :: 0 <= k < |rs| ==> ws[k] == rs[k].wiring
  {
    seq(|rs|, k requires 0 <= k < |rs| => rs[k].wiring)
  }

  function SettingsOf(rs: seq<Rotor>): (st: seq<int>)
    reads rs
    ensures |st| == |rs| && forall k :: 0 <= k < |rs| ==> st[k] == rs[k].setting
  {
    seq(|rs|, k reads rs requires 0 <= k < |rs| => rs[k].setting)
  }

  /** No rotor object sits in two slots; two empty slots (two nulls) count
      as the same. */
  predicate Distinct(rs: seq<Rotor?>) {
    forall i, j :: 0 <= i < j < |rs| ==> rs[i] != rs[j]
  }

  /** Five distinct, valid rotors. */
  ghost predicate Installed(rs: seq<Rotor>)
    reads rs
  {
    && |rs| == SlotCount
    && Distinct(rs)
    && (forall k :: 0 <= k < |rs| ==> rs[k].Valid())
  }

  /** Installed, with the slot layout a configuration establishes. */
  ghost predicate Layout(rs: seq<Rotor>)
    reads rs
  {
    Installed(rs) && ValidWirings(WiringsOf(rs))
  }

  lemma SettingsAre(rs: seq<Rotor>, st: seq<int>)
    requires |rs| == |st| && forall k :: 0 <= k < |rs| ==> rs[k].setting == st[k]
    ensures SettingsOf(rs) == st
  {
  }

  lemma InstalledSettings(rs: seq<Rotor>)
    requires Installed(rs)
    ensures ValidSettings(SettingsOf(rs))
  {
  }

  class Machine {
    var rotors: seq<Rotor>
    var configured: bool

    /** A configured machine holds a full, correctly laid out set of rotors. */
    ghost predicate Valid()
      reads this, rotors
    {
      configured ==> Layout(rotors)
    }

    /** A new machine is not configured. */
    constructor ()
      ensures Valid()
      ensures !configured && rotors == []
    {
      rotors := [];
      configured := false;
    }

    /** Installs the rotors, left to right, without validating them. */
    method ReplaceRotors(rs: seq<Rotor>)
      requires configured ==> Layout(rs)
      modifies this
      ensures Valid()
      ensures rotors == rs && configured == old(configured)
    {
      rotors := rs;
    }

    /** Sets slots 1..4 to the indices of the first four setting letters, in
        order, stopping at the first position that is missing or not a letter
        (the code reports it and exits; the slots set before it stay set).
        Slot 0 never receives a setting. */
    method SetRotors(setting: string) returns (r: Outcome<EnigmaError>)
      requires Valid() && Installed(rotors)
      modifies rotors
      ensures Valid() && Installed(rotors)
      ensures r == SettingOutcome(setting)
      ensures rotors[0].setting == old(rotors[0].setting)
      ensures forall k :: 1 <= k < SlotCount ==>
        rotors[k].setting == if k <= SettingPrefix(setting) then ToIndex(setting[k - 1]) else old(rotors[k].setting)
    {
      var n := SettingPrefix(setting);
      ghost var st := SettingsOf(rotors);
      for i := 0 to 4
        invariant Installed(rotors)
        invariant Valid() && i <= n
        invariant rotors[0].setting == st[0]
        invariant forall k :: 1 <= k < SlotCount ==>
          rotors[k].setting == if k <= i then ToIndex(setting[k - 1]) else st[k]
      {
        if i >= |setting| || !IsUpper(setting[i]) {
          assert i == n;
          return if i >= |setting| then Fail(SettingTooShort) else Fail(SettingNotLetter);
        }
        rotors[i + 1].Set(ToIndex(setting[i]));
      }
      return Pass;
    }

    /** Marks the machine configured (or not). */
    method SetConfigureStatus(status: bool)
      requires status ==> Layout(rotors)
      modifies this
      ensures Valid()
      ensures configured == status && rotors == old(rotors)
    {
      configured := status;
    }

    /** The stepping rule of convert, applied before each letter and
        evaluated on the settings before any rotor moves. */
    method AdvanceRotors()
      requires Layout(rotors)
      modifies rotors
      ensures Layout(rotors)
      ensures SettingsOf(rotors) == Step(WiringsOf(rotors), old(SettingsOf(rotors)))
    {
      ghost var ws := WiringsOf(rotors);
      ghost var st := SettingsOf(rotors);
      InstalledSettings(rotors);
      ghost var stepped := Step(ws, st);
      var notch3 := rotors[3].AtNotch();
      if notch3 {
        rotors[3].Advance();
        rotors[2].Advance();
      } else {
        var notch4 := rotors[4].AtNotch();
        if notch4 {
          rotors[3].Advance();
        }
      }
      rotors[4].Advance();
      assert rotors[2].setting == stepped[2];
      assert rotors[3].setting == stepped[3];
      SettingsAre(rotors, stepped);
    }

    /** The signal path of convert for one letter index at the current
        settings: the forward pass over slots 4..0, then the backward pass
        over slots 0..4 that skips rotors without an inverse, so the
        reflector's convertBackward is never called. */
    method Encipher(p: int) returns (index: int)
      requires Layout(rotors) && 0 <= p < AlphabetSize
      ensures index == EncipherIndex(WiringsOf(rotors), SettingsOf(rotors), p)
    {
      ghost var ws := WiringsOf(rotors);
      ghost var st := SettingsOf(rotors);
      InstalledSettings(rotors);
      index := p;
      var j := 4;
      while j >= 0
        invariant -1 <= j <= 4 && 0 <= index < AlphabetSize
        invariant Forward(ws, st, j + 1, index) == Forward(ws, st, SlotCount, p)
      {
        index := rotors[j].ConvertForward(index);
        j := j - 1;
      }
      for k := 0 to SlotCount
        invariant 0 <= index < AlphabetSize
        invariant Backward(ws, st, k, index) == EncipherIndex(ws, st, p)
      {
        if rotors[k].HasInverse() {
          var back := rotors[k].ConvertBackward(index);
          index := back.value;
        }
      }
    }

    /** One letter of convert: step the rotors, then encipher the letter at
        the new settings. */
    method ConvertLetter(c: char) returns (letter: char)
      requires Layout(rotors) && IsUpper(c)
      modifies rotors
      ensures Layout(rotors)
      ensures SettingsOf(rotors) == Step(WiringsOf(rotors), old(SettingsOf(rotors)))
      ensures letter == ToLetter(EncipherIndex(WiringsOf(rotors), SettingsOf(rotors), ToIndex(c)))
    {
      AdvanceRotors();
      InstalledSettings(rotors);
      var index := Encipher(ToIndex(c));
      letter := ToLetter(index);
    }

    /** The conversion of msg, stepping the rotors before each letter. It
        fails when the machine is not configured (nothing changes) and at the
        first character that is not a letter (the letters before it have
        stepped the rotors). */
    method Convert(msg: string) returns (r: Result<string, EnigmaError>)
      requires Valid()
      modifies rotors
      ensures Valid() && rotors == old(rotors) && configured == old(configured)
      ensures !configured ==> r == Failure(NotConfigured) && SettingsOf(rotors) == old(SettingsOf(rotors))
      ensures configured && AllUpper(msg) ==>
        && r == Success(Output(WiringsOf(rotors), old(SettingsOf(rotors)), msg))
        && SettingsOf(rotors) == SettingsAfter(WiringsOf(rotors), old(SettingsOf(rotors)), msg)
      ensures configured && !AllUpper(msg) ==>
        && r == Failure(InvalidCharacter)
        && SettingsOf(rotors) == SettingsAfter(WiringsOf(rotors), old(SettingsOf(rotors)), msg[..FirstNonUpper(msg)])
    {
      if !configured {
        return Failure(NotConfigured);
      }
      r := ConvertLetters(msg);
    }

    /** The letter loop of convert on a configured machine. */
    method ConvertLetters(msg: string) returns (r: Result<string, EnigmaError>)
      requires Layout(rotors)
      modifies rotors
      ensures Layout(rotors)
      ensures AllUpper(msg) ==>
        && r == Success(Output(WiringsOf(rotors), old(SettingsOf(rotors)), msg))
        && SettingsOf(rotors) == SettingsAfter(WiringsOf(rotors), old(SettingsOf(rotors)), msg)
      ensures !AllUpper(msg) ==>
        && r == Failure(InvalidCharacter)
        && SettingsOf(rotors) == SettingsAfter(WiringsOf(rotors), old(SettingsOf(rotors)), msg[..FirstNonUpper(msg)])
    {
      ghost var ws := WiringsOf(rotors);
      ghost var st0 := SettingsOf(rotors);
      InstalledSettings(rotors);
      var result := "";
      var i := 0;
      while i < |msg|
        invariant 0 <= i <= |msg|
        invariant Layout(rotors) && AllUpper(msg[..i])
        invariant SettingsOf(rotors) == SettingsAfter(ws, st0, msg[..i])
        invariant result == Output(ws, st0, msg[..i])
      {
        var c := msg[i];
        if !IsUpper(c) {
          FirstNonUpperAt(msg, i);
          return Failure(InvalidCharacter);
        }
        result := ConvertNext(msg, i, ws, st0, result);
        i := i + 1;
      }
      assert msg[..i] == msg;
      return Success(result);
    }

    /** One pass of the letter loop: the letter at position i, stepped and
        enciphered, extends the settings and the text of the prefix before it. */
    method ConvertNext(msg: string, i: nat, ghost ws: seq<Wiring>, ghost st0: seq<int>, result: string)
      returns (extended: string)
      requires Layout(rotors) && ws == WiringsOf(rotors) && ValidSettings(st0)
      requires i < |msg| && AllUpper(msg[..i]) && IsUpper(msg[i])
      requires SettingsOf(rotors) == SettingsAfter(ws, st0, msg[..i])
      requires result == Output(ws, st0, msg[..i])
      modifies rotors
      ensures Layout(rotors) && AllUpper(msg[..i + 1])
      ensures SettingsOf(rotors) == SettingsAfter(ws, st0, msg[..i + 1])
      ensures extended == Output(ws, st0, msg[..i + 1])
    {
      var letter := ConvertLetter(msg[i]);
      NextLetter(ws, st0, msg, i, SettingsOf(rotors), letter);
      extended := result + [letter];
    }
  }

  /** The number of leading setting positions, up to four, that hold a letter:
      the slots SetRotors sets before it stops. */
  function SettingPrefix(setting: string): (n: nat)
    ensures n <= 4 && n <= |setting|
    ensures forall k :: 0 <= k < n ==> IsUpper(setting[k])
    ensures n < 4 ==> n == |setting| || !IsUpper(setting[n])
  {
    PrefixFrom(setting, 0)
  }

  function PrefixFrom(setting: string, i: nat): (n: nat)
    requires i <= 4 && i <= |setting|
    requires forall k :: 0 <= k < i ==> IsUpper(setting[k])
    ensures i <= n <= 4 && n <= |setting|
    ensures forall k :: 0 <= k < n ==> IsUpper(setting[k])
    ensures n < 4 ==> n == |setting| || !IsUpper(setting[n])
    decreases 4 - i
  {
    if i == 4 || i == |setting| || !IsUpper(setting[i]) then i
    else PrefixFrom(setting, i + 1)
  }

  /** How SetRotors ends: it passes when four letters lead the setting, and
      otherwise fails at the first position that is missing or not a letter. */
  function SettingOutcome(setting: string): (r: Outcome<EnigmaError>)
    ensures r == Pass <==> |setting| >= 4 && forall k :: 0 <= k < 4 ==> IsUpper(setting[k])
    ensures r == Fail(SettingTooShort) <==> |setting| < 4 && forall k :: 0 <= k < |setting| ==> IsUpper(setting[k])
  {
    var n := SettingPrefix(setting);
    if n == 4 then Pass
    else if n == |setting| then Fail(SettingTooShort)
    else Fail(SettingNotLetter)
  }
}

/** The machine's behaviour as values: five wirings (slot 0 on the left) and
    five settings. Machine.convert is proved against these functions. */
module SignalPath {
  import opened Rotors

  const SlotCount := 5

  /** The slot layout a configuration establishes: a reflector in slot 0, a
      fixed rotor in slot 1, regular rotors in slots 2..4. */
  predicate ValidWirings(ws: seq<Wiring>) {
    && |ws| == SlotCount
    && (forall k :: 0 <= k < |ws| ==> WellWired(ws[k]))
    && ws[0].kind == ReflectorRotor
    && ws[1].kind == FixedRotor
    && ws[2].kind == RegularRotor
    && ws[3].kind == RegularRotor
    && ws[4].kind == RegularRotor
  }

  predicate ValidSettings(st: seq<int>) {
    |st| == SlotCount && forall k :: 0 <= k < |st| ==> 0 <= st[k] < AlphabetSize
  }

  predicate AllUpper(s: string) {
    forall i :: 0 <= i < |s| ==> IsUpper(s[i])
  }

  /** The position of the first character that is not an upper-case letter. */
  function FirstNonUpper(s: string): (r: nat)
    requires !AllUpper(s)
    ensures r < |s| && !IsUpper(s[r])
    ensures AllUpper(s[..r])
  {
    if !IsUpper(s[0]) then 0
    else
      var r := 1 + FirstNonUpper(s[1..]);
      assert s[..r] == [s[0]] + s[1..][..r - 1];
      r
  }

  lemma PrefixGrows(s: string, i: nat)
    requires i < |s|
    ensures s[..i + 1] == s[..i] + [s[i]]
  {
  }

  /** The first non-letter is the one every character before is a letter. */
  lemma FirstNonUpperAt(s: string, i: nat)
    requires i < |s| && AllUpper(s[..i]) && !IsUpper(s[i])
    ensures FirstNonUpper(s) == i
  {
  }

  /** The stepping rule, applied before each character is converted and
      evaluated on the settings before any rotor moves: if slot 3 is at a
      notch, slots 3 and 2 advance; otherwise, if slot 4 is at a notch, slot 3
      advances; slot 4 always advances. */
  function Step(ws: seq<Wiring>, st: seq<int>): (r: seq<int>)
    requires ValidWirings(ws) && ValidSettings(st)
    ensures ValidSettings(r)
    ensures r[0] == st[0] && r[1] == st[1]
    ensures r[2] == if NotchAt(ws[3], st[3]) then (st[2] + 1) % AlphabetSize else st[2]
    ensures r[3] == if NotchAt(ws[3], st[3]) || NotchAt(ws[4], st[4]) then (st[3] + 1) % AlphabetSize else st[3]
    ensures r[4] == (st[4] + 1) % AlphabetSize
  {
    if NotchAt(ws[3], st[3]) then
      [st[0], st[1], Advanced(ws[2], st[2]), Advanced(ws[3], st[3]), Advanced(ws[4], st[4])]
    else if NotchAt(ws[4], st[4]) then
      [st[0], st[1], st[2], Advanced(ws[3], st[3]), Advanced(ws[4], st[4])]
    else
      [st[0], st[1], st[2], st[3], Advanced(ws[4], st[4])]
  }

  /** The forward pass through slots n-1, n-2, ..., 0, right to left. */
  function Forward(ws: seq<Wiring>, st: seq<int>, n: nat, p: int): (r: int)
    requires ValidWirings(ws) && ValidSettings(st)
    requires n <= SlotCount && 0 <= p < AlphabetSize
    ensures 0 <= r < AlphabetSize
    decreases n
  {
    if n == 0 then p
    else Forward(ws, st, n - 1, Permute(ws[n - 1].forward, st[n - 1], p))
  }

  /** The backward pass through slots k, k+1, ..., 4, left to right, applying
      the backward table of every rotor that has an inverse and passing the
      index unchanged past the others. */
  function Backward(ws: seq<Wiring>, st: seq<int>, k: nat, e: int): (r: int)
    requires ValidWirings(ws) && ValidSettings(st)
    requires k <= SlotCount && 0 <= e < AlphabetSize
    ensures 0 <= r < AlphabetSize
    decreases SlotCount - k
  {
    if k == SlotCount then e
    else
      var e' := if ws[k].kind != ReflectorRotor then Permute(ws[k].backward.value, st[k], e) else e;
      Backward(ws, st, k + 1, e')
  }

  /** The index a letter with index p turns into at settings st (already stepped). */
  function EncipherIndex(ws: seq<Wiring>, st: seq<int>, p: int): (r: int)
    requires ValidWirings(ws) && ValidSettings(st) && 0 <= p < AlphabetSize
    ensures 0 <= r < AlphabetSize
  {
    Backward(ws, st, 0, Forward(ws, st, SlotCount, p))
  }

  /** The settings reached after converting msg from settings st: one step
      per letter. */
  function SettingsAfter(ws: seq<Wiring>, st: seq<int>, msg: string): (r: seq<int>)
    requires ValidWirings(ws) && ValidSettings(st)
    ensures ValidSettings(r)
    decreases |msg|
  {
    if msg == [] then st
    else Step(ws, SettingsAfter(ws, st, msg[..|msg| - 1]))
  }

  /** The text produced by converting msg from settings st: each letter is
      enciphered at the settings reached by stepping for it. */
  function Output(ws: seq<Wiring>, st: seq<int>, msg: string): (r: string)
    requires ValidWirings(ws) && ValidSettings(st) && AllUpper(msg)
    ensures |r| == |msg|
    ensures AllUpper(r)
    decreases |msg|
  {
    if msg == [] then ""
    else
      var init := msg[..|msg| - 1];
      Output(ws, st, init) + [ToLetter(EncipherIndex(ws, SettingsAfter(ws, st, msg), ToIndex(msg[|msg| - 1])))]
  }

  /** The forward pass visits slots 4, 3, 2, 1, 0 in that order. */
  lemma ForwardPassOrder(ws: seq<Wiring>, st: seq<int>, p: int)
    requires ValidWirings(ws) && ValidSettings(st) && 0 <= p < AlphabetSize
    ensures Forward(ws, st, SlotCount, p) ==
      Permute(ws[0].forward, st[0],
        Permute(ws[1].forward, st[1],
          Permute(ws[2].forward, st[2],
            Permute(ws[3].forward, st[3],
              Permute(ws[4].forward, st[4], p)))))
  {
    var p4 := Permute(ws[4].forward, st[4], p);
    var p3 := Permute(ws[3].forward, st[3], p4);
    var p2 := Permute(ws[2].forward, st[2], p3);
    var p1 := Permute(ws[1].forward, st[1], p2);
    calc {
      Forward(ws, st, 5, p);
      Forward(ws, st, 4, p4);
      Forward(ws, st, 3, p3);
      Forward(ws, st, 2, p2);
      Forward(ws, st, 1, p1);
    }
  }

  /** The backward pass skips the reflector in slot 0 and then visits slots
      1, 2, 3, 4 in that order (not the mirror image of the forward pass). */
  lemma BackwardPassOrder(ws: seq<Wiring>, st: seq<int>, e: int)
    requires ValidWirings(ws) && ValidSettings(st) && 0 <= e < AlphabetSize
    ensures Backward(ws, st, 0, e) ==
      Permute(ws[4].backward.value, st[4],
        Permute(ws[3].backward.value, st[3],
          Permute(ws[2].backward.value, st[2],
            Permute(ws[1].backward.value, st[1], e))))
  {
    var e1 := Permute(ws[1].backward.value, st[1], e);
    var e2 := Permute(ws[2].backward.value, st[2], e1);
    var e3 := Permute(ws[3].backward.value, st[3], e2);
    calc {
      Backward(ws, st, 0, e);
      Backward(ws, st, 1, e);
      Backward(ws, st, 2, e1);
      Backward(ws, st, 3, e2);
      Backward(ws, st, 4, e3);
    }
  }

  /** Converting never moves the reflector (slot 0) or the fixed rotor (slot 1). */
  lemma {:induction false} SettingsKeepLeftSlots(ws: seq<Wiring>, st: seq<int>, msg: string)
    requires ValidWirings(ws) && ValidSettings(st)
    ensures SettingsAfter(ws, st, msg)[0] == st[0]
    ensures SettingsAfter(ws, st, msg)[1] == st[1]
    decreases |msg|
  {
    if msg != [] {
      SettingsKeepLeftSlots(ws, st, msg[..|msg| - 1]);
    }
  }

  /** After converting N letters the rightmost rotor has advanced N times. */
  lemma {:induction false} SettingsAdvanceRightmost(ws: seq<Wiring>, st: seq<int>, msg: string)
    requires ValidWirings(ws) && ValidSettings(st)
    ensures SettingsAfter(ws, st, msg)[4] == (st[4] + |msg|) % AlphabetSize
    decreases |msg|
  {
    if msg != [] {
      var init := msg[..|msg| - 1];
      SettingsAdvanceRightmost(ws, st, init);
      WrapAroundOnce(st[4] + |init|);
    }
  }

  /** One more step after n steps from 0 is n + 1 steps, modulo 26. */
  lemma WrapAroundOnce(n: nat)
    ensures (n % AlphabetSize + 1) % AlphabetSize == (n + 1) % AlphabetSize
  {
    var q := n / AlphabetSize;
    assert n == q * AlphabetSize + n % AlphabetSize;
    if n % AlphabetSize + 1 == AlphabetSize {
      assert n + 1 == (q + 1) * AlphabetSize;
    } else {
      assert n + 1 == q * AlphabetSize + (n % AlphabetSize + 1);
    }
  }

  /** Converting a message one letter longer takes one more step. */
  lemma ExtendSettings(ws: seq<Wiring>, st: seq<int>, msg: string, c: char)
    requires ValidWirings(ws) && ValidSettings(st)
    ensures SettingsAfter(ws, st, msg + [c]) == Step(ws, SettingsAfter(ws, st, msg))
  {
    assert (msg + [c])[..|msg|] == msg;
  }

  /** Converting a message one letter longer adds the letter enciphered at
      the new settings; this is how convert consumes a message. */
  lemma ExtendOutput(ws: seq<Wiring>, st: seq<int>, msg: string, c: char)
    requires ValidWirings(ws) && ValidSettings(st) && AllUpper(msg) && IsUpper(c)
    ensures AllUpper(msg + [c])
    ensures Output(ws, st, msg + [c]) ==
      Output(ws, st, msg) + [ToLetter(EncipherIndex(ws, SettingsAfter(ws, st, msg + [c]), ToIndex(c)))]
  {
    assert (msg + [c])[..|msg|] == msg;
  }

  /** The letter at position i of a message, stepped and enciphered, extends
      the settings and the text of the prefix before it. */
  lemma NextLetter(ws: seq<Wiring>, st: seq<int>, msg: string, i: nat, stepped: seq<int>, letter: char)
    requires ValidWirings(ws) && ValidSettings(st)
    requires i < |msg| && AllUpper(msg[..i]) && IsUpper(msg[i])
    requires stepped == Step(ws, SettingsAfter(ws, st, msg[..i]))
    requires letter == ToLetter(EncipherIndex(ws, stepped, ToIndex(msg[i])))
    ensures AllUpper(msg[..i + 1])
    ensures stepped == SettingsAfter(ws, st, msg[..i + 1])
    ensures Output(ws, st, msg[..i]) + [letter] == Output(ws, st, msg[..i + 1])
  {
    PrefixGrows(msg, i);
    ExtendSettings(ws, st, msg[..i], msg[i]);
    ExtendOutput(ws, st, msg[..i], msg[i]);
  }

  lemma UpperConcat(m1: string, m2: string)
    requires AllUpper(m1) && AllUpper(m2)
    ensures AllUpper(m1 + m2)
  {
    forall i | 0 <= i < |m1 + m2| ensures IsUpper((m1 + m2)[i]) {
      if i < |m1| { assert (m1 + m2)[i] == m1[i]; } else { assert (m1 + m2)[i] == m2[i - |m1|]; }
    }
  }

  /** Converting a concatenation reaches the settings reached by converting
      the second part from the settings the first part reached. */
  lemma {:induction false} ConcatSettings(ws: seq<Wiring>, st: seq<int>, m1: string, m2: string)
    requires ValidWirings(ws) && ValidSettings(st)
    ensures SettingsAfter(ws, st, m1 + m2) == SettingsAfter(ws, SettingsAfter(ws, st, m1), m2)
    decreases |m2|
  {
    if m2 == [] {
      assert m1 + m2 == m1;
    } else {
      var init := m2[..|m2| - 1];
      var c := m2[|m2| - 1];
      assert m2 == init + [c];
      assert m1 + m2 == (m1 + init) + [c];
      ConcatSettings(ws, st, m1, init);
      ExtendSettings(ws, st, m1 + init, c);
      ExtendSettings(ws, SettingsAfter(ws, st, m1), init, c);
    }
  }

  /** Converting a concatenation produces the text of the first part
      followed by the text of the second part converted from where the
      first part left the rotors: a message may be split across lines. */
  lemma {:induction false} ConcatOutput(ws: seq<Wiring>, st: seq<int>, m1: string, m2: string)
    requires ValidWirings(ws) && ValidSettings(st) && AllUpper(m1) && AllUpper(m2)
    ensures AllUpper(m1 + m2)
    ensures Output(ws, st, m1 + m2) == Output(ws, st, m1) + Output(ws, SettingsAfter(ws, st, m1), m2)
    decreases |m2|
  {
    UpperConcat(m1, m2);
    if m2 == [] {
      assert m1 + m2 == m1;
    } else {
      var init := m2[..|m2| - 1];
      var c := m2[|m2| - 1];
      var s1 := SettingsAfter(ws, st, m1);
      assert m2 == init + [c];
      assert m1 + m2 == (m1 + init) + [c];
      assert AllUpper(init);
      UpperConcat(m1, init);
      ConcatOutput(ws, st, m1, init);
      ConcatSettings(ws, st, m1, m2);
      ExtendOutput(ws, st, m1 + init, c);
      ExtendOutput(ws, s1, init, c);
    }
  }
}

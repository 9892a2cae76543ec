/** Rotors: the alphabet, the offset permutation arithmetic, and the rotor
    class with its three kinds (regular, fixed, reflector). The Java
    subclasses FixedRotor and Reflector override a few capabilities of Rotor;
    here the kind is a constant of each rotor object and every capability
    dispatches on it, keeping the overridden behaviour of each subclass. */
module Rotors {
  import opened Wrappers
  import opened Errors

  /** Size of the alphabet used for plaintext and ciphertext. */
  const AlphabetSize := 26

  predicate IsUpper(c: char) {
    'A' <= c <= 'Z'
  }

  /** The upper-case letter for an index in 0..25. */
  function ToLetter(p: int): (c: char)
    requires 0 <= p < AlphabetSize
    ensures IsUpper(c)
    ensures ToIndex(c) == p
  {
    (p + 'A' as int) as char
  }

  /** The index of a character counted from 'A'; in 0..25 exactly for letters. */
  function ToIndex(c: char): (p: int)
    ensures IsUpper(c) <==> 0 <= p < AlphabetSize
  {
    c as int - 'A' as int
  }

  lemma LetterOfIndex(c: char)
    requires IsUpper(c)
    ensures ToLetter(ToIndex(c)) == c
  {
  }

  /** A permutation table as the rotor data supplies it: 26 upper-case letters. */
  predicate IsTable(t: string) {
    |t| == AlphabetSize && forall i :: 0 <= i < |t| ==> IsUpper(t[i])
  }

  /** A table that is a permutation of A..Z. */
  predicate IsPermutation(t: string) {
    IsTable(t) && forall i, j :: 0 <= i < j < |t| ==> t[i] != t[j]
  }

  /** b undoes f: the letter f sends contact i to is sent back to i by b. */
  predicate IsInverse(f: string, b: string)
    requires IsTable(f) && IsTable(b)
  {
    forall i :: 0 <= i < AlphabetSize ==> ToIndex(b[ToIndex(f[i])]) == i
  }

  /** The conversion a rotor at setting s applies to contact p through table:
      enter offset by the setting, translate, leave de-offset by the setting.
      The code adds 26 to a negative difference before taking the remainder;
      all operands of % are then non-negative, so Java's % agrees with Dafny's. */
  function Permute(table: string, s: int, p: int): (r: int)
    requires IsTable(table)
    requires 0 <= s < AlphabetSize && 0 <= p < AlphabetSize
    ensures 0 <= r < AlphabetSize
    ensures r == (ToIndex(table[(s + p) % AlphabetSize]) - s) % AlphabetSize
  {
    var index := (s + p) % AlphabetSize;
    var output := ToIndex(table[index]) - s;
    (if output < 0 then output + AlphabetSize else output) % AlphabetSize
  }

  /** Converting through f and then through its inverse b, at the same
      setting, gives back the contact one started from. */
  lemma PermuteInverse(f: string, b: string, s: int, p: int)
    requires IsTable(f) && IsTable(b) && IsInverse(f, b)
    requires 0 <= s < AlphabetSize && 0 <= p < AlphabetSize
    ensures Permute(b, s, Permute(f, s, p)) == p
  {
    var index := (s + p) % AlphabetSize;
    var x := ToIndex(f[index]);
    var e := Permute(f, s, p);
    assert 0 <= x < AlphabetSize;
    assert e == (x - s) % AlphabetSize;
    // Re-entering at e with the same offset lands on the contact f produced.
    assert (s + e) % AlphabetSize == x by {
      if x >= s {
        assert e == x - s;
      } else {
        assert e == x - s + AlphabetSize;
      }
    }
    assert ToIndex(b[x]) == index;
    // Leaving at index de-offset by s is p again.
    assert (index - s) % AlphabetSize == p by {
      if s + p < AlphabetSize {
        assert index == s + p;
      } else {
        assert index == s + p - AlphabetSize;
      }
    }
  }

  datatype Kind = RegularRotor | FixedRotor | ReflectorRotor

  /** The immutable description of a rotor: its kind, forward table,
      backward table (absent for a reflector) and notch letters (absent for
      fixed rotors and reflectors, whose constructors pass null). */
  datatype Wiring = Wiring(kind: Kind, forward: string, backward: Option<string>, notches: Option<string>)

  /** What the three constructors establish about the data they are given. */
  predicate WellWired(w: Wiring) {
    && IsTable(w.forward)
    && (w.backward.Some? <==> w.kind != ReflectorRotor)
    && (w.backward.Some? ==> IsTable(w.backward.value))
    && (w.notches.Some? <==> w.kind == RegularRotor)
  }

  /** The setting after one advance: a fixed rotor's advance does nothing,
      every other rotor moves on by one, wrapping from 25 to 0. */
  function Advanced(w: Wiring, s: int): (r: int)
    requires 0 <= s < AlphabetSize
    ensures 0 <= r < AlphabetSize
    ensures r == s <==> w.kind == FixedRotor
    ensures w.kind != FixedRotor ==> (r - s) % AlphabetSize == 1
  {
    if w.kind == FixedRotor then s else (s + 1) % AlphabetSize
  }

  /** Whether a rotor at setting s lets the rotor to its left advance: only a
      regular rotor can be at a notch, and it is when s is the index of one of
      its notch letters. */
  predicate NotchAt(w: Wiring, s: int) {
    && w.kind == RegularRotor
    && w.notches.Some?
    && exists k :: 0 <= k < |w.notches.value| && ToIndex(w.notches.value[k]) == s
  }

  /** A rotor: its name and wiring never change; its setting does. */
  class Rotor {
    const name: string
    const wiring: Wiring
    var setting: int

    ghost predicate Valid()
      reads this
    {
      WellWired(wiring) && 0 <= setting < AlphabetSize
    }

    /** A regular rotor; its setting starts at 0 ('A'). */
    constructor (name: string, forwards: string, backwards: string, notches: string)
      requires IsPermutation(forwards) && IsPermutation(backwards)
      ensures this.name == name
      ensures wiring == Wiring(RegularRotor, forwards, Some(backwards), Some(notches))
      ensures setting == 0 && Valid()
    {
      this.name := name;
      wiring := Wiring(RegularRotor, forwards, Some(backwards), Some(notches));
      setting := 0;
    }

    /** A fixed rotor: both tables, no notches. */
    constructor Fixed(name: string, forward: string, backward: string)
      requires IsPermutation(forward) && IsPermutation(backward)
      ensures this.name == name
      ensures wiring == Wiring(FixedRotor, forward, Some(backward), None)
      ensures setting == 0 && Valid()
    {
      this.name := name;
      wiring := Wiring(FixedRotor, forward, Some(backward), None);
      setting := 0;
    }

    /** A reflector: a forward table only, no backward table, no notches. */
    constructor Reflector(name: string, permutation: string)
      requires IsPermutation(permutation)
      ensures this.name == name
      ensures wiring == Wiring(ReflectorRotor, permutation, None, None)
      ensures setting == 0 && Valid()
    {
      this.name := name;
      wiring := Wiring(ReflectorRotor, permutation, None, None);
      setting := 0;
    }

    /** True iff this rotor has a ratchet and can advance (FixedRotor
        overrides it with false; Reflector inherits true). */
    function Advances(): (b: bool)
      ensures wiring.kind == FixedRotor ==> !b
      ensures wiring.kind == RegularRotor ==> b
    {
      wiring.kind != FixedRotor
    }

    /** True iff this rotor has a left-to-right inverse (Reflector overrides
        it with false): exactly the rotors that carry a backward table. */
    function HasInverse(): (b: bool)
      requires WellWired(wiring)
      ensures b <==> wiring.backward.Some?
    {
      wiring.kind != ReflectorRotor
    }

    function GetSetting(): (s: int)
      reads this
      requires Valid()
      ensures 0 <= s < AlphabetSize
    {
      setting
    }

    /** Overwrites the setting; kept by every kind, fixed rotors included. */
    method Set(posn: int)
      requires Valid()
      requires 0 <= posn < AlphabetSize
      modifies this
      ensures Valid()
      ensures setting == posn
    {
      setting := posn;
    }

    /** The conversion of p according to the forward table. */
    function ConvertForward(p: int): (r: int)
      reads this
      requires Valid()
      requires 0 <= p < AlphabetSize
      ensures 0 <= r < AlphabetSize
      ensures r == (ToIndex(wiring.forward[(setting + p) % AlphabetSize]) - setting) % AlphabetSize
    {
      Permute(wiring.forward, GetSetting(), p)
    }

    /** The conversion of e according to the backward table; a reflector has
        none and fails with UnsupportedOperation. */
    function ConvertBackward(e: int): (r: Result<int, EnigmaError>)
      reads this
      requires Valid()
      requires 0 <= e < AlphabetSize
      ensures r.Success? <==> HasInverse()
      ensures !HasInverse() ==> r == Failure(UnsupportedOperation)
      ensures r.Success? ==> 0 <= r.value < AlphabetSize
      ensures r.Success? ==>
        r.value == (ToIndex(wiring.backward.value[(setting + e) % AlphabetSize]) - setting) % AlphabetSize
    {
      if wiring.kind == ReflectorRotor then Failure(UnsupportedOperation)
      else Success(Permute(wiring.backward.value, GetSetting(), e))
    }

    /** When the backward table is the inverse of the forward table, the
        backward conversion undoes the forward one at every setting. */
    lemma BackwardUndoesForward(p: int)
      requires Valid() && HasInverse()
      requires IsInverse(wiring.forward, wiring.backward.value)
      requires 0 <= p < AlphabetSize
      ensures ConvertBackward(ConvertForward(p)) == Success(p)
    {
      PermuteInverse(wiring.forward, wiring.backward.value, setting, p);
    }

    /** True iff the setting is the index of one of the notch letters; a
        fixed rotor is never at a notch. A reflector has no notch string
        (the code would dereference null), so it is not asked. */
    method AtNotch() returns (b: bool)
      requires Valid()
      requires wiring.kind != ReflectorRotor
      ensures b <==> NotchAt(wiring, setting)
    {
      if wiring.kind == FixedRotor {
        return false;
      }
      var notches := wiring.notches.value;
      var i := 0;
      while i < |notches|
        invariant 0 <= i <= |notches|
        invariant forall k :: 0 <= k < i ==> ToIndex(notches[k]) != setting
      {
        if GetSetting() == ToIndex(notches[i]) {
          return true;
        }
        i := i + 1;
      }
      return false;
    }

    /** Advances one position (a no-op for a fixed rotor). */
    method Advance()
      requires Valid()
      modifies this
      ensures Valid()
      ensures setting == Advanced(wiring, old(setting))
      ensures !Advances() ==> setting == old(setting)
    {
      if wiring.kind != FixedRotor {
        Set((GetSetting() + 1) % AlphabetSize);
      }
    }
  }
}

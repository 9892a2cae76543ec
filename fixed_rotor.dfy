/** What distinguishes a fixed rotor (the Java subclass FixedRotor): it has
    no notches, never steps, and is never at a notch, but keeps both tables,
    so it converts in both directions and its setting can still be set. */
module FixedRotors {
  import opened Wrappers
  import opened Rotors

  /** The capabilities a fixed rotor overrides, and the ones it inherits. */
  lemma FixedCapabilities(r: Rotor)
    requires WellWired(r.wiring) && r.wiring.kind == FixedRotor
    ensures !r.Advances()
    ensures r.HasInverse()
    ensures r.wiring.notches.None?
    ensures forall s :: !NotchAt(r.wiring, s)
    ensures forall s :: 0 <= s < AlphabetSize ==> Advanced(r.wiring, s) == s
  {
  }

  /** The fixed rotor's backward conversion is the ordinary formula, so the
      fixed rotor in slot 1 takes part in the backward pass. */
  lemma FixedConvertsBackward(r: Rotor, e: int)
    requires r.Valid() && r.wiring.kind == FixedRotor
    requires 0 <= e < AlphabetSize
    ensures r.ConvertBackward(e) == Success(Permute(r.wiring.backward.value, r.setting, e))
  {
  }
}

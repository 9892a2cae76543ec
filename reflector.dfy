/** What distinguishes a reflector (the Java subclass Reflector): it is built
    from one table only, has no inverse, and refuses to convert backward;
    its forward conversion is the ordinary rotor formula. */
module Reflectors {
  import opened Wrappers
  import opened Errors
  import opened Rotors

  /** A reflector has no inverse and its backward conversion always fails. */
  lemma ReflectorHasNoInverse(r: Rotor)
    requires r.Valid() && r.wiring.kind == ReflectorRotor
    ensures !r.HasInverse()
    ensures r.wiring.backward.None? && r.wiring.notches.None?
    ensures forall e :: 0 <= e < AlphabetSize ==> r.ConvertBackward(e) == Failure(UnsupportedOperation)
  {
  }

  /** The reflector's forward conversion stays inside the alphabet. */
  lemma ReflectorConvertsForward(r: Rotor, p: int)
    requires r.Valid() && r.wiring.kind == ReflectorRotor
    requires 0 <= p < AlphabetSize
    ensures r.ConvertForward(p) == Permute(r.wiring.forward, r.setting, p)
    ensures 0 <= r.ConvertForward(p) < AlphabetSize
  {
  }
}

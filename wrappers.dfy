/** Failure-carrying results, and the error conditions the simulator reports.
    Every place where the program prints an error and exits (or throws)
    becomes one of these values, returned to the caller. */
module Wrappers {

  datatype Option<+T> = None | Some(value: T)

  /** A computation that yields a value or fails with an error. */
  datatype Result<+R, +E> = Success(value: R) | Failure(error: E)

  /** A computation that yields nothing, or fails with an error. */
  datatype Outcome<+E> = Pass | Fail(error: E)
}

module Errors {

  /** The fatal conditions of the simulator, one per message or exception. */
  datatype EnigmaError =
    | UnsupportedOperation  // convertBackward called on a reflector
    | NotConfigured         // Machine.convert before setConfigureStatus(true)
    | InvalidCharacter      // a message character that is not a letter
    | SettingNotLetter      // a rotor-setting character that is not a letter
    | SettingTooShort       // fewer than four setting characters (charAt throws)
    | WrongTokenCount       // a configuration line without exactly 7 tokens
    | ReflectorMisplaced    // slot 0 does not hold a reflector
    | FixedMisplaced        // slot 1 does not hold a fixed rotor
    | RegularExpected       // a reflector or fixed rotor in slots 2..4
    | DuplicateRotor        // the same rotor object in two slots
    | MissingRotor          // an unknown rotor name reaches setRotors (null dereference)
    | NotInitialized        // a message line before any configuration line
}

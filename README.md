# Enigma rotor machine, in Dafny

This project models the core of a five-slot Enigma simulator written in Java
and proves properties of that model. The Java source is `enigma/Rotor.java`,
`FixedRotor.java`, `Reflector.java`, `Machine.java` and `Main.java`.

## What is modelled

- Rotors (`rotor.dfy`, module `Rotors`):
  - The 26-letter alphabet and the `toLetter`/`toIndex` conversions.
  - The offset permutation arithmetic of `convertForward` and `convertBackward`.
  - A `Rotor` class. Its name and wiring never change. Its setting is a field that `Set` and `Advance` update in place.
  - The three kinds of rotor: regular, fixed and reflector. Java expresses them as the subclasses `FixedRotor` and `Reflector`. Here they are a constant `Kind` in each rotor's `Wiring`, with one constructor per kind, and every capability dispatches on the kind.
  - `atNotch` is a read-only loop.
- Fixed rotors and reflectors (`fixed_rotor.dfy`, `reflector.dfy`): lemmas that state what each kind overrides and what it inherits.
- The signal path as values (`signal.dfy`, module `SignalPath`):
  - the stepping rule;
  - the forward pass over slots 4..0;
  - the backward pass over slots 0..4, which skips rotors without an inverse;
  - the settings and text produced by converting a message.
- The machine (`machine.dfy`, module `Machines`):
  - A `Machine` class with the installed rotors and the configured flag.
  - `replaceRotors` and `setConfigureStatus` as methods that assign the machine's fields.
  - `setRotors` and `convert` as methods that change the installed rotors' settings in place.
  - Each method is proved against the `SignalPath` functions.
- The driver (`main.dfy`, module `Simulator`):
  - `isConfigurationLine`.
  - The tokenising of `configure` (`split("\\s")`), the name lookup, the kind checks and the duplicate checks, then the installation and setting of the rotors.
  - `standardize`, and `printMessageLine` (it returns the printed line).
  - The main loop over a sequence of input lines. It is proved equal to a pure run over a snapshot of the registry's settings.

Wherever the program prints an error and exits, or throws, the model returns an `EnigmaError` value instead. The rotor registry that `buildRotors` fills is a parameter: a map from rotor name to rotor object.

The documentation comments and the code disagree in three places. The model follows the code:
- A reflector inherits `advances() == true` and the incrementing `advance()` from `Rotor`. The machine never steps slot 0, so nothing is claimed about either.
- `standardize` is documented as removing blanks and tabs. The code removes only `' '` characters, in `replace(" ", "")`. Tabs are removed only at the ends, by `trim`. A tab inside a message line therefore reaches `convert`, which rejects it.
- `setRotors` is documented for a four-letter string. A shorter setting makes `charAt` throw. This is modelled as the error `SettingTooShort`.

## Model

| member | source | states |
|---|---|---|
| Rotors.ToLetter | enigma/Rotor.java:34-36 | an index in 0..25 becomes an upper-case letter whose toIndex is that index |
| Rotors.ToIndex | enigma/Rotor.java:40-42 | the index is in 0..25 exactly when the character is a letter A..Z |
| Rotors.LetterOfIndex | enigma/Rotor.java:34-42 | toLetter(toIndex(c)) == c for every letter c |
| Rotors.Permute | enigma/Rotor.java:68-77 | the offset lookup lies in 0..25 and equals (idx(T[(s+p) % 26]) - s) mod 26 |
| Rotors.PermuteInverse | enigma/Rotor.java:66-89 | when the backward table inverts the forward table, the backward lookup undoes the forward one at every setting |
| Rotors.Advanced | enigma/Rotor.java:103-105 | one advance moves the setting on by one modulo 26, so 25 wraps to 0; a fixed rotor stays put |
| Rotors.Rotor.constructor | enigma/Rotor.java:21-27 | a regular rotor keeps both tables and its notches, and starts at setting 0 |
| Rotors.Rotor.Fixed | enigma/FixedRotor.java:13-15 | a fixed rotor keeps both tables and has no notches |
| Rotors.Rotor.Reflector | enigma/Reflector.java:12-14 | a reflector has a forward table only: no backward table and no notches |
| Rotors.Rotor.Advances | enigma/Rotor.java:45-47 | regular rotors advance; fixed rotors do not |
| Rotors.Rotor.HasInverse | enigma/Rotor.java:50-52 | a rotor has an inverse exactly when it carries a backward table |
| Rotors.Rotor.GetSetting | enigma/Rotor.java:56-58 | the setting is in 0..25 |
| Rotors.Rotor.Set | enigma/Rotor.java:61-64 | with posn in 0..25, the setting becomes posn |
| Rotors.Rotor.ConvertForward | enigma/Rotor.java:68-77 | the result is in 0..25 and follows the forward-table formula; the setting is not changed |
| Rotors.Rotor.ConvertBackward | enigma/Rotor.java:81-89 | succeeds exactly on rotors with an inverse, by the same formula on the backward table; otherwise fails with UnsupportedOperation |
| Rotors.Rotor.BackwardUndoesForward | enigma/Rotor.java:66-89 | convertBackward(convertForward(p)) == p whenever the tables are mutual inverses |
| Rotors.Rotor.AtNotch | enigma/Rotor.java:93-100 | true exactly when the setting is the index of some notch letter, and never for a fixed rotor; the setting is not changed |
| Rotors.Rotor.Advance | enigma/Rotor.java:103-105 | the setting becomes (old + 1) % 26 for rotors that advance, and stays unchanged otherwise |
| FixedRotors.FixedCapabilities | enigma/FixedRotor.java:16-29 | a fixed rotor does not advance, is never at a notch, advance leaves its setting as it is, and it keeps an inverse |
| FixedRotors.FixedConvertsBackward | enigma/Rotor.java:81-89 | a fixed rotor converts backward with the inherited formula, so slot 1 takes part in the backward pass |
| Reflectors.ReflectorHasNoInverse | enigma/Reflector.java:16-25 | a reflector has no inverse, and convertBackward fails with UnsupportedOperation on every input |
| Reflectors.ReflectorConvertsForward | enigma/Rotor.java:68-77 | a reflector's forward conversion is the inherited formula and stays in 0..25 |
| SignalPath.FirstNonUpper | enigma/Machine.java:46-52 | the position where convert stops: a non-letter, with only letters before it |
| SignalPath.FirstNonUpperAt | enigma/Machine.java:46-52 | a non-letter preceded only by letters is the stopping position |
| SignalPath.Step | enigma/Machine.java:54-60 | from the pre-step settings: slot 3 at a notch advances slots 3 and 2; else slot 4 at a notch advances slot 3; slot 4 always advances; slots 0 and 1 are untouched |
| SignalPath.Forward | enigma/Machine.java:61-63 | the forward pass keeps the index in 0..25 |
| SignalPath.ForwardPassOrder | enigma/Machine.java:61-63 | the forward pass applies the forward tables of slots 4, 3, 2, 1, 0 in that order |
| SignalPath.Backward | enigma/Machine.java:64-68 | the backward pass keeps the index in 0..25 |
| SignalPath.BackwardPassOrder | enigma/Machine.java:64-68 | the backward pass skips the reflector and applies the backward tables of slots 1, 2, 3, 4 in that order |
| SignalPath.EncipherIndex | enigma/Machine.java:53-69 | one letter's index after both passes is in 0..25 |
| SignalPath.SettingsAfter | enigma/Machine.java:46-60 | the settings after converting a message stay valid |
| SignalPath.Output | enigma/Machine.java:45-71 | the converted text has the message's length and consists of upper-case letters |
| SignalPath.SettingsKeepLeftSlots | enigma/Machine.java:54-60 | converting never moves slot 0 or slot 1 |
| SignalPath.SettingsAdvanceRightmost | enigma/Machine.java:46-60 | after N letters, slot 4 is at (initial + N) % 26 |
| SignalPath.ExtendSettings | enigma/Machine.java:46-60 | one more letter takes exactly one more step |
| SignalPath.ExtendOutput | enigma/Machine.java:53-69 | one more letter appends that letter enciphered at the newly stepped settings |
| SignalPath.ConcatSettings | enigma/Machine.java:40-72 | converting m1 + m2 reaches the settings of converting m2 from where m1 left the rotors |
| SignalPath.ConcatOutput | enigma/Machine.java:40-72 | converting m1 + m2 gives m1's text followed by m2's text converted from where m1 left the rotors |
| Machines.Machine.constructor | enigma/Machine.java:13-15 | a new machine is not configured |
| Machines.Machine.ReplaceRotors | enigma/Machine.java:19-21 | installs the given rotors without validating them; the configured flag is unchanged |
| Machines.Machine.SetRotors | enigma/Machine.java:26-36 | slots 1..4 take the indices of the leading setting letters, in order; slot 0 keeps its setting; it stops at the first missing or non-letter position, with that error |
| Machines.SettingPrefix | enigma/Machine.java:26-36 | how many of the first four setting positions setRotors sets before it stops |
| Machines.SettingOutcome | enigma/Machine.java:26-36 | setRotors passes exactly when four letters lead the setting, and runs short exactly when the setting is a shorter string of letters |
| Machines.Machine.SetConfigureStatus | enigma/Machine.java:75-77 | the configured flag becomes the given status; the rotors are unchanged |
| Machines.Machine.AdvanceRotors | enigma/Machine.java:54-60 | the rotors' new settings are SignalPath.Step of their old settings |
| Machines.Machine.Encipher | enigma/Machine.java:53-68 | the two loops of convert compute EncipherIndex at the current settings |
| Machines.Machine.ConvertLetter | enigma/Machine.java:53-69 | one letter steps the rotors once, then is enciphered at the new settings |
| SignalPath.NextLetter | enigma/Machine.java:53-69 | after a prefix of letters, one more letter takes one step and appends its encipherment to the text |
| Machines.Machine.ConvertNext | enigma/Machine.java:53-69 | one pass of the loop keeps the rotors at SettingsAfter and the text at Output of the longer prefix |
| Machines.Machine.ConvertLetters | enigma/Machine.java:46-71 | on an installed machine: the Output of an all-letter message with the rotors left at SettingsAfter, or InvalidCharacter after stepping for the letters before the first non-letter |
| Machines.Machine.Convert | enigma/Machine.java:40-72 | unconfigured: fails with NotConfigured and nothing moves; otherwise returns Output and leaves SettingsAfter, or fails with InvalidCharacter after stepping for the letters before the first non-letter |
| Simulator.IsConfigurationLine | enigma/Main.java:51-53 | a line is a configuration line exactly when "*" is a prefix of it |
| Simulator.Split | enigma/Main.java:58 | split("\\s"): the whole string when it holds no whitespace; otherwise the pieces between whitespace characters, without the empty pieces at the end; its round trip is Simulator.SplitJoin |
| Simulator.Pieces | enigma/Main.java:58 | the pieces between whitespace characters contain no whitespace |
| Simulator.DropTrailingEmpty | enigma/Main.java:58 | split keeps a prefix of the pieces, drops only empty ones, and keeps none empty at the end |
| Simulator.PiecesOfJoin | enigma/Main.java:58 | words joined by single spaces are split back into exactly those words |
| Simulator.JoinOfPieces | enigma/Main.java:58 | a string whose only whitespace is ' ' is the space-join of its pieces |
| Simulator.SplitJoin | enigma/Main.java:58 | split("\\s") of words joined by single spaces gives back the words when the last one is not empty |
| Simulator.TrimStart | enigma/Main.java:101 | trim removes only characters up to ' ' from the front, and the remaining text starts after ' ' |
| Simulator.TrimEnd | enigma/Main.java:101 | trim removes only characters up to ' ' from the back, and the remaining text ends after ' ' |
| Simulator.Trim | enigma/Main.java:101 | a trimmed string neither starts nor ends with a character up to ' ' |
| Simulator.RemoveSpaces | enigma/Main.java:101 | replace(" ", "") leaves no ' ', keeps a first or last character that is not ' ' at its end of the string, and returns a string without spaces unchanged |
| Simulator.RemoveSpacesKeeps | enigma/Main.java:101 | every character other than ' ' is kept as often as it occurs in the input, and no ' ' is left |
| Simulator.RemoveSpacesConcat | enigma/Main.java:101 | removing spaces from a concatenation removes them from each part, so the kept characters stay in input order |
| Simulator.UpperCase | enigma/Main.java:101 | the length is kept and no lower-case ASCII letter is left: 'a'..'z' move down by 32 to 'A'..'Z', and every other character is kept as it is |
| Simulator.Standardize | enigma/Main.java:100-102 | trim, then remove every ' ', then upper-case 'a'..'z'; its properties are Simulator.StandardizedForm, Simulator.StandardFormFixed and Simulator.StandardizeIdempotent |
| Simulator.StandardizedForm | enigma/Main.java:100-102 | a standardized line has no ' ' and no lower-case letter, and does not start or end with whitespace |
| Simulator.StandardFormFixed | enigma/Main.java:100-102 | a line already in that form is left unchanged by standardize |
| Simulator.StandardizeIdempotent | enigma/Main.java:100-102 | standardizing twice is standardizing once |
| Simulator.CheckLayout | enigma/Main.java:67-91 | the first failing check in the code's order: slot 0 not a reflector, slot 1 not a fixed rotor, a reflector or fixed rotor in slots 2..4, two slots alike; otherwise Pass |
| Simulator.SettingFrom | enigma/Machine.java:26-36 | setRotors from position i over slots that may be empty: at each of positions i..3 in turn, SettingTooShort when the setting has ended, SettingNotLetter at a non-letter, MissingRotor when the slot it would set is empty; otherwise Pass |
| Simulator.Validate | enigma/Main.java:67-91 | the kind loops and the nested duplicate loops report the first error in the code's order: reflector, fixed rotor, regular rotors, duplicates |
| Simulator.AcceptedLayout | enigma/Main.java:67-91 | an accepted layout holds rotors in slots 0 and 1 and at most one empty slot among 2..4; with no empty slot the rotors are distinct and have the machine's slot layout |
| Simulator.SettingFromOutcome | enigma/Machine.java:26-36 | on a possibly empty slot, setRotors fails with MissingRotor exactly when it reaches the empty slot, and otherwise ends as on a full machine |
| Simulator.SettingFromPass | enigma/Machine.java:26-36 | setRotors completes exactly when four letters lead the setting and slots 1..4 are all filled |
| Simulator.LayoutOutcome | enigma/Main.java:67-95 | the layout error, if there is one; otherwise the outcome of setRotors on the chosen slots |
| Simulator.TokensOutcome | enigma/Main.java:58-95 | WrongTokenCount unless there are 7 tokens; otherwise the outcome for the lookups of standardized tokens 1..5 and the standardized setting token 6 |
| Simulator.ConfigureOutcome | enigma/Main.java:57-96 | configure's outcome on a configuration line is that of its split tokens |
| Simulator.Lookup | enigma/Main.java:65 | _rotors.get gives a rotor exactly when the name is registered, and then a registered rotor |
| Simulator.NamesRegistered | enigma/Main.java:63-66 | all five names are registered exactly when no chosen slot is empty |
| Simulator.SelectRotors | enigma/Main.java:63-66 | the lookup loop fills a fresh five-slot array with the chosen rotors |
| Simulator.ConfigureAccepted | enigma/Main.java:57-96 | a configuration is accepted exactly when it has 7 tokens, every name is registered, the layout checks pass and the setting starts with four letters |
| Simulator.Configure | enigma/Main.java:57-96 | fails exactly when the outcome says so, with that error; otherwise a fresh configured machine with the named rotors and slots 1..4 set from the setting, and no other registered rotor moved |
| Simulator.ConfigureTokens | enigma/Main.java:59-96 | configure after split: the token count, then the lookups, the validation and the installation |
| Simulator.Mount | enigma/Main.java:92-95 | installs the rotors, sets slots 1..4 from the setting and marks the machine configured, or fails exactly as setRotors does; no rotor outside slots 1..4 moves |
| Simulator.Assemble | enigma/Main.java:67-95 | validation, then replaceRotors, setRotors and setConfigureStatus(true); only the installed rotors in slots 1..4 move |
| Simulator.Grouped | enigma/Main.java:104-121 | the line printMessageLine prints: a message of up to five letters as it is, otherwise its first five letters, a space, and the grouping of the rest; its properties are Simulator.GroupedIsJoin, Simulator.SplitGrouped and Simulator.UngroupedIsMessage |
| Simulator.Groups | enigma/Main.java:104-121 | every group but the last has 5 letters; the last has at most 5, and at least 1 for a nonempty message; the groups concatenate to the message |
| Simulator.GroupedIsJoin | enigma/Main.java:104-121 | the printed line is the groups joined by single spaces |
| Simulator.SplitGrouped | enigma/Main.java:104-121 | splitting the printed line at whitespace gives exactly the groups |
| Simulator.UngroupedIsMessage | enigma/Main.java:104-121 | removing the separators from the printed line gives exactly the message |
| Simulator.FormatMessageLine | enigma/Main.java:106-121 | the printing loop, with its final `i -= 5`, produces the grouped line |
| Simulator.SnapshotIs | enigma/Main.java:18-48 | the registry's settings are the old snapshot with the moved rotors' new settings stored in it |
| Simulator.RunFrom | enigma/Main.java:27-42 | the main loop as a pure run: nothing for no lines; a halting line ends the run with its error and prints nothing more; otherwise what the line prints followed by the run of the remaining lines from the new settings and machine |
| Simulator.LineStep | enigma/Main.java:32-40 | a configuration line configures a new machine; a message line with no machine stops with NotInitialized; otherwise the line is converted |
| Simulator.ConfigureStep | enigma/Main.java:57-96 | a configuration yields the machine's rotors, with the snapshot still covering exactly the registry |
| Simulator.Install | enigma/Main.java:92-95 | an accepted configuration yields a current machine and prints nothing |
| Simulator.ChosenRotors | enigma/Main.java:67-94 | the rotors of an accepted layout are five distinct registered rotors in the machine's slot layout, and the setting starts with four letters |
| Simulator.StoreReady | enigma/Main.java:33-41 | storing in-range settings for five loaded rotors keeps the snapshot covering the registry, with every setting in 0..25 |
| Simulator.MessageStep | enigma/Main.java:40 | a message line keeps the current machine, and the stored settings stay valid |
| Simulator.ConfigureLine | enigma/Main.java:33-34 | configure on the heap does what ConfigureStep says to the snapshot |
| Simulator.InstallSnapshot | enigma/Main.java:92-95 | the settings a configuration leaves on the registry are those of Install |
| Simulator.MessageLine | enigma/Main.java:40 | convert and printMessageLine on the heap do what MessageStep says to the snapshot |
| Simulator.ProcessLine | enigma/Main.java:32-41 | one pass of the main loop on the heap does what LineStep says to the snapshot: the same error, printed lines and next machine |
| Simulator.RunLine | enigma/Main.java:28-42 | one pass of the main loop either ends the run, with what was printed before and the line's error, or extends what was printed and leaves the rest of the run to the following lines |
| Simulator.Simulate | enigma/Main.java:18-48 | what the main loop prints, and the error it stops with, are exactly those of RunFrom from the registry's settings with no machine |
| Simulator.MessageLines | enigma/Main.java:32-40 | there are no more message lines than input lines, and none of them is a configuration line |
| Simulator.MessageLinesAppend | enigma/Main.java:27-42 | the message lines of two runs of input, one after the other, are those of the first run followed by those of the second, so input order is kept |
| Simulator.StepPrints | enigma/Main.java:32-40 | a configuration line prints nothing; a message line that goes on prints one line for itself |
| Simulator.RunPrints | enigma/Main.java:27-42 | main prints at most one line per message line, in order, and one for each of them when no error stops it; each printed line is upper-case letters in groups of five, as many as the standardized message line holds |
| Simulator.MessageBeforeConfiguration | enigma/Main.java:36-39 | a message line before any configuration line stops main with NotInitialized, having printed nothing |

## Left out

- Reading standard input, printing and `System.exit` (`enigma/Main.java:18-48`). The input is a sequence of lines. The printed lines are returned, and an exit is an error value. `IOException` cannot occur.
- Rotor construction: `buildRotors` fills the registry from `PermutationData.ROTOR_SPECS`, which is not part of this model (`enigma/Main.java:123-146`). The registry is taken as a parameter.
- Rotors.Rotor.constructor, Rotors.Rotor.Fixed, Rotors.Rotor.Reflector: they require their tables to be permutations of A..Z, which the program assumes of its rotor data but does not check.
- Machines.Machine.Convert accepts only 'A'..'Z' and stops with InvalidCharacter at any other character. Java's `convert` tests `Character.isLetter` (`enigma/Machine.java:48`), which also passes 'a'..'z' and non-ASCII letters. It enciphers such a letter c as the letter with index `toIndex(c)` mod 26, so 'a' (index 32) and 'É' (index 136) are both enciphered as 'G'. From `main`, no 'a'..'z' reaches `convert`, because `standardize` upper-cases them first. A non-ASCII letter does reach it: Java enciphers it, and the model stops with InvalidCharacter.
- Machines.Machine.SetRotors accepts only 'A'..'Z' and fails with SettingNotLetter at any other character. Java's `setRotors` also tests `Character.isLetter` (`enigma/Machine.java:29`). For such a letter it stores `toIndex(c)` as the setting, 32 for 'a' and 136 for 'É', because the `assert` in `enigma/Rotor.java:61-64` is off by default. At such a setting `convertForward` (`enigma/Rotor.java:68-77`) returns a negative index, so a later `charAt` can throw. From `main`, a non-ASCII letter in the setting token reaches `setRotors`; the model fails there with SettingNotLetter (Simulator.SettingFrom).
- Simulator.UpperCase upper-cases only 'a'..'z'. Java's `toUpperCase` also maps non-ASCII letters and is locale-dependent.
- A reflector's inherited `advances()` and `advance()`, and `atNotch()` on a reflector, which would dereference its null notch string. The machine exercises none of these. Rotors.Rotor.AtNotch requires a rotor that is not a reflector.
- The state left behind by a fatal error. The program exits at once.
  - Simulator.Configure claims nothing about settings after a failure.
  - On the empty-slot path, Java sets the slots before the empty slot and then crashes; the model reports MissingRotor without claiming those settings.
- Simulator.SelectRotors standardizes the names before its loop (Simulator.RotorNames), not inside it. The values are the same.
- Machines.Machine: the installed rotors are a `seq<Rotor>`, because the Java array is assigned whole and never updated in place. Before `replaceRotors` it is empty rather than null.
- The regression scenario with rotor tables `B`, `Beta`, `III`, `IV` and `I`: its tables belong to `PermutationData`.
- Reciprocity: nothing is claimed about `convert` undoing itself. The backward pass runs in slot order 0..4 and is not the mirror image of the forward pass.

/**
 * The interface of the external composition engine as the XIM front end sees
 * it: the modifier set it takes with a key press and the result record it
 * returns. The engine itself (its composition rules, its configuration and
 * its internal state) lies outside this model; the dispatcher receives its
 * answers as parameters.
 */
module Engine {
  /**
   * The engine-level modifiers the front end can set. The engine takes them
   * as a bitmask built from its MODIFIER_SHIFT, MODIFIER_CONTROL and
   * MODIFIER_SUPER constants; a set is exact because those are taken to be
   * distinct single bits (their values are defined in the engine library).
   */
  datatype Modifier = Shift | Control | Super

  /** The kinds of result `press_key` reports. */
  datatype InputResultType =
    | Bypass
    | ToggleHangul
    | ClearPreedit
    | Preedit
    | Commit
    | CommitBypass
    | CommitPreedit
    | CommitCommit

  /**
   * The result of one key press: its kind and up to two characters; which of
   * `char1` and `char2` carry meaning depends on `ty`.
   */
  datatype InputResult = InputResult(ty: InputResultType, char1: char, char2: char)

  /** A hardware key code as `press_key` takes it (16 bits). */
  type KeyCode = k: int | 0 <= k < 0x1_0000
}

/**
 * The key translator of the FORWARD_EVENT handler: the `state` field of an X
 * key-press event (16 bits) becomes the engine's modifier set, one bit test
 * per modifier.
 */
module KeyTranslator {
  import opened Engine

  /** X modifier mask bits the front end looks at. */
  const SHIFT_MASK: bv16 := 0x1
  const CONTROL_MASK: bv16 := 0x4
  const SUPER_MASK: bv16 := 0x40

  /** The modifiers whose X mask bit is set in `state`. */
  function ModifiersOf(state: bv16): (mods: set<Modifier>)
    ensures Shift in mods <==> state & SHIFT_MASK != 0
    ensures Control in mods <==> state & CONTROL_MASK != 0
    ensures Super in mods <==> state & SUPER_MASK != 0
  {
    (if state & SHIFT_MASK != 0 then {Shift} else {})
    + (if state & CONTROL_MASK != 0 then {Control} else {})
    + (if state & SUPER_MASK != 0 then {Super} else {})
  }

  /**
   * Builds the modifier set one bit test at a time, as the handler builds its
   * `state` with successive `|=`.
   */
  method TranslateModifiers(state: bv16) returns (mods: set<Modifier>)
    ensures mods == ModifiersOf(state)
  {
    mods := {};
    if state & SHIFT_MASK != 0 {
      mods := mods + {Shift};
    }
    if state & CONTROL_MASK != 0 {
      mods := mods + {Control};
    }
    if state & SUPER_MASK != 0 {
      mods := mods + {Super};
    }
  }

  /** Bits other than 0x1, 0x4 and 0x40 never influence the result. */
  lemma OtherBitsIgnored(state: bv16, other: bv16)
    requires other & (SHIFT_MASK | CONTROL_MASK | SUPER_MASK) == 0
    ensures ModifiersOf(state | other) == ModifiersOf(state)
    ensures ModifiersOf(other) == {}
  {
  }

  /** The bits combine independently: the modifiers of a union of masks are the union of their modifiers. */
  lemma ModifiersOfUnion(s: bv16, t: bv16)
    ensures ModifiersOf(s | t) == ModifiersOf(s) + ModifiersOf(t)
  {
  }
}

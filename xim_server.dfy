/**
 * The XIM callback of the kime X input-method server: the input-context
 * registry, the opcode dispatcher and the mapping from engine results to
 * protocol requests.
 *
 * The per-handle data slot that the IM library keeps on each input context
 * becomes the map `slots`; the requests the callback issues to the library
 * (commit a string, forward a key event) and to the engine (refresh the
 * hangul state) are appended to the log `sent`, in the order issued.
 */
module XimServer {
  import opened Optional
  import opened Bytes
  import opened CompoundText
  import opened Engine
  import opened KeyTranslator

  /** An input-context handle; 0 stands for the null pointer. */
  type Handle = nat
  const NULL: Handle := 0

  /** Major opcodes of the X Input Method Protocol that the callback handles. */
  const XIM_CREATE_IC: u8 := 50
  const XIM_DESTROY_IC: u8 := 52
  const XIM_SET_IC_VALUES: u8 := 54
  const XIM_GET_IC_VALUES: u8 := 56
  const XIM_SET_IC_FOCUS: u8 := 58
  const XIM_UNSET_IC_FOCUS: u8 := 59
  const XIM_FORWARD_EVENT: u8 := 60
  const XIM_RESET_IC: u8 := 64

  /** The fields of the embedded X key-press event that the callback reads. */
  datatype KeyPressEvent = KeyPressEvent(detail: u8, state: bv16)

  /** A request issued while handling one message. */
  datatype Action =
    | ForwardEvent(xic: Handle, event: KeyPressEvent)   // the raw key event goes back to the client
    | CommitString(xic: Handle, text: seq<u8>)          // compound text handed over as committed input
    | UpdateHangulState(xic: Handle)                    // the engine is asked to refresh its hangul state

  /** Per-context record; it owns one engine instance, which is external to this model. */
  class InputContext {
    constructor ()
    {
    }
  }

  /** The requests the callback issues for one FORWARD_EVENT, given the engine's result. */
  function ResultActions(xic: Handle, ev: KeyPressEvent, r: InputResult): (acts: seq<Action>)
    ensures |acts| <= 2
    ensures forall i :: 0 <= i < |acts| ==> acts[i].xic == xic
  {
    match r.ty
    case Bypass => [ForwardEvent(xic, ev)]
    case Commit => [CommitString(xic, Wrap([r.char1]))]
    case CommitBypass => [CommitString(xic, Wrap([r.char1])), ForwardEvent(xic, ev)]
    case CommitCommit => [CommitString(xic, Wrap([r.char1, r.char2]))]
    case CommitPreedit => [CommitString(xic, Wrap([r.char1]))]
    case Preedit => []
    case ToggleHangul => [UpdateHangulState(xic)]
    case ClearPreedit => []
  }

  /** The characters an engine result finalizes, in order. */
  function CommittedChars(r: InputResult): (cs: seq<char>)
  {
    match r.ty
    case Commit | CommitBypass | CommitPreedit => [r.char1]
    case CommitCommit => [r.char1, r.char2]
    case Bypass | Preedit | ToggleHangul | ClearPreedit => []
  }

  /** The text a client reads from the commits in `acts`, in order (None if one is unreadable). */
  function ReceivedText(acts: seq<Action>): (r: Option<seq<char>>)
  {
    if acts == [] then Some([])
    else
      var rest := ReceivedText(acts[1..]);
      match acts[0]
      case CommitString(_, text) =>
        (match (Unwrap(text), rest)
         case (Some(s), Some(t)) => Some(s + t)
         case _ => None)
      case _ => rest
  }

  /** Every key press delivers exactly the characters the engine finalized, and nothing else. */
  lemma ResultActionsCommitText(xic: Handle, ev: KeyPressEvent, r: InputResult)
    ensures ReceivedText(ResultActions(xic, ev, r)) == Some(CommittedChars(r))
  {
    var acts := ResultActions(xic, ev, r);
    match r.ty
    case Commit | CommitPreedit =>
      UnwrapWrap([r.char1]);
      assert acts[1..] == [];
      assert [r.char1] + [] == [r.char1];
    case CommitBypass =>
      UnwrapWrap([r.char1]);
      assert acts[1..][1..] == [];
      assert ReceivedText(acts[1..]) == Some([]);
      assert [r.char1] + [] == [r.char1];
    case CommitCommit =>
      UnwrapWrap([r.char1, r.char2]);
      assert acts[1..] == [];
      assert [r.char1, r.char2] + [] == [r.char1, r.char2];
    case Bypass | ToggleHangul =>
      assert acts[1..] == [];
    case Preedit | ClearPreedit =>
  }

  /**
   * The raw event is forwarded exactly for Bypass and CommitBypass, and it is
   * always the last request, after any commit.
   */
  lemma ResultActionsForward(xic: Handle, ev: KeyPressEvent, r: InputResult)
    ensures ForwardEvent(xic, ev) in ResultActions(xic, ev, r) <==> r.ty == Bypass || r.ty == CommitBypass
    ensures forall i :: 0 <= i < |ResultActions(xic, ev, r)| && ResultActions(xic, ev, r)[i].ForwardEvent? ==>
              i == |ResultActions(xic, ev, r)| - 1
  {
  }

  /** The XIM library state the callback reads and changes. */
  class Xim {
    /** The data slot of every input context that has one attached. */
    var slots: map<Handle, InputContext>
    /** Requests issued so far, oldest first. */
    var sent: seq<Action>

    /** The null handle never carries a record, and no record is shared by two handles. */
    ghost predicate Valid()
      reads this
    {
      && NULL !in slots
      && forall h, k :: h in slots && k in slots && h != k ==> slots[h] != slots[k]
    }

    constructor ()
      ensures Valid()
      ensures slots == map[] && sent == []
    {
      slots := map[];
      sent := [];
    }

    /**
     * `xcb_im_input_context_get_data`: the record attached to `xic`, if any.
     * The null handle has none, and a record found belongs to this handle
     * alone.
     */
    function Lookup(xic: Handle): (r: Option<InputContext>)
      requires Valid()
      reads this
      ensures xic == NULL ==> r == None
      ensures r.Some? <==> xic in slots
      ensures r.Some? ==> r.value == slots[xic]
      ensures r.Some? ==> forall k :: k in slots && k != xic ==> slots[k] != r.value
    {
      if xic in slots then Some(slots[xic]) else None
    }

    /** `commit_ch`: commits the compound text of one character. */
    method CommitCh(xic: Handle, ch: char)
      modifies this
      ensures slots == old(slots)
      ensures sent == old(sent) + [CommitString(xic, Wrap([ch]))]
    {
      var b, len := FillCh(ch);
      sent := sent + [CommitString(xic, b[..len])];
    }

    /** `commit_ch2`: commits the compound text of two characters as one string. */
    method CommitCh2(xic: Handle, ch1: char, ch2: char)
      modifies this
      ensures slots == old(slots)
      ensures sent == old(sent) + [CommitString(xic, Wrap([ch1, ch2]))]
    {
      var b, len := FillCh2(ch1, ch2);
      sent := sent + [CommitString(xic, b[..len])];
    }

    /**
     * `xcb_im_callback`. `hasServer` says whether the server's user data
     * pointer is set; `ev` is the key event a FORWARD_EVENT carries; the
     * engine of the context answers a key press with `pressKey` and a reset
     * with `resetResult`.
     */
    method Callback(hasServer: bool, xic: Handle, majorOpcode: u8, ev: KeyPressEvent,
                    pressKey: (KeyCode, set<Modifier>) -> InputResult, resetResult: Option<char>)
      requires Valid()
      modifies this
      ensures Valid()
      // no server or no handle: the message is dropped
      ensures !hasServer || xic == NULL ==> slots == old(slots) && sent == old(sent)
      // CREATE_IC: a fresh record replaces whatever the slot held; nothing is sent
      ensures hasServer && xic != NULL && majorOpcode == XIM_CREATE_IC ==>
                && xic in slots && fresh(slots[xic])
                && slots == old(slots)[xic := slots[xic]]
                && sent == old(sent)
      // any other message for a handle without a record is dropped
      ensures hasServer && xic != NULL && majorOpcode != XIM_CREATE_IC && xic !in old(slots) ==>
                slots == old(slots) && sent == old(sent)
      // DESTROY_IC: only this handle's slot is cleared
      ensures hasServer && xic in old(slots) && majorOpcode == XIM_DESTROY_IC ==>
                slots == old(slots) - {xic} && sent == old(sent)
      // every other message leaves the registry alone
      ensures majorOpcode != XIM_CREATE_IC && majorOpcode != XIM_DESTROY_IC ==> slots == old(slots)
      ensures hasServer && xic in old(slots) && majorOpcode == XIM_SET_IC_FOCUS ==>
                sent == old(sent) + [UpdateHangulState(xic)]
      ensures hasServer && xic in old(slots) && (majorOpcode == XIM_RESET_IC || majorOpcode == XIM_UNSET_IC_FOCUS) ==>
                sent == old(sent) + (if resetResult.Some? then [CommitString(xic, Wrap([resetResult.value]))] else [])
      ensures hasServer && xic in old(slots) && majorOpcode == XIM_FORWARD_EVENT ==>
                sent == old(sent) + ResultActions(xic, ev, pressKey(ev.detail, ModifiersOf(ev.state)))
      ensures majorOpcode !in {XIM_SET_IC_FOCUS, XIM_RESET_IC, XIM_UNSET_IC_FOCUS, XIM_FORWARD_EVENT} ==>
                sent == old(sent)
    {
      if !hasServer {
        return;
      }
      if xic == NULL {
        return;
      }
      var ic := Lookup(xic);
      if majorOpcode == XIM_CREATE_IC {
        var record := new InputContext();
        slots := slots[xic := record];
        return;
      }
      if ic.None? {
        return;
      }
      if majorOpcode == XIM_DESTROY_IC {
        slots := slots - {xic};
      } else if majorOpcode == XIM_SET_IC_VALUES {
        // reserved for the preedit spot; nothing is done
      } else if majorOpcode == XIM_GET_IC_VALUES {
      } else if majorOpcode == XIM_SET_IC_FOCUS {
        sent := sent + [UpdateHangulState(xic)];
      } else if majorOpcode == XIM_RESET_IC || majorOpcode == XIM_UNSET_IC_FOCUS {
        if resetResult.Some? {
          CommitCh(xic, resetResult.value);
        }
      } else if majorOpcode == XIM_FORWARD_EVENT {
        var mods := TranslateModifiers(ev.state);
        var ret := pressKey(ev.detail, mods);
        match ret.ty {
          case Bypass =>
            sent := sent + [ForwardEvent(xic, ev)];
          case Commit =>
            CommitCh(xic, ret.char1);
          case CommitBypass =>
            CommitCh(xic, ret.char1);
            sent := sent + [ForwardEvent(xic, ev)];
          case CommitCommit =>
            CommitCh2(xic, ret.char1, ret.char2);
          case CommitPreedit =>
            CommitCh(xic, ret.char1);
          case Preedit =>
          case ToggleHangul =>
            sent := sent + [UpdateHangulState(xic)];
          case ClearPreedit =>
        }
      } else {
        // unhandled message: logged and ignored
      }
    }
  }

  /** The wire form of the syllable U+AC00: 9 bytes, its UTF-8 EA B0 80 between the escapes. */
  lemma SyllableWireForm()
    ensures Wrap(['\U{AC00}']) == [0x1B, 0x25, 0x47, 0xEA, 0xB0, 0x80, 0x1B, 0x25, 0x40]
  {
  }

  /** A client receiving two one-character commits reads both characters, in order. */
  lemma TwoCommitsReceived(h: Handle, a: char, b: char)
    ensures ReceivedText([CommitString(h, Wrap([a])), CommitString(h, Wrap([b]))]) == Some([a, b])
  {
    var acts := [CommitString(h, Wrap([a])), CommitString(h, Wrap([b]))];
    UnwrapWrap([a]);
    UnwrapWrap([b]);
    assert acts[1..][1..] == [];
    assert ReceivedText(acts[1..]) == Some([b] + []);
    assert [a] + ([b] + []) == [a, b];
  }

  /**
   * A session as a client sees it: a context is created, a jamo goes to the
   * preedit (which draws nothing), a syllable is committed while the next jamo
   * starts, a reset flushes the pending composition, and after DESTROY_IC the
   * handle is ignored.
   */
  method SessionScenario()
  {
    var x := new Xim();
    var h: Handle := 7;
    var ev := KeyPressEvent(0x26, 0x0);
    x.Callback(true, h, XIM_CREATE_IC, ev, (k, m) => InputResult(Bypass, 'a', 'a'), None);
    assert h in x.slots && x.sent == [];

    x.Callback(true, h, XIM_FORWARD_EVENT, ev, (k, m) => InputResult(Preedit, '\U{3131}', '\U{3131}'), None);
    assert x.sent == [];

    x.Callback(true, h, XIM_FORWARD_EVENT, ev, (k, m) => InputResult(CommitPreedit, '\U{AC00}', '\U{3134}'), None);
    assert x.sent == [CommitString(h, Wrap(['\U{AC00}']))];
    SyllableWireForm();

    x.Callback(true, h, XIM_RESET_IC, ev, (k, m) => InputResult(Bypass, 'a', 'a'), Some('\U{314E}'));
    assert x.sent == [CommitString(h, Wrap(['\U{AC00}'])), CommitString(h, Wrap(['\U{314E}']))];
    TwoCommitsReceived(h, '\U{AC00}', '\U{314E}');
    assert ReceivedText(x.sent) == Some(['\U{AC00}', '\U{314E}']);

    x.Callback(true, h, XIM_DESTROY_IC, ev, (k, m) => InputResult(Bypass, 'a', 'a'), None);
    assert h !in x.slots;
    x.Callback(true, h, XIM_FORWARD_EVENT, ev, (k, m) => InputResult(Bypass, 'a', 'a'), None);
    assert |x.sent| == 2;
  }
}

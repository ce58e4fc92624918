# kime XIM front end: callback logic in Dafny

This project models the sequential core of kime's X input-method server
(`src/frontends/xim/src/main.rs`). The server sits between an X Input Method
(XIM) client and kime's Hangul composition engine. The model covers:

- **Text encoder** (`CompoundText`, on top of `Utf8`). `commit_ch` and
  `commit_ch2` fill a zeroed 12- or 16-byte buffer in place. The buffer gets
  the ISO/IEC 2022 "designate other coding system" escape `ESC % G`
  (section 15.4 of ECMA-35). Then come the UTF-8 bytes of one or two
  characters (section 3 of RFC 3629). Last comes the return escape `ESC % @`.
  The length handed to the commit call is the payload length plus 6.
  `FillCh`/`FillCh2` are methods over an `array<u8>`. They are proved equal to
  the value-level wire form `Wrap`. `Wrap` is proved inverse to an independent
  reader `Unwrap`, which follows the UTF-8 grammar in section 4 of RFC 3629.
- **Key translator** (`KeyTranslator`). The 16-bit `state` of an X key press
  becomes the engine's modifier set: bit 0x1 gives Shift, 0x4 gives Control,
  0x40 gives Super.
- **Dispatcher and context registry** (`XimServer`). Class `Xim` holds the
  per-handle data slot as `slots: map<Handle, InputContext>`. It also holds
  the requests issued so far as the log `sent`. `Callback` is
  `xcb_im_callback`: it drops messages without a server, a handle or an
  attached context. CREATE_IC attaches a fresh record and DESTROY_IC clears
  the slot. The other opcodes map to forward / commit / hangul-refresh
  requests, and for FORWARD_EVENT every engine result type has its own fixed
  sequence.

The composition engine is external. The engine's answer to a key press is a
function parameter `pressKey` (applied to the key code and the translated
modifiers), and its answer to `reset()` is an `Option<char>` parameter.
Handles are natural numbers and 0 stands for null. Whether the server's user
data pointer is set is the boolean `hasServer`. The major opcode values
(CREATE_IC 50, DESTROY_IC 52, SET_IC_VALUES 54, GET_IC_VALUES 56,
SET_IC_FOCUS 58, UNSET_IC_FOCUS 59, FORWARD_EVENT 60, RESET_IC 64) are the
protocol numbers of the X Input Method Protocol. The generated bindings that
define them are not part of this model.

The preedit display is not implemented in this version of the code:

- the Preedit, ClearPreedit and CommitPreedit arms hold only placeholder
  comments where the preedit would be drawn or cleared (main.rs:189, 192, 198);
- so Preedit and ClearPreedit issue nothing here, and CommitPreedit issues
  only the commit of its first character; the second character is dropped.

Files: `optional.dfy`, `bytes.dfy`, `utf8.dfy`, `compound_text.dfy`, `engine.dfy`,
`key_translator.dfy`, `xim_server.dfy`. `XimServer.SessionScenario` is a
client that walks a whole session through the contracts: create, preedit,
commit-with-preedit, reset, destroy, then a dropped event.

## Model

| member | source | states |
|---|---|---|
| Utf8.LenUtf8 | src/frontends/xim/src/main.rs:64 | the UTF-8 length of a character is between 1 and 4 bytes |
| Utf8.DecodeEncode | src/frontends/xim/src/main.rs:65 | the bytes `encode_utf8` writes are one well-formed UTF-8 sequence (RFC 3629 grammar) that reads back as the same character |
| Utf8.EncodeDecode | src/frontends/xim/src/main.rs:65 | UTF-8 is canonical: any well-formed sequence that reads as `c` is exactly the encoding of `c` |
| Utf8.EncodeStringAppend | src/frontends/xim/src/main.rs:84-85 | encoding two strings one after the other gives the concatenation of their encodings; `WrapTwo` uses it to place `ch2` right after `ch1` |
| Utf8.DecodeEncodeString | src/frontends/xim/src/main.rs:84-85 | a string of encoded characters reads back as the same characters in the same order |
| Utf8.EncodeDecodeString | src/frontends/xim/src/main.rs:84-85 | a byte string that reads as a character string is exactly that string's encoding |
| CompoundText.Wrap | src/frontends/xim/src/main.rs:52-53 | the wire form is 6 bytes longer than the UTF-8 payload, starts with ESC % G and ends with ESC % @ |
| CompoundText.UnwrapWrap | src/frontends/xim/src/main.rs:52-53 | a receiver that strips the escapes and decodes UTF-8 recovers exactly the wrapped characters |
| CompoundText.WrapUnwrap | src/frontends/xim/src/main.rs:52-53 | every readable wire string is the wrap of the text it reads as (one wire form per text) |
| CompoundText.WrapOne | src/frontends/xim/src/main.rs:63-66 | the one-character wire form is start escape, the character's bytes, end escape; its length `len_utf8 + 6` is at most 10, so it fits the 12-byte buffer |
| CompoundText.WrapTwo | src/frontends/xim/src/main.rs:83-86 | the two-character wire form is start escape, bytes of `ch1`, bytes of `ch2`, end escape; its length is at most 14, so it fits the 16-byte buffer |
| CompoundText.OneCharLayout | src/frontends/xim/src/main.rs:57-66 | the three writes into the zeroed 12-byte buffer leave exactly the one-character wire form followed by zeros |
| CompoundText.TwoCharLayout | src/frontends/xim/src/main.rs:82-86 | the four writes into the zeroed 16-byte buffer leave exactly the two-character wire form followed by zeros |
| CompoundText.CopyFromSlice | src/frontends/xim/src/main.rs:63 | `copy_from_slice` into a sub-slice changes exactly that range of the array |
| CompoundText.EncodeUtf8Into | src/frontends/xim/src/main.rs:65 | `encode_utf8` into `b[at..at+len]` writes the character's UTF-8 bytes there and leaves the rest of the array alone |
| CompoundText.FillCh | src/frontends/xim/src/main.rs:57-66 | a new 12-byte buffer holds ESC % G at [0..3), the UTF-8 of `ch` at [3..3+len), ESC % @ at [3+len..6+len) and zeros after; the reported length `len + 6` fits the buffer and the prefix is `Wrap([ch])` |
| CompoundText.FillCh2 | src/frontends/xim/src/main.rs:80-86 | a new 16-byte buffer holds the start escape, `ch1`'s bytes right after it, `ch2`'s bytes right before the end escape, and zeros after; the reported length `len1 + len2 + 6` fits and the prefix is `Wrap([ch1, ch2])` |
| KeyTranslator.ModifiersOf | src/frontends/xim/src/main.rs:153-165 | Shift is in the set iff bit 0x1 is set, Control iff 0x4, Super iff 0x40 |
| KeyTranslator.TranslateModifiers | src/frontends/xim/src/main.rs:153-165 | the successive updates produce exactly the modifier set of the state bits |
| KeyTranslator.OtherBitsIgnored | src/frontends/xim/src/main.rs:155-165 | bits other than 0x1, 0x4 and 0x40 never change the modifier set |
| KeyTranslator.ModifiersOfUnion | src/frontends/xim/src/main.rs:153-165 | the three bit tests are independent: the modifiers of a union of masks are the union of the modifiers |
| XimServer.ResultActions | src/frontends/xim/src/main.rs:173-199 | a key press issues at most two requests, all addressed to the context it arrived on |
| XimServer.ResultActionsCommitText | src/frontends/xim/src/main.rs:173-199 | the commits a key press issues deliver to the client exactly the characters the engine finalized (char1; char1 then char2 for CommitCommit; none for Bypass, Preedit, ClearPreedit, ToggleHangul) |
| XimServer.ResultActionsForward | src/frontends/xim/src/main.rs:173-183 | the raw event is forwarded iff the result is Bypass or CommitBypass, and the forward always comes last, after the commit |
| XimServer.Xim.Lookup | src/frontends/xim/src/main.rs:117 | a record is found iff one is attached to the handle, and it is exactly the attached record; on a valid registry the null handle finds none and the record found is attached to no other handle |
| XimServer.SyllableWireForm | src/frontends/xim/src/main.rs:63-66 | the syllable U+AC00 travels as the 9 bytes 1B 25 47 EA B0 80 1B 25 40 |
| XimServer.TwoCommitsReceived | src/frontends/xim/src/main.rs:55-76 | wire-level helper of the session scenario: a client receiving two one-character commits, as `commit_ch` sends them, reads both characters in the order committed |
| XimServer.Xim.CommitCh | src/frontends/xim/src/main.rs:55-76 | issues exactly one commit, of the wire form of `ch`, and leaves the registry alone |
| XimServer.Xim.CommitCh2 | src/frontends/xim/src/main.rs:78-96 | issues exactly one commit, of the wire form of `ch1` followed by `ch2`, and leaves the registry alone |
| XimServer.Xim.Callback | src/frontends/xim/src/main.rs:98-206 | keeps the registry valid (no null key, no shared record); drops everything without a server or handle, and every non-create message for a handle without a record; CREATE_IC attaches a fresh record, overwriting the slot, and sends nothing; DESTROY_IC clears only that slot; SET_IC_FOCUS only refreshes the hangul state; RESET_IC and UNSET_IC_FOCUS commit `reset()`'s character if there is one; FORWARD_EVENT issues `ResultActions` for the engine's answer to the key code and translated modifiers; SET_IC_VALUES, GET_IC_VALUES and unknown opcodes send nothing and no opcode other than create/destroy touches the registry |

## Left out

- Preedit start/draw/done and the preedit length bookkeeping: the code has no such logic (main.rs:189, 192 and 198 are placeholders, and the preedit window module is commented out), so nothing is modelled for them.
- The commented-out conversion through the IM library's compound-text helper (main.rs:58-62): dead code calling a foreign function.
- The composition engine (`press_key`, `reset`, `update_hangul_state`, `Config`): an external library; its answers are parameters.
- XimServer.Xim.Callback: does not model the engine state that `press_key`, `reset` and `update_hangul_state` change inside the context's engine; a refresh is recorded as an `UpdateHangulState` request instead.
- XimServer.Xim.Callback: does not model freeing memory. The box leaked when CREATE_IC overwrites an attached record and the box dropped on DESTROY_IC are not modelled; only the slot contents are.
- XimServer.Xim.CommitCh: does not record the fixed `XCB_XIM_LOOKUP_CHARS` flag and the zero keysym passed with every commit, only the handle and the bytes.
- KeyTranslator.TranslateModifiers: the engine's bitmask built from MODIFIER_SHIFT, MODIFIER_CONTROL and MODIFIER_SUPER is modelled as a set; this is exact only if those constants, which the `kime_engine_cffi` crate defines outside this model, are distinct single bits.
- The key-press event fields other than `detail` and `state`: they are forwarded untouched and never read.
- `main_loop` (main.rs:208-299): X connection, window creation, style and encoding tables, IM object creation/opening/closing and the blocking event loop are I/O.
- `main` (main.rs:301-333): command-line flags and logger set-up.
- `src/frontends/xim/build.rs`: build-time binding generation.
- Raw-pointer mechanics (`Box::into_raw`/`from_raw`, casts of the user data, the `cs!` macro) and the packet header pointer: a handle is an integer key and a slot is a map entry.
- Logging (`log::trace!`, `log::warn!`): no observable effect on the protocol.

/**
 * The `OpusError { code, message }` record that carries a failure across the
 * boundary, and the protocol its message obeys: a failing call stores one
 * newly allocated C string in the caller's record, and the record's holder
 * owns it from then on.
 */
module Records {
  import opened Wrappers
  import opened World

  /** The value of an `OpusError`: a code and a nullable owned C string. */
  datatype Rec = Rec(code: int, message: Option<MsgId>)

  /** What a reporting operation leaves: the state, the caller's record (None: null pointer) and the return code. */
  datatype Returned = Returned(mem: Mem, err: Option<Rec>, code: int)

  /** The `#[repr(C)]` record, whose fields the layer writes through a pointer. */
  class OpusError {
    var code: int
    var message: Option<MsgId>

    constructor (code: int, message: Option<MsgId>)
      ensures this.code == code && this.message == message
    {
      this.code := code;
      this.message := message;
    }

    function Value(): Rec
      reads this
    {
      Rec(code, message)
    }
  }

  /** The record a pointer designates, or `None` for a null pointer. */
  function ValueOf(p: OpusError?): (r: Option<Rec>)
    reads p
    ensures r.None? <==> p == null
    ensures p != null ==> r.value == Rec(p.code, p.message)
  {
    if p == null then None else Some(p.Value())
  }

  /** The C strings a record (or a null pointer to one) owns: none or one. */
  function Held(p: Option<Rec>): (ids: set<MsgId>)
    ensures |ids| <= 1
    ensures forall id :: id in ids <==> p.Some? && p.value.message == Some(id)
  {
    if p.Some? && p.value.message.Some? then {p.value.message.value} else {}
  }

  /** The caller's side of the release contract: a non-null message was allocated here and is still live. */
  predicate Releasable(m: Mem, p: Option<Rec>) {
    Held(p) <= m.strings.Keys
  }

  /**
   * The reporting protocol shared by `invalid_input`, `OpusError::fill` and
   * the panic branch of `ffi_exec`: the call returns `code`; with a record it
   * stores `code` and one new live C string holding `text`; without one, no
   * string stays live; sessions and engine calls are untouched. The last
   * conjunct counts what the others imply.
   */
  predicate Reported(m: Mem, error: Option<Rec>, code: int, text: string, r: Returned) {
    && r.code == code
    && (error.None? ==> r.err.None? && r.mem.strings == m.strings)
    && (error.Some? ==>
          && r.err.Some? && r.err.value.code == code && r.err.value.message.Some?
          && r.err.value.message.value !in m.strings
          && r.mem.strings == m.strings[r.err.value.message.value := text])
    && |r.mem.strings| == |m.strings| + (if error.Some? then 1 else 0)
    && r.mem.decoders == m.decoders && r.mem.encoders == m.encoders && r.mem.calls == m.calls
  }

  /**
   * Reporting into a record overwrites its message without releasing it: a
   * message the record held before stays live but is no longer held by the
   * record.
   */
  lemma ReportOrphansPrevious(m: Mem, error: Rec, code: int, text: string, r: Returned)
    requires Reported(m, Some(error), code, text, r)
    requires error.message.Some? && error.message.value in m.strings
    ensures error.message.value in r.mem.strings
    ensures error.message.value !in Held(r.err)
  {
  }
}

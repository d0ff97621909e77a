/**
 * The rest of rust/src/utils.rs: the two sentinel codes, `invalid_input`,
 * the execution guard `ffi_exec`, and `free_opus_error`.
 */
module Guard {
  import opened Wrappers
  import opened Engine
  import opened World
  import opened Records
  import opened CStrings
  import opened ErrorChannel

  /** `ErrorCode::Unknown as c_int - 1`: a required pointer was null. */
  const INVALID_INPUT: int := UNKNOWN - 1
  /** `ErrorCode::Unknown as c_int - 2`: the guarded work panicked. */
  const INTERNAL_FAULT: int := UNKNOWN - 2

  /** The two sentinels differ from each other, from success and from every code the engine reports. */
  lemma SentinelsBelowDomainCodes(e: ErrorCode)
    ensures INTERNAL_FAULT < INVALID_INPUT < e.Code() < 0
  {
  }

  /** Store `code` and a new C string holding `text` in the record, if there is one. */
  function ReportSpec(m: Mem, error: Option<Rec>, code: int, text: string): (r: Returned)
    requires m.Valid()
    ensures r.mem.Valid() && Releasable(r.mem, r.err)
    ensures Reported(m, error, code, text, r)
    ensures error.None? ==> r.mem == m
  {
    if error.Some? then
      var (m', message) := m.AddString(text);
      Returned(m', Some(Rec(code, Some(message))), code)
    else
      Returned(m, None, code)
  }

  /** `invalid_input(error)`: always the InvalidInput sentinel; with a null record nothing else happens. */
  function InvalidInputSpec(m: Mem, error: Option<Rec>): (r: Returned)
    requires m.Valid()
    ensures r.mem.Valid() && Releasable(r.mem, r.err)
    ensures Reported(m, error, INVALID_INPUT, "Invalid input", r)
    ensures error.None? ==> r.mem == m
  {
    ReportSpec(m, error, INVALID_INPUT, "Invalid input")
  }

  /**
   * `ffi_exec(error, f)` given how `catch_unwind(f)` ended: success returns 0
   * and leaves everything alone; a domain error returns what `fill` returns,
   * the engine's code; a panic returns the InternalFault sentinel and reports
   * a generic message.
   */
  function FfiExecSpec(m: Mem, error: Option<Rec>, caught: Outcome<()>): (r: Returned)
    requires m.Valid()
    ensures r.mem.Valid()
    ensures r.code == 0 <==> caught.Done?
    ensures r.code != INVALID_INPUT
    ensures caught.Done? ==> r.mem == m && r.err == error
    ensures caught.Failed? ==> r == FillSpec(m, error, caught.error)
    ensures caught.Failed? ==> Reported(m, error, caught.error.code.Code(), caught.error.description, r)
    ensures caught.Panicked? ==> Reported(m, error, INTERNAL_FAULT, "Rust panic occurred", r)
    ensures r.mem.decoders == m.decoders && r.mem.encoders == m.encoders && r.mem.calls == m.calls
  {
    match caught
    case Done(_) => Returned(m, error, 0)
    case Failed(e) => FillSpec(m, error, e)
    case Panicked => ReportSpec(m, error, INTERNAL_FAULT, "Rust panic occurred")
  }

  /**
   * `free_opus_error(e)`: null is a no-op; otherwise the boxed record is
   * dropped, which releases its message if it is non-null.
   */
  function FreeOpusErrorSpec(m: Mem, e: Option<Rec>): (r: Mem)
    requires m.Valid() && Releasable(m, e)
    ensures r.Valid()
    ensures e.None? ==> r == m
    ensures r.strings.Keys == m.strings.Keys - Held(e)
    ensures |r.strings| == |m.strings| - |Held(e)|
    ensures forall k | k in r.strings :: r.strings[k] == m.strings[k]
    ensures r.decoders == m.decoders && r.encoders == m.encoders && r.calls == m.calls
  {
    if e.Some? then DropSpec(m, e.value).0 else m
  }

  /**
   * No leak on the error path: a record that held no message when a call
   * reported into it, released afterwards with `free_opus_error`, leaves
   * exactly the strings that were live before the call.
   */
  lemma ReportThenFreeRestores(m: Mem, error: Rec, code: int, text: string, r: Returned)
    requires m.Valid() && r.mem.Valid() && error.message.None?
    requires Reported(m, Some(error), code, text, r)
    ensures Releasable(r.mem, r.err)
    ensures FreeOpusErrorSpec(r.mem, r.err).strings == m.strings
  {
    var after := FreeOpusErrorSpec(r.mem, r.err);
    assert after.strings.Keys == m.strings.Keys;
  }

  /**
   * No leak on the error path for a record on the caller's stack: an empty
   * record reported into, whose message the caller then releases with
   * `free_c_string`, leaves exactly the strings that were live before the
   * call, and the record keeps its code with a null message.
   */
  lemma ReportThenFreeCStringRestores(m: Mem, error: Rec, code: int, text: string, r: Returned)
    requires m.Valid() && r.mem.Valid() && error.message.None?
    requires Reported(m, Some(error), code, text, r)
    ensures Releasable(r.mem, r.err)
    ensures FreeCStringSpec(r.mem, r.err).0.strings == m.strings
    ensures FreeCStringSpec(r.mem, r.err).1 == Some(Rec(code, None))
  {
    var after := FreeCStringSpec(r.mem, r.err).0;
    assert after.strings.Keys == m.strings.Keys;
  }

  /**
   * Releasing a record's message with `free_c_string` nulls it, so a later
   * `free_opus_error` of the same record releases nothing more: the message
   * is freed exactly once.
   */
  lemma FreeCStringThenFreeOpusError(m: Mem, e: Rec)
    requires m.Valid() && Releasable(m, Some(e))
    ensures var (m1, e1) := FreeCStringSpec(m, Some(e));
      && e1.Some? && Releasable(m1, e1)
      && FreeOpusErrorSpec(m1, e1) == m1
      && m1.strings.Keys == m.strings.Keys - Held(Some(e))
  {
  }

  method Report(heap: Heap, error: OpusError?, code: int, text: string) returns (r: int)
    requires heap.Valid()
    modifies heap, error
    ensures heap.Valid()
    ensures Returned(heap.State(), ValueOf(error), r) == ReportSpec(old(heap.State()), old(ValueOf(error)), code, text)
  {
    if error != null {
      error.code := code;
      var message := heap.NewString(text);
      error.message := Some(message);
    }
    r := code;
  }

  method InvalidInput(heap: Heap, error: OpusError?) returns (code: int)
    requires heap.Valid()
    modifies heap, error
    ensures heap.Valid()
    ensures Returned(heap.State(), ValueOf(error), code) == InvalidInputSpec(old(heap.State()), old(ValueOf(error)))
  {
    code := Report(heap, error, INVALID_INPUT, "Invalid input");
  }

  method FfiExec(heap: Heap, error: OpusError?, caught: Outcome<()>) returns (code: int)
    requires heap.Valid()
    modifies heap, error
    ensures heap.Valid()
    ensures Returned(heap.State(), ValueOf(error), code) == FfiExecSpec(old(heap.State()), old(ValueOf(error)), caught)
  {
    match caught {
      case Done(_) =>
        code := 0;
      case Failed(e) =>
        code := Fill(heap, error, e);
      case Panicked =>
        code := Report(heap, error, INTERNAL_FAULT, "Rust panic occurred");
    }
  }

  method FreeOpusError(heap: Heap, e: OpusError?)
    requires heap.Valid() && Releasable(heap.State(), ValueOf(e))
    modifies heap, e
    ensures heap.Valid()
    ensures heap.State() == FreeOpusErrorSpec(old(heap.State()), old(ValueOf(e)))
  {
    if e != null {
      Drop(heap, e);
    }
  }
}

/**
 * The error channel of rust/src/error.rs: converting an engine error into a
 * record that owns a new C string (`From<Error>`), releasing a record's
 * string when the record is dropped (`Drop`), and moving a converted error
 * into the caller's record (`OpusError::fill`).
 */
module ErrorChannel {
  import opened Wrappers
  import opened Engine
  import opened World
  import opened Records
  import opened CStrings

  /** `OpusError::from(e)`: the engine's code and a new live C string holding its description. */
  function FromErrorSpec(m: Mem, e: EngineError): (r: (Mem, Rec))
    requires m.Valid()
    ensures r.0.Valid() && Releasable(r.0, Some(r.1))
    ensures r.1.code == e.code.Code() && r.1.message.Some?
    ensures r.1.message.value !in m.strings
    ensures r.0.strings == m.strings[r.1.message.value := e.description]
    ensures |r.0.strings| == |m.strings| + 1
    ensures r.0.decoders == m.decoders && r.0.encoders == m.encoders && r.0.calls == m.calls
  {
    var (m', id) := m.AddString(e.description);
    (m', Rec(e.code.Code(), Some(id)))
  }

  /** `drop` of an `OpusError`: a non-null message is released once, through `free_c_string`; null is left alone. */
  function DropSpec(m: Mem, rec: Rec): (r: (Mem, Rec))
    requires m.Valid() && Releasable(m, Some(rec))
    ensures r.0.Valid()
    ensures r.1 == Rec(rec.code, None)
    ensures r.0.strings.Keys == m.strings.Keys - Held(Some(rec))
    ensures |r.0.strings| == |m.strings| - |Held(Some(rec))|
    ensures forall k | k in r.0.strings :: r.0.strings[k] == m.strings[k]
    ensures rec.message.None? ==> r.0 == m
    ensures r.0.decoders == m.decoders && r.0.encoders == m.encoders && r.0.calls == m.calls
  {
    if rec.message.Some? then
      var (m', slot) := FreeCStringSpec(m, Some(rec));
      (m', slot.value)
    else
      (m, rec)
  }

  /**
   * `OpusError::fill(out, origin)`: returns the engine's code whether or not
   * `out` is null; with a record, the record ends up owning the one new
   * string and the temporary owns nothing; without one, the temporary's drop
   * releases the string, so no new string stays live.
   */
  function FillSpec(m: Mem, out: Option<Rec>, origin: EngineError): (r: Returned)
    requires m.Valid()
    ensures r.mem.Valid() && Releasable(r.mem, r.err)
    ensures Reported(m, out, origin.code.Code(), origin.description, r)
  {
    var (m1, err) := FromErrorSpec(m, origin);
    if out.Some? then
      var written := Rec(err.code, err.message);
      var (m2, _) := DropSpec(m1, err.(message := None));
      assert m2 == m1;
      Returned(m2, Some(written), err.code)
    else
      var (m2, _) := DropSpec(m1, err);
      assert m2.strings == m.strings;
      Returned(m2, None, err.code)
  }

  method FromError(heap: Heap, e: EngineError) returns (err: OpusError)
    requires heap.Valid()
    modifies heap
    ensures heap.Valid() && fresh(err)
    ensures (heap.State(), err.Value()) == FromErrorSpec(old(heap.State()), e)
  {
    var message := heap.NewString(e.description);
    err := new OpusError(e.code.Code(), Some(message));
  }

  method Drop(heap: Heap, err: OpusError)
    requires heap.Valid() && Releasable(heap.State(), Some(err.Value()))
    modifies heap, err
    ensures heap.Valid()
    ensures (heap.State(), err.Value()) == DropSpec(old(heap.State()), old(err.Value()))
  {
    if err.message.Some? {
      FreeCString(heap, err);
    }
  }

  method Fill(heap: Heap, out: OpusError?, origin: EngineError) returns (code: int)
    requires heap.Valid()
    modifies heap, out
    ensures heap.Valid()
    ensures Returned(heap.State(), ValueOf(out), code) == FillSpec(old(heap.State()), old(ValueOf(out)), origin)
  {
    var err := FromError(heap, origin);
    if out != null {
      out.code := err.code;
      out.message := err.message;
      err.message := None;
    }
    Drop(heap, err);
    code := err.code;
  }
}

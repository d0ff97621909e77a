/**
 * The shape shared by the four codec session adapters of
 * rust/src/decoder.rs and rust/src/encoder.rs: the closure each one hands to
 * `ffi_exec`, which enters the engine with the bound views and writes the
 * produced size only when the engine succeeds.
 */
module Adapter {
  import opened Wrappers
  import opened Engine
  import opened World
  import opened Records
  import opened Guard

  /** What a constructor entry point leaves: the report and the caller's handle slot (None: null pointer). */
  datatype Created = Created(ret: Returned, result: Option<Option<HandleId>>)

  /** What a processing entry point leaves: the report and the caller's size slot (None: null pointer). */
  datatype Processed = Processed(ret: Returned, size: Option<nat>)

  /** None of the four required pointers is null. */
  predicate AllNonNull<A, B, C, D>(a: Option<A>, b: Option<B>, c: Option<C>, d: Option<D>) {
    a.Some? && b.Some? && c.Some? && d.Some?
  }

  /** The memory a caller's pointer designates, or `None` for a null pointer. */
  function Contents<T>(a: array?<T>): (r: Option<seq<T>>)
    reads a
    ensures r.None? <==> a == null
    ensures a != null ==> r.value == a[..]
  {
    if a == null then None else Some(a[..])
  }

  /** How many elements a caller's buffer really holds, or `None` for a null pointer. */
  function Capacity<T>(a: array?<T>): (r: Option<nat>)
    ensures r.None? <==> a == null
    ensures a != null ==> r.value == a.Length
  {
    if a == null then None else Some(a.Length)
  }

  /**
   * The guarded processing call once every pointer is known to be non-null:
   * the engine is entered exactly once with `call`; the size slot receives
   * the engine's count only on success; the code is what `ffi_exec` returns.
   */
  function ProcessSpec(m: Mem, call: EngineCall, size: nat, error: Option<Rec>, answer: Outcome<nat>): (r: Processed)
    requires m.Valid()
    ensures r.ret.mem.Valid()
    ensures r.ret.mem.calls == m.calls + [call]
    ensures r.ret.mem.decoders == m.decoders && r.ret.mem.encoders == m.encoders
    ensures r.size == Some(if answer.Done? then answer.value else size)
    ensures r.ret.code == 0 <==> answer.Done?
    ensures answer.Done? ==> r.ret.err == error && r.ret.mem.strings == m.strings
    ensures answer.Failed? ==>
      Reported(m.Enter(call), error, answer.error.code.Code(), answer.error.description, r.ret)
    ensures answer.Panicked? ==> Reported(m.Enter(call), error, INTERNAL_FAULT, "Rust panic occurred", r.ret)
  {
    var ret := FfiExecSpec(m.Enter(call), error, Discard(answer));
    Processed(ret, Some(if answer.Done? then answer.value else size))
  }

  method Process(heap: Heap, call: EngineCall, size: Slot<nat>, error: OpusError?, answer: Outcome<nat>) returns (code: int)
    requires heap.Valid()
    modifies heap, size, error
    ensures heap.Valid()
    ensures Processed(Returned(heap.State(), ValueOf(error), code), Some(size.value))
         == ProcessSpec(old(heap.State()), call, old(size.value), old(ValueOf(error)), answer)
  {
    heap.Enter(call);
    if answer.Done? {
      size.value := answer.value;
    }
    code := FfiExec(heap, error, Discard(answer));
  }
}

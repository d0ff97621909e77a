/**
 * `free_c_string` (rust/src/utils.rs): release a C string this layer
 * allocated and null the slot that held it. The slot is the `message` field
 * of an `OpusError`, which is what every caller passes.
 */
module CStrings {
  import opened Wrappers
  import opened World
  import opened Records

  /** The effect of `free_c_string(p)` where `p` points at the `message` field of the record `p` designates. */
  function FreeCStringSpec(m: Mem, p: Option<Rec>): (r: (Mem, Option<Rec>))
    requires m.Valid() && Releasable(m, p)
    ensures r.0.Valid() && Releasable(r.0, r.1)
    // a null slot pointer, or a slot that already holds null: nothing at all happens
    ensures Held(p) == {} ==> r == (m, p)
    // otherwise exactly the held string is released and the slot is nulled; the code is untouched
    ensures p.Some? ==> r.1 == Some(Rec(p.value.code, None))
    ensures p.None? ==> r.1.None?
    ensures r.0.strings.Keys == m.strings.Keys - Held(p)
    ensures |r.0.strings| == |m.strings| - |Held(p)|
    ensures forall k | k in r.0.strings :: r.0.strings[k] == m.strings[k]
    ensures r.0.decoders == m.decoders && r.0.encoders == m.encoders && r.0.calls == m.calls
  {
    if p.Some? && p.value.message.Some? then
      (m.RemoveString(p.value.message.value), Some(p.value.(message := None)))
    else
      (m, p)
  }

  /** Releasing a slot twice is harmless: the first release nulls it, so the second finds nothing to free. */
  lemma FreeCStringIdempotent(m: Mem, p: Option<Rec>)
    requires m.Valid() && Releasable(m, p)
    ensures var r := FreeCStringSpec(m, p); FreeCStringSpec(r.0, r.1) == r
  {
  }

  method FreeCString(heap: Heap, p: OpusError?)
    requires heap.Valid() && Releasable(heap.State(), ValueOf(p))
    modifies heap, p
    ensures heap.Valid()
    ensures (heap.State(), ValueOf(p)) == FreeCStringSpec(old(heap.State()), old(ValueOf(p)))
  {
    if p != null {
      if p.message.Some? {
        heap.ReleaseString(p.message.value);
        p.message := None;
      }
    }
  }
}

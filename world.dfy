/**
 * The process state this layer touches: the C strings it has allocated and
 * not yet released, the codec sessions it has boxed and not yet freed, and
 * the calls it has made into the engine. `Mem` is that state as a value;
 * `Heap` holds it in mutable fields.
 */
module World {
  import opened Wrappers
  import opened Engine

  /** Identity of a C string allocated with `CString::into_raw`. */
  type MsgId = nat

  datatype Mem = Mem(
    strings: map<MsgId, string>,   // live C strings and their text
    decoders: set<HandleId>,       // live boxed decoders
    encoders: set<HandleId>,       // live boxed encoders
    next: nat,                     // every identity handed out so far is below this
    calls: seq<EngineCall>)        // the engine's calls, oldest first
  {
    /** No live object has an identity that has not yet been handed out, and a handle has one kind. */
    predicate Valid() {
      && (forall id | id in strings :: id < next)
      && (forall h | h in decoders :: h < next)
      && (forall h | h in encoders :: h < next)
      && decoders !! encoders
    }

    /** `CString::new(text).into_raw()`: a new live string that no live object shares. */
    function AddString(text: string): (r: (Mem, MsgId))
      requires Valid()
      ensures r.0.Valid()
      ensures r.1 !in strings && r.0.strings == strings[r.1 := text]
      ensures |r.0.strings| == |strings| + 1
      ensures r.0.decoders == decoders && r.0.encoders == encoders && r.0.calls == calls
    {
      (this.(strings := strings[next := text], next := next + 1), next)
    }

    /** `CString::from_raw(p)` dropped: the string is no longer live. */
    function RemoveString(id: MsgId): (r: Mem)
      requires Valid() && id in strings
      ensures r.Valid()
      ensures id !in r.strings && r.strings.Keys == strings.Keys - {id}
      ensures forall k | k in r.strings :: r.strings[k] == strings[k]
      ensures r.decoders == decoders && r.encoders == encoders && r.calls == calls
    {
      this.(strings := strings - {id})
    }

    /** `Box::into_raw(Box::new(decoder))`: a fresh live decoder handle. */
    function AddDecoder(): (r: (Mem, HandleId))
      requires Valid()
      ensures r.0.Valid()
      ensures r.1 !in decoders && r.1 !in encoders && r.0.decoders == decoders + {r.1}
      ensures r.0.strings == strings && r.0.encoders == encoders && r.0.calls == calls
    {
      (this.(decoders := decoders + {next}, next := next + 1), next)
    }

    /** `Box::from_raw(decoder)` dropped. */
    function RemoveDecoder(h: HandleId): (r: Mem)
      requires Valid() && h in decoders
      ensures r.Valid()
      ensures r.decoders == decoders - {h} && |r.decoders| == |decoders| - 1
      ensures r.strings == strings && r.encoders == encoders && r.calls == calls
    {
      this.(decoders := decoders - {h})
    }

    /** `Box::into_raw(Box::new(encoder))`: a fresh live encoder handle. */
    function AddEncoder(): (r: (Mem, HandleId))
      requires Valid()
      ensures r.0.Valid()
      ensures r.1 !in encoders && r.1 !in decoders && r.0.encoders == encoders + {r.1}
      ensures r.0.strings == strings && r.0.decoders == decoders && r.0.calls == calls
    {
      (this.(encoders := encoders + {next}, next := next + 1), next)
    }

    /** `Box::from_raw(encoder)` dropped. */
    function RemoveEncoder(h: HandleId): (r: Mem)
      requires Valid() && h in encoders
      ensures r.Valid()
      ensures r.encoders == encoders - {h} && |r.encoders| == |encoders| - 1
      ensures r.strings == strings && r.decoders == decoders && r.calls == calls
    {
      this.(encoders := encoders - {h})
    }

    /** The engine is entered with `c`. */
    function Enter(c: EngineCall): (r: Mem)
      requires Valid()
      ensures r.Valid() && r.calls == calls + [c] && r.calls[|calls|] == c
      ensures r.strings == strings && r.decoders == decoders && r.encoders == encoders
    {
      this.(calls := calls + [c])
    }
  }

  /** The same state, held in fields that the entry points update in place. */
  class Heap {
    var strings: map<MsgId, string>
    var decoders: set<HandleId>
    var encoders: set<HandleId>
    var next: nat
    var calls: seq<EngineCall>

    function State(): Mem
      reads this
    {
      Mem(strings, decoders, encoders, next, calls)
    }

    ghost predicate Valid()
      reads this
    {
      State().Valid()
    }

    constructor ()
      ensures Valid() && State() == Mem(map[], {}, {}, 0, [])
    {
      strings, decoders, encoders, next, calls := map[], {}, {}, 0, [];
    }

    method NewString(text: string) returns (id: MsgId)
      requires Valid()
      modifies this
      ensures Valid() && (State(), id) == old(State()).AddString(text)
    {
      id := next;
      strings := strings[id := text];
      next := next + 1;
    }

    method ReleaseString(id: MsgId)
      requires Valid() && id in strings
      modifies this
      ensures Valid() && State() == old(State()).RemoveString(id)
    {
      strings := strings - {id};
    }

    method BoxDecoder() returns (h: HandleId)
      requires Valid()
      modifies this
      ensures Valid() && (State(), h) == old(State()).AddDecoder()
    {
      h := next;
      decoders := decoders + {h};
      next := next + 1;
    }

    method UnboxDecoder(h: HandleId)
      requires Valid() && h in decoders
      modifies this
      ensures Valid() && State() == old(State()).RemoveDecoder(h)
    {
      decoders := decoders - {h};
    }

    method BoxEncoder() returns (h: HandleId)
      requires Valid()
      modifies this
      ensures Valid() && (State(), h) == old(State()).AddEncoder()
    {
      h := next;
      encoders := encoders + {h};
      next := next + 1;
    }

    method UnboxEncoder(h: HandleId)
      requires Valid() && h in encoders
      modifies this
      ensures Valid() && State() == old(State()).RemoveEncoder(h)
    {
      encoders := encoders - {h};
    }

    method Enter(c: EngineCall)
      requires Valid()
      modifies this
      ensures Valid() && State() == old(State()).Enter(c)
    {
      calls := calls + [c];
    }
  }

  /** A caller-owned out-parameter (`*mut usize`, `*mut *mut Decoder`); a null pointer is a null `Slot`. */
  class Slot<T> {
    var value: T

    constructor (v: T)
      ensures value == v
    {
      value := v;
    }
  }

  /** What a caller's out-parameter holds, or `None` when the pointer is null. */
  function SlotValue<T>(s: Slot?<T>): (r: Option<T>)
    reads s
    ensures r.None? <==> s == null
    ensures s != null ==> r.value == s.value
  {
    if s == null then None else Some(s.value)
  }
}

/**
 * The engine's `Pool<T>`: a dense slot container addressed by handles. A handle names a
 * slot; a freed slot stays in place, so handles to other entities stay valid, and a freed
 * handle is no longer contained. `NoHandle` is `Handle::NONE` and is never contained.
 */
module Pools {
  import opened Common

  datatype Handle = NoHandle | Slot(index: nat)

  datatype Pool<T> = Pool(slots: seq<Option<T>>)

  predicate Contains<T>(p: Pool<T>, h: Handle)
  {
    h.Slot? && h.index < |p.slots| && p.slots[h.index].Some?
  }

  function Get<T>(p: Pool<T>, h: Handle): T
    requires Contains(p, h)
  {
    p.slots[h.index].value
  }

  /** Replaces the entity at `h`; every other slot is untouched. */
  function Set<T>(p: Pool<T>, h: Handle, v: T): (r: Pool<T>)
    requires Contains(p, h)
    ensures |r.slots| == |p.slots|
    ensures Contains(r, h) && Get(r, h) == v
    ensures forall i :: 0 <= i < |p.slots| && i != h.index ==> r.slots[i] == p.slots[i]
  {
    Pool(p.slots[h.index := Some(v)])
  }

  /** Frees the slot at `h`: the handle stops being contained, every other slot is untouched. */
  function Free<T>(p: Pool<T>, h: Handle): (r: Pool<T>)
    requires Contains(p, h)
    ensures |r.slots| == |p.slots|
    ensures !Contains(r, h)
    ensures forall i :: 0 <= i < |p.slots| && i != h.index ==> r.slots[i] == p.slots[i]
  {
    Pool(p.slots[h.index := None])
  }

  /**
   * Adds an entity and returns its handle. The new handle was not contained before and
   * every existing slot is untouched. Slots are never reused here.
   */
  function Spawn<T>(p: Pool<T>, v: T): (r: (Pool<T>, Handle))
    ensures !Contains(p, r.1)
    ensures Contains(r.0, r.1) && Get(r.0, r.1) == v
    ensures |r.0.slots| == |p.slots| + 1
    ensures r.0.slots[..|p.slots|] == p.slots
  {
    (Pool(p.slots + [Some(v)]), Slot(|p.slots|))
  }

  /** Applies `f` to every live entity, keeping slot positions (the engine's `iter_mut`). */
  function MapPool<T, U>(p: Pool<T>, f: T -> U): (r: Pool<U>)
    ensures |r.slots| == |p.slots|
    ensures forall h :: Contains(r, h) <==> Contains(p, h)
    ensures forall h :: Contains(p, h) ==> Get(r, h) == f(Get(p, h))
    ensures forall i :: 0 <= i < |p.slots| ==>
      r.slots[i] == (if p.slots[i].Some? then Some(f(p.slots[i].value)) else None)
  {
    Pool(seq(|p.slots|, i requires 0 <= i < |p.slots| =>
      match p.slots[i]
      case None => None
      case Some(v) => Some(f(v))))
  }
}

/** The mutex-guarded queue shared by the connection's write queue (pendingWrites, pendingBytes,
    writeActive) and a stream's ingress queue (pendingIngress, pendingIngBytes, ingressWriting).
    Each method is one critical section; what other threads can see is its effect on Guarded. */
module BatchQueue {
  import opened Wrappers

  /** The fields the mutex protects. */
  datatype Guarded<T> = Guarded(pending: seq<T>, bytes: int, active: bool)

  /** Outcome of offering one item: over the cap, appended behind a running writer, or appended
      by a submitter that must start the writer itself. */
  datatype Admission = Refused | Queued | QueuedAndStart

  function TotalSize<T>(size: T -> nat, items: seq<T>): nat
  {
    if items == [] then 0 else size(items[0]) + TotalSize(size, items[1..])
  }

  function Offer<T>(g: Guarded<T>, size: T -> nat, cap: nat, item: T): (Guarded<T>, Admission)
  {
    if g.bytes + size(item) > cap then (g, Refused)
    else (Guarded(g.pending + [item], g.bytes + size(item), true), if g.active then Queued else QueuedAndStart)
  }

  /** The writer's section: leave if there is nothing, else swap the whole queue out. */
  function TakeAll<T>(g: Guarded<T>, size: T -> nat): (Guarded<T>, Option<seq<T>>)
  {
    if g.pending == [] then (g.(active := false), None)
    else (Guarded([], g.bytes - TotalSize(size, g.pending), g.active), Some(g.pending))
  }

  function Deactivate<T>(g: Guarded<T>): Guarded<T> { g.(active := false) }

  function DropAll<T>(g: Guarded<T>): (Guarded<T>, seq<T>) { (Guarded([], 0, g.active), g.pending) }

  /** The byte count is the summed length of what is queued, and within the cap. */
  ghost predicate Counted<T>(g: Guarded<T>, size: T -> nat, cap: nat)
  {
    g.bytes == TotalSize(size, g.pending) <= cap
  }

  lemma {:induction false} TotalSizeAppend<T>(size: T -> nat, a: seq<T>, b: seq<T>)
    ensures TotalSize(size, a + b) == TotalSize(size, a) + TotalSize(size, b)
    decreases |a|
  {
    if a == [] {
      assert a + b == b;
    } else {
      assert (a + b)[0] == a[0] && (a + b)[1..] == a[1..] + b;
      TotalSizeAppend(size, a[1..], b);
    }
  }

  /** No critical section loses count of the queued bytes or passes the cap. */
  lemma SectionsKeepCount<T>(g: Guarded<T>, size: T -> nat, cap: nat, item: T)
    requires Counted(g, size, cap)
    ensures Counted(Offer(g, size, cap, item).0, size, cap)
    ensures Counted(TakeAll(g, size).0, size, cap)
    ensures Counted(Deactivate(g), size, cap)
    ensures Counted(DropAll(g).0, size, cap)
  {
    TotalSizeAppend(size, g.pending, [item]);
    assert [item][1..] == [];
  }

  /** An item is refused exactly when it would take the queued bytes past the cap. */
  lemma OfferRefuses<T>(g: Guarded<T>, size: T -> nat, cap: nat, item: T)
    requires Counted(g, size, cap)
    ensures var (h, a) := Offer(g, size, cap, item);
      && (a.Refused? <==> TotalSize(size, g.pending) + size(item) > cap)
      && (a.Refused? ==> h == g)
      && (!a.Refused? ==> h.pending == g.pending + [item] && h.active)
      && (a.QueuedAndStart? <==> !a.Refused? && !g.active)
  {
  }

  class Queue<T> {
    const size: T -> nat
    const cap: nat
    var pending: seq<T>
    var bytes: int
    var active: bool

    function View(): Guarded<T>
      reads this
    {
      Guarded(pending, bytes, active)
    }

    ghost predicate Valid()
      reads this
    {
      Counted(View(), size, cap)
    }

    constructor (size: T -> nat, cap: nat)
      ensures Valid() && View() == Guarded([], 0, false)
      ensures this.size == size && this.cap == cap
    {
      this.size, this.cap := size, cap;
      pending, bytes, active := [], 0, false;
    }

    method Submit(item: T) returns (a: Admission)
      requires Valid()
      modifies this
      ensures Valid() && (View(), a) == Offer(old(View()), size, cap, item)
      ensures a.Refused? <==> TotalSize(size, old(pending)) + size(item) > cap
      ensures a.Refused? ==> pending == old(pending) && active == old(active)
      ensures !a.Refused? ==> pending == old(pending) + [item] && active
      ensures a.QueuedAndStart? <==> !a.Refused? && !old(active)
    {
      SectionsKeepCount(View(), size, cap, item);
      if bytes + size(item) > cap {
        return Refused;
      }
      pending := pending + [item];
      bytes := bytes + size(item);
      if active {
        return Queued;
      }
      active := true;
      return QueuedAndStart;
    }

    method TakeBatch() returns (taken: Option<seq<T>>)
      requires Valid()
      modifies this
      ensures Valid() && (View(), taken) == TakeAll(old(View()), size)
      ensures pending == [] && (taken.None? <==> old(pending) == [])
      ensures taken.Some? ==> taken.value == old(pending) && active == old(active)
      ensures taken.None? ==> !active
    {
      if pending == [] {
        active := false;
        return None;
      }
      var batch := pending;
      pending := [];
      var batchBytes := 0;
      for i := 0 to |batch|
        invariant batchBytes == TotalSize(size, batch[..i])
        invariant View() == old(View()).(pending := [])
      {
        assert batch[..i + 1] == batch[..i] + [batch[i]];
        TotalSizeAppend(size, batch[..i], [batch[i]]);
        assert [batch[i]][1..] == [];
        batchBytes := batchBytes + size(batch[i]);
      }
      assert batch[..|batch|] == batch;
      bytes := bytes - batchBytes;
      return Some(batch);
    }

    method ClearActive()
      requires Valid()
      modifies this`active
      ensures Valid() && View() == Deactivate(old(View())) && !active
    {
      active := false;
    }

    method Drain() returns (drained: seq<T>)
      requires Valid()
      modifies this`pending, this`bytes
      ensures Valid() && (View(), drained) == DropAll(old(View()))
      ensures drained == old(pending) && pending == []
    {
      drained := pending;
      pending := [];
      bytes := 0;
    }
  }
}

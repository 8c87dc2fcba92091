/** The stream table, its cache and the stream count updated in place by whole calls: each method is
    one call that no other thread interrupts, and a run of the interleaved system of StreamTable. */
module StreamTableCalls {
  import opened Wrappers
  import opened Runs
  import opened StreamTable

  class Streams {
    const max: nat
    var objs: seq<Obj>
    var table: map<nat, nat>
    var cache: map<nat, nat>
    var count: int
    // every DATA taken by a stream, with the holder of its id
    ghost var delivered: seq<(nat, nat, Option<nat>)>

    ghost function View(): State
      reads this
    {
      State(objs, table, cache, count, Idle, delivered, {})
    }

    /** The invariant of the interleaved system, with no call under way. */
    ghost predicate Valid()
      reads this
    {
      Settled(max, View())
    }

    constructor (max: nat)
      ensures Valid() && View() == Init() && this.max == max
    {
      this.max, objs, table, cache, count, delivered := max, [], map[], map[], 0, [];
    }

    /** handleDataPacket's lookup: through the cache, the answer is the table's. */
    method Find(id: nat) returns (target: Option<nat>)
      requires Valid()
      modifies this`cache, this`delivered
      ensures Valid() && Reaches(Steps(max), old(View()), View())
      ensures target == Lookup(table, id)
      ensures delivered == old(delivered) + if target.Some? then [(id, target.value, target)] else []
      ensures cache == if target.Some? then old(cache)[Slot(id) := target.value] else old(cache)
    {
      ghost var s := View();
      FindRun(max, s, id);
      if Slot(id) in cache && objs[cache[Slot(id)]].id == id {
        target := Some(cache[Slot(id)]);
      } else if id in table {
        target := Some(table[id]);
        cache := cache[Slot(id) := table[id]];
      } else {
        target := None;
      }
      delivered := Found(s, id).delivered;
      assert View() == Found(s, id);
    }

    /** handleConnectPacket: a new stream unless the limit is reached or the id is taken. */
    method Connect(id: nat) returns (k: Option<nat>)
      requires Valid()
      modifies this`objs, this`table, this`count
      ensures Valid() && Reaches(Steps(max), old(View()), View())
      ensures k.None? <==> (max > 0 && |old(table)| >= max) || id in old(table)
      ensures View() == if k.None? then old(View()) else Connected(old(View()), id)
      ensures k.Some? ==> k.value == |old(objs)|
    {
      ghost var s := View();
      SettledCount(max, s);
      ConnectRun(max, s, id);
      if max > 0 && count >= max {
        return None;
      }
      if id in table {
        return None;
      }
      k := Some(|objs|);
      table := table[id := |objs|];
      objs := objs + [Obj(id, Open)];
      count := count + 1;
      assert View() == Connected(s, id);
    }

    /** stream.close with deleteWispStream: once per stream; table and slot forget it, nothing else moves. */
    method Close(k: nat) returns (won: bool)
      requires Valid() && k < |objs|
      modifies this`objs, this`table, this`cache, this`count
      ensures Valid() && Reaches(Steps(max), old(View()), View())
      ensures won == old(objs[k].phase.Open?)
      ensures View() == if won then ClosedState(old(View()), k) else old(View())
      ensures forall slot <- old(cache) :: slot in cache <==> old(cache)[slot] != k
    {
      ghost var s := View();
      ClosedSlots(max, s, k);
      if !objs[k].phase.Open? {
        ReachesSelf(Steps(max), s);
        return false;
      }
      CloseRun(max, s, k);
      Delete(k);
      return true;
    }

    /** deleteWispStream: the entry, the slot if it holds a stream of that id, the count. */
    method Delete(k: nat)
      requires k < |objs| && forall slot <- cache :: cache[slot] < |objs|
      modifies this`objs, this`table, this`cache, this`count
      ensures View() == ClosedState(old(View()), k)
    {
      var id := objs[k].id;
      table := table - {id};
      if Slot(id) in cache && objs[cache[Slot(id)]].id == id {
        cache := cache - {Slot(id)};
      }
      count := count - 1;
      objs := objs[k := objs[k].(phase := Closed)];
    }
  }

  ghost predicate Settled(max: nat, s: State)
  {
    Inv(max, s) && s.reader == Idle && s.raced == {} && forall o <- s.objs :: o.phase.Open? || o.phase.Closed?
  }

  lemma SettledCount(max: nat, s: State)
    requires Settled(max, s)
    ensures s.count == |s.table|
  {
    SameCounts(s.objs);
  }

  lemma Begin(max: nat, s: State, a: Action, u: State)
    requires Step(max, s, a) == Some(u)
    ensures Reaches(Steps(max), s, u)
  {
    ReachesSelf(Steps(max), s);
    ReachesStep(Steps(max), s, s, a, u);
  }

  lemma ReachedKeepsInv(max: nat, s: State, t: State)
    requires Inv(max, s) && Reaches(Steps(max), s, t)
    ensures Inv(max, t)
  {
    var inv := (s: State) => Inv(max, s);
    forall s: State, a: Action | inv(s) && Steps(max)(s, a).Some?
      ensures inv(Steps(max)(s, a).value)
    {
      StepKeepsInv(max, s, a, Step(max, s, a).value);
    }
    ReachableInvariance(Steps(max), inv, s, t);
  }

  // ---------------------------------------------------------------- the runs the calls are

  function Found(s: State, id: nat): State
  {
    match Lookup(s.table, id)
    case None => s
    case Some(k) => s.(cache := s.cache[Slot(id) := k], delivered := s.delivered + [(id, k, Some(k))])
  }

  /** With nothing under way a cached stream is open and the holder of its id. */
  lemma CachedIsHolder(max: nat, s: State, id: nat)
    requires Settled(max, s)
    ensures CacheHit(s, id).Some? ==> CacheHit(s, id) == Lookup(s.table, id)
    ensures Lookup(s.table, id).Some? ==> s.table[id] < |s.objs| && s.objs[s.table[id]] == Obj(id, Open)
  {
    if CacheHit(s, id).Some? {
      assert s.objs[s.cache[Slot(id)]] in s.objs;
    }
  }

  lemma FindRun(max: nat, s: State, id: nat)
    requires Settled(max, s)
    ensures Reaches(Steps(max), s, Found(s, id)) && Settled(max, Found(s, id))
    ensures CacheHit(s, id).Some? ==> CacheHit(s, id) == Lookup(s.table, id)
    ensures CacheHit(s, id).Some? ==> s.cache[Slot(id) := s.table[id]] == s.cache
  {
    CachedIsHolder(max, s, id);
    match Lookup(s.table, id)
    case None =>
      Begin(max, s, Data(id), s.(reader := AtTable(id)));
      ReachesStep(Steps(max), s, s.(reader := AtTable(id)), ReaderSteps, s);
    case Some(k) =>
      var t := s.(cache := s.cache[Slot(id) := k], reader := AtOpen(id, k));
      if CacheHit(s, id).Some? {
        assert s.cache[Slot(id) := k] == s.cache;
        Begin(max, s, Data(id), t);
      } else {
        Begin(max, s, Data(id), s.(reader := AtTable(id)));
        ReachesStep(Steps(max), s, s.(reader := AtTable(id)), ReaderSteps, s.(reader := AtStore(id, k)));
        ReachesStep(Steps(max), s, s.(reader := AtStore(id, k)), ReaderSteps, t);
      }
      ReachesStep(Steps(max), s, t, ReaderSteps, Found(s, id));
      ReachedKeepsInv(max, s, Found(s, id));
  }

  function Connected(s: State, id: nat): State
  {
    s.(objs := s.objs + [Obj(id, Open)], table := s.table[id := |s.objs|], count := s.count + 1)
  }

  lemma ConnectReaches(max: nat, s: State, id: nat)
    requires s.reader == Idle && !(max > 0 && s.count >= max) && id !in s.table
    ensures Reaches(Steps(max), s, Connected(s, id))
  {
    var t := Connected(s, id);
    Begin(max, s, Connect(id), s.(reader := AtInsert(id)));
    ReachesStep(Steps(max), s, s.(reader := AtInsert(id)), ReaderSteps, t.(reader := AtCount, count := s.count));
    ReachesStep(Steps(max), s, t.(reader := AtCount, count := s.count), ReaderSteps, t);
  }

  lemma ConnectRun(max: nat, s: State, id: nat)
    requires Settled(max, s)
    ensures Reaches(Steps(max), s, s)
    ensures !(max > 0 && s.count >= max) && id !in s.table ==>
      Reaches(Steps(max), s, Connected(s, id)) && Settled(max, Connected(s, id))
  {
    ReachesSelf(Steps(max), s);
    if !(max > 0 && s.count >= max) && id !in s.table {
      ConnectReaches(max, s, id);
      ReachedKeepsInv(max, s, Connected(s, id));
    }
  }

  function ClosedState(s: State, k: nat): State
    requires k < |s.objs|
  {
    var id := s.objs[k].id;
    SetPhase(s, k, Closed).(
      table := s.table - {id},
      cache := if CacheHit(s, id).Some? then s.cache - {Slot(id)} else s.cache,
      count := s.count - 1)
  }

  /** A close clears the slot that holds the stream, and no other. */
  lemma ClosedSlots(max: nat, s: State, k: nat)
    requires Settled(max, s) && k < |s.objs|
    ensures s.objs[k].phase.Open? ==>
      forall slot <- s.cache :: slot in ClosedState(s, k).cache <==> s.cache[slot] != k
    ensures s.objs[k].phase.Closed? ==> forall slot <- s.cache :: s.cache[slot] != k
    ensures s.objs[k].phase.Open? || s.objs[k].phase.Closed?
    ensures var id := s.objs[k].id; CacheHit(s, id).Some? <==> Slot(id) in s.cache && s.objs[s.cache[Slot(id)]].id == id
  {
    var id := s.objs[k].id;
    CachedIsHolder(max, s, id);
    assert s.objs[k] in s.objs;
  }

  lemma PhaseTwice(s: State, k: nat, p: Phase, q: Phase)
    requires k < |s.objs|
    ensures SetPhase(SetPhase(s, k, p), k, q) == SetPhase(s, k, q)
    ensures SetPhase(s, k, p).objs[k] == Obj(s.objs[k].id, p)
  {
    assert SetPhase(SetPhase(s, k, p), k, q).objs == SetPhase(s, k, q).objs;
  }

  lemma CloseReaches(max: nat, s: State, k: nat)
    requires k < |s.objs| && s.objs[k].phase.Open?
    ensures Reaches(Steps(max), s, ClosedState(s, k))
  {
    var gone := s.(table := s.table - {s.objs[k].id});
    PhaseTwice(s, k, Closing, Deleted);
    Begin(max, s, CloseCalled(k), SetPhase(s, k, Closing));
    ReachesStep(Steps(max), s, SetPhase(s, k, Closing), CloserSteps(k), SetPhase(gone, k, Deleted));
    ClearSlot(max, s, gone, k);
    var cleared := Cleared(gone, s.objs[k].id);
    PhaseTwice(cleared, k, SlotDone, Closed);
    ReachesStep(Steps(max), s, SetPhase(cleared, k, SlotDone), CloserSteps(k), ClosedState(s, k));
  }

  lemma CloseRun(max: nat, s: State, k: nat)
    requires Settled(max, s) && k < |s.objs| && s.objs[k].phase.Open?
    ensures Reaches(Steps(max), s, ClosedState(s, k)) && Settled(max, ClosedState(s, k))
  {
    CloseReaches(max, s, k);
    ReachedKeepsInv(max, s, ClosedState(s, k));
    assert forall o <- ClosedState(s, k).objs :: o in s.objs || o.phase.Closed?;
  }

  function Cleared(s: State, id: nat): State
  {
    if CacheHit(s, id).Some? then s.(cache := s.cache - {Slot(id)}) else s
  }

  lemma ClearSlot(max: nat, s: State, gone: State, k: nat)
    requires k < |gone.objs| && Reaches(Steps(max), s, SetPhase(gone, k, Deleted))
    ensures var id := gone.objs[k].id;
      Reaches(Steps(max), s, SetPhase(Cleared(gone, id), k, SlotDone))
  {
    var id := gone.objs[k].id;
    var t := SetPhase(gone, k, Deleted);
    assert CacheHit(t, id) == CacheHit(gone, id);
    PhaseTwice(gone, k, Deleted, SlotDone);
    match CacheHit(gone, id)
    case None => ReachesStep(Steps(max), s, t, CloserSteps(k), SetPhase(gone, k, SlotDone));
    case Some(c) =>
      PhaseTwice(gone, k, Deleted, Looked(c));
      PhaseTwice(gone, k, Looked(c), SlotDone);
      ReachesStep(Steps(max), s, t, CloserSteps(k), SetPhase(gone, k, Looked(c)));
      ReachesStep(Steps(max), s, SetPhase(gone, k, Looked(c)), CloserSteps(k), SetPhase(Cleared(gone, id), k, SlotDone));
  }
}

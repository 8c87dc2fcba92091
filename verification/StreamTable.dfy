/** The stream table of a connection and the 256-slot direct-mapped cache in front of it, used by the
    readLoop thread while any number of streams are being closed by other goroutines. */
module StreamTable {
  import opened Bytes
  import opened Wrappers
  import opened Runs

  const SLOTS: nat := 256

  function Slot(streamId: nat): nat { streamId % SLOTS }

  /** A slot is the low byte of the little-endian id, as streamId & 255 is. */
  lemma SlotIsLowByte(streamId: nat)
    ensures Slot(streamId) == LeBytes(streamId, 4)[0]
  {
  }

  /** How far a stream object's close has got: compare-and-swap won, entry deleted, cached stream
      loaded from the slot and found to carry the id, slot done with, count decremented. */
  datatype Phase = Open | Closing | Deleted | Looked(seen: nat) | SlotDone | Closed

  datatype Obj = Obj(id: nat, phase: Phase)

  /** The reader between two atomic operations: before the table load, before the slot store, before
      the isOpen load; for CONNECT before LoadOrStore and before the count is raised. */
  datatype Reader = Idle | AtTable(id: nat) | AtStore(id: nat, k: nat) | AtOpen(id: nat, k: nat) | AtInsert(id: nat) | AtCount

  /** Stream objects are numbered as they enter the table.  History: deliveries, each with the holder
      of the id at that moment, and the objects cached although their close had passed the slot. */
  datatype State = State(
    objs: seq<Obj>,
    table: map<nat, nat>,
    cache: map<nat, nat>,
    count: int,
    reader: Reader,
    delivered: seq<(nat, nat, Option<nat>)>,
    raced: set<nat>)

  function Init(): State { State([], map[], map[], 0, Idle, [], {}) }

  datatype Action = Data(id: nat) | Connect(id: nat) | ReaderSteps | CloseCalled(k: nat) | CloserSteps(k: nat)

  function Lookup(m: map<nat, nat>, key: nat): Option<nat> { if key in m then Some(m[key]) else None }

  /** The slot test of handleDataPacket: a cached stream counts only if it carries the id. */
  function CacheHit(s: State, id: nat): Option<nat>
  {
    match Lookup(s.cache, Slot(id))
    case None => None
    case Some(k) => if k < |s.objs| && s.objs[k].id == id then Some(k) else None
  }

  predicate PastSlot(o: Obj, k: nat)
  {
    o.phase.SlotDone? || o.phase.Closed? || (o.phase.Looked? && o.phase.seen != k)
  }

  function StepReader(max: nat, s: State, a: Action): Option<State>
  {
    match (s.reader, a)
    case (Idle, Data(id)) =>
      Some(s.(reader := match CacheHit(s, id) case Some(k) => AtOpen(id, k) case None => AtTable(id)))
    case (AtTable(id), ReaderSteps) =>
      Some(s.(reader := match Lookup(s.table, id) case Some(k) => AtStore(id, k) case None => Idle))
    case (AtStore(id, k), ReaderSteps) =>
      if k >= |s.objs| then None
      else Some(s.(cache := s.cache[Slot(id) := k], reader := AtOpen(id, k),
                   raced := if PastSlot(s.objs[k], k) then s.raced + {k} else s.raced))
    case (AtOpen(id, k), ReaderSteps) =>
      if k >= |s.objs| then None
      else Some(s.(reader := Idle,
                   delivered := if s.objs[k].phase.Open? then s.delivered + [(id, k, Lookup(s.table, id))] else s.delivered))
    case (Idle, Connect(id)) =>
      Some(if max > 0 && s.count >= max then s else s.(reader := AtInsert(id)))
    case (AtInsert(id), ReaderSteps) =>
      Some(if id in s.table then s.(reader := Idle)
           else s.(objs := s.objs + [Obj(id, Open)], table := s.table[id := |s.objs|], reader := AtCount))
    case (AtCount, ReaderSteps) => Some(s.(count := s.count + 1, reader := Idle))
    case _ => None
  }

  function SetPhase(s: State, k: nat, p: Phase): State
    requires k < |s.objs|
  {
    s.(objs := s.objs[k := s.objs[k].(phase := p)])
  }

  /** stream.close and deleteWispStream. */
  function StepCloser(s: State, k: nat, a: Action): Option<State>
    requires k < |s.objs|
  {
    var id := s.objs[k].id;
    match (s.objs[k].phase, a)
    case (Open, CloseCalled(_)) => Some(SetPhase(s, k, Closing))
    case (Closing, CloserSteps(_)) => Some(SetPhase(s, k, Deleted).(table := s.table - {id}))
    case (Deleted, CloserSteps(_)) =>
      Some(SetPhase(s, k, match CacheHit(s, id) case Some(c) => Looked(c) case None => SlotDone))
    case (Looked(c), CloserSteps(_)) =>
      Some(SetPhase(s, k, SlotDone).(cache := if Lookup(s.cache, Slot(id)) == Some(c) then s.cache - {Slot(id)} else s.cache))
    case (SlotDone, CloserSteps(_)) => Some(SetPhase(s, k, Closed).(count := s.count - 1))
    case _ => None
  }

  function Step(max: nat, s: State, a: Action): Option<State>
  {
    if a.CloseCalled? || a.CloserSteps? then (if a.k < |s.objs| then StepCloser(s, a.k, a) else None)
    else StepReader(max, s, a)
  }

  function Steps(max: nat): (State, Action) -> Option<State> { (s, a) => Step(max, s, a) }

  // ---------------------------------------------------------------- counting

  predicate InTable(o: Obj) { o.phase.Open? || o.phase.Closing? }

  predicate Unfinished(o: Obj) { !o.phase.Closed? }

  function CountIf(p: Obj -> bool, s: seq<Obj>): nat
  {
    if s == [] then 0 else (if p(s[0]) then 1 else 0) + CountIf(p, s[1..])
  }

  lemma {:induction false} CountUpdate(p: Obj -> bool, s: seq<Obj>, k: nat, o: Obj)
    requires k < |s|
    ensures CountIf(p, s[k := o]) == CountIf(p, s) - (if p(s[k]) then 1 else 0) + (if p(o) then 1 else 0)
    decreases |s|
  {
    if k == 0 {
      assert s[k := o][1..] == s[1..];
    } else {
      assert s[k := o][1..] == s[1..][k - 1 := o];
      CountUpdate(p, s[1..], k - 1, o);
    }
  }

  lemma {:induction false} CountSnoc(p: Obj -> bool, s: seq<Obj>, o: Obj)
    ensures CountIf(p, s + [o]) == CountIf(p, s) + (if p(o) then 1 else 0)
    decreases |s|
  {
    if s == [] {
      assert (s + [o])[1..] == [];
    } else {
      assert (s + [o])[1..] == s[1..] + [o];
      CountSnoc(p, s[1..], o);
    }
  }

  lemma {:induction false} FewerInTable(s: seq<Obj>)
    ensures CountIf(InTable, s) <= CountIf(Unfinished, s)
    decreases |s|
  {
    if s != [] {
      FewerInTable(s[1..]);
    }
  }

  // ---------------------------------------------------------------- invariants

  /** The table holds exactly the objects not yet deleted, each under its id. */
  ghost predicate TableExact(s: State)
  {
    && (forall id <- s.table :: s.table[id] < |s.objs| && s.objs[s.table[id]].id == id && InTable(s.objs[s.table[id]]))
    && (forall k :: 0 <= k < |s.objs| && InTable(s.objs[k]) ==> Lookup(s.table, s.objs[k].id) == Some(k))
  }

  /** A slot holds a stream of that slot; unless cached too late, its close has not passed the slot yet. */
  ghost predicate SlotsSound(s: State)
  {
    forall slot <- s.cache ::
      && s.cache[slot] < |s.objs| && Slot(s.objs[s.cache[slot]].id) == slot
      && (PastSlot(s.objs[s.cache[slot]], s.cache[slot]) ==> s.cache[slot] in s.raced)
  }

  /** A close that has passed the slot does not come back. */
  ghost predicate RacedSound(s: State)
  {
    forall k <- s.raced :: k < |s.objs| && PastSlot(s.objs[k], k)
  }

  ghost predicate ReaderSound(s: State)
  {
    match s.reader
    case AtStore(id, k) => k < |s.objs| && s.objs[k].id == id
    case AtOpen(id, k) => k < |s.objs| && s.objs[k].id == id
    case _ => true
  }

  ghost predicate CountExact(s: State)
  {
    && |s.table| == CountIf(InTable, s.objs)
    && s.count == CountIf(Unfinished, s.objs) - (if s.reader.AtCount? then 1 else 0)
  }

  ghost predicate Capped(max: nat, s: State)
  {
    max > 0 ==> |s.table| <= max && (s.reader.AtInsert? ==> s.count < max)
  }

  /** Every delivery went to an object that held the id at that moment. */
  ghost predicate ToHolder(s: State)
  {
    forall d <- s.delivered :: d.2 == Some(d.1)
  }

  ghost predicate Inv(max: nat, s: State)
  {
    TableExact(s) && SlotsSound(s) && RacedSound(s) && ReaderSound(s) && CountExact(s) && Capped(max, s) && ToHolder(s)
  }

  lemma InsertKeepsTable(s: State, id: nat)
    requires TableExact(s) && id !in s.table
    ensures TableExact(s.(objs := s.objs + [Obj(id, Open)], table := s.table[id := |s.objs|]))
  {
  }

  lemma ReaderKeepsTable(max: nat, s: State, a: Action, t: State)
    requires TableExact(s) && StepReader(max, s, a) == Some(t)
    ensures TableExact(t)
  {
    if s.reader.AtInsert? && s.reader.id !in s.table {
      InsertKeepsTable(s, s.reader.id);
    } else {
      assert t.objs == s.objs && t.table == s.table;
    }
  }

  lemma ReaderKeepsSlots(max: nat, s: State, a: Action, t: State)
    requires SlotsSound(s) && RacedSound(s) && ReaderSound(s) && StepReader(max, s, a) == Some(t)
    ensures SlotsSound(t) && RacedSound(t) && s.raced <= t.raced
  {
    assert forall k :: 0 <= k < |s.objs| ==> t.objs[k] == s.objs[k];
  }

  lemma ReaderKeepsItself(max: nat, s: State, a: Action, t: State)
    requires TableExact(s) && ReaderSound(s) && ToHolder(s) && StepReader(max, s, a) == Some(t)
    ensures ReaderSound(t) && ToHolder(t)
  {
  }

  lemma ReaderKeepsCount(max: nat, s: State, a: Action, t: State)
    requires TableExact(s) && CountExact(s) && Capped(max, s) && StepReader(max, s, a) == Some(t)
    ensures CountExact(t) && Capped(max, t)
  {
    FewerInTable(s.objs);
    if |t.objs| > |s.objs| {
      CountSnoc(InTable, s.objs, Obj(s.reader.id, Open));
      CountSnoc(Unfinished, s.objs, Obj(s.reader.id, Open));
    }
  }

  lemma CloserFrame(s: State, k: nat, a: Action, t: State)
    requires k < |s.objs| && StepCloser(s, k, a) == Some(t)
    ensures |t.objs| == |s.objs| && t.objs[k].id == s.objs[k].id && t.objs == s.objs[k := t.objs[k]]
    ensures t.reader == s.reader && t.delivered == s.delivered && t.raced == s.raced
    ensures t.table == if s.objs[k].phase.Closing? then s.table - {s.objs[k].id} else s.table
  {
  }

  lemma CloserPhases(s: State, k: nat, a: Action, t: State)
    requires k < |s.objs| && StepCloser(s, k, a) == Some(t)
    ensures t.count == s.count - (if s.objs[k].phase.SlotDone? then 1 else 0)
    ensures InTable(t.objs[k]) <==> InTable(s.objs[k]) && !s.objs[k].phase.Closing?
    ensures Unfinished(t.objs[k]) <==> Unfinished(s.objs[k]) && !s.objs[k].phase.SlotDone?
    ensures Unfinished(s.objs[k])
  {
  }

  lemma CloserKeepsTable(s: State, k: nat, a: Action, t: State)
    requires k < |s.objs| && TableExact(s) && StepCloser(s, k, a) == Some(t)
    ensures TableExact(t)
  {
    CloserFrame(s, k, a, t);
  }

  lemma CloserKeepsSlots(s: State, k: nat, a: Action, t: State)
    requires k < |s.objs| && SlotsSound(s) && RacedSound(s) && StepCloser(s, k, a) == Some(t)
    ensures SlotsSound(t) && RacedSound(t)
  {
    CloserFrame(s, k, a, t);
  }

  lemma CloserKeepsCount(max: nat, s: State, k: nat, a: Action, t: State)
    requires k < |s.objs| && TableExact(s) && CountExact(s) && Capped(max, s) && StepCloser(s, k, a) == Some(t)
    ensures CountExact(t) && Capped(max, t)
  {
    CloserFrame(s, k, a, t);
    CloserPhases(s, k, a, t);
    CountUpdate(InTable, s.objs, k, t.objs[k]);
    CountUpdate(Unfinished, s.objs, k, t.objs[k]);
    if s.objs[k].phase.Closing? {
      RemovedKey(s.table, s.objs[k].id);
    }
  }

  lemma RemovedKey(m: map<nat, nat>, key: nat)
    requires key in m
    ensures |m - {key}| == |m| - 1
  {
    assert (m - {key}).Keys == m.Keys - {key};
  }

  lemma StepKeepsInv(max: nat, s: State, a: Action, t: State)
    requires Inv(max, s) && Step(max, s, a) == Some(t)
    ensures Inv(max, t)
  {
    if a.CloseCalled? || a.CloserSteps? {
      CloserFrame(s, a.k, a, t);
      CloserKeepsTable(s, a.k, a, t);
      CloserKeepsSlots(s, a.k, a, t);
      CloserKeepsCount(max, s, a.k, a, t);
    } else {
      ReaderKeepsTable(max, s, a, t);
      ReaderKeepsSlots(max, s, a, t);
      ReaderKeepsItself(max, s, a, t);
      ReaderKeepsCount(max, s, a, t);
    }
  }

  lemma InitHolds(max: nat)
    ensures Inv(max, Init())
  {
  }

  lemma EveryRunKeepsInv(max: nat, trace: seq<Action>)
    ensures Exec(Steps(max), Init(), trace).Some? ==> Inv(max, Exec(Steps(max), Init(), trace).value)
  {
    var inv := (s: State) => Inv(max, s);
    forall s: State, a: Action | inv(s) && Steps(max)(s, a).Some?
      ensures inv(Steps(max)(s, a).value)
    {
      StepKeepsInv(max, s, a, Step(max, s, a).value);
    }
    InitHolds(max);
    Invariance(Steps(max), inv, Init(), trace);
  }

  // ---------------------------------------------------------------- theorems

  /** A slot holds nothing or a stream of that slot that is the current entry for its id or already
      closed; DATA never reaches an open stream other than the holder of its id. */
  lemma CacheNeverMisdelivers(max: nat, trace: seq<Action>, t: State)
    requires Exec(Steps(max), Init(), trace) == Some(t)
    ensures forall slot <- t.cache ::
      && t.cache[slot] < |t.objs| && Slot(t.objs[t.cache[slot]].id) == slot
      && (Lookup(t.table, t.objs[t.cache[slot]].id) == Some(t.cache[slot]) || !t.objs[t.cache[slot]].phase.Open?)
    ensures forall d <- t.delivered :: d.2 == Some(d.1)
  {
    EveryRunKeepsInv(max, trace);
  }

  /** The limit holds at every moment, and with no operation under way the count is the table's size. */
  lemma TableWithinLimit(max: nat, trace: seq<Action>, t: State)
    requires Exec(Steps(max), Init(), trace) == Some(t)
    ensures max > 0 ==> |t.table| <= max
    ensures !t.reader.AtCount? && (forall o <- t.objs :: InTable(o) || o.phase.Closed?) ==> t.count == |t.table|
  {
    EveryRunKeepsInv(max, trace);
    if forall o <- t.objs :: InTable(o) || o.phase.Closed? {
      SameCounts(t.objs);
    }
  }

  lemma {:induction false} SameCounts(s: seq<Obj>)
    requires forall o <- s :: InTable(o) || o.phase.Closed?
    ensures CountIf(InTable, s) == CountIf(Unfinished, s)
    decreases |s|
  {
    if s != [] {
      assert s[0] in s;
      SameCounts(s[1..]);
    }
  }

  /** A close of the stream in this phase has taken the entry out but not yet cleared the slot. */
  predicate MidDelete(o: Obj) { o.phase.Deleted? || o.phase.Looked? }

  /** A cached answer is the table's exactly unless the cached stream was stored after its close had
      passed the slot, or its close stands between deleting the entry and clearing the slot. */
  lemma CachedEqualsTable(max: nat, trace: seq<Action>, t: State, id: nat)
    requires Exec(Steps(max), Init(), trace) == Some(t) && CacheHit(t, id).Some?
    ensures var k := CacheHit(t, id).value;
      Lookup(t.table, id) == Some(k) <==> k !in t.raced && !MidDelete(t.objs[k])
  {
    EveryRunKeepsInv(max, trace);
  }

  /** If no close fell between a table load and its slot store, a cached answer is the table's exactly
      unless the close of that very stream is half way. */
  lemma CachedEqualsTableWithoutRaces(max: nat, trace: seq<Action>, t: State, id: nat)
    requires Exec(Steps(max), Init(), trace) == Some(t)
    requires t.raced == {} && CacheHit(t, id).Some?
    ensures CacheHit(t, id) == Lookup(t.table, id) <==> !MidDelete(t.objs[CacheHit(t, id).value])
  {
    CachedEqualsTable(max, trace, t, id);
  }

  // ---------------------------------------------------------------- the race

  /** A run that leaves a dead stream cached: a new stream has the id and is open, nothing is under
      way, and DATA for the id hits the dead one and is dropped, as often as it is sent.  DATA for an open
      stream of another id in the slot, or closing the open stream, ends it. */
  lemma DeadStreamStaysCached(max: nat, id: nat) returns (t: State)
    ensures Reaches(Steps(max), Init(), t) && t.reader == Idle && t.objs == [Obj(id, Closed), Obj(id, Open)]
    ensures Lookup(t.table, id) == Some(1) && CacheHit(t, id) == Some(0)
    ensures Exec(Steps(max), t, [Data(id), ReaderSteps]) == Some(t)
  {
    t := CachedTooLate(max, id);
    var i := Init();
    t := Go(Steps(max), i, t, Connect(id));
    t := Go(Steps(max), i, t, ReaderSteps);
    t := Go(Steps(max), i, t, ReaderSteps);
    var v := Step(max, t, Data(id)).value;
    assert Step(max, v, ReaderSteps) == Some(t);
    assert [Data(id), ReaderSteps][1..] == [ReaderSteps] && [ReaderSteps][1..] == [];
    assert Exec(Steps(max), t, []) == Some(t);
    assert Exec(Steps(max), v, [ReaderSteps]) == Some(t);
  }

  lemma CachedTooLate(max: nat, id: nat) returns (t: State)
    ensures Reaches(Steps(max), Init(), t) && t.reader == Idle && t.objs == [Obj(id, Closed)]
    ensures t.table == map[] && t.cache == map[Slot(id) := 0] && t.count == 0
  {
    var i := Init();
    ReachesSelf(Steps(max), i);
    t := Go(Steps(max), i, i, Connect(id));
    t := Go(Steps(max), i, t, ReaderSteps);
    t := Go(Steps(max), i, t, ReaderSteps);
    assert t.objs == [Obj(id, Open)] && t.count == 1 && t.cache == map[];
    t := Go(Steps(max), i, t, Data(id));
    t := Go(Steps(max), i, t, ReaderSteps);
    assert t.reader == AtStore(id, 0);
    t := ClosedMeanwhile(max, id, t);
    t := Go(Steps(max), i, t, ReaderSteps);
    t := Go(Steps(max), i, t, ReaderSteps);
  }

  lemma ClosedMeanwhile(max: nat, id: nat, s: State) returns (t: State)
    requires Reaches(Steps(max), Init(), s) && s.objs == [Obj(id, Open)] && s.reader == AtStore(id, 0)
    requires s.table == map[id := 0] && s.cache == map[] && s.count == 1
    ensures Reaches(Steps(max), Init(), t) && t == s.(objs := [Obj(id, Closed)], table := map[], count := 0)
  {
    var i := Init();
    t := Go(Steps(max), i, s, CloseCalled(0));
    t := Go(Steps(max), i, t, CloserSteps(0));
    assert t.table == map[];
    t := Go(Steps(max), i, t, CloserSteps(0));
    t := Go(Steps(max), i, t, CloserSteps(0));
  }
}

/** What every run of the write queue keeps, and what it leaves at rest. */
module WriteQueueSafety {
  import opened Wrappers
  import opened Bytes
  import opened BatchQueue
  import opened Runs
  import opened WriteQueue

  // ---------------------------------------------------------------- submitters

  lemma SubmitKeepsQueue(cap: nat, s: State, a: Action, t: State)
    requires Counted(s.g, Size, cap) && OneWriter(s) && Awake(s)
    requires (a.Check? || a.Enqueue?) && StepSubmit(cap, s, a) == Some(t)
    ensures Counted(t.g, Size, cap) && OneWriter(t) && Awake(t)
  {
    assert forall j :: 0 <= j < |s.writers| ==> t.writers[j] == s.writers[j];
    if |t.writers| > |s.writers| {
      assert InPhase(t.writers[|s.writers|]);
    }
    if a.Enqueue? {
      SectionsKeepCount(s.g, Size, cap, s.checked[a.k]);
    }
  }

  lemma SubmitKeepsDeathKnown(cap: nat, s: State, a: Action, t: State)
    requires DeathKnown(s)
    requires (a.Check? || a.Enqueue?) && StepSubmit(cap, s, a) == Some(t)
    ensures DeathKnown(t)
  {
    assert forall w <- s.writers :: w in t.writers;
    assert forall w <- t.writers :: w in s.writers || w == Locking;
  }

  lemma AcceptedGrows(accepted: seq<Req>, r: Req)
    ensures Data(accepted) <= Data(accepted + [r])
  {
    DataSnoc(accepted, r);
  }

  lemma AcceptedGoesLast(accepted: seq<Req>, ahead: seq<byte>, pending: seq<Req>, r: Req)
    requires Data(accepted) == ahead + Data(pending)
    ensures Data(accepted + [r]) == ahead + Data(pending + [r])
  {
    DataSnoc(accepted, r);
    DataSnoc(pending, r);
    Associate(ahead, Data(pending), r.data);
  }

  lemma SubmitKeepsWireOrder(cap: nat, s: State, a: Action, t: State)
    requires OneWriter(s) && WireOrder(s)
    requires (a.Check? || a.Enqueue?) && StepSubmit(cap, s, a) == Some(t)
    ensures WireOrder(t)
  {
    if t.accepted != s.accepted {
      var r := s.checked[a.k];
      AcceptedGrows(s.accepted, r);
      forall w <- t.writers | !s.dead && InPhase(w)
        ensures Data(t.accepted) == t.wire + RestOf(w) + Data(t.g.pending)
      {
        AcceptedGoesLast(s.accepted, s.wire + RestOf(w), s.g.pending, r);
        if w !in s.writers || !s.g.active {
          assert w == Locking;
        }
      }
    }
  }

  lemma SubmitKeepsConserved(cap: nat, s: State, a: Action, t: State)
    requires Conserved(s)
    requires (a.Check? || a.Enqueue?) && StepSubmit(cap, s, a) == Some(t)
    ensures Conserved(t)
  {
    forall id: nat
      ensures Count(Any, id, t.arrived)
           == Count(Any, id, t.checked) + Count(Any, id, t.refused) + Held(t, id) + Count(Any, id, t.completed)
    {
      match a
      case Check(r) =>
        CountAppend(Any, id, s.arrived, [r]);
        CountAppend(Any, id, s.checked, [r]);
        CountAppend(Any, id, s.refused, [r]);
      case Enqueue(k) =>
        var r := s.checked[k];
        CountRemove(Any, id, s.checked, k);
        CountAppend(Any, id, s.refused, [r]);
        CountAppend(Any, id, s.g.pending, [r]);
        BatchesSnoc(s.writers);
    }
  }

  lemma CompletedOnce(s: State, rs: seq<Req>)
    requires Accounted(s)
    ensures Accounted(Complete(s, rs))
  {
    var t := Complete(s, rs);
    forall id: nat
      ensures Count(Any, id, t.signals) == Count(Waiter, id, t.refused) + Count(Waiter, id, t.completed)
      ensures Count(Any, id, t.returned) == Count(Buffer, id, t.refused) + Count(Buffer, id, t.completed)
    {
      CountAppend(Waiter, id, s.completed, rs);
      CountAppend(Buffer, id, s.completed, rs);
      CountAppend(Any, id, s.signals, Select(Waiter, rs));
      CountAppend(Any, id, s.returned, Select(Buffer, rs));
      CountSelect(Waiter, id, rs);
      CountSelect(Buffer, id, rs);
    }
  }

  lemma RefusedOnce(s: State, r: Req)
    requires Accounted(s)
    ensures Accounted(Refuse(s, r))
  {
    var t := Refuse(s, r);
    forall id: nat
      ensures Count(Any, id, t.signals) == Count(Waiter, id, t.refused) + Count(Waiter, id, t.completed)
      ensures Count(Any, id, t.returned) == Count(Buffer, id, t.refused) + Count(Buffer, id, t.completed)
    {
      CountAppend(Waiter, id, s.refused, [r]);
      CountAppend(Buffer, id, s.refused, [r]);
      CountAppend(Any, id, s.signals, Select(Waiter, [r]));
      CountAppend(Any, id, s.returned, Select(Buffer, [r]));
      CountSelect(Waiter, id, [r]);
      CountSelect(Buffer, id, [r]);
    }
  }

  lemma NewIdOnce(arrived: seq<Req>, r: Req)
    requires forall id: nat :: Count(Any, id, arrived) <= 1
    requires forall q <- arrived :: q.id != r.id
    ensures forall id: nat :: Count(Any, id, arrived + [r]) <= 1
  {
    forall id: nat ensures Count(Any, id, arrived + [r]) <= 1 {
      CountAppend(Any, id, arrived, [r]);
      CountOfMember(arrived, id);
      assert [r][1..] == [];
    }
  }

  lemma SubmitKeepsAccounted(cap: nat, s: State, a: Action, t: State)
    requires Accounted(s)
    requires (a.Check? || a.Enqueue?) && StepSubmit(cap, s, a) == Some(t)
    ensures Accounted(t)
  {
    match a
    case Check(r) =>
      NewIdOnce(s.arrived, r);
      RefusedOnce(s.(arrived := t.arrived), r);
    case Enqueue(k) =>
      RefusedOnce(s.(checked := t.checked), s.checked[k]);
  }

  lemma SubmitKeepsLate(cap: nat, s: State, a: Action, t: State)
    requires DeathKnown(s) && LateOnlyRaced(s)
    requires (a.Check? || a.Enqueue?) && StepSubmit(cap, s, a) == Some(t)
    ensures LateOnlyRaced(t)
  {
  }

  lemma SubmitKeepsLateBehind(cap: nat, s: State, a: Action, t: State)
    requires DeathKnown(s) && OneWriter(s) && LateOnlyRaced(s) && LateBehind(s)
    requires (a.Check? || a.Enqueue?) && StepSubmit(cap, s, a) == Some(t)
    ensures LateBehind(t)
  {
    assert forall w <- s.writers :: w in t.writers;
    if a.Enqueue? && |t.writers| > |s.writers| {
      assert Locking in t.writers;
    }
  }

  // ---------------------------------------------------------------- writers

  lemma WriterKeepsQueue(cap: nat, s: State, i: nat, a: Action, t: State)
    requires Counted(s.g, Size, cap) && OneWriter(s) && Awake(s) && DeathKnown(s)
    requires i < |s.writers| && StepWriter(s, i, a) == Some(t)
    ensures Counted(t.g, Size, cap) && OneWriter(t) && Awake(t)
  {
    assert s.writers[i] in s.writers;
    assert forall j :: 0 <= j < |s.writers| && j != i ==> t.writers[j] == s.writers[j];
    if InPhase(s.writers[i]) && InPhase(t.writers[i]) {
      assert t.g.active;
    }
    SectionsKeepCount(s.g, Size, cap, Req(0, [], false, false));
  }

  lemma WriterKeepsDeathKnown(s: State, i: nat, a: Action, t: State)
    requires DeathKnown(s)
    requires i < |s.writers| && StepWriter(s, i, a) == Some(t)
    ensures DeathKnown(t)
  {
    assert s.writers[i] in s.writers && t.writers[i] in t.writers;
    assert forall j :: 0 <= j < |s.writers| && j != i ==> t.writers[j] == s.writers[j];
    assert forall w <- t.writers :: w in s.writers || w == t.writers[i];
    if s.dead && !t.closed {
      var w :| w in s.writers && ((w.Finishing? && w.err) || w.Failing? || w.Leaving?);
      var j :| 0 <= j < |s.writers| && s.writers[j] == w;
      assert t.writers[j] in t.writers;
    }
  }

  lemma OnlyWriter(s: State, i: nat, t: State)
    requires OneWriter(s) && i < |s.writers| == |t.writers| && InPhase(s.writers[i])
    requires forall j :: 0 <= j < |s.writers| && j != i ==> t.writers[j] == s.writers[j]
    ensures forall u <- t.writers :: InPhase(u) ==> u == t.writers[i]
  {
  }

  lemma WritingKeepsWireOrder(s: State, i: nat, a: Action, t: State)
    requires OneWriter(s) && WireOrder(s)
    requires i < |s.writers| && StepWriter(s, i, a) == Some(t) && (a.WriteSome? || a.WriteFails?)
    ensures WireOrder(t)
  {
    var w := s.writers[i];
    assert w in s.writers;
    OnlyWriter(s, i, t);
    if s.dead {
      assert w.rest[..a.n] == [] && s.wire + [] == s.wire;
    } else {
      MovePrefix(Data(s.accepted), s.wire, w.rest, a.n, Data(s.g.pending));
    }
  }

  lemma WriterKeepsWireOrder(s: State, i: nat, a: Action, t: State)
    requires OneWriter(s) && WireOrder(s) && DeathKnown(s)
    requires i < |s.writers| && StepWriter(s, i, a) == Some(t)
    ensures WireOrder(t)
  {
    if a.WriteSome? || a.WriteFails? {
      WritingKeepsWireOrder(s, i, a, t);
    } else {
      assert s.writers[i] in s.writers;
      assert forall u <- t.writers :: u in s.writers || u == t.writers[i];
      if a.Take? && s.g.pending != [] && !t.dead {
        assert Data(s.accepted) == s.wire + Data(s.g.pending);
        OnlyWriter(s, i, t);
        assert Data(t.g.pending) == [];
      }
    }
  }

  /** A writer's step moves requests between the queue, its batch and the completed ones only. */
  lemma WriterFrame(s: State, i: nat, a: Action, t: State)
    requires DeathKnown(s)
    requires i < |s.writers| && StepWriter(s, i, a) == Some(t)
    ensures |t.writers| == |s.writers| && t.writers == s.writers[i := t.writers[i]]
    ensures t.arrived == s.arrived && t.checked == s.checked && t.refused == s.refused
    ensures DrainedBy(t.closer) == DrainedBy(s.closer)
    ensures t.completed == s.completed + (if a.Finish? then BatchOf(s.writers[i]) else [])
    ensures a.Finish? ==> t.g == s.g && BatchOf(t.writers[i]) == []
    ensures !a.Finish? ==> t.g.pending + BatchOf(t.writers[i]) == s.g.pending + BatchOf(s.writers[i])
  {
  }

  lemma WriterKeepsConserved(s: State, i: nat, a: Action, t: State)
    requires Conserved(s) && DeathKnown(s)
    requires i < |s.writers| && StepWriter(s, i, a) == Some(t)
    ensures Conserved(t)
  {
    WriterFrame(s, i, a, t);
    forall id: nat
      ensures Count(Any, id, t.arrived)
           == Count(Any, id, t.checked) + Count(Any, id, t.refused) + Held(t, id) + Count(Any, id, t.completed)
    {
      BatchesUpdate(Any, id, s.writers, i, t.writers[i]);
      CountAppend(Any, id, s.completed, if a.Finish? then BatchOf(s.writers[i]) else []);
      CountAppend(Any, id, t.g.pending, BatchOf(t.writers[i]));
      CountAppend(Any, id, s.g.pending, BatchOf(s.writers[i]));
    }
  }

  lemma WriterKeepsAccounted(s: State, i: nat, a: Action, t: State)
    requires Accounted(s)
    requires i < |s.writers| && StepWriter(s, i, a) == Some(t)
    ensures Accounted(t)
  {
    WriterLogs(s, i, a, t);
    if a.Finish? {
      CompletedOnce(s, s.writers[i].done);
      SameLogsSameAccount(Complete(s, s.writers[i].done), t);
    } else {
      SameLogsSameAccount(s, t);
    }
  }

  predicate SameLogs(s: State, t: State)
  {
    && t.arrived == s.arrived && t.refused == s.refused && t.completed == s.completed
    && t.signals == s.signals && t.returned == s.returned
  }

  lemma WriterLogs(s: State, i: nat, a: Action, t: State)
    requires i < |s.writers| && StepWriter(s, i, a) == Some(t)
    ensures if a.Finish? then s.writers[i].Finishing? && SameLogs(Complete(s, s.writers[i].done), t) else SameLogs(s, t)
  {
  }

  lemma SameLogsSameAccount(s: State, t: State)
    requires Accounted(s) && SameLogs(s, t)
    ensures Accounted(t)
  {
  }

  lemma WriterKeepsLate(s: State, i: nat, a: Action, t: State)
    requires DeathKnown(s) && LateOnlyRaced(s)
    requires i < |s.writers| && StepWriter(s, i, a) == Some(t)
    ensures LateOnlyRaced(t)
  {
  }

  lemma WriterKeepsLateBehind(s: State, i: nat, a: Action, t: State)
    requires DeathKnown(s) && LateBehind(s)
    requires i < |s.writers| && StepWriter(s, i, a) == Some(t)
    ensures LateBehind(t)
  {
    WriterRaceFrame(s, i, a, t);
    if a.Take? {
      assert t.g.pending == [];
    } else if exists w <- s.writers :: w.Locking? {
      var j :| 0 <= j < |s.writers| && s.writers[j].Locking?;
      assert t.writers[j] == s.writers[j] && t.writers[j] in t.writers;
    }
  }

  lemma WriterRaceFrame(s: State, i: nat, a: Action, t: State)
    requires DeathKnown(s)
    requires i < |s.writers| && StepWriter(s, i, a) == Some(t)
    ensures t.late == s.late && Drained(t.closer) == Drained(s.closer)
    ensures Drained(s.closer) ==> t.checkedAtClose == s.checkedAtClose
    ensures |t.writers| == |s.writers| && t.writers == s.writers[i := t.writers[i]]
    ensures if a.Take? then s.writers[i].Locking? && t.g.pending == [] else !s.writers[i].Locking? && t.g.pending == s.g.pending
  {
  }

  // ---------------------------------------------------------------- close

  lemma CloseKeepsLateBehind(s: State, a: Action, t: State)
    requires DeathKnown(s) && LateBehind(s)
    requires StepClose(s, a) == Some(t)
    ensures LateBehind(t)
  {
    assert t.writers == s.writers && t.late == s.late;
  }

  lemma CloseKeepsQueue(cap: nat, s: State, a: Action, t: State)
    requires Counted(s.g, Size, cap) && OneWriter(s) && Awake(s) && DeathKnown(s)
    requires StepClose(s, a) == Some(t)
    ensures Counted(t.g, Size, cap) && OneWriter(t) && Awake(t) && DeathKnown(t)
  {
    assert t.writers == s.writers;
  }

  lemma CloseKeepsWireOrder(s: State, a: Action, t: State)
    requires WireOrder(s) && DeathKnown(s)
    requires StepClose(s, a) == Some(t)
    ensures WireOrder(t)
  {
  }

  lemma CloseKeepsConserved(s: State, a: Action, t: State)
    requires Conserved(s) && DeathKnown(s)
    requires StepClose(s, a) == Some(t)
    ensures Conserved(t)
  {
    forall id: nat
      ensures Count(Any, id, t.arrived)
           == Count(Any, id, t.checked) + Count(Any, id, t.refused) + Held(t, id) + Count(Any, id, t.completed)
    {
      CloseMoves(s, a, t);
      CountAppend(Any, id, s.completed, DrainedBy(s.closer));
      assert Held(s, id) + Count(Any, id, s.completed) == Held(t, id) + Count(Any, id, t.completed);
    }
  }

  /** Close only moves requests: from the queue to what it drained, and from there to the completed ones. */
  lemma CloseMoves(s: State, a: Action, t: State)
    requires DeathKnown(s) && StepClose(s, a) == Some(t)
    ensures t.arrived == s.arrived && t.checked == s.checked && t.refused == s.refused && t.writers == s.writers
    ensures || (t.g.pending == s.g.pending && DrainedBy(t.closer) == DrainedBy(s.closer) && t.completed == s.completed)
            || (t.g.pending == [] && DrainedBy(t.closer) == s.g.pending && DrainedBy(s.closer) == [] && t.completed == s.completed)
            || (t.g.pending == s.g.pending && DrainedBy(t.closer) == [] && t.completed == s.completed + DrainedBy(s.closer))
  {
  }

  lemma CloseKeepsAccounted(s: State, a: Action, t: State)
    requires Accounted(s) && LateOnlyRaced(s) && DeathKnown(s)
    requires StepClose(s, a) == Some(t)
    ensures Accounted(t) && LateOnlyRaced(t)
  {
    if s.closer.Releasing? {
      CompletedOnce(s, s.closer.drained);
    }
  }

  // ---------------------------------------------------------------- all runs

  lemma StepKeepsInv(cap: nat, s: State, a: Action, t: State)
    requires Inv(cap, s) && Step(cap, s, a) == Some(t)
    ensures Inv(cap, t)
  {
    if a.Check? || a.Enqueue? {
      SubmitKeepsQueue(cap, s, a, t);
      SubmitKeepsDeathKnown(cap, s, a, t);
      SubmitKeepsWireOrder(cap, s, a, t);
      SubmitKeepsConserved(cap, s, a, t);
      SubmitKeepsAccounted(cap, s, a, t);
      SubmitKeepsLate(cap, s, a, t);
      SubmitKeepsLateBehind(cap, s, a, t);
    } else {
      match WriterOf(a)
      case Some(i) =>
        WriterKeepsQueue(cap, s, i, a, t);
        WriterKeepsDeathKnown(s, i, a, t);
        WriterKeepsWireOrder(s, i, a, t);
        WriterKeepsConserved(s, i, a, t);
        WriterKeepsAccounted(s, i, a, t);
        WriterKeepsLate(s, i, a, t);
        WriterKeepsLateBehind(s, i, a, t);
      case None =>
        CloseKeepsQueue(cap, s, a, t);
        CloseKeepsWireOrder(s, a, t);
        CloseKeepsConserved(s, a, t);
        CloseKeepsAccounted(s, a, t);
        CloseKeepsLateBehind(s, a, t);
    }
  }

  function Steps(cap: nat): (State, Action) -> Option<State> { (s, a) => Step(cap, s, a) }

  lemma EveryRunKeepsInv(cap: nat, trace: seq<Action>)
    ensures Exec(Steps(cap), Init(), trace).Some? ==> Inv(cap, Exec(Steps(cap), Init(), trace).value)
  {
    var inv := (s: State) => Inv(cap, s);
    forall s: State, a: Action | inv(s) && Steps(cap)(s, a).Some?
      ensures inv(Steps(cap)(s, a).value)
    {
      StepKeepsInv(cap, s, a, Step(cap, s, a).value);
    }
    Invariance(Steps(cap), inv, Init(), trace);
  }

  /** Ordering, mutual exclusion of writers, no lost wakeup and the byte cap, in every run. */
  lemma WriteQueueIsFifo(cap: nat, trace: seq<Action>, t: State)
    requires Exec(Steps(cap), Init(), trace) == Some(t)
    ensures t.wire <= Data(t.accepted)
    ensures forall i, j :: 0 <= i < |t.writers| && 0 <= j < |t.writers| && t.writers[i].Writing? && t.writers[j].Writing? ==> i == j
    ensures !t.dead && t.g.pending != [] ==> t.g.active && exists w <- t.writers :: InPhase(w)
    ensures t.g.bytes == TotalSize(Size, t.g.pending) <= cap
  {
    EveryRunKeepsInv(cap, trace);
    if !t.dead && t.g.pending != [] {
      var i :| 0 <= i < |t.writers| && InPhase(t.writers[i]);
      assert t.writers[i] in t.writers;
    }
  }

  /** What a submit does, in every run: at its check it is refused exactly when the connection is closed;
      at its lock exactly when it would take the queued bytes past the cap, and then it owes a close;
      otherwise it goes last, and starts a writer exactly when none is active. */
  lemma SubmitOutcome(cap: nat, trace: seq<Action>, s: State, a: Action, t: State)
    requires Exec(Steps(cap), Init(), trace) == Some(s) && Step(cap, s, a) == Some(t)
    ensures a.Check? ==>
      && t.refused == s.refused + (if s.closed then [a.req] else [])
      && t.checked == s.checked + (if s.closed then [] else [a.req])
    ensures a.Enqueue? ==> var r := s.checked[a.k];
      if TotalSize(Size, s.g.pending) + |r.data| > cap then
        && t.refused == s.refused + [r] && t.owingClose == s.owingClose + 1
        && t.g == s.g && t.accepted == s.accepted && t.writers == s.writers
      else
        && t.refused == s.refused && t.owingClose == s.owingClose
        && t.g.pending == s.g.pending + [r] && t.accepted == s.accepted + [r]
        && t.writers == s.writers + (if s.g.active then [] else [Locking])
  {
    EveryRunKeepsInv(cap, trace);
    if a.Enqueue? {
      OfferRefuses(s.g, Size, cap, s.checked[a.k]);
    }
  }

  /** A request sits in one place only; its waiter is signalled and its buffer returned at most once,
      and never while it is still queued or in a batch. */
  lemma EachRequestSettledOnce(cap: nat, trace: seq<Action>, t: State, r: Req)
    requires Exec(Steps(cap), Init(), trace) == Some(t) && r in t.arrived
    ensures Count(Any, r.id, t.checked) + Count(Any, r.id, t.refused) + Held(t, r.id) + Count(Any, r.id, t.completed) == 1
    ensures Count(Any, r.id, t.signals) + Count(Any, r.id, t.checked) + Held(t, r.id) <= 1
    ensures Count(Any, r.id, t.returned) + Count(Any, r.id, t.checked) + Held(t, r.id) <= 1
    ensures Count(Any, r.id, t.signals) == Count(Waiter, r.id, t.refused) + Count(Waiter, r.id, t.completed)
    ensures Count(Any, r.id, t.returned) == Count(Buffer, r.id, t.refused) + Count(Buffer, r.id, t.completed)
  {
    EveryRunKeepsInv(cap, trace);
    CountOfMember(t.arrived, r.id);
    CountWithin(Waiter, r.id, t.refused);
    CountWithin(Waiter, r.id, t.completed);
    CountWithin(Buffer, r.id, t.refused);
    CountWithin(Buffer, r.id, t.completed);
  }

  /** No thread has a step left to take: submits returned, writers gone, close finished or never called. */
  ghost predicate AtRest(s: State)
  {
    && s.checked == [] && s.owingClose == 0
    && (forall w <- s.writers :: w.Exited?)
    && (s.closer.NotClosing? || s.closer.Closed?)
  }

  ghost predicate Settled(s: State, r: Req)
  {
    Count(Any, r.id, s.refused) + Count(Any, r.id, s.completed) == 1
  }

  /** At rest a request is unsettled exactly when it is still queued, and what is queued was appended
      after the drain behind a running writer, by a submit that stood between its closed check and its
      lock when close won.  A raced request that starts its own writer is settled like any other, and a
      connection nobody closed leaves nothing behind. */
  lemma OnlyRacedRequestsAreLeft(cap: nat, trace: seq<Action>, t: State, r: Req)
    requires Exec(Steps(cap), Init(), trace) == Some(t) && AtRest(t) && r in t.arrived
    ensures !Settled(t, r) <==> exists q <- t.g.pending :: q.id == r.id
    ensures forall q <- t.g.pending :: t.closed && q in t.late && q in t.checkedAtClose
    ensures !t.closed ==> Settled(t, r) && t.wire == Data(t.accepted)
  {
    EveryRunKeepsInv(cap, trace);
    EachRequestSettledOnce(cap, trace, t, r);
    NoWriterNoBatch(t.writers);
    OpenAtRest(t);
    CountOfMember(t.g.pending, r.id);
  }

  /** At rest a connection nobody closed has lived and written everything. */
  lemma OpenAtRest(s: State)
    requires OneWriter(s) && DeathKnown(s) && Awake(s) && WireOrder(s) && AtRest(s)
    ensures !s.closed ==> s.g.pending == [] && s.wire == Data(s.accepted)
  {
    assert forall i :: 0 <= i < |s.writers| ==> s.writers[i].Exited?;
  }

  lemma {:induction false} NoWriterNoBatch(ws: seq<Writer>)
    requires forall w <- ws :: w.Exited?
    ensures Batches(ws) == []
    decreases |ws|
  {
    if ws != [] {
      assert ws[0] in ws;
      NoWriterNoBatch(ws[1..]);
    }
  }

  /** While writes succeed, the writer alone brings everything accepted onto the wire. */
  lemma {:induction false} WriterDrains(cap: nat, s: State) returns (trace: seq<Action>, t: State)
    requires Inv(cap, s) && !s.dead
    ensures Exec(Steps(cap), s, trace) == Some(t) && forall a <- trace :: WriterOf(a).Some?
    ensures t.g.pending == [] && t.wire == Data(t.accepted) && t.accepted == s.accepted && !t.dead
    decreases |s.g.pending|, Phase(s)
  {
    if !s.g.active || (s.g.pending == [] && exists w <- s.writers :: w.Locking?) {
      return [], s;
    }
    var a, u := WriterAdvances(cap, s);
    var more;
    more, t := WriterDrains(cap, u);
    trace := [a] + more;
  }

  /** The running writer's next step, when nothing has failed. */
  lemma NextMove(cap: nat, s: State, i: nat) returns (a: Action, u: State)
    requires i < |s.writers| && !s.dead && (s.g.pending != [] || !s.writers[i].Locking?)
    requires s.writers[i].Locking? || s.writers[i].Writing? || (s.writers[i].Finishing? && !s.writers[i].err)
    ensures WriterOf(a).Some? && Step(cap, s, a) == Some(u) && !u.dead && u.accepted == s.accepted
    ensures i < |u.writers| && InPhase(u.writers[i])
    ensures |u.g.pending| < |s.g.pending| || (u.g.pending == s.g.pending && PhaseOf(u.writers[i]) < PhaseOf(s.writers[i]))
  {
    match s.writers[i]
    case Writing(_, rest) =>
      a := if rest == [] then WriteEnds(i) else WriteSome(i, |rest|);
      u := Step(cap, s, a).value;
    case Finishing(_, _) =>
      a := Finish(i);
      u := Step(cap, s, a).value;
    case Locking =>
      a := Take(i);
      u := Step(cap, s, a).value;
  }

  lemma WriterAdvances(cap: nat, s: State) returns (a: Action, u: State)
    requires Inv(cap, s) && !s.dead && s.g.active
    requires s.g.pending != [] || forall w <- s.writers :: !w.Locking?
    ensures WriterOf(a).Some? && Step(cap, s, a) == Some(u) && Inv(cap, u) && !u.dead && u.accepted == s.accepted
    ensures |u.g.pending| < |s.g.pending| || (u.g.pending == s.g.pending && Phase(u) < Phase(s))
  {
    var i :| 0 <= i < |s.writers| && InPhase(s.writers[i]);
    assert s.writers[i] in s.writers;
    a, u := NextMove(cap, s, i);
    StepKeepsInv(cap, s, a, u);
    OnlyPhase(s, i);
    OnlyPhase(u, i);
  }

  /** How far the running writer is from its next lock section. */
  ghost function Phase(s: State): nat
    requires OneWriter(s)
  {
    if exists i :: 0 <= i < |s.writers| && InPhase(s.writers[i])
    then var i :| 0 <= i < |s.writers| && InPhase(s.writers[i]); PhaseOf(s.writers[i])
    else 0
  }

  function PhaseOf(w: Writer): nat
  {
    match w
    case Writing(_, rest) => if rest == [] then 2 else 3
    case Finishing(_, _) => 1
    case _ => 0
  }

  lemma OnlyPhase(s: State, i: nat)
    requires OneWriter(s) && i < |s.writers| && InPhase(s.writers[i])
    ensures Phase(s) == PhaseOf(s.writers[i])
  {
  }
}

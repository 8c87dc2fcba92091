/** Requests left in the write queue for ever: from every state in which one can still be left, a run
    leaves it; and such a state is reachable. */
module WriteQueueRace {
  import opened Wrappers
  import opened BatchQueue
  import opened Runs
  import opened WriteQueue
  import opened WriteQueueSafety

  /** The running writer will not come back to the queue: its write goes on and may fail, or has failed. */
  predicate MayLeave(w: Writer) { (w.Writing? && w.rest != []) || w.Failing? || (w.Finishing? && w.err) }

  /** From every reachable state in which a request appended after the drain stands behind such a writer,
      a run ends at rest with the request still queued, unsettled and its waiter never signalled. */
  lemma LateIsLeft(cap: nat, s: State, i: nat, r: Req) returns (t: State)
    requires Reaches(Steps(cap), Init(), s) && i < |s.writers| && MayLeave(s.writers[i])
    requires r in s.late && r in s.g.pending
    ensures t.arrived == s.arrived
    ensures Reaches(Steps(cap), Init(), t) && Reaches(Steps(cap), s, t) && AtRest(t)
    ensures r in t.g.pending && !Settled(t, r) && Count(Any, r.id, t.signals) == 0
  {
    ReachedInv(cap, s);
    ReachesSelf(Steps(cap), s);
    t := SubmitsFinish(cap, s, s, i, r);
    t := WriterGivesUp(cap, s, t, i, r);
    t := WritersLeave(cap, s, t, 0, r);
    t := OwedClosesReturn(cap, s, t, r);
    t := CloserReturns(cap, s, t, r);
    ReachesOn(cap, s, t);
    ReachedInv(cap, t);
    LeftUnsettled(cap, t, r);
  }

  lemma ReachedInv(cap: nat, s: State)
    requires Reaches(Steps(cap), Init(), s)
    ensures Inv(cap, s)
  {
    var trace: seq<Action> :| Exec(Steps(cap), Init(), trace) == Some(s);
    EveryRunKeepsInv(cap, trace);
  }

  lemma ReachesOn(cap: nat, s: State, t: State)
    requires Reaches(Steps(cap), Init(), s) && Reaches(Steps(cap), s, t)
    ensures Reaches(Steps(cap), Init(), t)
  {
    var t1: seq<Action> :| Exec(Steps(cap), Init(), t1) == Some(s);
    var t2: seq<Action> :| Exec(Steps(cap), s, t2) == Some(t);
    ExecConcat(Steps(cap), Init(), t1, t2);
    assert Exec(Steps(cap), Init(), t1 + t2) == Some(t);
  }

  lemma LeftUnsettled(cap: nat, t: State, r: Req)
    requires Inv(cap, t) && r in t.g.pending
    ensures !Settled(t, r) && Count(Any, r.id, t.signals) == 0
  {
    CountOfMember(t.g.pending, r.id);
    CountWithin(Waiter, r.id, t.refused);
    CountWithin(Waiter, r.id, t.completed);
    assert Count(Any, r.id, t.arrived) <= 1;
  }

  /** What the closing steps keep: the request queued after the drain. */
  ghost predicate Kept(s: State, r: Req) { r in s.g.pending && s.closed && Drained(s.closer) && s.dead }

  /** While a writer is active, submits past their check only append or are refused. */
  lemma {:induction false} SubmitsFinish(cap: nat, s0: State, s: State, i: nat, r: Req) returns (t: State)
    requires Reaches(Steps(cap), s0, s) && Inv(cap, s) && i < |s.writers| && MayLeave(s.writers[i])
    requires r in s.g.pending && Drained(s.closer)
    ensures t.arrived == s.arrived
    ensures Reaches(Steps(cap), s0, t) && Inv(cap, t) && t.writers == s.writers && t.checked == [] && Kept(t, r)
    decreases |s.checked|
  {
    if s.checked == [] {
      return s;
    }
    assert InPhase(s.writers[i]);
    var u := EnqueueBehind(cap, s);
    StepKeepsInv(cap, s, Enqueue(0), u);
    ReachesStep(Steps(cap), s0, s, Enqueue(0), u);
    t := SubmitsFinish(cap, s0, u, i, r);
  }

  lemma EnqueueBehind(cap: nat, s: State) returns (t: State)
    requires s.checked != [] && s.g.active
    ensures t.arrived == s.arrived
    ensures Step(cap, s, Enqueue(0)) == Some(t)
    ensures t.writers == s.writers && t.closer == s.closer && |t.checked| < |s.checked|
    ensures forall r <- s.g.pending :: r in t.g.pending
  {
    t := Step(cap, s, Enqueue(0)).value;
  }

  /** The writer's write fails, or has failed; it clears the flag and is about to leave. */
  lemma WriterGivesUp(cap: nat, s0: State, s: State, i: nat, r: Req) returns (t: State)
    requires Reaches(Steps(cap), s0, s) && Inv(cap, s) && i < |s.writers| && MayLeave(s.writers[i])
    requires s.checked == [] && Kept(s, r)
    ensures t.arrived == s.arrived
    ensures Reaches(Steps(cap), s0, t) && Inv(cap, t) && t.checked == [] && Kept(t, r)
    ensures forall w <- t.writers :: !InPhase(w)
  {
    t := s;
    if t.writers[i].Writing? {
      t := WriterSteps(cap, s0, t, i, WriteFails(i, 0), r);
    }
    if t.writers[i].Finishing? {
      t := WriterSteps(cap, s0, t, i, Finish(i), r);
    }
    t := WriterSteps(cap, s0, t, i, ClearActive(i), r);
  }

  lemma WriterSteps(cap: nat, s0: State, s: State, i: nat, a: Action, r: Req) returns (t: State)
    requires Reaches(Steps(cap), s0, s) && Inv(cap, s) && i < |s.writers| && s.checked == [] && Kept(s, r)
    requires match s.writers[i]
      case Writing(_, rest) => rest != [] && a == WriteFails(i, 0)
      case Finishing(_, err) => err && a == Finish(i)
      case Failing => a == ClearActive(i)
      case Leaving => a == WriterCloses(i)
      case _ => false
    ensures t.arrived == s.arrived
    ensures Reaches(Steps(cap), s0, t) && Inv(cap, t) && t.checked == [] && Kept(t, r)
    ensures |t.writers| == |s.writers| && t.writers == s.writers[i := t.writers[i]]
    ensures match s.writers[i]
      case Writing(_, _) => t.writers[i].Finishing? && t.writers[i].err
      case Finishing(_, _) => t.writers[i] == Failing
      case Failing => t.writers[i] == Leaving && !t.g.active
      case Leaving => t.writers[i] == Exited
      case _ => true
  {
    t := Step(cap, s, a).value;
    StepKeepsInv(cap, s, a, t);
    ReachesStep(Steps(cap), s0, s, a, t);
  }

  lemma {:induction false} WritersLeave(cap: nat, s0: State, s: State, i: nat, r: Req) returns (t: State)
    requires Reaches(Steps(cap), s0, s) && Inv(cap, s) && s.checked == [] && Kept(s, r) && i <= |s.writers|
    requires (forall w <- s.writers :: !InPhase(w)) && forall j :: 0 <= j < i ==> s.writers[j].Exited?
    ensures t.arrived == s.arrived
    ensures Reaches(Steps(cap), s0, t) && Inv(cap, t) && t.checked == [] && Kept(t, r)
    ensures forall w <- t.writers :: w.Exited?
    decreases |s.writers| - i
  {
    t := s;
    if i < |s.writers| {
      assert s.writers[i] in s.writers;
      if s.writers[i].Leaving? {
        t := WriterSteps(cap, s0, s, i, WriterCloses(i), r);
      }
      t := WritersLeave(cap, s0, t, i + 1, r);
    }
  }

  lemma {:induction false} OwedClosesReturn(cap: nat, s0: State, s: State, r: Req) returns (t: State)
    requires Reaches(Steps(cap), s0, s) && s.checked == [] && Kept(s, r) && forall w <- s.writers :: w.Exited?
    ensures t.arrived == s.arrived
    ensures Reaches(Steps(cap), s0, t) && t.checked == [] && Kept(t, r) && t.owingClose == 0
    ensures forall w <- t.writers :: w.Exited?
    decreases s.owingClose
  {
    if s.owingClose == 0 {
      return s;
    }
    t := Go(Steps(cap), s0, s, RefusedCloses);
    assert t == s.(owingClose := s.owingClose - 1);
    t := OwedClosesReturn(cap, s0, t, r);
  }

  lemma CloserReturns(cap: nat, s0: State, s: State, r: Req) returns (t: State)
    requires Reaches(Steps(cap), s0, s) && s.checked == [] && Kept(s, r) && s.owingClose == 0
    requires forall w <- s.writers :: w.Exited?
    ensures t.arrived == s.arrived
    ensures Reaches(Steps(cap), s0, t) && AtRest(t) && r in t.g.pending
  {
    t := s;
    if s.closer.Releasing? {
      t := Go(Steps(cap), s0, s, ReleaseDrained);
    }
  }

  /** A closed connection at rest stays so, and what is left in its queue stays there. */
  lemma RestIsFinal(cap: nat, s: State, a: Action, t: State)
    requires AtRest(s) && s.closed && s.closer.Closed? && Step(cap, s, a) == Some(t)
    ensures AtRest(t) && t.closed && t.closer.Closed? && t.g == s.g && t.completed == s.completed
  {
    assert forall i :: 0 <= i < |s.writers| ==> s.writers[i].Exited?;
  }

  /** No run settles a request left at rest. */
  lemma LeftForGood(cap: nat, s: State, more: seq<Action>, t: State)
    requires AtRest(s) && s.closed && s.closer.Closed? && Exec(Steps(cap), s, more) == Some(t)
    ensures AtRest(t) && t.g == s.g && t.completed == s.completed
  {
    var inv := (u: State) => AtRest(u) && u.closed && u.closer.Closed? && u.g == s.g && u.completed == s.completed;
    forall u: State, a: Action | inv(u) && Steps(cap)(u, a).Some?
      ensures inv(Steps(cap)(u, a).value)
    {
      RestIsFinal(cap, u, a, Step(cap, u, a).value);
    }
    Invariance(Steps(cap), inv, s, more);
  }

  // ---------------------------------------------------------------- reaching such a state

  /** Such a run: r2 passes the check, close wins and drains, r2 is appended behind the writer of r1,
      whose write then fails.  r2 stays queued for ever and its waiter is never signalled. */
  lemma RacedRequestCanBeLeft(cap: nat, r1: Req, r2: Req) returns (t: State)
    requires r1.id != r2.id && |r1.data| <= cap && |r2.data| <= cap && r1.data != []
    ensures Reaches(Steps(cap), Init(), t)
    ensures AtRest(t) && r2 in t.arrived && !Settled(t, r2) && Count(Any, r2.id, t.signals) == 0
  {
    var s := RaceUntilTaken(cap, r1, r2);
    s := RaceUntilSocketClosed(cap, r1, r2, s);
    s := RaceUntilDrained(cap, r1, r2, s);
    s := RaceUntilLate(cap, r1, r2, s);
    t := LateIsLeft(cap, s, 0, r2);
  }

  lemma RaceUntilTaken(cap: nat, r1: Req, r2: Req) returns (s: State)
    requires r1.id != r2.id && |r1.data| <= cap
    ensures Reaches(Steps(cap), Init(), s)
    ensures Racing(s, r1, r2) && !s.closed
  {
    s := RaceUntilQueued(cap, r1);
    s := Go(Steps(cap), Init(), s, Check(r2));
    assert s.arrived == [r1, r2] && s.checked == [r2];
    assert TotalSize(Size, [r1]) == |r1.data| + TotalSize(Size, []);
    assert Data([r1]) == r1.data + Data([]) == r1.data;
    s := Go(Steps(cap), Init(), s, Take(0));
  }

  lemma RaceUntilQueued(cap: nat, r1: Req) returns (s: State)
    requires |r1.data| <= cap
    ensures Reaches(Steps(cap), Init(), s)
    ensures s.writers == [Locking] && s.checked == [] && s.arrived == [r1] && s.g == Guarded([r1], |r1.data|, true)
    ensures !s.closed && s.owingClose == 0 && s.completed == s.refused == s.signals == []
  {
    ReachesSelf(Steps(cap), Init());
    s := Go(Steps(cap), Init(), Init(), Check(r1));
    s := Go(Steps(cap), Init(), s, Enqueue(0));
  }

  /** The fields that stay put while close runs. */
  ghost predicate Racing(s: State, r1: Req, r2: Req)
  {
    && s.checked == [r2] && s.arrived == [r1, r2] && s.owingClose == 0
    && s.g == Guarded([], 0, true) && s.writers == [Writing([r1], r1.data)]
    && s.completed == s.refused == s.signals == []
  }

  lemma RaceUntilSocketClosed(cap: nat, r1: Req, r2: Req, s4: State) returns (s: State)
    requires Reaches(Steps(cap), Init(), s4) && Racing(s4, r1, r2) && !s4.closed
    ensures Reaches(Steps(cap), Init(), s) && Racing(s, r1, r2) && s.closed && s.closer == SocketClosed && s.dead
  {
    s := Go(Steps(cap), Init(), s4, OtherCloses);
    assert s == CasClose(s4);
    s := Go(Steps(cap), Init(), s, CloseSocket);
  }

  lemma RaceUntilDrained(cap: nat, r1: Req, r2: Req, s6: State) returns (s: State)
    requires Reaches(Steps(cap), Init(), s6) && Racing(s6, r1, r2) && s6.closed && s6.closer == SocketClosed && s6.dead
    ensures Reaches(Steps(cap), Init(), s) && Racing(s, r1, r2) && s.closed && s.closer == Closed && s.dead
  {
    s := Go(Steps(cap), Init(), s6, DrainQueue);
    s := Go(Steps(cap), Init(), s, ReleaseDrained);
  }

  lemma RaceUntilLate(cap: nat, r1: Req, r2: Req, s8: State) returns (s: State)
    requires |r2.data| <= cap
    requires Reaches(Steps(cap), Init(), s8) && Racing(s8, r1, r2) && s8.closed && s8.closer == Closed && s8.dead
    ensures Reaches(Steps(cap), Init(), s)
    ensures s.writers == [Writing([r1], r1.data)] && r2 in s.late && r2 in s.g.pending && s.arrived == [r1, r2]
  {
    s := Go(Steps(cap), Init(), s8, Enqueue(0));
  }
}

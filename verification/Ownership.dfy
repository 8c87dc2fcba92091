/** Receive buffers: every lease taken by the readLoop thread is held in exactly one place until it is
    released, and it is released at most once. */
module Ownership {
  import opened Wrappers
  import opened Runs
  import opened StreamMachine
  import opened StreamControl

  function Times(l: nat, log: seq<nat>): nat
  {
    if log == [] then 0 else (if log[0] == l then 1 else 0) + Times(l, log[1..])
  }

  function LeaseCount(l: nat, jobs: seq<Job>): nat
  {
    if jobs == [] then 0 else (if jobs[0].lease == Some(l) then 1 else 0) + LeaseCount(l, jobs[1..])
  }

  /** The packet whose buffer the reader must still release; a kept packet is no longer its own. */
  function InReader(r: Reader): seq<Job>
  {
    match r
    case Idle => []
    case Refusing(p, keep) => if keep then [] else [p]
    case Charging(p, keep) => if keep then [] else [p]
    case Returning(p, keep) => if keep then [] else [p]
    case _ => [r.p]
  }

  function InBatch(w: Writer): seq<Job>
  {
    match w
    case Taken(batch) => batch
    case Writing(batch, _) => batch
    case Releasing(batch, _) => batch
    case _ => []
  }

  function InDrain(k: Closer): seq<Job> { if k.Draining? then k.jobs else [] }

  function Held(s: State, l: nat): nat
  {
    LeaseCount(l, InReader(s.reader)) + LeaseCount(l, s.stream.q.pending) + LeaseCount(l, InBatch(s.writer)) + LeaseCount(l, InDrain(s.closer))
  }

  ghost predicate Owned(s: State)
  {
    forall l: nat :: Held(s, l) + Times(l, s.h.released) == if l < s.h.issued then 1 else 0
  }

  // ---------------------------------------------------------------- logs

  lemma {:induction false} TimesAppend(l: nat, a: seq<nat>, b: seq<nat>)
    ensures Times(l, a + b) == Times(l, a) + Times(l, b)
    decreases |a|
  {
    if a == [] {
      assert a + b == b;
    } else {
      assert (a + b)[0] == a[0] && (a + b)[1..] == a[1..] + b;
      TimesAppend(l, a[1..], b);
    }
  }

  lemma {:induction false} LeaseCountAppend(l: nat, a: seq<Job>, b: seq<Job>)
    ensures LeaseCount(l, a + b) == LeaseCount(l, a) + LeaseCount(l, b)
    decreases |a|
  {
    if a == [] {
      assert a + b == b;
    } else {
      assert (a + b)[0] == a[0] && (a + b)[1..] == a[1..] + b;
      LeaseCountAppend(l, a[1..], b);
    }
  }

  lemma {:induction false} TimesLeases(l: nat, jobs: seq<Job>)
    ensures Times(l, Leases(jobs)) == LeaseCount(l, jobs)
    decreases |jobs|
  {
    if jobs != [] {
      TimesLeases(l, jobs[1..]);
      if jobs[0].lease.Some? {
        assert Leases(jobs)[1..] == Leases(jobs[1..]);
      } else {
        assert Leases(jobs) == Leases(jobs[1..]);
      }
    }
  }

  lemma ReleasedJobs(l: nat, h: History, jobs: seq<Job>)
    ensures Times(l, ReleaseAll(h, jobs).released) == Times(l, h.released) + LeaseCount(l, jobs)
  {
    TimesAppend(l, h.released, Leases(jobs));
    TimesLeases(l, jobs);
  }

  lemma ReleasedJob(l: nat, h: History, j: Job)
    ensures Times(l, ReleaseJob(h, j).released) == Times(l, h.released) + LeaseCount(l, [j])
    ensures ReleaseJob(h, j).issued == h.issued
  {
    if j.lease.Some? {
      TimesAppend(l, h.released, [j.lease.value]);
      assert [j.lease.value][1..] == [];
    }
    assert [j][1..] == [];
  }

  // ---------------------------------------------------------------- preservation

  lemma EnqueueKeepsOwned(c: Config, s: State, p: Job)
    requires Owned(s) && WriterPhases(c, s) && s.reader == AtQueue(p)
    ensures Owned(Enqueue(c, s, p))
  {
    var t := Enqueue(c, s, p);
    forall l: nat ensures Held(t, l) + Times(l, t.h.released) == if l < t.h.issued then 1 else 0 {
      ReleasedJob(l, s.h, p);
      LeaseCountAppend(l, s.stream.q.pending, [p]);
      assert Held(s, l) + Times(l, s.h.released) == if l < s.h.issued then 1 else 0;
    }
  }

  /** Apart from queueing, the reader's own packet either stays with it or is released. */
  lemma ReaderHandsBack(c: Config, s: State, a: Action, t: State)
    requires StepReader(c, s, a) == Some(t) && !a.Arrive? && !s.reader.AtQueue? && !s.reader.Idle?
    ensures t.stream.q == s.stream.q && t.writer == s.writer && t.closer == s.closer && t.h.issued == s.h.issued
    ensures || (InReader(t.reader) == InReader(s.reader) && t.h.released == s.h.released)
            || (InReader(t.reader) == [] && InReader(s.reader) == [s.reader.p] && t.h.released == ReleaseJob(s.h, s.reader.p).released)
  {
  }

  lemma ReaderKeepsOwned(c: Config, s: State, a: Action, t: State)
    requires Owned(s) && WriterPhases(c, s) && StepReader(c, s, a) == Some(t)
    ensures Owned(t)
  {
    if a.Arrive? {
      forall l: nat ensures Held(t, l) + Times(l, t.h.released) == if l < t.h.issued then 1 else 0 {
        assert [t.reader.p][1..] == [];
        assert Held(s, l) + Times(l, s.h.released) == if l < s.h.issued then 1 else 0;
      }
    } else if s.reader.AtQueue? {
      EnqueueKeepsOwned(c, s, s.reader.p);
    } else {
      ReaderHandsBack(c, s, a, t);
      forall l: nat ensures Held(t, l) + Times(l, t.h.released) == if l < t.h.issued then 1 else 0 {
        ReleasedJob(l, s.h, s.reader.p);
        assert Held(s, l) + Times(l, s.h.released) == if l < s.h.issued then 1 else 0;
      }
    }
  }

  lemma WriterKeepsOwned(s: State, a: Action, t: State)
    requires Owned(s) && StepWriter(s, a) == Some(t)
    ensures Owned(t)
  {
    forall l: nat ensures Held(t, l) + Times(l, t.h.released) == if l < t.h.issued then 1 else 0 {
      if s.writer.Releasing? {
        ReleasedJobs(l, s.h, s.writer.batch);
      }
    }
  }

  lemma CloserKeepsOwned(c: Config, s: State, a: Action, t: State)
    requires Owned(s) && Phases(c, s) && StepCloser(s, a) == Some(t)
    ensures Owned(t)
  {
    forall l: nat ensures Held(t, l) + Times(l, t.h.released) == if l < t.h.issued then 1 else 0 {
      CloserMovesHeld(c, s, a, t, l);
    }
  }

  lemma CloserMovesHeld(c: Config, s: State, a: Action, t: State, l: nat)
    requires Phases(c, s) && StepCloser(s, a) == Some(t)
    ensures Held(t, l) + Times(l, t.h.released) == Held(s, l) + Times(l, s.h.released) && t.h.issued == s.h.issued
  {
    if s.closer.Draining? {
      ReleasedJobs(l, s.h, s.closer.jobs);
    }
  }

  lemma StepKeepsOwned(c: Config, s: State, a: Action, t: State)
    requires Owned(s) && Ctl(c, s) && Step(c, s, a) == Some(t)
    ensures Owned(t)
  {
    match ThreadOf(a)
    case ByClient =>
    case ByReader => ReaderKeepsOwned(c, s, a, t);
    case ByConnector =>
      ConnectorFrame(c, s, a, t);
      ConnectorStreamFrame(c, s, a, t);
    case ByWriter => WriterKeepsOwned(s, a, t);
    case ByCloser => CloserKeepsOwned(c, s, a, t);
  }

  lemma EveryRunOwns(c: Config, trace: seq<Action>)
    ensures Exec(Steps(c), Init(c), trace).Some?
        ==> var t := Exec(Steps(c), Init(c), trace).value; Ctl(c, t) && Owned(t)
  {
    var inv := (s: State) => Ctl(c, s) && Owned(s);
    forall s: State, a: Action | inv(s) && Steps(c)(s, a).Some?
      ensures inv(Steps(c)(s, a).value)
    {
      StepKeepsCtl(c, s, a, Step(c, s, a).value);
      StepKeepsOwned(c, s, a, Step(c, s, a).value);
    }
    Invariance(Steps(c), inv, Init(c), trace);
  }

  /** A buffer is released at most once, never while a writer, the queue or the reader still has it,
      and once the reader is back with a packet it kept, the buffer is elsewhere: queued, being
      written, drained or already released.  IngressRace says which ones may stay queued for ever. */
  lemma BuffersReleasedOnce(c: Config, trace: seq<Action>, t: State, l: nat)
    requires Exec(Steps(c), Init(c), trace) == Some(t) && l < t.h.issued
    ensures Times(l, t.h.released) + LeaseCount(l, InBatch(t.writer)) + LeaseCount(l, t.stream.q.pending)
            + LeaseCount(l, InReader(t.reader)) + LeaseCount(l, InDrain(t.closer)) == 1
    ensures t.reader.Idle? && t.writer.NoWriter? && t.stream.q.pending == [] && !t.closer.Draining? ==> Times(l, t.h.released) == 1
  {
    EveryRunOwns(c, trace);
  }
}

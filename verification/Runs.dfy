/** Option values, used for absent results and refused steps. */
module Wrappers {
  datatype Option<+T> = None | Some(value: T)
}

/** Runs of a transition system.  A system is a partial step function on states and actions:
    an action names the thread that moves and what its environment answered, and a step that is
    not enabled yields None.  A run is a sequence of enabled actions, so quantifying over all
    action sequences quantifies over all interleavings. */
module Runs {
  import opened Wrappers

  function Exec<S, A>(step: (S, A) -> Option<S>, s: S, trace: seq<A>): Option<S>
  {
    if trace == [] then Some(s)
    else match step(s, trace[0])
      case None => None
      case Some(t) => Exec(step, t, trace[1..])
  }

  ghost predicate Reaches<S(!new), A(!new)>(step: (S, A) -> Option<S>, s: S, t: S)
  {
    exists trace: seq<A> :: Exec(step, s, trace) == Some(t)
  }

  /** Every enabled step keeps inv. */
  ghost predicate Inductive<S(!new), A(!new)>(step: (S, A) -> Option<S>, inv: S -> bool)
  {
    forall s: S, a: A :: inv(s) && step(s, a).Some? ==> inv(step(s, a).value)
  }

  lemma {:induction false} Invariance<S(!new), A(!new)>(step: (S, A) -> Option<S>, inv: S -> bool, s: S, trace: seq<A>)
    requires Inductive(step, inv) && inv(s)
    ensures Exec(step, s, trace).Some? ==> inv(Exec(step, s, trace).value)
    decreases |trace|
  {
    if trace != [] {
      match step(s, trace[0])
      case None =>
      case Some(t) => Invariance(step, inv, t, trace[1..]);
    }
  }

  lemma {:induction false} ReachableInvariance<S(!new), A(!new)>(step: (S, A) -> Option<S>, inv: S -> bool, s: S, t: S)
    requires Inductive(step, inv) && inv(s) && Reaches(step, s, t)
    ensures inv(t)
  {
    var trace: seq<A> :| Exec(step, s, trace) == Some(t);
    Invariance(step, inv, s, trace);
  }

  lemma {:induction false} ExecConcat<S, A>(step: (S, A) -> Option<S>, s: S, t1: seq<A>, t2: seq<A>)
    requires Exec(step, s, t1).Some?
    ensures Exec(step, s, t1 + t2) == Exec(step, Exec(step, s, t1).value, t2)
    decreases |t1|
  {
    if t1 == [] {
      assert t1 + t2 == t2;
    } else {
      assert (t1 + t2)[0] == t1[0] && (t1 + t2)[1..] == t1[1..] + t2;
      ExecConcat(step, step(s, t1[0]).value, t1[1..], t2);
    }
  }

  lemma ReachesSelf<S(!new), A(!new)>(step: (S, A) -> Option<S>, s: S)
    ensures Reaches(step, s, s)
  {
    assert Exec(step, s, []) == Some(s);
  }

  lemma ReachesStep<S(!new), A(!new)>(step: (S, A) -> Option<S>, s: S, t: S, a: A, u: S)
    requires Reaches(step, s, t) && step(t, a) == Some(u)
    ensures Reaches(step, s, u)
  {
    var trace: seq<A> :| Exec(step, s, trace) == Some(t);
    ExecConcat(step, s, trace, [a]);
    assert Exec(step, u, []) == Some(u);
    assert Exec(step, t, [a]) == Some(u);
    assert Exec(step, s, trace + [a]) == Some(u);
  }

  /** One more step of a run, to the state it leads to. */
  lemma Go<S(!new), A(!new)>(step: (S, A) -> Option<S>, s: S, t: S, a: A) returns (u: S)
    requires Reaches(step, s, t) && step(t, a).Some?
    ensures step(t, a) == Some(u) && Reaches(step, s, u)
  {
    u := step(t, a).value;
    ReachesStep(step, s, t, a, u);
  }
}

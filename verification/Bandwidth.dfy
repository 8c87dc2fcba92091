/** The virtual-time bandwidth limiter.  Times are nanoseconds; now never decreases in lock order. */
module Bandwidth {
  import opened Wrappers

  datatype Bucket = Bucket(next: int, lastSeen: int)

  /** Where the reservation of a request starts: never further back than one burst. */
  function StartAt(bucket: Option<Bucket>, burst: nat, now: int): int
  {
    match bucket
    case None => now - burst
    case Some(b) => if b.next < now - burst then now - burst else b.next
  }

  function Reserve(bucket: Option<Bucket>, burst: nat, now: int, cost: nat): Bucket
  {
    Bucket(StartAt(bucket, burst, now) + cost, now)
  }

  /** The table after one call: only the caller's own bucket moves, and not for a cost of nothing. */
  function Charge<Key>(m: map<Key, Bucket>, burst: nat, key: Key, now: int, cost: nat): map<Key, Bucket>
  {
    if cost == 0 then m
    else m[key := Reserve(Lookup(m, key), burst, now, cost)]
  }

  function Lookup<Key>(m: map<Key, Bucket>, key: Key): Option<Bucket> { if key in m then Some(m[key]) else None }

  /** When the caller may go; a cost of nothing goes at once. */
  function FinishOf<Key>(m: map<Key, Bucket>, burst: nat, key: Key, now: int, cost: nat): Option<int>
  {
    if cost == 0 then None else Some(StartAt(Lookup(m, key), burst, now) + cost)
  }

  function Keep<Key>(m: map<Key, Bucket>, cutoff: int): map<Key, Bucket>
  {
    map k | k in m && m[k].lastSeen >= cutoff :: m[k]
  }

  class Limiter<Key(==)> {
    const burst: nat
    var buckets: map<Key, Bucket>

    constructor (burst: nat)
      ensures this.burst == burst && buckets == map[]
    {
      this.burst := burst;
      buckets := map[];
    }

    /** Wait up to the timer: the caller may go once the clock reaches finish; a cost that rounds to
        nothing goes at once and is not recorded. */
    method Wait(key: Key, now: int, cost: nat) returns (finish: Option<int>)
      modifies this
      ensures buckets == Charge(old(buckets), burst, key, now, cost)
      ensures finish == FinishOf(old(buckets), burst, key, now, cost)
    {
      if cost <= 0 {
        return None;
      }
      var earliest := now - burst;
      var start := if key in buckets then buckets[key].next else earliest;
      if start < earliest {
        start := earliest;
      }
      buckets := buckets[key := Bucket(start + cost, now)];
      return Some(start + cost);
    }

    method Evict(now: int, idle: nat)
      modifies this
      ensures buckets == Keep(old(buckets), now - idle)
    {
      var cutoff := now - idle;
      var todo := buckets.Keys;
      while todo != {}
        invariant todo <= old(buckets).Keys
        invariant buckets == map k | k in old(buckets) && (k in todo || old(buckets)[k].lastSeen >= cutoff) :: old(buckets)[k]
        decreases |todo|
      {
        var key :| key in todo;
        if buckets[key].lastSeen < cutoff {
          buckets := buckets - {key};
        }
        todo := todo - {key};
      }
    }
  }

  // ---------------------------------------------------------------- one key over its whole history

  datatype Request = Request(now: int, cost: nat)

  /** The bucket after a key's requests. */
  function After(burst: nat, rs: seq<Request>): Option<Bucket>
  {
    if rs == [] then None
    else Some(Reserve(After(burst, rs[..|rs| - 1]), burst, rs[|rs| - 1].now, rs[|rs| - 1].cost))
  }

  datatype Call<Key> = Call(key: Key, now: int, cost: nat)

  function Table<Key>(burst: nat, calls: seq<Call<Key>>): map<Key, Bucket>
  {
    if calls == [] then map[]
    else
      var c := calls[|calls| - 1];
      Charge(Table(burst, calls[..|calls| - 1]), burst, c.key, c.now, c.cost)
  }

  function Mine<Key(==)>(calls: seq<Call<Key>>, key: Key): seq<Request>
  {
    if calls == [] then []
    else
      var c := calls[|calls| - 1];
      Mine(calls[..|calls| - 1], key) + if c.key == key && c.cost > 0 then [Request(c.now, c.cost)] else []
  }

  /** Keys do not disturb each other: a key's bucket is that of its own requests alone. */
  lemma {:induction false} KeysAreIndependent<Key>(burst: nat, calls: seq<Call<Key>>, key: Key)
    ensures Lookup(Table(burst, calls), key) == After(burst, Mine(calls, key))
    decreases |calls|
  {
    if calls != [] {
      var before, c := calls[..|calls| - 1], calls[|calls| - 1];
      KeysAreIndependent(burst, before, key);
      if c.key == key && c.cost > 0 {
        assert Mine(calls, key)[..|Mine(calls, key)| - 1] == Mine(before, key);
      } else {
        assert Mine(calls, key) == Mine(before, key);
      }
    }
  }

  function Start(burst: nat, rs: seq<Request>, i: nat): int
    requires i < |rs|
  {
    StartAt(After(burst, rs[..i]), burst, rs[i].now)
  }

  function Finish(burst: nat, rs: seq<Request>, i: nat): int
    requires i < |rs|
  {
    Start(burst, rs, i) + rs[i].cost
  }

  /** Clock readings in lock order, and only requests with a cost. */
  ghost predicate History(rs: seq<Request>)
  {
    && (forall i, j :: 0 <= i <= j < |rs| ==> rs[i].now <= rs[j].now)
    && (forall i :: 0 <= i < |rs| ==> rs[i].cost > 0)
  }

  lemma StartsInTurn(burst: nat, rs: seq<Request>, i: nat)
    requires i < |rs|
    ensures Start(burst, rs, i) >= rs[i].now - burst
    ensures i > 0 ==> Start(burst, rs, i) >= Finish(burst, rs, i - 1)
    ensures Start(burst, rs, i) == rs[i].now - burst || (i > 0 && Start(burst, rs, i) == Finish(burst, rs, i - 1))
  {
    if i > 0 {
      assert rs[..i][..i - 1] == rs[..i - 1];
    }
  }

  function CostSum(rs: seq<Request>, i: nat, j: nat): nat
    requires i <= j <= |rs|
  {
    if i == j then 0 else CostSum(rs, i, j - 1) + rs[j - 1].cost
  }

  /** The requests i..j-1 occupy disjoint stretches of virtual time. */
  lemma {:induction false} CostsFit(burst: nat, rs: seq<Request>, i: nat, j: nat)
    requires i < j <= |rs|
    ensures CostSum(rs, i, j) <= Finish(burst, rs, j - 1) - Start(burst, rs, i)
    decreases j
  {
    if j == i + 1 {
      assert CostSum(rs, i, i) == 0;
    } else {
      CostsFit(burst, rs, i, j - 1);
      StartsInTurn(burst, rs, j - 1);
    }
  }

  lemma {:induction false} FinishesInTurn(burst: nat, rs: seq<Request>, i: nat, j: nat)
    requires i <= j < |rs|
    ensures Finish(burst, rs, i) <= Finish(burst, rs, j)
    decreases j
  {
    if i < j {
      FinishesInTurn(burst, rs, i, j - 1);
      StartsInTurn(burst, rs, j);
    }
  }

  /** The finish in closed form: counted from one burst before some earlier request, the costs from there
      on, and no such sum is larger.  So nobody waits longer than the limit asks for. */
  lemma {:induction false} FinishIsLargest(burst: nat, rs: seq<Request>, n: nat) returns (at: nat)
    requires n < |rs|
    ensures at <= n && Finish(burst, rs, n) == rs[at].now - burst + CostSum(rs, at, n + 1)
    ensures forall i :: 0 <= i <= n ==> rs[i].now - burst + CostSum(rs, i, n + 1) <= Finish(burst, rs, n)
    decreases n
  {
    assert CostSum(rs, n, n) == 0;
    StartsInTurn(burst, rs, n);
    at := n;
    if n > 0 {
      var before := FinishIsLargest(burst, rs, n - 1);
      if Start(burst, rs, n) != rs[n].now - burst {
        at := before;
      }
      forall i | 0 <= i <= n
        ensures rs[i].now - burst + CostSum(rs, i, n + 1) <= Finish(burst, rs, n)
      {
        assert CostSum(rs, i, n + 1) == CostSum(rs, i, n) + rs[n].cost;
      }
    }
  }

  /** A bucket remembers when its key last paid. */
  lemma LastSeenIsLastPay(burst: nat, rs: seq<Request>)
    requires rs != []
    ensures After(burst, rs).Some? && After(burst, rs).value.lastSeen == rs[|rs| - 1].now
    ensures After(burst, rs).value.next == Finish(burst, rs, |rs| - 1)
  {
    assert rs[..|rs|] == rs;
  }

  // ---------------------------------------------------------------- bounds

  /** When each request was let go; None if its wait was cancelled or is not over. */
  type Releases = seq<Option<int>>

  /** Timers may be late but not early. */
  ghost predicate NotEarly(burst: nat, rs: seq<Request>, rel: Releases)
  {
    |rel| == |rs| && forall i :: 0 <= i < |rs| && rel[i].Some? ==> rel[i].value >= Finish(burst, rs, i)
  }

  /** Total cost let go in [a, b] among the first n requests. */
  function Released(rs: seq<Request>, rel: Releases, a: int, b: int, n: nat): nat
    requires n <= |rs| == |rel|
  {
    if n == 0 then 0
    else Released(rs, rel, a, b, n - 1) + if rel[n - 1].Some? && a <= rel[n - 1].value <= b then rs[n - 1].cost else 0
  }

  lemma {:induction false} ReleasedIsPrefix(burst: nat, rs: seq<Request>, rel: Releases, a: int, t: int, n: nat) returns (j: nat)
    requires NotEarly(burst, rs, rel) && n <= |rs|
    ensures j <= n && Released(rs, rel, a, t, n) <= CostSum(rs, 0, j)
    ensures j > 0 ==> Finish(burst, rs, j - 1) <= t
  {
    if n == 0 {
      return 0;
    }
    j := ReleasedIsPrefix(burst, rs, rel, a, t, n - 1);
    if rel[n - 1].Some? && a <= rel[n - 1].value <= t {
      CostSumGrows(rs, j, n - 1);
      j := n;
    }
  }

  lemma {:induction false} CostSumGrows(rs: seq<Request>, i: nat, j: nat)
    requires i <= j <= |rs|
    ensures CostSum(rs, 0, i) <= CostSum(rs, 0, j)
    decreases j
  {
    if i < j {
      CostSumGrows(rs, i, j - 1);
    }
  }

  /** However late the timers are, the cost let go by time t is at most the time since the key's first
      request plus one burst. */
  lemma CumulativeBound(burst: nat, rs: seq<Request>, rel: Releases, a: int, t: int)
    requires History(rs) && NotEarly(burst, rs, rel) && rs != [] && t >= rs[0].now
    ensures Released(rs, rel, a, t, |rs|) <= t - rs[0].now + burst
  {
    var j := ReleasedIsPrefix(burst, rs, rel, a, t, |rs|);
    if j > 0 {
      CostsFit(burst, rs, 0, j);
      StartsInTurn(burst, rs, 0);
    }
  }

  /** Exact timers: a request goes at its finish, or at once when that has passed. */
  ghost predicate Exact(burst: nat, rs: seq<Request>, rel: Releases)
  {
    && |rel| == |rs|
    && forall i :: 0 <= i < |rs| ==> rel[i] == Some(if Finish(burst, rs, i) > rs[i].now then Finish(burst, rs, i) else rs[i].now)
  }

  ghost predicate Cheap(rs: seq<Request>, most: nat) { forall i :: 0 <= i < |rs| ==> rs[i].cost <= most }

  lemma ReleasedInTurn(burst: nat, rs: seq<Request>, rel: Releases, i: nat, j: nat)
    requires History(rs) && Exact(burst, rs, rel) && i <= j < |rs|
    ensures rel[i].value <= rel[j].value
  {
    FinishesInTurn(burst, rs, i, j);
  }

  /** With exact timers, what is let go in an interval is a run of consecutive requests. */
  lemma {:induction false} ReleasedIsRun(burst: nat, rs: seq<Request>, rel: Releases, a: int, b: int, n: nat) returns (i: nat, j: nat)
    requires History(rs) && Exact(burst, rs, rel) && n <= |rs|
    ensures i <= j <= n && Released(rs, rel, a, b, n) == CostSum(rs, i, j)
    ensures i < j ==> rel[i].value >= a && rel[j - 1].value <= b
    ensures i < j && n > 0 && rel[n - 1].value <= b ==> j == n
    ensures i == j && n > 0 ==> rel[n - 1].value < a || rel[n - 1].value > b
  {
    if n == 0 {
      return 0, 0;
    }
    i, j := ReleasedIsRun(burst, rs, rel, a, b, n - 1);
    if n > 1 {
      ReleasedInTurn(burst, rs, rel, n - 2, n - 1);
    }
    if a <= rel[n - 1].value <= b {
      i, j := if i < j then i else n - 1, n;
    } else if i < j {
      ReleasedInTurn(burst, rs, rel, j - 1, n - 1);
      ReleasedInTurn(burst, rs, rel, i, n - 1);
    }
  }

  /** With exact timers the cost let go in any [a, b] is at most its length plus the larger of one
      burst and the largest single cost. */
  lemma IntervalBound(burst: nat, rs: seq<Request>, rel: Releases, most: nat, a: int, b: int)
    requires History(rs) && Exact(burst, rs, rel) && Cheap(rs, most) && a <= b
    ensures Released(rs, rel, a, b, |rs|) <= (b - a) + if most > burst then most else burst
  {
    var i, j := ReleasedIsRun(burst, rs, rel, a, b, |rs|);
    if i < j {
      CostsFit(burst, rs, i, j);
      StartsInTurn(burst, rs, i);
      assert rs[i].cost <= most;
      assert Finish(burst, rs, j - 1) <= rel[j - 1].value <= b;
    }
  }

  // ---------------------------------------------------------------- eviction

  /** Forgetting a bucket changes no later reservation exactly when its virtual time is at least one
      burst behind the moment of eviction. */
  lemma EvictionInvisibleIff(b: Bucket, burst: nat, evictedAt: int)
    ensures (forall now: int, cost: nat | now >= evictedAt && cost > 0 ::
        Reserve(Some(b), burst, now, cost) == Reserve(None, burst, now, cost))
      <==> b.next + burst <= evictedAt
  {
    if b.next > evictedAt - burst {
      assert Reserve(Some(b), burst, evictedAt, 1) != Reserve(None, burst, evictedAt, 1);
    }
  }

  datatype Op<Key> = Pay(key: Key, now: int, cost: nat) | Sweep(now: int, idle: nat)

  function Time<Key>(op: Op<Key>): int { op.now }

  function Next<Key>(m: map<Key, Bucket>, burst: nat, op: Op<Key>): map<Key, Bucket>
  {
    match op
    case Pay(key, now, cost) => Charge(m, burst, key, now, cost)
    case Sweep(now, idle) => Keep(m, now - idle)
  }

  function TableAfter<Key>(m: map<Key, Bucket>, burst: nat, ops: seq<Op<Key>>): map<Key, Bucket>
    decreases |ops|
  {
    if ops == [] then m else TableAfter(Next(m, burst, ops[0]), burst, ops[1..])
  }

  /** When each request of a run may go, in order; sweeps answer nothing. */
  function Finishes<Key>(m: map<Key, Bucket>, burst: nat, ops: seq<Op<Key>>): seq<Option<int>>
    decreases |ops|
  {
    if ops == [] then []
    else
      var first := if ops[0].Pay? then [FinishOf(m, burst, ops[0].key, ops[0].now, ops[0].cost)] else [];
      first + Finishes(Next(m, burst, ops[0]), burst, ops[1..])
  }

  function WithoutSweeps<Key>(ops: seq<Op<Key>>): seq<Op<Key>>
  {
    if ops == [] then []
    else (if ops[0].Pay? then [ops[0]] else []) + WithoutSweeps(ops[1..])
  }

  ghost predicate Ordered<Key>(ops: seq<Op<Key>>, since: int)
  {
    && (forall i :: 0 <= i < |ops| ==> since <= Time(ops[i]))
    && (forall i, j :: 0 <= i <= j < |ops| ==> Time(ops[i]) <= Time(ops[j]))
  }

  /** The sweep takes only buckets whose virtual time is a burst behind. */
  ghost predicate Spares<Key>(m: map<Key, Bucket>, burst: nat, now: int, idle: nat)
  {
    forall k <- m :: m[k].lastSeen < now - idle ==> m[k].next + burst <= now
  }

  ghost predicate SweepsSpare<Key>(m: map<Key, Bucket>, burst: nat, ops: seq<Op<Key>>)
    decreases |ops|
  {
    ops != [] ==>
      (ops[0].Sweep? ==> Spares(m, burst, ops[0].now, ops[0].idle)) && SweepsSpare(Next(m, burst, ops[0]), burst, ops[1..])
  }

  /** The swept table lacks only buckets that are a burst behind. */
  ghost predicate Lags<Key>(swept: map<Key, Bucket>, full: map<Key, Bucket>, burst: nat, since: int)
  {
    && (forall k <- swept :: k in full && full[k] == swept[k])
    && (forall k <- full :: k !in swept ==> full[k].next + burst <= since)
  }

  lemma PayKeepsLag<Key>(swept: map<Key, Bucket>, full: map<Key, Bucket>, burst: nat, since: int, op: Op<Key>)
    requires Lags(swept, full, burst, since) && op.Pay? && since <= op.now
    ensures Lags(Next(swept, burst, op), Next(full, burst, op), burst, op.now)
    ensures FinishOf(swept, burst, op.key, op.now, op.cost) == FinishOf(full, burst, op.key, op.now, op.cost)
  {
  }

  lemma SweepKeepsLag<Key>(swept: map<Key, Bucket>, full: map<Key, Bucket>, burst: nat, since: int, op: Op<Key>)
    requires Lags(swept, full, burst, since) && op.Sweep? && since <= op.now && Spares(swept, burst, op.now, op.idle)
    ensures Lags(Next(swept, burst, op), full, burst, op.now)
  {
  }

  lemma OrderedTail<Key>(ops: seq<Op<Key>>, since: int)
    requires Ordered(ops, since) && ops != []
    ensures since <= ops[0].now && Ordered(ops[1..], ops[0].now)
  {
    assert Time(ops[0]) == ops[0].now;
  }

  lemma {:induction false} SweepsUnseen<Key>(swept: map<Key, Bucket>, full: map<Key, Bucket>, burst: nat, ops: seq<Op<Key>>, since: int, until: int)
    requires Lags(swept, full, burst, since) && Ordered(ops, since) && SweepsSpare(swept, burst, ops)
    requires since <= until && forall op <- ops :: op.now <= until
    ensures Finishes(swept, burst, ops) == Finishes(full, burst, WithoutSweeps(ops))
    ensures Lags(TableAfter(swept, burst, ops), TableAfter(full, burst, WithoutSweeps(ops)), burst, until)
    decreases |ops|
  {
    if ops != [] {
      OrderedTail(ops, since);
      if ops[0].Pay? {
        PayKeepsLag(swept, full, burst, since, ops[0]);
        SweepsUnseen(Next(swept, burst, ops[0]), Next(full, burst, ops[0]), burst, ops[1..], ops[0].now, until);
        assert WithoutSweeps(ops)[1..] == WithoutSweeps(ops[1..]);
      } else {
        SweepKeepsLag(swept, full, burst, since, ops[0]);
        SweepsUnseen(Next(swept, burst, ops[0]), full, burst, ops[1..], ops[0].now, until);
        assert WithoutSweeps(ops) == WithoutSweeps(ops[1..]);
      }
    }
  }

  /** In every run over any keys, sweeps that spare the buckets not yet a burst behind change no answer. */
  lemma EvictionInvisible<Key>(burst: nat, ops: seq<Op<Key>>)
    requires ops != [] && Ordered(ops, Time(ops[0])) && SweepsSpare(map[], burst, ops)
    ensures Finishes(map[], burst, ops) == Finishes(map[], burst, WithoutSweeps(ops))
  {
    forall op <- ops
      ensures op.now <= ops[|ops| - 1].now
    {
      var i :| 0 <= i < |ops| && ops[i] == op;
      assert Time(ops[i]) <= Time(ops[|ops| - 1]);
    }
    SweepsUnseen(map[], map[], burst, ops, ops[0].now, ops[|ops| - 1].now);
  }

  /** A sweep does spare them when every next is no later than lastSeen + idle - burst. */
  lemma IdleLongEnough<Key>(m: map<Key, Bucket>, burst: nat, now: int, idle: nat)
    requires forall k <- m :: m[k].next <= m[k].lastSeen + idle - burst
    ensures Spares(m, burst, now, idle)
  {
  }

  lemma {:induction false} FinishesAppend<Key>(m: map<Key, Bucket>, burst: nat, ops: seq<Op<Key>>, more: seq<Op<Key>>)
    ensures Finishes(m, burst, ops + more) == Finishes(m, burst, ops) + Finishes(TableAfter(m, burst, ops), burst, more)
    decreases |ops|
  {
    if ops == [] {
      assert ops + more == more;
    } else {
      assert (ops + more)[0] == ops[0] && (ops + more)[1..] == ops[1..] + more;
      FinishesAppend(Next(m, burst, ops[0]), burst, ops[1..], more);
    }
  }

  lemma FinishesOfOne<Key>(m: map<Key, Bucket>, burst: nat, key: Key, now: int, cost: nat)
    ensures Finishes(m, burst, [Pay(key, now, cost)]) == [FinishOf(m, burst, key, now, cost)]
  {
    assert [Pay(key, now, cost)][1..] == [];
    assert Finishes(Next(m, burst, Pay(key, now, cost)), burst, []) == [];
  }

  /** Any other sweep shows: after it the key that lost its bucket may go earlier than without it,
      whatever the run before and however small the cost. */
  lemma EarlyEvictionShows<Key>(burst: nat, ops: seq<Op<Key>>, now: int, idle: nat, key: Key, cost: nat)
    requires var m := TableAfter(map[], burst, ops); key in m && m[key].lastSeen < now - idle && m[key].next + burst > now
    requires cost > 0
    ensures var early, due := now - burst + cost, TableAfter(map[], burst, ops)[key].next + cost;
      && early < due
      && Finishes(map[], burst, ops + [Sweep(now, idle), Pay(key, now, cost)]) == Finishes(map[], burst, ops) + [Some(early)]
      && Finishes(map[], burst, ops + [Pay(key, now, cost)]) == Finishes(map[], burst, ops) + [Some(due)]
  {
    var sweep, pay := Sweep(now, idle), Pay(key, now, cost);
    var m := TableAfter(map[], burst, ops);
    FinishesAppend(map[], burst, ops, [sweep, pay]);
    assert [sweep, pay][1..] == [pay];
    FinishesOfOne(Keep(m, now - idle), burst, key, now, cost);
    FinishesAppend(map[], burst, ops, [pay]);
    FinishesOfOne(m, burst, key, now, cost);
  }

  /** When it is the first such sweep, it shows against the run without any sweep as well. */
  lemma FirstEarlyEvictionShows<Key>(burst: nat, ops: seq<Op<Key>>, since: int, now: int, idle: nat, key: Key, cost: nat)
    requires Ordered(ops, since) && (forall op <- ops :: op.now <= now) && since <= now && SweepsSpare(map[], burst, ops)
    requires var m := TableAfter(map[], burst, ops); key in m && m[key].lastSeen < now - idle && m[key].next + burst > now
    requires cost > 0
    ensures Finishes(map[], burst, WithoutSweeps(ops) + [Pay(key, now, cost)])
         == Finishes(map[], burst, ops) + [Some(TableAfter(map[], burst, ops)[key].next + cost)]
  {
    SweepsUnseen(map[], map[], burst, ops, since, now);
    FinishesAppend(map[], burst, WithoutSweeps(ops), [Pay(key, now, cost)]);
    FinishesOfOne(TableAfter(map[], burst, WithoutSweeps(ops)), burst, key, now, cost);
  }
}

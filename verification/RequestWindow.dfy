/** The per-key request window.  Times are nanoseconds; now never decreases in lock order. */
module RequestWindow {
  import opened Wrappers

  datatype Entry = Entry(start: int, count: nat)

  /** The entry after one request of a key. */
  function Bump(e: Option<Entry>, window: nat, now: int): Entry
  {
    match e
    case None => Entry(now, 1)
    case Some(x) => if now - x.start >= window then Entry(now, 1) else Entry(x.start, x.count + 1)
  }

  /** A request that opens a window is allowed; others while the count stays within the limit. */
  function Answer(e: Option<Entry>, window: nat, limit: int, now: int): bool
  {
    limit <= 0 || e.None? || now - e.value.start >= window || e.value.count + 1 <= limit
  }

  function Lookup<Key>(m: map<Key, Entry>, key: Key): Option<Entry> { if key in m then Some(m[key]) else None }

  function Touch<Key>(m: map<Key, Entry>, window: nat, limit: int, key: Key, now: int): map<Key, Entry>
  {
    if limit <= 0 then m else m[key := Bump(Lookup(m, key), window, now)]
  }

  function Keep<Key>(m: map<Key, Entry>, cutoff: int): map<Key, Entry>
  {
    map k | k in m && m[k].start >= cutoff :: m[k]
  }

  class SlidingWindow<Key(==)> {
    const limit: int
    const window: nat
    var entries: map<Key, Entry>

    constructor (limit: int, window: nat)
      ensures this.limit == limit && this.window == window && entries == map[]
    {
      this.limit, this.window, entries := limit, window, map[];
    }

    method Allow(key: Key, now: int) returns (ok: bool)
      modifies this
      ensures ok == Answer(old(Lookup(entries, key)), window, limit, now)
      ensures entries == Touch(old(entries), window, limit, key, now)
    {
      if limit <= 0 {
        return true;
      }
      if key !in entries || now - entries[key].start >= window {
        entries := entries[key := Entry(now, 1)];
        return true;
      }
      var e := entries[key];
      entries := entries[key := e.(count := e.count + 1)];
      return e.count + 1 <= limit;
    }

    method Evict(now: int, idle: nat)
      modifies this
      ensures entries == Keep(old(entries), now - idle)
    {
      var cutoff := now - idle;
      var todo := entries.Keys;
      while todo != {}
        invariant todo <= old(entries).Keys
        invariant entries == map k | k in old(entries) && (k in todo || old(entries)[k].start >= cutoff) :: old(entries)[k]
        decreases |todo|
      {
        var key :| key in todo;
        if entries[key].start < cutoff {
          entries := entries - {key};
        }
        todo := todo - {key};
      }
    }
  }

  // ---------------------------------------------------------------- one key over its whole history

  function After(window: nat, times: seq<int>): Option<Entry>
  {
    if times == [] then None
    else Some(Bump(After(window, times[..|times| - 1]), window, times[|times| - 1]))
  }

  predicate Allowed(window: nat, limit: int, times: seq<int>, i: nat)
    requires i < |times|
  {
    Answer(After(window, times[..i]), window, limit, times[i])
  }

  /** Requests among the first n that fall in [a, a + window) and were allowed. */
  function AllowedIn(window: nat, limit: int, times: seq<int>, a: int, n: nat): nat
    requires n <= |times|
  {
    if n == 0 then 0
    else
      var counts := a <= times[n - 1] < a + window && Allowed(window, limit, times, n - 1);
      AllowedIn(window, limit, times, a, n - 1) + (if counts then 1 else 0)
  }

  ghost predicate InOrder(times: seq<int>) { forall i, j :: 0 <= i <= j < |times| ==> times[i] <= times[j] }

  function Min(a: nat, b: nat): nat { if a < b then a else b }

  /** How the open window and the interval share the allowed requests. */
  lemma {:induction false} Share(window: nat, limit: nat, times: seq<int>, a: int, n: nat)
    requires limit > 0 && window > 0 && InOrder(times) && n <= |times|
    ensures n == 0 ==> AllowedIn(window, limit, times, a, n) == 0
    ensures n > 0 ==> var e := After(window, times[..n]).value; var c := AllowedIn(window, limit, times, a, n);
      && e.count >= 1 && e.start <= times[n - 1] < e.start + window
      && (times[n - 1] < a ==> c == 0)
      && (e.start < a ==> c <= Min(e.count, limit) - 1)
      && (a <= e.start < a + window ==> c <= limit - 1 + Min(e.count, limit))
      && (a + window <= e.start ==> c <= 2 * limit - 1)
    decreases n
  {
    if n > 0 {
      Share(window, limit, times, a, n - 1);
      assert times[..n][..n - 1] == times[..n - 1] && times[..n][n - 1] == times[n - 1];
    }
  }

  /** In any half-open interval of one window's length at most 2 * limit - 1 requests are allowed. */
  lemma AtMostTwiceLess1(window: nat, limit: nat, times: seq<int>, a: int)
    requires limit > 0 && window > 0 && InOrder(times)
    ensures AllowedIn(window, limit, times, a, |times|) <= 2 * limit - 1
  {
    Share(window, limit, times, a, |times|);
  }

  /** One request at 0, limit - 1 just before the window ends, limit when the next one opens. */
  function Worst(window: nat, limit: nat): seq<int>
    requires limit > 0 && window > 0
  {
    [0] + seq(limit - 1, _ => window - 1) + seq(limit, _ => window as int)
  }

  lemma {:induction false} WorstAfter(window: nat, limit: nat, n: nat)
    requires limit > 0 && window > 1 && n <= 2 * limit
    ensures n > 0
        ==> After(window, Worst(window, limit)[..n]) == Some(if n <= limit then Entry(0, n) else Entry(window, n - limit))
    ensures AllowedIn(window, limit, Worst(window, limit), 1, n) == if n == 0 then 0 else n - 1
    decreases n
  {
    if n > 0 {
      var times := Worst(window, limit);
      WorstAfter(window, limit, n - 1);
      assert times[..n][..n - 1] == times[..n - 1] && times[..n][n - 1] == times[n - 1];
      assert times[n - 1] == if n == 1 then 0 else if n <= limit then window - 1 else window;
    }
  }

  /** The bound is attained. */
  lemma BoundAttained(window: nat, limit: nat)
    requires limit > 0 && window > 1
    ensures InOrder(Worst(window, limit))
    ensures AllowedIn(window, limit, Worst(window, limit), 1, |Worst(window, limit)|) == 2 * limit - 1
  {
    WorstAfter(window, limit, 2 * limit);
  }

  // ---------------------------------------------------------------- who is allowed

  /** The request that opened the window a request falls in. */
  function Opener(window: nat, times: seq<int>, i: nat): (o: nat)
    requires i < |times|
    ensures o <= i
    decreases i
  {
    if i == 0 || times[i] - times[Opener(window, times, i - 1)] >= window then i else Opener(window, times, i - 1)
  }

  lemma {:induction false} EntryIsOpeners(window: nat, times: seq<int>, i: nat)
    requires i < |times| && window > 0
    ensures var o := Opener(window, times, i);
      After(window, times[..i + 1]) == Some(Entry(times[o], i - o + 1))
    decreases i
  {
    assert times[..i + 1][..i] == times[..i] && times[..i + 1][i] == times[i];
    if i > 0 {
      EntryIsOpeners(window, times, i - 1);
    }
  }

  /** A request is allowed exactly when fewer than limit came before it in its window. */
  lemma AllowedIffEarly(window: nat, limit: nat, times: seq<int>, i: nat)
    requires i < |times| && window > 0 && limit > 0
    ensures Allowed(window, limit, times, i) <==> i - Opener(window, times, i) < limit
  {
    if i > 0 {
      EntryIsOpeners(window, times, i - 1);
    }
  }

  // ---------------------------------------------------------------- eviction over whole runs

  datatype Op<Key> = Ask(key: Key, now: int) | Sweep(now: int, idle: nat)

  function Time<Key>(op: Op<Key>): int { op.now }

  /** The answers of a run, in order; sweeps answer nothing. */
  function Answers<Key>(m: map<Key, Entry>, window: nat, limit: int, ops: seq<Op<Key>>): seq<bool>
    decreases |ops|
  {
    if ops == [] then []
    else match ops[0]
      case Ask(key, now) =>
        [Answer(Lookup(m, key), window, limit, now)] + Answers(Touch(m, window, limit, key, now), window, limit, ops[1..])
      case Sweep(now, idle) => Answers(Keep(m, now - idle), window, limit, ops[1..])
  }

  function WithoutSweeps<Key>(ops: seq<Op<Key>>): seq<Op<Key>>
  {
    if ops == [] then []
    else (if ops[0].Ask? then [ops[0]] else []) + WithoutSweeps(ops[1..])
  }

  ghost predicate Ordered<Key>(ops: seq<Op<Key>>, since: int)
  {
    && (forall i :: 0 <= i < |ops| ==> since <= Time(ops[i]))
    && (forall i, j :: 0 <= i <= j < |ops| ==> Time(ops[i]) <= Time(ops[j]))
  }

  /** Sweeps whose idle time is at least a window, less one tick. */
  ghost predicate SweepsSpare<Key>(ops: seq<Op<Key>>, window: nat)
  {
    forall i :: 0 <= i < |ops| && ops[i].Sweep? ==> ops[i].idle + 1 >= window
  }

  /** Without a positive limit everything is allowed and nothing recorded. */
  lemma {:induction false} NoLimitNoTable<Key>(window: nat, limit: int, ops: seq<Op<Key>>)
    requires limit <= 0
    ensures forall ok <- Answers(map[], window, limit, ops) :: ok
    decreases |ops|
  {
    if ops != [] {
      var next: map<Key, Entry> := if ops[0].Ask? then Touch(map[], window, limit, ops[0].key, ops[0].now)
        else Keep(map[], ops[0].now - ops[0].idle);
      assert next == map[];
      NoLimitNoTable(window, limit, ops[1..]);
    }
  }

  /** The swept table lacks only entries whose window is over. */
  ghost predicate Stale<Key>(swept: map<Key, Entry>, full: map<Key, Entry>, window: nat, since: int)
  {
    && (forall k <- swept :: k in full && full[k] == swept[k])
    && (forall k <- full :: k !in swept ==> since - full[k].start >= window)
  }

  lemma {:induction false} SweepsUnseen<Key>(swept: map<Key, Entry>, full: map<Key, Entry>, window: nat, limit: int, ops: seq<Op<Key>>, since: int)
    requires Ordered(ops, since) && Stale(swept, full, window, since)
    requires SweepsSpare(ops, window)
    ensures Answers(swept, window, limit, ops) == Answers(full, window, limit, WithoutSweeps(ops))
    decreases |ops|
  {
    if ops != [] {
      assert Ordered(ops[1..], Time(ops[0]));
      match ops[0]
      case Ask(key, now) =>
        SweepsUnseen(Touch(swept, window, limit, key, now), Touch(full, window, limit, key, now), window, limit, ops[1..], now);
        assert WithoutSweeps(ops)[1..] == WithoutSweeps(ops[1..]);
      case Sweep(now, idle) =>
        SweepsUnseen(Keep(swept, now - idle), full, window, limit, ops[1..], now);
        assert WithoutSweeps(ops) == WithoutSweeps(ops[1..]);
    }
  }

  /** Evicting entries idle for at least a window (less one tick) changes no answer, ever. */
  lemma EvictionInvisible<Key>(window: nat, limit: int, ops: seq<Op<Key>>)
    requires ops != [] && Ordered(ops, Time(ops[0]))
    requires SweepsSpare(ops, window)
    ensures Answers(map[], window, limit, ops) == Answers(map[], window, limit, WithoutSweeps(ops))
  {
    SweepsUnseen(map[], map[], window, limit, ops, Time(ops[0]));
  }

  // ---------------------------------------------------------------- the bound over whole runs

  /** How many of the key's requests in [a, a + window) a run allows, whatever the other keys do. */
  function Granted<Key(==)>(m: map<Key, Entry>, window: nat, limit: int, ops: seq<Op<Key>>, key: Key, a: int): nat
    decreases |ops|
  {
    if ops == [] then 0
    else match ops[0]
      case Ask(k, now) =>
        var counts := k == key && a <= now < a + window && Answer(Lookup(m, k), window, limit, now);
        (if counts then 1 else 0) + Granted(Touch(m, window, limit, k, now), window, limit, ops[1..], key, a)
      case Sweep(now, idle) => Granted(Keep(m, now - idle), window, limit, ops[1..], key, a)
  }

  function Mine<Key(==)>(ops: seq<Op<Key>>, key: Key): seq<int>
  {
    if ops == [] then []
    else (if ops[0].Ask? && ops[0].key == key then [ops[0].now] else []) + Mine(ops[1..], key)
  }

  lemma {:induction false} MineInOrder<Key>(ops: seq<Op<Key>>, key: Key, since: int)
    requires Ordered(ops, since)
    ensures InOrder(Mine(ops, key)) && forall t <- Mine(ops, key) :: t >= since
    decreases |ops|
  {
    if ops != [] {
      assert Ordered(ops[1..], Time(ops[0]));
      MineInOrder(ops[1..], key, Time(ops[0]));
      FirstInOrder(Time(ops[0]), Mine(ops[1..], key));
      assert [] + Mine(ops[1..], key) == Mine(ops[1..], key);
    }
  }

  lemma FirstInOrder(first: int, times: seq<int>)
    requires InOrder(times) && forall t <- times :: t >= first
    ensures InOrder([first] + times)
  {
    forall i, j | 0 <= i <= j < |times| + 1
      ensures ([first] + times)[i] <= ([first] + times)[j]
    {
      assert j > 0 ==> times[j - 1] in times;
    }
  }

  lemma {:induction false} AllowedInPrefix(window: nat, limit: int, times: seq<int>, more: seq<int>, a: int, n: nat)
    requires n <= |times|
    ensures AllowedIn(window, limit, times + more, a, n) == AllowedIn(window, limit, times, a, n)
    decreases n
  {
    if n > 0 {
      AllowedInPrefix(window, limit, times, more, a, n - 1);
      assert (times + more)[..n - 1] == times[..n - 1];
    }
  }

  /** The table has the key's entry, or a sweep took it when its window was over. */
  ghost predicate Behind<Key>(m: map<Key, Entry>, key: Key, window: nat, before: seq<int>, since: int)
  {
    var e := After(window, before);
    Lookup(m, key) == e || (key !in m && e.Some? && since - e.value.start >= window)
  }

  lemma StillBehind<Key>(m: map<Key, Entry>, key: Key, window: nat, limit: int, before: seq<int>, since: int, k: Key, now: int)
    requires limit > 0 && since <= now && Behind(m, key, window, before, since)
    ensures k == key ==> Answer(Lookup(m, k), window, limit, now) == Answer(After(window, before), window, limit, now)
    ensures k == key ==> Behind(Touch(m, window, limit, k, now), key, window, before + [now], now)
    ensures k != key ==> Behind(Touch(m, window, limit, k, now), key, window, before, now)
  {
    assert (before + [now])[..|before|] == before;
  }

  lemma BehindAfterSweep<Key>(m: map<Key, Entry>, key: Key, window: nat, before: seq<int>, since: int, now: int, idle: nat)
    requires since <= now && Behind(m, key, window, before, since) && idle + 1 >= window
    ensures Behind(Keep(m, now - idle), key, window, before, now)
  {
  }

  lemma OneMore(window: nat, limit: int, before: seq<int>, now: int, a: int)
    ensures After(window, before + [now]) == Some(Bump(After(window, before), window, now))
    ensures var counts := a <= now < a + window && Answer(After(window, before), window, limit, now);
      AllowedIn(window, limit, before + [now], a, |before| + 1)
      == AllowedIn(window, limit, before, a, |before|) + (if counts then 1 else 0)
  {
    var times := before + [now];
    assert times[..|before|] == before;
    AllowedInPrefix(window, limit, before, [now], a, |before|);
  }

  lemma AskGrants<Key>(m: map<Key, Entry>, window: nat, limit: int, ops: seq<Op<Key>>, key: Key, a: int)
    requires ops != [] && ops[0].Ask?
    ensures var now := ops[0].now;
      var counts := ops[0].key == key && a <= now < a + window && Answer(Lookup(m, key), window, limit, now);
      Granted(m, window, limit, ops, key, a)
      == (if counts then 1 else 0) + Granted(Touch(m, window, limit, ops[0].key, now), window, limit, ops[1..], key, a)
  {
  }

  lemma NextMine<Key>(ops: seq<Op<Key>>, key: Key, before: seq<int>)
    requires ops != []
    ensures var next := if ops[0].Ask? && ops[0].key == key then before + [ops[0].now] else before;
      next + Mine(ops[1..], key) == before + Mine(ops, key)
  {
  }

  lemma OrderedTail<Key>(ops: seq<Op<Key>>, since: int)
    requires Ordered(ops, since) && ops != []
    ensures since <= ops[0].now && Ordered(ops[1..], ops[0].now)
  {
    assert Time(ops[0]) == ops[0].now;
  }

  /** What a run allows a key is what its own requests alone would be allowed. */
  lemma {:induction false} GrantedIsAllowed<Key>(m: map<Key, Entry>, window: nat, limit: int, ops: seq<Op<Key>>, key: Key, a: int, before: seq<int>, times: seq<int>, since: int)
    requires limit > 0 && Ordered(ops, since) && SweepsSpare(ops, window) && Behind(m, key, window, before, since)
    requires times == before + Mine(ops, key)
    ensures Granted(m, window, limit, ops, key, a) + AllowedIn(window, limit, before, a, |before|)
         == AllowedIn(window, limit, times, a, |times|)
    decreases |ops|
  {
    if ops == [] {
      assert times == before;
    } else {
      var now := ops[0].now;
      OrderedTail(ops, since);
      NextMine(ops, key, before);
      assert SweepsSpare(ops[1..], window);
      match ops[0]
      case Sweep(_, idle) =>
        BehindAfterSweep(m, key, window, before, since, now, idle);
        GrantedIsAllowed(Keep(m, now - idle), window, limit, ops[1..], key, a, before, times, now);
      case Ask(k, _) =>
        StillBehind(m, key, window, limit, before, since, k, now);
        AskGrants(m, window, limit, ops, key, a);
        if k == key {
          OneMore(window, limit, before, now, a);
          GrantedIsAllowed(Touch(m, window, limit, k, now), window, limit, ops[1..], key, a, before + [now], times, now);
        } else {
          GrantedIsAllowed(Touch(m, window, limit, k, now), window, limit, ops[1..], key, a, before, times, now);
        }
    }
  }

  /** In every run over any keys, with any sweeps that spare windows still open, at most 2 * limit - 1
      requests of a key are allowed in any half-open interval of one window's length. */
  lemma RunBound<Key>(window: nat, limit: nat, ops: seq<Op<Key>>, key: Key, a: int)
    requires limit > 0 && window > 0 && ops != [] && Ordered(ops, Time(ops[0]))
    requires SweepsSpare(ops, window)
    ensures Granted(map[], window, limit, ops, key, a) <= 2 * limit - 1
  {
    var times := Mine(ops, key);
    assert [] + times == times;
    GrantedIsAllowed(map[], window, limit, ops, key, a, [], times, Time(ops[0]));
    MineInOrder(ops, key, Time(ops[0]));
    AtMostTwiceLess1(window, limit, times, a);
  }

  // ---------------------------------------------------------------- sweeping too early

  function Asks(n: nat): seq<Op<int>> { seq(n, _ => Ask(0, 0)) }

  function Yes(n: nat): seq<bool> { seq(n, _ => true) }

  lemma OneAsk(window: nat, limit: nat, count: nat, n: nat, more: seq<Op<int>>)
    requires window > 0 && 1 <= count < limit && n > 0
    ensures Answers(map[0 := Entry(0, count)], window, limit, Asks(n) + more)
         == [true] + Answers(map[0 := Entry(0, count + 1)], window, limit, Asks(n - 1) + more)
  {
    assert (Asks(n) + more)[0] == Ask(0, 0) && (Asks(n) + more)[1..] == Asks(n - 1) + more;
    assert Touch(map[0 := Entry(0, count)], window, limit, 0, 0) == map[0 := Entry(0, count + 1)];
  }

  lemma YesFirst(n: nat, tail: seq<bool>)
    ensures Yes(0) + tail == tail
    ensures n > 0 ==> [true] + (Yes(n - 1) + tail) == Yes(n) + tail
  {
  }

  /** Requests that fill the open window are all allowed. */
  lemma {:induction false} WindowFills(window: nat, limit: nat, count: nat, n: nat, more: seq<Op<int>>, tail: seq<bool>)
    requires window > 0 && 1 <= count && count + n <= limit
    requires tail == Answers(map[0 := Entry(0, count + n)], window, limit, more)
    ensures Answers(map[0 := Entry(0, count)], window, limit, Asks(n) + more) == Yes(n) + tail
    decreases n
  {
    YesFirst(n, tail);
    if n == 0 {
      assert Asks(0) + more == more;
    } else {
      WindowFills(window, limit, count + 1, n - 1, more, tail);
      OneAsk(window, limit, count, n, more);
    }
  }

  lemma AsksFirst(n: nat, more: seq<Op<int>>)
    ensures Asks(0) + more == more
    ensures n > 0 ==>
      var ops := Asks(n) + more; ops[0] == Ask(0, 0) && ops[1..] == Asks(n - 1) + more
    ensures n > 0 ==> Asks(n) + more == [Ask(0, 0)] + (Asks(n - 1) + more)
  {
  }

  lemma {:induction false} AsksStay(n: nat, more: seq<Op<int>>)
    ensures WithoutSweeps(Asks(n) + more) == Asks(n) + WithoutSweeps(more)
    decreases n
  {
    AsksFirst(n, more);
    AsksFirst(n, WithoutSweeps(more));
    if n > 0 {
      AsksStay(n - 1, more);
    }
  }

  /** From an empty table, limit requests at once and then the rest. */
  lemma FilledAtOnce(window: nat, limit: nat, more: seq<Op<int>>)
    requires window > 0 && limit > 0
    ensures Answers(map[], window, limit, Asks(limit) + more)
         == Yes(limit) + Answers(map[0 := Entry(0, limit)], window, limit, more)
  {
    var ops := Asks(limit) + more;
    assert ops[0] == Ask(0, 0) && ops[1..] == Asks(limit - 1) + more;
    assert Touch(map[], window, limit, 0, 0) == map[0 := Entry(0, 1)];
    var tail := Answers(map[0 := Entry(0, limit)], window, limit, more);
    WindowFills(window, limit, 1, limit - 1, more, tail);
    YesFirst(limit, tail);
  }

  lemma LastAnswer(m: map<int, Entry>, window: nat, limit: nat, now: int)
    ensures Answers(m, window, limit, [Ask(0, now)]) == [Answer(Lookup(m, 0), window, limit, now)]
  {
    assert [Ask(0, now)][1..] == [];
    assert Answers(Touch(m, window, limit, 0, now), window, limit, []) == [];
  }

  /** A shorter idle time does show, for every limit: a request is let through that would be refused. */
  lemma EarlyEvictionShows(window: nat, limit: nat, idle: nat)
    requires idle + 1 < window && limit > 0
    ensures var ops := Asks(limit) + [Sweep(idle + 1, idle), Ask(0, idle + 1)];
      && Ordered(ops, 0)
      && Answers(map[], window, limit, ops) == Yes(limit) + [true]
      && Answers(map[], window, limit, WithoutSweeps(ops)) == Yes(limit) + [false]
  {
    var sweep, ask := Sweep(idle + 1, idle), Ask(0, idle + 1);
    var m: map<int, Entry> := map[0 := Entry(0, limit)];
    FilledAtOnce(window, limit, [sweep, ask]);
    assert [sweep, ask][1..] == [ask] && Keep(m, 1) == map[];
    LastAnswer(map[], window, limit, idle + 1);
    AsksStay(limit, [sweep, ask]);
    assert WithoutSweeps([ask]) == [ask] + WithoutSweeps([]) == [ask];
    assert WithoutSweeps([sweep, ask]) == [] + WithoutSweeps([ask]) == [ask];
    FilledAtOnce(window, limit, [ask]);
    LastAnswer(m, window, limit, idle + 1);
  }
}

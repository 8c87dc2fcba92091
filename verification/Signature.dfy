/** The failed-handshake detector and its table of one detector per connection and destination.
    Times are nanoseconds; now never decreases in lock order. */
module Signature {

  datatype Sample = Sample(t: int, ok: bool)

  datatype Config = Config(window: nat, minSamples: int, failedRatio: real)

  function DropOld(ring: seq<Sample>, cutoff: int): seq<Sample>
  {
    if ring != [] && ring[0].t < cutoff then DropOld(ring[1..], cutoff) else ring
  }

  function Failed(ring: seq<Sample>): nat
  {
    if ring == [] then 0 else Failed(ring[..|ring| - 1]) + if ring[|ring| - 1].ok then 0 else 1
  }

  /** Enough samples, and the share of failures at or over the ratio; no samples make no ratio. */
  predicate Matches(cfg: Config, ring: seq<Sample>)
  {
    cfg.window != 0 && |ring| >= cfg.minSamples && |ring| > 0 && Failed(ring) as real / |ring| as real >= cfg.failedRatio
  }

  class Detector {
    const cfg: Config
    var ring: seq<Sample>
    // every sample ever recorded
    ghost var history: seq<Sample>

    ghost predicate Valid()
      reads this
    {
      InOrder(history) && ring == if cfg.window == 0 then [] else RingAfter(cfg.window, history)
    }

    constructor (cfg: Config)
      ensures this.cfg == cfg && ring == [] && history == [] && Valid()
    {
      this.cfg, ring, history := cfg, [], [];
    }

    method Record(now: int, ok: bool)
      requires Valid() && forall x <- history :: x.t <= now
      modifies this
      ensures Valid()
      ensures cfg.window == 0 ==> ring == [] && history == old(history)
      ensures cfg.window > 0 ==> history == old(history) + [Sample(now, ok)] && ring == Recent(history, now - cfg.window)
    {
      if cfg.window == 0 {
        return;
      }
      ring := ring + [Sample(now, ok)];
      var cutoff := now - cfg.window;
      while |ring| > 0 && ring[0].t < cutoff
        invariant history == old(history)
        invariant DropOld(ring, cutoff) == DropOld(old(ring) + [Sample(now, ok)], cutoff)
        decreases |ring|
      {
        ring := ring[1..];
      }
      InOrderSnoc(history, Sample(now, ok));
      history := history + [Sample(now, ok)];
      RingIsRecent(cfg.window, history);
    }

    method Match() returns (hit: bool)
      ensures hit == Matches(cfg, ring)
    {
      if cfg.window == 0 {
        return false;
      }
      if |ring| < cfg.minSamples {
        return false;
      }
      var failed := 0;
      for i := 0 to |ring|
        invariant failed == Failed(ring[..i])
      {
        assert ring[..i + 1][..i] == ring[..i];
        if !ring[i].ok {
          failed := failed + 1;
        }
      }
      assert ring[..|ring|] == ring;
      if |ring| == 0 {
        return false;
      }
      return failed as real / |ring| as real >= cfg.failedRatio;
    }
  }

  // ---------------------------------------------------------------- the ring against the full history

  function RingAfter(window: nat, history: seq<Sample>): seq<Sample>
  {
    if history == [] then []
    else
      var last := history[|history| - 1];
      DropOld(RingAfter(window, history[..|history| - 1]) + [last], last.t - window)
  }

  /** Every sample ever recorded that is not older than the cutoff. */
  function Recent(history: seq<Sample>, cutoff: int): seq<Sample>
  {
    if history == [] then []
    else
      var last := history[|history| - 1];
      Recent(history[..|history| - 1], cutoff) + if last.t >= cutoff then [last] else []
  }

  ghost predicate InOrder(s: seq<Sample>) { forall i, j :: 0 <= i <= j < |s| ==> s[i].t <= s[j].t }

  lemma {:induction false} AllRecent(s: seq<Sample>, cutoff: int)
    requires forall x <- s :: x.t >= cutoff
    ensures Recent(s, cutoff) == s
    decreases |s|
  {
    if s != [] {
      AllRecent(s[..|s| - 1], cutoff);
      assert s == s[..|s| - 1] + [s[|s| - 1]];
    }
  }

  lemma {:induction false} RecentTail(s: seq<Sample>, cutoff: int)
    requires s != [] && s[0].t < cutoff
    ensures Recent(s, cutoff) == Recent(s[1..], cutoff)
    decreases |s|
  {
    if |s| > 1 {
      RecentTail(s[..|s| - 1], cutoff);
      assert s[1..][..|s| - 2] == s[..|s| - 1][1..];
    }
  }

  /** On ordered samples, trimming the front is filtering. */
  lemma {:induction false} DropIsFilter(s: seq<Sample>, cutoff: int)
    requires InOrder(s)
    ensures DropOld(s, cutoff) == Recent(s, cutoff)
    decreases |s|
  {
    if s != [] && s[0].t < cutoff {
      RecentTail(s, cutoff);
      DropIsFilter(s[1..], cutoff);
    } else {
      AllRecent(s, cutoff);
    }
  }

  lemma {:induction false} RecentTwice(s: seq<Sample>, c1: int, c2: int)
    requires c1 <= c2
    ensures Recent(Recent(s, c1), c2) == Recent(s, c2)
    decreases |s|
  {
    if s != [] {
      var init, last := s[..|s| - 1], s[|s| - 1];
      RecentTwice(init, c1, c2);
      if last.t >= c1 {
        assert Recent(s, c1)[..|Recent(s, c1)| - 1] == Recent(init, c1);
      } else {
        assert Recent(s, c1) == Recent(init, c1);
      }
    }
  }

  lemma InOrderSnoc(s: seq<Sample>, x: Sample)
    requires InOrder(s) && forall y <- s :: y.t <= x.t
    ensures InOrder(s + [x])
  {
  }

  lemma InOrderInit(s: seq<Sample>)
    requires InOrder(s) && s != []
    ensures InOrder(s[..|s| - 1]) && forall y <- s[..|s| - 1] :: y.t <= s[|s| - 1].t
  {
  }

  lemma {:induction false} RecentOrdered(s: seq<Sample>, cutoff: int)
    requires InOrder(s)
    ensures InOrder(Recent(s, cutoff)) && forall x <- Recent(s, cutoff) :: x in s
    decreases |s|
  {
    if s != [] {
      var init, last := s[..|s| - 1], s[|s| - 1];
      InOrderInit(s);
      RecentOrdered(init, cutoff);
      InOrderSnoc(Recent(init, cutoff), last);
    }
  }

  /** Appending a sample to a filtered ring and trimming is filtering the longer history. */
  lemma TrimAfterAppend(init: seq<Sample>, last: Sample, c1: int, c2: int)
    requires InOrder(init) && (forall y <- init :: y.t <= last.t) && c1 <= c2 <= last.t
    ensures DropOld(Recent(init, c1) + [last], c2) == Recent(init + [last], c2)
  {
    var ring := Recent(init, c1);
    RecentOrdered(init, c1);
    InOrderSnoc(ring, last);
    DropIsFilter(ring + [last], c2);
    assert (ring + [last])[..|ring|] == ring && (init + [last])[..|init|] == init;
    RecentTwice(init, c1, c2);
  }

  lemma SplitLast(window: nat, history: seq<Sample>, init: seq<Sample>, last: Sample)
    requires history != [] && init == history[..|history| - 1] && last == history[|history| - 1]
    ensures history == init + [last]
    ensures RingAfter(window, history) == DropOld(RingAfter(window, init) + [last], last.t - window)
  {
  }

  /** After any Record calls the ring is the filter of all samples ever recorded. */
  lemma {:induction false} RingIsRecent(window: nat, history: seq<Sample>)
    requires InOrder(history) && history != []
    ensures RingAfter(window, history) == Recent(history, history[|history| - 1].t - window)
    decreases |history|
  {
    var init, last := history[..|history| - 1], history[|history| - 1];
    InOrderInit(history);
    SplitLast(window, history, init, last);
    if init == [] {
      TrimAfterAppend([], last, last.t - window, last.t - window);
    } else {
      RingIsRecent(window, init);
      assert init[|init| - 1] in init;
      TrimAfterAppend(init, last, init[|init| - 1].t - window, last.t - window);
    }
  }

  /** A Match right after a Record asks its question of exactly the samples in the window. */
  lemma MatchSeesTheWindow(cfg: Config, history: seq<Sample>)
    requires InOrder(history) && history != [] && cfg.window > 0
    ensures Matches(cfg, RingAfter(cfg.window, history))
      == EnoughFailures(cfg, Recent(history, history[|history| - 1].t - cfg.window))
  {
    RingIsRecent(cfg.window, history);
    MatchesIff(cfg, Recent(history, history[|history| - 1].t - cfg.window));
  }

  /** The question without a division: at least minSamples, and failures at least ratio times samples. */
  predicate EnoughFailures(cfg: Config, s: seq<Sample>)
  {
    s != [] && |s| >= cfg.minSamples && Failed(s) as real >= cfg.failedRatio * |s| as real
  }

  lemma MatchesIff(cfg: Config, ring: seq<Sample>)
    requires cfg.window > 0
    ensures Matches(cfg, ring) == EnoughFailures(cfg, ring)
  {
    if ring != [] {
      RatioCleared(Failed(ring) as real, |ring| as real, cfg.failedRatio);
    }
  }

  /** The samples that failed, by position. */
  function FailedAt(s: seq<Sample>): set<nat> { set i: nat | i < |s| && !s[i].ok }

  lemma {:induction false} FailedCounts(s: seq<Sample>)
    ensures Failed(s) == |FailedAt(s)|
    decreases |s|
  {
    if s != [] {
      var n := |s| - 1;
      FailedCounts(s[..n]);
      if s[n].ok {
        assert FailedAt(s) == FailedAt(s[..n]);
      } else {
        assert FailedAt(s) == FailedAt(s[..n]) + {n};
      }
    }
  }

  lemma RatioCleared(f: real, n: real, ratio: real)
    requires n > 0.0
    ensures f / n >= ratio <==> f >= ratio * n
  {
    assert f == (f / n) * n;
    if f / n >= ratio {
      assert (f / n - ratio) * n >= 0.0;
    } else {
      assert (ratio - f / n) * n > 0.0;
    }
  }

  // ---------------------------------------------------------------- keys

  function Digit(d: nat): char
    requires d < 10
  {
    '0' + d as char
  }

  function Decimal(n: nat): string
  {
    if n < 10 then [Digit(n)] else Decimal(n / 10) + [Digit(n % 10)]
  }

  function KeyPrefix(connId: nat): string { Decimal(connId) + "|" }

  function Key(connId: nat, dstIP: string, dstPort: nat): string
  {
    Decimal(connId) + "|" + dstIP + ":" + Decimal(dstPort)
  }

  lemma {:induction false} DecimalHasNoBar(n: nat)
    ensures '|' !in Decimal(n) && |Decimal(n)| > 0
    decreases n
  {
    if n >= 10 {
      DecimalHasNoBar(n / 10);
    }
  }

  lemma {:induction false} DecimalInjective(m: nat, n: nat)
    requires Decimal(m) == Decimal(n)
    ensures m == n
    decreases m
  {
    var s := Decimal(m);
    DecimalHasNoBar(m / 10);
    DecimalHasNoBar(n / 10);
    assert s[|s| - 1] == Digit(m % 10) && s[|s| - 1] == Digit(n % 10);
    if m >= 10 && n >= 10 {
      assert s[..|s| - 1] == Decimal(m / 10) && s[..|s| - 1] == Decimal(n / 10);
      DecimalInjective(m / 10, n / 10);
    }
  }

  /** A key starts with a connection's prefix exactly when it was built for that connection. */
  lemma PrefixSelectsConnection(connId: nat, owner: nat, dstIP: string, dstPort: nat)
    ensures KeyPrefix(connId) <= Key(owner, dstIP, dstPort) <==> connId == owner
  {
    var a, b, key := Decimal(connId), Decimal(owner), Key(owner, dstIP, dstPort);
    DecimalHasNoBar(connId);
    DecimalHasNoBar(owner);
    BarAt(b, "|" + dstIP + ":" + Decimal(dstPort));
    assert key == b + ("|" + dstIP + ":" + Decimal(dstPort));
    if KeyPrefix(connId) <= key {
      assert key == a + key[|a|..] && key[|a|..][0] == KeyPrefix(connId)[|a|];
      BarAt(a, key[|a|..]);
      DecimalInjective(connId, owner);
    }
  }

  /** The first bar of a key ends its connection's number. */
  lemma BarAt(a: string, tail: string)
    requires '|' !in a && tail != [] && tail[0] == '|'
    ensures FirstBar(a + tail) == |a| && a <= a + tail
    decreases |a|
  {
    if a != [] {
      assert (a + tail)[1..] == a[1..] + tail;
      BarAt(a[1..], tail);
    }
  }

  function FirstBar(s: string): nat
  {
    if s == [] || s[0] == '|' then 0 else 1 + FirstBar(s[1..])
  }

  function LastColon(s: string): nat
  {
    if s == [] then 0 else if s[|s| - 1] == ':' then |s| else LastColon(s[..|s| - 1])
  }

  /** The last colon of a key stands before its port. */
  lemma {:induction false} ColonAt(head: string, digits: string)
    requires ':' !in digits
    ensures LastColon(head + ":" + digits) == |head| + 1
    decreases |digits|
  {
    var s := head + ":" + digits;
    if digits == [] {
      assert s[|s| - 1] == ':';
    } else {
      assert s[..|s| - 1] == head + ":" + digits[..|digits| - 1] && s[|s| - 1] == digits[|digits| - 1];
      ColonAt(head, digits[..|digits| - 1]);
    }
  }

  lemma {:induction false} DecimalHasNoColon(n: nat)
    ensures ':' !in Decimal(n)
    decreases n
  {
    if n >= 10 {
      DecimalHasNoColon(n / 10);
    }
  }

  /** A key stands for one connection, address and port, whatever colons the address has. */
  lemma KeyInjective(connId: nat, dstIP: string, dstPort: nat, connId': nat, dstIP': string, dstPort': nat)
    requires Key(connId, dstIP, dstPort) == Key(connId', dstIP', dstPort')
    ensures connId == connId' && dstIP == dstIP' && dstPort == dstPort'
  {
    var key := Key(connId, dstIP, dstPort);
    PrefixOfOwn(connId, dstIP, dstPort);
    PrefixSelectsConnection(connId, connId', dstIP', dstPort');
    var p := KeyPrefix(connId);
    DecimalHasNoColon(dstPort);
    DecimalHasNoColon(dstPort');
    ColonAt(p + dstIP, Decimal(dstPort));
    ColonAt(p + dstIP', Decimal(dstPort'));
    assert key == p + dstIP + ":" + Decimal(dstPort) == p + dstIP' + ":" + Decimal(dstPort');
    var at := LastColon(key);
    assert key[at..] == Decimal(dstPort) && key[at..] == Decimal(dstPort');
    DecimalInjective(dstPort, dstPort');
    assert key[|p|..at - 1] == dstIP && key[|p|..at - 1] == dstIP';
  }

  lemma PrefixOfOwn(connId: nat, dstIP: string, dstPort: nat)
    ensures KeyPrefix(connId) <= Key(connId, dstIP, dstPort)
  {
    PrefixSelectsConnection(connId, connId, dstIP, dstPort);
  }

  class Signatures {
    const cfg: Config
    const enabled: bool
    const nop: Detector
    var per: map<string, Detector>

    constructor (cfg: Config, enabled: bool)
      ensures this.cfg == cfg && this.enabled == enabled && per == map[]
      ensures fresh(nop) && nop.cfg.window == 0
    {
      this.cfg, this.enabled, per := cfg, enabled, map[];
      nop := new Detector(cfg.(window := 0));
    }

    /** The detector of a connection and destination, made on first use. */
    method For(connId: nat, dstIP: string, dstPort: nat) returns (d: Detector)
      modifies this
      ensures !enabled ==> d == nop && per == old(per)
      ensures var key := Key(connId, dstIP, dstPort);
        enabled ==>
          && per == old(per)[key := d]
          && (key in old(per) ==> d == old(per)[key])
          && (key !in old(per) ==> fresh(d) && d.cfg == cfg && d.ring == [] && d.Valid())
    {
      if !enabled {
        return nop;
      }
      var key := Key(connId, dstIP, dstPort);
      if key in per {
        d := per[key];
      } else {
        d := new Detector(cfg);
        per := per[key := d];
      }
    }

    /** Removes exactly the detectors of one connection. */
    method Forget(connId: nat)
      modifies this
      ensures per == map k | k in old(per) && !(KeyPrefix(connId) <= k) :: old(per)[k]
      ensures forall owner, dstIP, dstPort ::
        var k := Key(owner, dstIP, dstPort);
        k in old(per) ==> (k in per <==> owner != connId)
    {
      var prefix := KeyPrefix(connId);
      var todo := per.Keys;
      while todo != {}
        invariant todo <= old(per).Keys
        invariant per == map k | k in old(per) && (k in todo || !(prefix <= k)) :: old(per)[k]
        decreases |todo|
      {
        var key :| key in todo;
        if prefix <= key {
          per := per - {key};
        }
        todo := todo - {key};
      }
      forall owner, dstIP, dstPort
        ensures prefix <= Key(owner, dstIP, dstPort) <==> connId == owner
      {
        PrefixSelectsConnection(connId, owner, dstIP, dstPort);
      }
    }
  }
}

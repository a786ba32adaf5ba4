/** Per-key token buckets (internal/ratelimit/ratelimit.go), with exact real
    arithmetic in place of float64. */
module RateLimit {
  import opened Base

  /** How many tokens the clock has earned at a given reading, and the bucket's ceiling.
      A limiter with a rate earns rate tokens a second (see PerMinute and Earned). */
  datatype Params = Params(earned: int -> real, burst: real)

  datatype Bucket = Bucket(tokens: real, last: int)

  type Buckets = map<string, Bucket>

  /** One call of Allow: the key it names and the clock it reads. */
  datatype Call = Call(key: string, at: int)

  function Seconds(d: int): real {
    d as real / 1_000_000_000.0
  }

  /** The tokens a limiter earns in d nanoseconds: seconds times rate per second. */
  function Refill(ratePerMinute: real, d: int): real {
    Seconds(d) * (ratePerMinute / 60.0)
  }

  function Minutes(d: int): real {
    d as real / 60_000_000_000.0
  }

  /** A minute earns the rate, and time earns in proportion. */
  lemma RefillExactly(ratePerMinute: real, d: int)
    ensures Refill(ratePerMinute, 60 * SECOND) == ratePerMinute
    ensures Refill(ratePerMinute, d) == ratePerMinute * Minutes(d)
  {
    assert Seconds(d) == 60.0 * Minutes(d);
    Product(Minutes(d), ratePerMinute);
    assert Seconds(60 * SECOND) == 60.0;
  }

  lemma Product(m: real, r: real)
    ensures (60.0 * m) * (r / 60.0) == r * m
  {
  }

  /** New(ratePerMinute, burst). */
  function PerMinute(ratePerMinute: real, burst: int): Params {
    Params(t => Refill(ratePerMinute, t), burst as real)
  }

  /** The tokens earned between two readings depend on the elapsed time alone. */
  lemma Earned(ratePerMinute: real, burst: int, from: int, until: int)
    ensures var p := PerMinute(ratePerMinute, burst);
            p.earned(until) - p.earned(from) == Refill(ratePerMinute, until - from)
  {
    assert Seconds(until - from) == Seconds(until) - Seconds(from);
  }

  // ----- The fast form: constant memory per key -----

  /** The tokens the bucket of key holds once it has been refilled and capped. */
  function Refilled(p: Params, b: Buckets, key: string, now: int): real {
    var k := if key in b then b[key] else Bucket(p.burst, now);
    var t := k.tokens + (p.earned(now) - p.earned(k.last));
    if t > p.burst then p.burst else t
  }

  function AllowNext(p: Params, b: Buckets, key: string, now: int): (Buckets, bool) {
    var t := Refilled(p, b, key, now);
    if t < 1.0
    then (b[key := Bucket(t, now)], false)
    else (b[key := Bucket(t - 1.0, now)], true)
  }

  function BucketsAfter(p: Params, calls: seq<Call>): Buckets {
    if calls == [] then map[]
    else
      var c := calls[|calls| - 1];
      AllowNext(p, BucketsAfter(p, calls[..|calls| - 1]), c.key, c.at).0
  }

  /** The answer the fast form gives to call j of a history. */
  predicate Verdict(p: Params, calls: seq<Call>, j: nat)
    requires j < |calls|
  {
    AllowNext(p, BucketsAfter(p, calls[..j]), calls[j].key, calls[j].at).1
  }

  // ----- The simple form: a sliding window over the whole history -----

  /** How many of the calls i..j-1 on key were allowed. */
  function Granted(p: Params, calls: seq<Call>, key: string, i: nat, j: nat): nat
    requires i <= j <= |calls|
    decreases j
  {
    if i == j then 0
    else Granted(p, calls, key, i, j - 1) + if calls[j - 1].key == key && Verdict(p, calls, j - 1) then 1 else 0
  }

  /** What the window opened by call i would still admit at time now, after the calls i..j-1. */
  ghost function Slack(p: Params, calls: seq<Call>, key: string, i: nat, j: nat, now: int): real
    requires i <= j <= |calls| && i < |calls|
  {
    p.burst + (p.earned(now) - p.earned(calls[i].at)) - Granted(p, calls, key, i, j) as real
  }

  /** Every window ending at call j, that call included, holds at most burst + rate * length calls. */
  ghost predicate WindowRule(p: Params, calls: seq<Call>, j: nat)
    requires j < |calls|
  {
    forall i: nat | i <= j && calls[i].key == calls[j].key ::
      Granted(p, calls, calls[j].key, i, j) as real + 1.0 <= p.burst + (p.earned(calls[j].at) - p.earned(calls[i].at))
  }

  // ----- The two agree -----

  lemma {:induction false} GrantedPrefix(p: Params, calls: seq<Call>, key: string, i: nat, j: nat, n: nat)
    requires i <= j <= n <= |calls|
    ensures Granted(p, calls[..n], key, i, j) == Granted(p, calls, key, i, j)
  {
    if i < j {
      GrantedPrefix(p, calls, key, i, j - 1, n);
      assert calls[..n][..j - 1] == calls[..j - 1];
    }
  }

  /** The capped bucket content is the least of burst and every window's slack. */
  ghost predicate IsLeastSlack(p: Params, calls: seq<Call>, key: string, now: int, r: real) {
    && r <= p.burst
    && (forall i: nat | i < |calls| && calls[i].key == key :: r <= Slack(p, calls, key, i, |calls|, now))
    && (r == p.burst || exists i: nat :: i < |calls| && calls[i].key == key && r == Slack(p, calls, key, i, |calls|, now))
  }

  lemma SlackStep(p: Params, calls: seq<Call>, key: string, i: nat, now: int)
    requires i < |calls| - 1
    ensures var n := |calls| - 1; var c := calls[n]; var before := calls[..n];
            Slack(p, calls, key, i, n + 1, now) ==
            Slack(p, before, key, i, n, c.at) + (p.earned(now) - p.earned(c.at))
            - if c.key == key && Verdict(p, calls, n) then 1.0 else 0.0
  {
    var n := |calls| - 1;
    GrantedPrefix(p, calls, key, i, n, n);
  }

  lemma {:induction false} LeastSlack(p: Params, calls: seq<Call>, key: string, now: int)
    ensures IsLeastSlack(p, calls, key, now, Refilled(p, BucketsAfter(p, calls), key, now))
    decreases |calls|
  {
    if calls != [] {
      var n := |calls| - 1;
      var c, before := calls[n], calls[..n];
      if c.key == key {
        LeastSlackSameKey(p, calls, now);
      } else {
        LeastSlack(p, before, key, now);
        forall i: nat | i < n ensures Slack(p, calls, key, i, n + 1, now) == Slack(p, before, key, i, n, now) {
          GrantedPrefix(p, calls, key, i, n, n);
        }
        var r := Refilled(p, BucketsAfter(p, calls), key, now);
        assert r == Refilled(p, BucketsAfter(p, before), key, now);
      }
    }
  }

  /** What a call on the key leaves in its bucket, refilled until now. */
  lemma RefilledAfter(p: Params, calls: seq<Call>, now: int)
    requires calls != []
    ensures var n := |calls| - 1; var c, before := calls[n], calls[..n];
            var t := Refilled(p, BucketsAfter(p, before), c.key, c.at) - (if Verdict(p, calls, n) then 1.0 else 0.0)
                     + (p.earned(now) - p.earned(c.at));
            Refilled(p, BucketsAfter(p, calls), c.key, now) == if t > p.burst then p.burst else t
  {
  }

  /** What a call on the key does to every window's slack. */
  lemma SlackAfter(p: Params, calls: seq<Call>, now: int)
    requires calls != []
    ensures var n := |calls| - 1; var c, before := calls[n], calls[..n];
            var shift := (p.earned(now) - p.earned(c.at)) - (if Verdict(p, calls, n) then 1.0 else 0.0);
            && Slack(p, calls, c.key, n, n + 1, now) == p.burst + shift
            && forall i: nat | i < n :: Slack(p, calls, c.key, i, n + 1, now) == Slack(p, before, c.key, i, n, c.at) + shift
  {
    var n := |calls| - 1;
    assert Granted(p, calls, calls[n].key, n, n) == 0;
    var c, before := calls[n], calls[..n];
    var shift := (p.earned(now) - p.earned(c.at)) - (if Verdict(p, calls, n) then 1.0 else 0.0);
    forall i: nat | i < n ensures Slack(p, calls, c.key, i, n + 1, now) == Slack(p, before, c.key, i, n, c.at) + shift {
      SlackStep(p, calls, c.key, i, now);
    }
  }

  /** The least slack of before, moved by shift and capped, is the least slack of calls. */
  lemma LeastMoves(p: Params, calls: seq<Call>, now: int, r0: real, shift: real, r: real)
    requires calls != []
    requires var n := |calls| - 1; var c, before := calls[n], calls[..n];
             && IsLeastSlack(p, before, c.key, c.at, r0) && Slack(p, calls, c.key, n, n + 1, now) == p.burst + shift
             && forall i: nat | i < n :: Slack(p, calls, c.key, i, n + 1, now) == Slack(p, before, c.key, i, n, c.at) + shift
    requires r == if r0 + shift > p.burst then p.burst else r0 + shift
    ensures IsLeastSlack(p, calls, calls[|calls| - 1].key, now, r)
  {
    var n := |calls| - 1;
    var c, before := calls[n], calls[..n];
    if r != p.burst {
      if r0 == p.burst {
        assert r == Slack(p, calls, c.key, n, n + 1, now);
      } else {
        var i: nat :| i < n && before[i].key == c.key && r0 == Slack(p, before, c.key, i, n, c.at);
        assert r == Slack(p, calls, c.key, i, n + 1, now);
      }
    }
  }

  lemma {:induction false} LeastSlackSameKey(p: Params, calls: seq<Call>, now: int)
    requires calls != []
    ensures var key := calls[|calls| - 1].key;
            IsLeastSlack(p, calls, key, now, Refilled(p, BucketsAfter(p, calls), key, now))
    decreases |calls|, 0
  {
    var n := |calls| - 1;
    var c, before := calls[n], calls[..n];
    LeastSlack(p, before, c.key, c.at);
    RefilledAfter(p, calls, now);
    SlackAfter(p, calls, now);
    LeastMoves(p, calls, now, Refilled(p, BucketsAfter(p, before), c.key, c.at),
               (p.earned(now) - p.earned(c.at)) - (if Verdict(p, calls, n) then 1.0 else 0.0), Refilled(p, BucketsAfter(p, calls), c.key, now));
  }

  lemma AllowIsWindowRule(p: Params, calls: seq<Call>, j: nat)
    requires j < |calls|
    ensures Verdict(p, calls, j) <==> WindowRule(p, calls, j)
  {
    var before, c := calls[..j], calls[j];
    LeastSlack(p, before, c.key, c.at);
    var r := Refilled(p, BucketsAfter(p, before), c.key, c.at);
    forall i: nat | i < j
      ensures Granted(p, before, c.key, i, j) == Granted(p, calls, c.key, i, j)
    {
      GrantedPrefix(p, calls, c.key, i, j, j);
    }
    if r >= 1.0 {
      forall i: nat | i <= j && calls[i].key == c.key
        ensures Granted(p, calls, c.key, i, j) as real + 1.0 <= p.burst + (p.earned(c.at) - p.earned(calls[i].at))
      {
        if i < j {
          assert before[i].key == c.key;
          assert r <= Slack(p, before, c.key, i, j, c.at);
        }
      }
    } else if r == p.burst {
      assert Granted(p, calls, c.key, j, j) == 0;
      assert !WindowRule(p, calls, j);
    } else {
      var i: nat :| i < j && before[i].key == c.key && r == Slack(p, before, c.key, i, j, c.at);
      assert calls[i].key == c.key;
      assert !WindowRule(p, calls, j);
    }
  }

  /** The rule in the limiter's own terms: a window of so many minutes admits burst + rate * minutes calls. */
  ghost predicate SlidingWindow(p: Params, ratePerMinute: real, burst: int, calls: seq<Call>, j: nat)
    requires j < |calls|
  {
    forall i: nat | i <= j && calls[i].key == calls[j].key ::
      Granted(p, calls, calls[j].key, i, j) as real + 1.0 <= burst as real + ratePerMinute * Minutes(calls[j].at - calls[i].at)
  }

  lemma WindowRuleByRate(p: Params, ratePerMinute: real, burst: int, calls: seq<Call>, j: nat)
    requires j < |calls| && p.burst == burst as real
    requires forall i: nat | i <= j :: p.earned(calls[j].at) - p.earned(calls[i].at) == ratePerMinute * Minutes(calls[j].at - calls[i].at)
    ensures Verdict(p, calls, j) <==> SlidingWindow(p, ratePerMinute, burst, calls, j)
  {
    AllowIsWindowRule(p, calls, j);
  }

  /** Allow refines the sliding-window rule exactly, for every rate, burst, history and clock. */
  lemma AllowRefinesSlidingWindow(ratePerMinute: real, burst: int, calls: seq<Call>, j: nat)
    requires j < |calls|
    ensures var p := PerMinute(ratePerMinute, burst);
            Verdict(p, calls, j) <==> SlidingWindow(p, ratePerMinute, burst, calls, j)
  {
    var p := PerMinute(ratePerMinute, burst);
    forall i: nat | i <= j
      ensures p.earned(calls[j].at) - p.earned(calls[i].at) == ratePerMinute * Minutes(calls[j].at - calls[i].at)
    {
      Earned(ratePerMinute, burst, calls[i].at, calls[j].at);
      RefillExactly(ratePerMinute, calls[j].at - calls[i].at);
    }
    WindowRuleByRate(p, ratePerMinute, burst, calls, j);
  }

  // ----- Keys are isolated -----

  /** The calls of a history that name key. */
  function Only(calls: seq<Call>, key: string): seq<Call> {
    if calls == [] then []
    else
      var n := |calls| - 1;
      Only(calls[..n], key) + if calls[n].key == key then [calls[n]] else []
  }

  ghost predicate SameBucket(a: Buckets, b: Buckets, key: string) {
    (key in a <==> key in b) && (key in a ==> a[key] == b[key])
  }

  lemma AfterOneMore(p: Params, calls: seq<Call>, c: Call)
    ensures var next := AllowNext(p, BucketsAfter(p, calls), c.key, c.at);
            BucketsAfter(p, calls + [c]) == next.0 && Verdict(p, calls + [c], |calls|) == next.1
  {
    assert (calls + [c])[..|calls|] == calls;
  }

  lemma {:induction false} OnlyKeepsBucket(p: Params, calls: seq<Call>, key: string)
    ensures SameBucket(BucketsAfter(p, calls), BucketsAfter(p, Only(calls, key)), key)
  {
    if calls != [] {
      var n := |calls| - 1;
      OnlyKeepsBucket(p, calls[..n], key);
      if calls[n].key == key {
        AfterOneMore(p, Only(calls[..n], key), calls[n]);
      } else {
        assert Only(calls, key) == Only(calls[..n], key);
      }
    }
  }

  /** Deleting every call on other keys from the history changes no answer on this one. */
  lemma KeyIsolation(p: Params, calls: seq<Call>, key: string, now: int)
    ensures AllowNext(p, BucketsAfter(p, calls), key, now).1 ==
            AllowNext(p, BucketsAfter(p, Only(calls, key)), key, now).1
  {
    OnlyKeepsBucket(p, calls, key);
  }

  // ----- What the rule bounds -----

  /** The allowed calls on key whose clock reading lies in [from, until]. */
  function AllowedWithin(p: Params, calls: seq<Call>, key: string, from: int, until: int, n: nat): nat
    requires n <= |calls|
  {
    if n == 0 then 0
    else AllowedWithin(p, calls, key, from, until, n - 1)
         + if calls[n - 1].key == key && Verdict(p, calls, n - 1) && from <= calls[n - 1].at <= until then 1 else 0
  }

  lemma {:induction false} WithinUpTo(p: Params, calls: seq<Call>, key: string, from: int, until: int, i: nat, n: nat)
    requires i <= n <= |calls|
    requires AllowedWithin(p, calls, key, from, until, i) == 0
    ensures AllowedWithin(p, calls, key, from, until, n) <= Granted(p, calls, key, i, n)
  {
    if i < n {
      WithinUpTo(p, calls, key, from, until, i, n - 1);
    }
  }

  lemma {:induction false} FirstWithin(p: Params, calls: seq<Call>, key: string, from: int, until: int, n: nat) returns (i: nat)
    requires n <= |calls| && AllowedWithin(p, calls, key, from, until, n) > 0
    ensures i < n && calls[i].key == key && Verdict(p, calls, i) && from <= calls[i].at <= until
    ensures AllowedWithin(p, calls, key, from, until, i) == 0
  {
    if AllowedWithin(p, calls, key, from, until, n - 1) > 0 {
      i := FirstWithin(p, calls, key, from, until, n - 1);
    } else {
      i := n - 1;
    }
  }

  lemma LastOfWindow(p: Params, calls: seq<Call>, i: nat, j: nat)
    requires i <= j < |calls| && calls[i].key == calls[j].key && Verdict(p, calls, j)
    ensures Granted(p, calls, calls[j].key, i, j) as real + 1.0 <= p.burst + (p.earned(calls[j].at) - p.earned(calls[i].at))
  {
    AllowIsWindowRule(p, calls, j);
  }

  /** The allowed calls of a stretch, if any, fit between its first and its last one. */
  lemma {:induction false} WindowEnds(p: Params, calls: seq<Call>, key: string, from: int, until: int, n: nat)
    returns (first: int, last: int)
    requires n <= |calls| && AllowedWithin(p, calls, key, from, until, n) > 0
    ensures from <= first <= until && from <= last <= until
    ensures AllowedWithin(p, calls, key, from, until, n) as real <= p.burst + (p.earned(last) - p.earned(first))
  {
    var j := n - 1;
    if AllowedWithin(p, calls, key, from, until, n) == AllowedWithin(p, calls, key, from, until, j) {
      first, last := WindowEnds(p, calls, key, from, until, j);
    } else {
      var i := FirstWithin(p, calls, key, from, until, n);
      WithinUpTo(p, calls, key, from, until, i, j);
      LastOfWindow(p, calls, i, j);
      first, last := calls[i].at, calls[j].at;
    }
  }

  /** No stretch of time admits more than burst + rate * length calls of one key. */
  lemma WindowBoundRefill(ratePerMinute: real, burst: int, calls: seq<Call>, key: string, from: int, until: int)
    requires from <= until && ratePerMinute >= 0.0 && burst >= 0
    ensures AllowedWithin(PerMinute(ratePerMinute, burst), calls, key, from, until, |calls|) as real
            <= burst as real + Refill(ratePerMinute, until - from)
  {
    var p := PerMinute(ratePerMinute, burst);
    if AllowedWithin(p, calls, key, from, until, |calls|) > 0 {
      var first, last := WindowEnds(p, calls, key, from, until, |calls|);
      Earned(ratePerMinute, burst, first, last);
      RefillGrows(ratePerMinute, last - first, until - from);
    } else {
      assert Seconds(0) == 0.0;
      assert Refill(ratePerMinute, 0) == 0.0;
      RefillGrows(ratePerMinute, 0, until - from);
    }
  }

  /** In any stretch of time a key is allowed at most burst + rate * minutes calls. */
  lemma WindowBoundPerMinute(ratePerMinute: real, burst: int, calls: seq<Call>, key: string, from: int, until: int)
    requires from <= until && ratePerMinute >= 0.0 && burst >= 0
    ensures AllowedWithin(PerMinute(ratePerMinute, burst), calls, key, from, until, |calls|) as real
            <= burst as real + ratePerMinute * Minutes(until - from)
  {
    WindowBoundRefill(ratePerMinute, burst, calls, key, from, until);
    RefillExactly(ratePerMinute, until - from);
  }

  lemma RefillGrows(ratePerMinute: real, d: int, e: int)
    requires ratePerMinute >= 0.0 && d <= e
    ensures Refill(ratePerMinute, d) <= Refill(ratePerMinute, e)
  {
    assert Seconds(d) <= Seconds(e);
  }

  /** At one per minute with a burst of one, two allowed calls on a key are a minute apart. */
  lemma OncePerMinute(calls: seq<Call>, i: nat, j: nat)
    requires i < j < |calls| && calls[i].key == calls[j].key
    requires var p := PerMinute(1.0, 1); Verdict(p, calls, i) && Verdict(p, calls, j)
    ensures calls[j].at - calls[i].at >= 60 * SECOND
  {
    var p := PerMinute(1.0, 1);
    LastOfWindow(p, calls, i, j);
    GrantedCounts(p, calls, calls[j].key, i, j);
    Earned(1.0, 1, calls[i].at, calls[j].at);
  }

  lemma {:induction false} GrantedCounts(p: Params, calls: seq<Call>, key: string, i: nat, j: nat)
    requires i < j <= |calls| && calls[i].key == key && Verdict(p, calls, i)
    ensures Granted(p, calls, key, i, j) >= 1
  {
    if i + 1 < j {
      GrantedCounts(p, calls, key, i, j - 1);
    } else {
      assert Granted(p, calls, key, i, i) == 0;
    }
  }

  /** Names a stretch of time. */
  predicate Span(from: int, until: int) {
    true
  }

  /** Over every stretch, p earns what the rate gives. */
  ghost predicate EarnsAt(p: Params, ratePerMinute: real) {
    forall from: int, until: int {:trigger Span(from, until)} ::
      Span(from, until) ==> p.earned(until) - p.earned(from) == Refill(ratePerMinute, until - from)
  }

  lemma PerMinuteEarns(ratePerMinute: real, burst: int)
    ensures EarnsAt(PerMinute(ratePerMinute, burst), ratePerMinute)
  {
    forall from: int, until: int
      ensures PerMinute(ratePerMinute, burst).earned(until) - PerMinute(ratePerMinute, burst).earned(from) == Refill(ratePerMinute, until - from)
    {
      Earned(ratePerMinute, burst, from, until);
    }
  }

  lemma EarningWindow(p: Params, ratePerMinute: real, burst: int, calls: seq<Call>, j: nat)
    requires j < |calls| && EarnsAt(p, ratePerMinute) && p.burst == burst as real
    ensures Verdict(p, calls, j) <==> SlidingWindow(p, ratePerMinute, burst, calls, j)
  {
    forall i: nat | i <= j
      ensures p.earned(calls[j].at) - p.earned(calls[i].at) == ratePerMinute * Minutes(calls[j].at - calls[i].at)
    {
      assert Span(calls[i].at, calls[j].at);
      RefillExactly(ratePerMinute, calls[j].at - calls[i].at);
    }
    WindowRuleByRate(p, ratePerMinute, burst, calls, j);
  }

  /** Limiter: the buckets map is all it keeps; the ghost history says what that map stands for. */
  class Limiter {
    const ratePerMinute: real
    const burst: int
    ghost const params: Params
    var buckets: Buckets
    ghost var calls: seq<Call>

    ghost predicate Valid()
      reads this
    {
      buckets == BucketsAfter(params, calls) && params.burst == burst as real && EarnsAt(params, ratePerMinute)
    }

    constructor (ratePerMinute: real, burst: int)
      ensures Valid() && calls == [] && params == PerMinute(ratePerMinute, burst)
      ensures this.ratePerMinute == ratePerMinute && this.burst == burst
    {
      this.ratePerMinute := ratePerMinute;
      this.burst := burst;
      params := PerMinute(ratePerMinute, burst);
      buckets := map[];
      calls := [];
      PerMinuteEarns(ratePerMinute, burst);
    }

    /** Consumes one token for key if available; now is the clock the call reads. */
    method Allow(key: string, now: int) returns (ok: bool)
      requires Valid()
      modifies this
      ensures Valid() && calls == old(calls) + [Call(key, now)]
      ensures ok == Verdict(params, calls, |calls| - 1)
      ensures ok <==> SlidingWindow(params, ratePerMinute, burst, calls, |calls| - 1)
      ensures forall k | k != key :: k in buckets <==> k in old(buckets)
      ensures forall k | k != key && k in buckets :: buckets[k] == old(buckets)[k]
    {
      ok := Take(key, now);
      EarningWindow(params, ratePerMinute, burst, calls, |calls| - 1);
    }

    /** The work of Allow: refill, cap, and take a token if there is one. */
    method Take(key: string, now: int) returns (ok: bool)
      requires Valid()
      modifies this
      ensures Valid() && calls == old(calls) + [Call(key, now)]
      ensures ok == Verdict(params, calls, |calls| - 1)
      ensures forall k | k != key :: k in buckets <==> k in old(buckets)
      ensures forall k | k != key && k in buckets :: buckets[k] == old(buckets)[k]
    {
      var b := Bucket(burst as real, now);
      if key in buckets {
        b := buckets[key];
      }
      var tokens := b.tokens + Refill(ratePerMinute, now - b.last);
      if tokens > burst as real {
        tokens := burst as real;
      }
      assert tokens == Refilled(params, buckets, key, now) by {
        assert Span(b.last, now);
      }
      if tokens < 1.0 {
        buckets := buckets[key := Bucket(tokens, now)];
        ok := false;
      } else {
        buckets := buckets[key := Bucket(tokens - 1.0, now)];
        ok := true;
      }
      AfterOneMore(params, calls, Call(key, now));
      calls := calls + [Call(key, now)];
    }
  }
}

/** The fixed-window rate limiter, and what it allows in any sliding window. */
module RateLimiter {
  import opened Texts

  datatype Bucket = Bucket(count: nat, expiresAt: int)

  datatype Window = Window(limit: nat, windowSeconds: nat)

  datatype RoutePolicy = RoutePolicy(burst: Window, sustained: Window)

  datatype Kind = Burst | Sustained

  /** `current` is the window reported; when limited, the one violated. */
  datatype Verdict = Verdict(limited: bool, current: Kind, count: nat, resetSeconds: int)

  type Buckets = map<Text, Bucket>

  const COLON: CodeUnit := 58
  const BURST_TEXT: Text := [98, 117, 114, 115, 116]
  const SUSTAINED_TEXT: Text := [115, 117, 115, 116, 97, 105, 110, 101, 100]

  predicate ValidWindow(w: Window) {
    w.limit > 0 && w.windowSeconds > 0
  }

  predicate ValidPolicy(p: RoutePolicy) {
    ValidWindow(p.burst) && ValidWindow(p.sustained)
  }

  function KindText(kind: Kind): Text {
    if kind == Burst then BURST_TEXT else SUSTAINED_TEXT
  }

  function WindowOf(p: RoutePolicy, kind: Kind): Window {
    if kind == Burst then p.burst else p.sustained
  }

  function BucketKey(key: Text, windowSeconds: nat): Text {
    key + [COLON] + Decimal(windowSeconds)
  }

  function RouteBucket(key: Text, kind: Kind, windowSeconds: nat): Text {
    BucketKey(key + [COLON] + KindText(kind), windowSeconds)
  }

  /** The effect of one increment, with the count and reset it returns. */
  function Incremented(buckets: Buckets, key: Text, windowSeconds: nat, now: int): (Buckets, nat, int) {
    var k := BucketKey(key, windowSeconds);
    if k !in buckets || buckets[k].expiresAt <= now then
      (buckets[k := Bucket(1, now + windowSeconds)], 1, windowSeconds)
    else
      var b := buckets[k];
      (buckets[k := Bucket(b.count + 1, b.expiresAt)], b.count + 1, b.expiresAt - now)
  }

  /** One request on a route: the burst window first, the sustained one only if it passes. */
  function Evaluated(buckets: Buckets, policy: RoutePolicy, key: Text, now: int): (Buckets, Verdict) {
    var (afterBurst, burstCount, burstReset) :=
      Incremented(buckets, key + [COLON] + BURST_TEXT, policy.burst.windowSeconds, now);
    if burstCount > policy.burst.limit then (afterBurst, Verdict(true, Burst, burstCount, burstReset))
    else
      var (after, count, reset) :=
        Incremented(afterBurst, key + [COLON] + SUSTAINED_TEXT, policy.sustained.windowSeconds, now);
      (after, Verdict(count > policy.sustained.limit, Sustained, count, reset))
  }

  class InMemoryRateLimitStore {
    var buckets: Buckets

    constructor ()
      ensures buckets == map[]
    {
      buckets := map[];
    }

    method IncrementAndGet(key: Text, windowSeconds: nat, now: int) returns (count: nat, resetSeconds: int)
      modifies this
      ensures (buckets, count, resetSeconds) == Incremented(old(buckets), key, windowSeconds, now)
    {
      var bucketKey := BucketKey(key, windowSeconds);
      if bucketKey !in buckets || buckets[bucketKey].expiresAt <= now {
        buckets := buckets[bucketKey := Bucket(1, now + windowSeconds)];
        return 1, windowSeconds;
      }
      var existing := buckets[bucketKey];
      buckets := buckets[bucketKey := existing.(count := existing.count + 1)];
      count := existing.count + 1;
      resetSeconds := if existing.expiresAt - now > 0 then existing.expiresAt - now else 0;
    }
  }

  method EvaluateRoute(store: InMemoryRateLimitStore, policy: RoutePolicy, key: Text, now: int)
    returns (verdict: Verdict)
    modifies store
    ensures (store.buckets, verdict) == Evaluated(old(store.buckets), policy, key, now)
  {
    var burstCount, burstReset :=
      store.IncrementAndGet(key + [COLON] + BURST_TEXT, policy.burst.windowSeconds, now);
    if burstCount > policy.burst.limit {
      return Verdict(true, Burst, burstCount, burstReset);
    }
    var count, reset :=
      store.IncrementAndGet(key + [COLON] + SUSTAINED_TEXT, policy.sustained.windowSeconds, now);
    verdict := Verdict(count > policy.sustained.limit, Sustained, count, reset);
  }

  // ---- Bucket keys ----

  /** The last colon splits a text in one way only. */
  lemma {:induction false} SplitAtLastColon(a: Text, b: Text, x: Text, y: Text)
    requires a + [COLON] + x == b + [COLON] + y
    requires COLON !in x && COLON !in y
    ensures a == b && x == y
  {
    var t := a + [COLON] + x;
    assert t[|a|] == COLON && t[|b|] == COLON;
    assert forall i :: |a| < i < |t| ==> t[i] == x[i - |a| - 1];
    assert forall i :: |b| < i < |t| ==> t[i] == y[i - |b| - 1];
    assert |a| == |b|;
    assert a == t[..|a|] && b == t[..|b|];
    assert x == t[|a| + 1..] && y == t[|b| + 1..];
  }

  /** Callers, window kinds and window lengths never share a bucket. */
  lemma RouteBucketUnique(k: Text, l: Text, kind: Kind, other: Kind, w: nat, v: nat)
    requires RouteBucket(k, kind, w) == RouteBucket(l, other, v)
    ensures k == l && kind == other && w == v
  {
    SplitAtLastColon(k + [COLON] + KindText(kind), l + [COLON] + KindText(other), Decimal(w), Decimal(v));
    SplitAtLastColon(k, l, KindText(kind), KindText(other));
    DecimalRoundTrip(w);
    DecimalRoundTrip(v);
    assert |BURST_TEXT| != |SUSTAINED_TEXT|;
  }

  function Lookup(buckets: Buckets, key: Text, kind: Kind, p: RoutePolicy): Option<Bucket> {
    var k := RouteBucket(key, kind, WindowOf(p, kind).windowSeconds);
    if k in buckets then Some(buckets[k]) else None
  }

  /** What one increment makes of a bucket. */
  function Bumped(b: Option<Bucket>, w: Window, now: int): Bucket {
    if b.None? || b.value.expiresAt <= now then Bucket(1, now + w.windowSeconds)
    else Bucket(b.value.count + 1, b.value.expiresAt)
  }

  /** A caller's own request: the burst bucket always counts it, the sustained
      bucket only when the burst window lets it through. */
  lemma OwnRequest(buckets: Buckets, p: RoutePolicy, key: Text, now: int)
    ensures var (after, verdict) := Evaluated(buckets, p, key, now);
            var burst := Bumped(Lookup(buckets, key, Burst, p), p.burst, now);
            var sustained := Bumped(Lookup(buckets, key, Sustained, p), p.sustained, now);
            && Lookup(after, key, Burst, p) == Some(burst)
            && (if burst.count > p.burst.limit
                then verdict.limited && verdict.current == Burst
                     && Lookup(after, key, Sustained, p) == Lookup(buckets, key, Sustained, p)
                else Lookup(after, key, Sustained, p) == Some(sustained)
                     && (verdict.limited <==> sustained.count > p.sustained.limit))
  {
    if RouteBucket(key, Burst, p.burst.windowSeconds) == RouteBucket(key, Sustained, p.sustained.windowSeconds) {
      RouteBucketUnique(key, key, Burst, Sustained, p.burst.windowSeconds, p.sustained.windowSeconds);
    }
  }

  /** The verdict reports the window that stopped the request, or the sustained one: its
      count and the time until its bucket expires, which is when it starts afresh. */
  lemma VerdictReportsItsWindow(buckets: Buckets, p: RoutePolicy, key: Text, now: int)
    ensures var (after, verdict) := Evaluated(buckets, p, key, now);
            var bucket := Lookup(after, key, verdict.current, p);
            var w := WindowOf(p, verdict.current);
            && bucket.Some? && verdict.count == bucket.value.count
            && verdict.resetSeconds == bucket.value.expiresAt - now
            && (verdict.limited <==> verdict.count > w.limit)
            && (verdict.current == Burst ==> verdict.limited)
            && Bumped(bucket, w, now + verdict.resetSeconds).count == 1
            && (ValidPolicy(p) ==> verdict.resetSeconds > 0)
  {
    OwnRequest(buckets, p, key, now);
  }

  /** Another caller's request leaves a caller's buckets alone. */
  lemma OtherRequest(buckets: Buckets, p: RoutePolicy, key: Text, q: RoutePolicy, other: Text, now: int, kind: Kind)
    requires key != other
    ensures Lookup(Evaluated(buckets, q, other, now).0, key, kind, p) == Lookup(buckets, key, kind, p)
  {
    forall k: Kind ensures RouteBucket(other, k, WindowOf(q, k).windowSeconds)
                           != RouteBucket(key, kind, WindowOf(p, kind).windowSeconds) {
      if RouteBucket(other, k, WindowOf(q, k).windowSeconds) == RouteBucket(key, kind, WindowOf(p, kind).windowSeconds) {
        RouteBucketUnique(other, key, k, kind, WindowOf(q, k).windowSeconds, WindowOf(p, kind).windowSeconds);
      }
    }
    assert RouteBucket(other, Burst, WindowOf(q, Burst).windowSeconds)
           != RouteBucket(key, kind, WindowOf(p, kind).windowSeconds);
    assert RouteBucket(other, Sustained, WindowOf(q, Sustained).windowSeconds)
           != RouteBucket(key, kind, WindowOf(p, kind).windowSeconds);
  }

  // ---- Runs ----

  datatype Hit = Hit(key: Text, policy: RoutePolicy, now: int)

  /** How many of `key`'s requests a run admits between `from` and `until`, both included. */
  function AdmittedBetween(buckets: Buckets, hits: seq<Hit>, key: Text, from: int, until: int): nat
    decreases |hits|
  {
    if hits == [] then 0
    else
      var (after, verdict) := Evaluated(buckets, hits[0].policy, hits[0].key, hits[0].now);
      (if hits[0].key == key && !verdict.limited && from <= hits[0].now <= until then 1 else 0)
      + AdmittedBetween(after, hits[1..], key, from, until)
  }

  predicate ClockForward(last: int, hits: seq<Hit>)
    decreases |hits|
  {
    hits == [] || (last <= hits[0].now && ClockForward(hits[0].now, hits[1..]))
  }

  function Min(a: nat, b: nat): nat {
    if a < b then a else b
  }

  /** What a bucket says about the `n` requests admitted so far in the interval
      of one window length that begins at `from`. */
  predicate Accounts(b: Option<Bucket>, w: Window, last: int, from: int, n: nat) {
    match b
    case None => n == 0
    case Some(bucket) =>
      var start := bucket.expiresAt - w.windowSeconds;
      && start <= last
      && (bucket.expiresAt <= from ==> n == 0)
      && (start <= from ==> n <= Min(bucket.count, w.limit))
      && (from < start <= from + w.windowSeconds ==> n <= w.limit + Min(bucket.count, w.limit))
      && n <= 2 * w.limit
  }

  /** Counting one more request, admitted only within the limit, keeps the account. */
  lemma BumpAccounts(b: Option<Bucket>, w: Window, last: int, now: int, from: int, n: nat, admitted: bool)
    requires ValidWindow(w) && last <= now && Accounts(b, w, last, from, n)
    requires admitted ==> Bumped(b, w, now).count <= w.limit
    ensures Accounts(Some(Bumped(b, w, now)), w, now, from,
                     n + if admitted && from <= now <= from + w.windowSeconds then 1 else 0)
  {
  }

  /** In any interval of one window length a caller gets at most twice the
      limit, for either window, whatever other callers do. */
  lemma {:induction false} AtMostTwiceTheLimitFrom(
    buckets: Buckets, hits: seq<Hit>, key: Text, p: RoutePolicy, kind: Kind, last: int, from: int, n: nat)
    requires ValidPolicy(p) && ClockForward(last, hits)
    requires forall h :: h in hits && h.key == key ==> h.policy == p
    requires Accounts(Lookup(buckets, key, kind, p), WindowOf(p, kind), last, from, n)
    ensures n + AdmittedBetween(buckets, hits, key, from, from + WindowOf(p, kind).windowSeconds)
            <= 2 * WindowOf(p, kind).limit
    decreases |hits|
  {
    if hits != [] {
      var h := hits[0];
      var w := WindowOf(p, kind);
      var (after, verdict) := Evaluated(buckets, h.policy, h.key, h.now);
      var counted := if h.key == key && !verdict.limited && from <= h.now <= from + w.windowSeconds then 1 else 0;
      var b := Lookup(buckets, key, kind, p);
      if h.key == key {
        OwnRequest(buckets, p, key, h.now);
        if Lookup(after, key, kind, p) != b {
          BumpAccounts(b, w, last, h.now, from, n, !verdict.limited);
        }
      } else {
        OtherRequest(buckets, p, key, h.policy, h.key, h.now, kind);
      }
      assert Accounts(Lookup(after, key, kind, p), w, h.now, from, n + counted);
      AtMostTwiceTheLimitFrom(after, hits[1..], key, p, kind, h.now, from, n + counted);
    }
  }

  lemma AtMostTwiceTheLimit(hits: seq<Hit>, key: Text, p: RoutePolicy, kind: Kind, last: int, from: int)
    requires ValidPolicy(p) && ClockForward(last, hits)
    requires forall h :: h in hits && h.key == key ==> h.policy == p
    ensures AdmittedBetween(map[], hits, key, from, from + WindowOf(p, kind).windowSeconds)
            <= 2 * WindowOf(p, kind).limit
  {
    AtMostTwiceTheLimitFrom(map[], hits, key, p, kind, last, from, 0);
  }

  // ---- The half-open interval ----

  /** The most a window admits in an interval of its length that leaves out its end:
      one less than twice the limit, because the opener of the earlier bucket falls
      before the interval; and the limit alone if the interval is a single instant. */
  function HalfOpenMost(w: Window): int {
    if w.windowSeconds == 1 then w.limit else 2 * w.limit - 1
  }

  /** As `Accounts`, for the interval without its end. */
  predicate AccountsHalfOpen(b: Option<Bucket>, w: Window, last: int, from: int, n: nat) {
    match b
    case None => n == 0
    case Some(bucket) =>
      var start := bucket.expiresAt - w.windowSeconds;
      && start <= last && bucket.count >= 1
      && (bucket.expiresAt <= from ==> n == 0)
      && (start < from ==> n <= Min(bucket.count, w.limit) - 1)
      && (from <= start < from + w.windowSeconds ==> n <= HalfOpenMost(w) - w.limit + Min(bucket.count, w.limit))
      && n <= HalfOpenMost(w)
  }

  lemma BumpAccountsHalfOpen(b: Option<Bucket>, w: Window, last: int, now: int, from: int, n: nat, admitted: bool)
    requires ValidWindow(w) && last <= now && AccountsHalfOpen(b, w, last, from, n)
    requires admitted ==> Bumped(b, w, now).count <= w.limit
    ensures AccountsHalfOpen(Some(Bumped(b, w, now)), w, now, from,
                             n + if admitted && from <= now < from + w.windowSeconds then 1 else 0)
  {
  }

  lemma {:induction false} HalfOpenFrom(
    buckets: Buckets, hits: seq<Hit>, key: Text, p: RoutePolicy, kind: Kind, last: int, from: int, n: nat)
    requires ValidPolicy(p) && ClockForward(last, hits)
    requires forall h :: h in hits && h.key == key ==> h.policy == p
    requires AccountsHalfOpen(Lookup(buckets, key, kind, p), WindowOf(p, kind), last, from, n)
    ensures n + AdmittedBetween(buckets, hits, key, from, from + WindowOf(p, kind).windowSeconds - 1)
            <= HalfOpenMost(WindowOf(p, kind))
    decreases |hits|
  {
    if hits != [] {
      var h := hits[0];
      var w := WindowOf(p, kind);
      var (after, verdict) := Evaluated(buckets, h.policy, h.key, h.now);
      var counted := if h.key == key && !verdict.limited && from <= h.now < from + w.windowSeconds then 1 else 0;
      var b := Lookup(buckets, key, kind, p);
      if h.key == key {
        OwnRequest(buckets, p, key, h.now);
        if Lookup(after, key, kind, p) != b {
          BumpAccountsHalfOpen(b, w, last, h.now, from, n, !verdict.limited);
        }
      } else {
        OtherRequest(buckets, p, key, h.policy, h.key, h.now, kind);
      }
      assert AccountsHalfOpen(Lookup(after, key, kind, p), w, h.now, from, n + counted);
      HalfOpenFrom(after, hits[1..], key, p, kind, h.now, from, n + counted);
    }
  }

  /** In any interval of one window length that leaves out its end. */
  lemma HalfOpenBound(hits: seq<Hit>, key: Text, p: RoutePolicy, kind: Kind, last: int, from: int)
    requires ValidPolicy(p) && ClockForward(last, hits)
    requires forall h :: h in hits && h.key == key ==> h.policy == p
    ensures AdmittedBetween(map[], hits, key, from, from + WindowOf(p, kind).windowSeconds - 1)
            <= HalfOpenMost(WindowOf(p, kind))
  {
    HalfOpenFrom(map[], hits, key, p, kind, last, from, 0);
  }

  // ---- The bounds are attained ----

  /** `n` requests at one instant. */
  function Volley(key: Text, p: RoutePolicy, n: nat, t: int): seq<Hit> {
    if n == 0 then [] else [Hit(key, p, t)] + Volley(key, p, n - 1, t)
  }

  /** A bucket after `n` admitted requests at `t`. */
  function Fired(b: Option<Bucket>, w: Window, t: int, n: nat): Option<Bucket> {
    if n == 0 then b
    else if b.None? || b.value.expiresAt <= t then Some(Bucket(n, t + w.windowSeconds))
    else Some(Bucket(b.value.count + n, b.value.expiresAt))
  }

  predicate HasRoom(b: Option<Bucket>, w: Window, t: int, n: nat) {
    n > 0 ==> Fired(b, w, t, n).value.count <= w.limit
  }

  lemma FireOneMore(b: Option<Bucket>, w: Window, t: int, n: nat)
    requires n > 0 && ValidWindow(w) && HasRoom(b, w, t, n)
    ensures Fired(b, w, t, 1) == Some(Bumped(b, w, t)) && Bumped(b, w, t).count <= w.limit
    ensures Fired(Some(Bumped(b, w, t)), w, t, n - 1) == Fired(b, w, t, n)
    ensures HasRoom(Some(Bumped(b, w, t)), w, t, n - 1)
  {
  }

  /** The caller's two buckets. */
  predicate Holds(buckets: Buckets, p: RoutePolicy, key: Text, burst: Option<Bucket>, sustained: Option<Bucket>) {
    Lookup(buckets, key, Burst, p) == burst && Lookup(buckets, key, Sustained, p) == sustained
  }

  lemma OneIsAdmitted(buckets: Buckets, p: RoutePolicy, key: Text, burst: Option<Bucket>, sustained: Option<Bucket>,
                      t: int, hits: seq<Hit>, from: int, until: int)
    returns (after: Buckets)
    requires Holds(buckets, p, key, burst, sustained)
    requires Bumped(burst, p.burst, t).count <= p.burst.limit && Bumped(sustained, p.sustained, t).count <= p.sustained.limit
    requires hits != [] && hits[0] == Hit(key, p, t)
    ensures AdmittedBetween(buckets, hits, key, from, until)
            == (if from <= t <= until then 1 else 0) + AdmittedBetween(after, hits[1..], key, from, until)
    ensures Holds(after, p, key, Some(Bumped(burst, p.burst, t)), Some(Bumped(sustained, p.sustained, t)))
  {
    OwnRequest(buckets, p, key, t);
    after := Evaluated(buckets, p, key, t).0;
  }

  /** A volley for which both windows have room is admitted as a whole. */
  lemma {:induction false} VolleyIsAdmitted(
    buckets: Buckets, p: RoutePolicy, key: Text, burst: Option<Bucket>, sustained: Option<Bucket>,
    n: nat, t: int, rest: seq<Hit>, from: int, until: int)
    returns (after: Buckets, admitted: nat)
    requires ValidPolicy(p) && Holds(buckets, p, key, burst, sustained)
    requires HasRoom(burst, p.burst, t, n) && HasRoom(sustained, p.sustained, t, n)
    ensures admitted == AdmittedBetween(after, rest, key, from, until)
    ensures AdmittedBetween(buckets, Volley(key, p, n, t) + rest, key, from, until)
            == (if from <= t <= until then n else 0) + admitted
    ensures Holds(after, p, key, Fired(burst, p.burst, t, n), Fired(sustained, p.sustained, t, n))
    decreases n
  {
    var hits := Volley(key, p, n, t) + rest;
    if n == 0 {
      assert hits == rest;
      after, admitted := buckets, AdmittedBetween(buckets, rest, key, from, until);
    } else {
      FireOneMore(burst, p.burst, t, n);
      FireOneMore(sustained, p.sustained, t, n);
      assert hits[0] == Hit(key, p, t) && hits[1..] == Volley(key, p, n - 1, t) + rest;
      var first := OneIsAdmitted(buckets, p, key, burst, sustained, t, hits, from, until);
      after, admitted := VolleyIsAdmitted(first, p, key, Some(Bumped(burst, p.burst, t)),
                                          Some(Bumped(sustained, p.sustained, t)), n - 1, t, rest, from, until);
    }
  }

  lemma {:induction false} VolleyIsForward(key: Text, p: RoutePolicy, n: nat, t: int, rest: seq<Hit>, last: int)
    requires last <= t && ClockForward(t, rest)
    ensures ClockForward(last, Volley(key, p, n, t) + rest)
    decreases n
  {
    if n == 0 {
      assert Volley(key, p, 0, t) + rest == rest;
    } else {
      VolleyIsForward(key, p, n - 1, t, rest, t);
      var hits := Volley(key, p, n, t) + rest;
      assert hits[0] == Hit(key, p, t) && hits[1..] == Volley(key, p, n - 1, t) + rest;
    }
  }

  /** A policy with window `w` of the given kind, and another of any length that
      leaves it room. */
  function PolicyWith(w: Window, kind: Kind, otherSeconds: nat): RoutePolicy {
    var other := Window(2 * w.limit, otherSeconds);
    if kind == Burst then RoutePolicy(w, other) else RoutePolicy(other, w)
  }

  /** Two volleys that have room one after the other are admitted as a whole. */
  lemma TwoVolleys(buckets: Buckets, p: RoutePolicy, key: Text, burst: Option<Bucket>, sustained: Option<Bucket>,
                   n: nat, t: int, m: nat, u: int, from: int, until: int)
    requires ValidPolicy(p) && Holds(buckets, p, key, burst, sustained)
    requires HasRoom(burst, p.burst, t, n) && HasRoom(Fired(burst, p.burst, t, n), p.burst, u, m)
    requires HasRoom(sustained, p.sustained, t, n) && HasRoom(Fired(sustained, p.sustained, t, n), p.sustained, u, m)
    ensures AdmittedBetween(buckets, Volley(key, p, n, t) + (Volley(key, p, m, u) + []), key, from, until)
            == (if from <= t <= until then n else 0) + (if from <= u <= until then m else 0)
  {
    var second := Volley(key, p, m, u) + [];
    var after, more := VolleyIsAdmitted(buckets, p, key, burst, sustained, n, t, second, from, until);
    var end, none := VolleyIsAdmitted(after, p, key, Fired(burst, p.burst, t, n), Fired(sustained, p.sustained, t, n),
                                      m, u, [], from, until);
  }

  /** For every limit, window length and kind some run gets exactly twice the limit
      in one window length: a volley before a reset and one after. */
  lemma TwiceTheLimitIsReached(key: Text, w: Window, kind: Kind, otherSeconds: nat) returns (hits: seq<Hit>)
    requires ValidWindow(w) && otherSeconds > 0
    ensures ClockForward(0, hits) && forall h :: h in hits ==> h.key == key && h.policy == PolicyWith(w, kind, otherSeconds)
    ensures AdmittedBetween(map[], hits, key, 0, w.windowSeconds) == 2 * w.limit
  {
    var p := PolicyWith(w, kind, otherSeconds);
    var second := Volley(key, p, w.limit, w.windowSeconds) + [];
    hits := Volley(key, p, w.limit, 0) + second;
    VolleysAreForward(key, p, w.limit, w.windowSeconds, [], 0);
    VolleysAreForward(key, p, w.limit, 0, second, 0);
    TwoVolleys(map[], p, key, None, None, w.limit, 0, w.limit, w.windowSeconds, 0, w.windowSeconds);
  }

  lemma {:induction false} VolleyHits(key: Text, p: RoutePolicy, n: nat, t: int)
    ensures forall h :: h in Volley(key, p, n, t) ==> h == Hit(key, p, t)
  {
    if n > 0 {
      VolleyHits(key, p, n - 1, t);
    }
  }

  lemma VolleysAreForward(key: Text, p: RoutePolicy, n: nat, t: int, rest: seq<Hit>, last: int)
    requires last <= t && ClockForward(t, rest) && forall h :: h in rest ==> h.key == key && h.policy == p
    ensures ClockForward(last, Volley(key, p, n, t) + rest)
    ensures forall h :: h in Volley(key, p, n, t) + rest ==> h.key == key && h.policy == p
  {
    VolleyIsForward(key, p, n, t, rest, last);
    VolleyHits(key, p, n, t);
  }

  predicate HasRoomForThree(w: Window, v: Window)
    requires ValidWindow(w)
  {
    var begun := Fired(None, v, 0, 1);
    var full := Fired(begun, v, w.windowSeconds - 1, w.limit - 1);
    && HasRoom(None, v, 0, 1)
    && HasRoom(begun, v, w.windowSeconds - 1, w.limit - 1)
    && HasRoom(full, v, w.windowSeconds, w.limit)
  }

  /** A window with the limit, or twice the limit, of `w` has room for the three volleys. */
  lemma RoomForThree(w: Window, v: Window)
    requires ValidWindow(w) && ValidWindow(v) && (v == w || v.limit == 2 * w.limit)
    ensures HasRoomForThree(w, v)
  {
  }

  /** One request at 0, the rest of its bucket at the bucket's last second, and the
      whole next bucket when it opens. */
  lemma ThreeVolleys(key: Text, p: RoutePolicy, w: Window)
    requires ValidWindow(w) && ValidPolicy(p) && HasRoomForThree(w, p.burst) && HasRoomForThree(w, p.sustained)
    ensures var third := Volley(key, p, w.limit, w.windowSeconds) + [];
            var second := Volley(key, p, w.limit - 1, w.windowSeconds - 1) + third;
            AdmittedBetween(map[], Volley(key, p, 1, 0) + second, key, 1, w.windowSeconds) == HalfOpenMost(w)
  {
    var second := Volley(key, p, w.limit - 1, w.windowSeconds - 1) + (Volley(key, p, w.limit, w.windowSeconds) + []);
    var begun, more := VolleyIsAdmitted(map[], p, key, None, None, 1, 0, second, 1, w.windowSeconds);
    TwoVolleys(begun, p, key, Fired(None, p.burst, 0, 1), Fired(None, p.sustained, 0, 1),
               w.limit - 1, w.windowSeconds - 1, w.limit, w.windowSeconds, 1, w.windowSeconds);
  }

  /** And the half-open bound is attained too: one request opens a bucket just before
      the interval, the rest of its limit and all of the next bucket fall inside. */
  lemma HalfOpenIsReached(key: Text, w: Window, kind: Kind, otherSeconds: nat) returns (hits: seq<Hit>)
    requires ValidWindow(w) && otherSeconds > 0
    ensures ClockForward(0, hits) && forall h :: h in hits ==> h.key == key && h.policy == PolicyWith(w, kind, otherSeconds)
    ensures AdmittedBetween(map[], hits, key, 1, w.windowSeconds) == HalfOpenMost(w)
  {
    var p := PolicyWith(w, kind, otherSeconds);
    var third := Volley(key, p, w.limit, w.windowSeconds) + [];
    var second := Volley(key, p, w.limit - 1, w.windowSeconds - 1) + third;
    hits := Volley(key, p, 1, 0) + second;
    VolleysAreForward(key, p, w.limit, w.windowSeconds, [], w.windowSeconds - 1);
    VolleysAreForward(key, p, w.limit - 1, w.windowSeconds - 1, third, 0);
    VolleysAreForward(key, p, 1, 0, second, 0);
    RoomForThree(w, p.burst);
    RoomForThree(w, p.sustained);
    ThreeVolleys(key, p, w);
  }
}

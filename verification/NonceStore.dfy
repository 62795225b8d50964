/** The in-memory nonce store: an insertion-ordered map, pruned and capped on
    every call, against the full history of accepted nonces. */
module NonceStore {
  import opened Texts

  datatype Entry = Entry(key: Text, expiresAt: int)

  datatype Answer = Accepted | Rejected | Throws

  function Live(entries: seq<Entry>, now: int): seq<Entry> {
    if entries == [] then []
    else (if entries[0].expiresAt > now then [entries[0]] else []) + Live(entries[1..], now)
  }

  predicate HasKey(entries: seq<Entry>, key: Text) {
    exists i :: 0 <= i < |entries| && entries[i].key == key
  }

  predicate DistinctKeys(entries: seq<Entry>) {
    forall i, j :: 0 <= i < j < |entries| ==> entries[i].key != entries[j].key
  }

  /** Oldest entries dropped until at most `maxEntries` remain. */
  function Capped(entries: seq<Entry>, maxEntries: int): seq<Entry> {
    if |entries| <= maxEntries then entries
    else if maxEntries <= 0 then []
    else entries[|entries| - maxEntries..]
  }

  /** The effect of one consume. */
  function Consumed(entries: seq<Entry>, maxEntries: int, key: Text, now: nat, ttlSeconds: nat): (seq<Entry>, bool) {
    var live := Live(entries, now);
    if HasKey(live, key) then (live, false)
    else (Capped(live + [Entry(key, now + ttlSeconds * 1000)], maxEntries), true)
  }

  const COLON: CodeUnit := 58

  function NonceKey(apiKey: Text, nonce: Text): Text {
    apiKey + [COLON] + nonce
  }

  // ---- Live entries ----

  lemma {:induction false} LiveAppend(a: seq<Entry>, b: seq<Entry>, now: int)
    ensures Live(a + b, now) == Live(a, now) + Live(b, now)
  {
    if a == [] {
      assert a + b == b;
    } else {
      assert (a + b)[1..] == a[1..] + b;
      LiveAppend(a[1..], b, now);
    }
  }

  lemma {:induction false} LiveTwice(entries: seq<Entry>, earlier: int, later: int)
    requires earlier <= later
    ensures Live(Live(entries, earlier), later) == Live(entries, later)
  {
    if entries != [] {
      LiveTwice(entries[1..], earlier, later);
      LiveAppend(if entries[0].expiresAt > earlier then [entries[0]] else [], Live(entries[1..], earlier), later);
    }
  }

  lemma {:induction false} LiveElements(entries: seq<Entry>, now: int)
    ensures forall e :: e in Live(entries, now) <==> e in entries && e.expiresAt > now
    ensures |Live(entries, now)| <= |entries|
  {
    if entries != [] {
      assert entries == [entries[0]] + entries[1..];
      LiveElements(entries[1..], now);
    }
  }

  lemma {:induction false} LiveDistinct(entries: seq<Entry>, now: int)
    requires DistinctKeys(entries)
    ensures DistinctKeys(Live(entries, now))
  {
    if entries != [] {
      LiveDistinct(entries[1..], now);
      LiveElements(entries[1..], now);
      assert forall e :: e in entries[1..] ==> e.key != entries[0].key;
    }
  }

  lemma LivePush(a: seq<Entry>, e: Entry, now: int)
    ensures Live(a + [e], now) == Live(a, now) + (if e.expiresAt > now then [e] else [])
  {
    LiveAppend(a, [e], now);
    assert [e][1..] == [];
  }

  lemma ConsumedDistinct(entries: seq<Entry>, maxEntries: int, key: Text, now: nat, ttlSeconds: nat)
    requires DistinctKeys(entries)
    ensures DistinctKeys(Consumed(entries, maxEntries, key, now, ttlSeconds).0)
  {
    LiveDistinct(entries, now);
    var live := Live(entries, now);
    assert forall i :: 0 <= i < |live| ==> live[i] in live;
  }

  // ---- The store ----

  class InMemoryNonceStore {
    const maxEntries: int
    var store: seq<Entry>

    ghost predicate Valid() reads this { DistinctKeys(store) }

    constructor (maxEntries: int)
      ensures Valid() && store == [] && this.maxEntries == maxEntries
    {
      this.maxEntries := maxEntries;
      store := [];
    }

    method PruneExpired(currentTime: int)
      modifies this
      ensures store == Live(old(store), currentTime)
    {
      var kept: seq<Entry> := [];
      var i := 0;
      assert store[..0] == [];
      while i < |store|
        invariant 0 <= i <= |store| && store == old(store)
        invariant kept == Live(store[..i], currentTime)
      {
        assert store[..i + 1] == store[..i] + [store[i]];
        LivePush(store[..i], store[i], currentTime);
        if store[i].expiresAt > currentTime {
          kept := kept + [store[i]];
        }
        i := i + 1;
      }
      assert store[..|store|] == store;
      store := kept;
    }

    method CapStoreSize()
      modifies this
      ensures store == Capped(old(store), maxEntries)
    {
      ghost var before := store;
      ghost var dropped := 0;
      while |store| > maxEntries
        invariant 0 <= dropped <= |before| && store == before[dropped..]
        invariant dropped > 0 ==> |before| - dropped >= maxEntries
        decreases |store|
      {
        if store == [] {
          return;
        }
        store := store[1..];
        dropped := dropped + 1;
      }
    }

    method Consume(apiKey: Text, nonce: Text, ttlSeconds: int, nowMs: nat) returns (answer: Answer)
      requires Valid()
      modifies this
      ensures Valid()
      ensures answer.Throws? <==> IsBlank(apiKey) || IsBlank(nonce) || ttlSeconds <= 0
      ensures answer.Throws? ==> store == old(store)
      ensures !answer.Throws? ==>
                (store, answer.Accepted?) == Consumed(old(store), maxEntries, NonceKey(apiKey, nonce), nowMs, ttlSeconds)
    {
      if IsBlank(apiKey) || IsBlank(nonce) || ttlSeconds <= 0 {
        return Throws;
      }
      ConsumedDistinct(store, maxEntries, NonceKey(apiKey, nonce), nowMs, ttlSeconds);
      PruneExpired(nowMs);
      var key := NonceKey(apiKey, nonce);
      var known := Has(key);
      if known {
        return Rejected;
      }
      store := store + [Entry(key, nowMs + ttlSeconds * 1000)];
      CapStoreSize();
      return Accepted;
    }

    method Has(key: Text) returns (known: bool)
      ensures known == HasKey(store, key)
    {
      var i := 0;
      while i < |store|
        invariant 0 <= i <= |store|
        invariant forall j :: 0 <= j < i ==> store[j].key != key
      {
        if store[i].key == key {
          assert store[i] in store;
          return true;
        }
        i := i + 1;
      }
      return false;
    }
  }

  // ---- Size and eviction ----

  /** A consume never leaves more than the cap, and evicts at most one live
      entry: the one inserted first, and only when the store is full. */
  lemma EvictsOnlyOldest(entries: seq<Entry>, maxEntries: int, key: Text, now: nat, ttlSeconds: nat)
    requires maxEntries >= 1 && |entries| <= maxEntries
    ensures var live := Live(entries, now);
            var added := Entry(key, now + ttlSeconds * 1000);
            var (after, accepted) := Consumed(entries, maxEntries, key, now, ttlSeconds);
            && |after| <= maxEntries
            && after == if !accepted then live
                        else if |live| < maxEntries then live + [added]
                        else live[1..] + [added]
  {
    LiveElements(entries, now);
    var live := Live(entries, now);
    var added := Entry(key, now + ttlSeconds * 1000);
    if |live| == maxEntries {
      assert (live + [added])[1..] == live[1..] + [added];
    }
  }

  // ---- The store against the full history ----

  datatype Request = Request(key: Text, now: nat, ttlSeconds: nat)

  /** The uncapped, unpruned reference: a nonce is refused while an earlier
      acceptance of it has not expired. */
  predicate RefusedBy(history: seq<Entry>, r: Request) {
    HasKey(Live(history, r.now), r.key)
  }

  function Recorded(history: seq<Entry>, r: Request): seq<Entry> {
    if RefusedBy(history, r) then history else history + [Entry(r.key, r.now + r.ttlSeconds * 1000)]
  }

  function StoreAnswers(entries: seq<Entry>, maxEntries: int, rs: seq<Request>): seq<bool>
    decreases |rs|
  {
    if rs == [] then []
    else
      var (after, accepted) := Consumed(entries, maxEntries, rs[0].key, rs[0].now, rs[0].ttlSeconds);
      [accepted] + StoreAnswers(after, maxEntries, rs[1..])
  }

  function HistoryAnswers(history: seq<Entry>, rs: seq<Request>): seq<bool>
    decreases |rs|
  {
    if rs == [] then []
    else [!RefusedBy(history, rs[0])] + HistoryAnswers(Recorded(history, rs[0]), rs[1..])
  }

  /** Clock readings from `last` on never decrease; ttls are positive. */
  predicate Timely(last: int, rs: seq<Request>)
    decreases |rs|
  {
    rs == [] || (last <= rs[0].now && rs[0].ttlSeconds > 0 && Timely(rs[0].now, rs[1..]))
  }

  /** Whenever a nonce is accepted, fewer than `maxEntries` are live. */
  predicate WithinCapacity(history: seq<Entry>, maxEntries: int, rs: seq<Request>)
    decreases |rs|
  {
    rs == []
    || ((RefusedBy(history, rs[0]) || |Live(history, rs[0].now)| < maxEntries)
        && WithinCapacity(Recorded(history, rs[0]), maxEntries, rs[1..]))
  }

  /** One request keeps the store equal to the live part of the history. */
  lemma StoreTracksHistory(history: seq<Entry>, last: int, maxEntries: int, r: Request)
    requires last <= r.now && r.ttlSeconds > 0
    requires RefusedBy(history, r) || |Live(history, r.now)| < maxEntries
    ensures Consumed(Live(history, last), maxEntries, r.key, r.now, r.ttlSeconds)
            == (Live(Recorded(history, r), r.now), !RefusedBy(history, r))
  {
    LiveTwice(history, last, r.now);
    LivePush(history, Entry(r.key, r.now + r.ttlSeconds * 1000), r.now);
  }

  /** While capacity suffices, pruning and capping are invisible: the store
      answers every request as the full history would. */
  lemma {:induction false} SameAnswersAsHistory(history: seq<Entry>, last: int, maxEntries: int, rs: seq<Request>)
    requires Timely(last, rs) && WithinCapacity(history, maxEntries, rs)
    ensures StoreAnswers(Live(history, last), maxEntries, rs) == HistoryAnswers(history, rs)
    decreases |rs|
  {
    if rs != [] {
      StoreTracksHistory(history, last, maxEntries, rs[0]);
      SameAnswersAsHistory(Recorded(history, rs[0]), rs[0].now, maxEntries, rs[1..]);
    }
  }

  lemma EvictedIsForgotten(live: seq<Entry>, added: Entry, now: int)
    requires live != [] && DistinctKeys(live) && !HasKey(live, added.key)
    ensures !HasKey(Live(live[1..] + [added], now), live[0].key)
  {
    var after := live[1..] + [added];
    LiveElements(after, now);
    forall e | e in Live(after, now) ensures e.key != live[0].key {
      assert e in after;
      if e == added {
        assert live[0] in live;
      }
    }
  }

  /** A full store takes a new nonce in the place of its oldest. */
  lemma FullStoreEvicts(history: seq<Entry>, last: int, maxEntries: int, r: Request)
    requires last <= r.now && maxEntries >= 1
    requires !RefusedBy(history, r) && |Live(history, r.now)| == maxEntries
    ensures Consumed(Live(history, last), maxEntries, r.key, r.now, r.ttlSeconds)
            == (Live(history, r.now)[1..] + [Entry(r.key, r.now + r.ttlSeconds * 1000)], true)
  {
    var live := Live(history, r.now);
    var added := Entry(r.key, r.now + r.ttlSeconds * 1000);
    LiveTwice(history, last, r.now);
    assert (live + [added])[1..] == live[1..] + [added];
  }

  lemma HistoryStillRefuses(history: seq<Entry>, r: Request)
    requires r.ttlSeconds > 0 && !RefusedBy(history, r) && Live(history, r.now) != []
    ensures RefusedBy(Recorded(history, r), Request(Live(history, r.now)[0].key, r.now, r.ttlSeconds))
  {
    var live := Live(history, r.now);
    var added := Entry(r.key, r.now + r.ttlSeconds * 1000);
    LivePush(history, added, r.now);
    assert (live + [added])[0] == live[0];
  }

  /** The capacity bound is exact: an acceptance that finds `maxEntries` live
      entries makes the store accept a nonce the history still refuses. */
  lemma CapacityIsNeeded(history: seq<Entry>, last: int, maxEntries: int, r: Request)
    requires last <= r.now && r.ttlSeconds > 0 && maxEntries >= 1
    requires DistinctKeys(Live(history, r.now))
    requires !RefusedBy(history, r) && |Live(history, r.now)| == maxEntries
    ensures var (after, accepted) := Consumed(Live(history, last), maxEntries, r.key, r.now, r.ttlSeconds);
            var replay := Request(Live(history, r.now)[0].key, r.now, r.ttlSeconds);
            && accepted
            && Consumed(after, maxEntries, replay.key, replay.now, replay.ttlSeconds).1
            && RefusedBy(Recorded(history, r), replay)
  {
    FullStoreEvicts(history, last, maxEntries, r);
    EvictedIsForgotten(Live(history, r.now), Entry(r.key, r.now + r.ttlSeconds * 1000), r.now);
    HistoryStillRefuses(history, r);
  }
}

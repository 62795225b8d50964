/** Treasury ingestion: indexed fee events become ledger entries, each with a
    payout history, through runs that may crash before they save their offset. */
module Treasury {
  import opened Texts

  datatype Component = Logistics | PlatformFee

  datatype EventName = FundsReleasedStage1 | PlatformFeesPaidStage1 | OtherEvent

  /** An amount is `None` when the indexer has none. */
  datatype Event = Event(
    id: Text, name: EventName, tradeId: Text, txHash: Option<Text>, blockNumber: nat, timestamp: int,
    releasedLogisticsAmount: Option<nat>, paidPlatformFees: Option<nat>)

  datatype Entry = Entry(
    tradeId: Text, txHash: Text, blockNumber: nat, name: EventName, component: Component, amount: nat,
    timestamp: int, sourceEventId: Text)

  datatype PayoutState = PendingReview | ReadyForPayout | Processing | Paid | Cancelled

  /** The ledger table keyed by entry key, and each entry's payout states in order. */
  datatype Books = Books(ledger: map<Text, Entry>, payouts: map<Text, seq<PayoutState>>)

  const COLON: CodeUnit := 58
  const LOGISTICS_TEXT: Text := [108, 111, 103, 105, 115, 116, 105, 99, 115]
  const PLATFORM_FEE_TEXT: Text := [112, 108, 97, 116, 102, 111, 114, 109, 95, 102, 101, 101]

  function ComponentText(c: Component): Text {
    if c == Logistics then LOGISTICS_TEXT else PLATFORM_FEE_TEXT
  }

  function BuildEntryKey(eventId: Text, c: Component): Text {
    eventId + [COLON] + ComponentText(c)
  }

  /** The component an event is booked under; `None` for an event that is skipped. */
  function ComponentOf(e: Event): Option<Component> {
    if e.txHash.None? then None
    else if e.name == FundsReleasedStage1 && e.releasedLogisticsAmount.Some? then Some(Logistics)
    else if e.name == PlatformFeesPaidStage1 && e.paidPlatformFees.Some? then Some(PlatformFee)
    else None
  }

  /** A ledger entry under its key. */
  datatype Posting = Posting(key: Text, entry: Entry)

  function AmountOf(e: Event): nat
    requires ComponentOf(e).Some?
  {
    if ComponentOf(e).value == Logistics then e.releasedLogisticsAmount.value else e.paidPlatformFees.value
  }

  function EntryOf(e: Event): Entry
    requires ComponentOf(e).Some?
  {
    Entry(e.tradeId, e.txHash.value, e.blockNumber, e.name, ComponentOf(e).value, AmountOf(e), e.timestamp, e.id)
  }

  /** What an event posts to the ledger, if it is eligible. */
  function PostingOf(e: Event): Option<Posting> {
    if ComponentOf(e).None? then None else Some(Posting(BuildEntryKey(e.id, ComponentOf(e).value), EntryOf(e)))
  }

  function Postings(events: seq<Event>): seq<Option<Posting>> {
    seq(|events|, i requires 0 <= i < |events| => PostingOf(events[i]))
  }

  /** The upsert of an entry, with an initial payout state if it has none. */
  function Upserted(b: Books, key: Text, entry: Entry): Books {
    Books(b.ledger[key := entry], if key in b.payouts then b.payouts else b.payouts[key := [PendingReview]])
  }

  function Posted(b: Books, p: Option<Posting>): Books {
    if p.Some? then Upserted(b, p.value.key, p.value.entry) else b
  }

  /** Postings `lo` up to `hi`, made in order. */
  function Ingested(b: Books, posts: seq<Option<Posting>>, lo: nat, hi: nat): Books
    requires hi <= |posts|
    decreases hi
  {
    if lo >= hi then b else Posted(Ingested(b, posts, lo, hi - 1), posts[hi - 1])
  }

  // ---- Payout states ----

  predicate AllowedTransition(current: PayoutState, next: PayoutState) {
    match current
    case PendingReview => next == ReadyForPayout || next == Cancelled
    case ReadyForPayout => next == Processing || next == Cancelled
    case Processing => next == Paid || next == Cancelled
    case Paid | Cancelled => false
  }

  predicate IsHistory(h: seq<PayoutState>) {
    && h != [] && h[0] == PendingReview
    && forall i :: 0 <= i < |h| - 1 ==> AllowedTransition(h[i], h[i + 1])
  }

  /** A payout is paid only after review, release and processing, in that order,
      and nothing follows `Paid` or `Cancelled`. */
  lemma {:induction false} HistoryShape(h: seq<PayoutState>, i: nat)
    requires IsHistory(h) && i < |h|
    ensures h[i] == Paid ==> h == [PendingReview, ReadyForPayout, Processing, Paid]
    ensures h[i] == Paid || h[i] == Cancelled ==> i == |h| - 1
    ensures h[i] == PendingReview <==> i == 0
    ensures h[i] == ReadyForPayout ==> i == 1
    ensures h[i] == Processing ==> i == 2
  {
    if i > 0 {
      HistoryShape(h, i - 1);
      assert AllowedTransition(h[i - 1], h[i]);
      if i > 1 {
        HistoryShape(h, i - 2);
      }
    }
    if i < |h| - 1 {
      assert AllowedTransition(h[i], h[i + 1]);
    }
  }

  const COMPLETE: seq<PayoutState> := [PendingReview, ReadyForPayout, Processing, Paid]

  predicate HasShape(h: seq<PayoutState>) {
    h != [] && (h <= COMPLETE || (|h| > 1 && h[|h| - 1] == Cancelled && h[..|h| - 1] <= COMPLETE[..3]))
  }

  lemma ShapedIsHistory(h: seq<PayoutState>)
    requires HasShape(h)
    ensures IsHistory(h)
  {
    if h <= COMPLETE {
      assert forall i :: 0 <= i < |h| ==> h[i] == COMPLETE[i];
    } else {
      assert forall i :: 0 <= i < |h| - 1 ==> h[i] == h[..|h| - 1][i] == COMPLETE[i];
    }
  }

  lemma HistoryIsShaped(h: seq<PayoutState>)
    requires IsHistory(h)
    ensures HasShape(h)
  {
    var last := |h| - 1;
    HistoryShape(h, last);
    if last > 3 {
      HistoryShape(h, 3);
    }
    forall i | 0 <= i < last ensures i < 3 && h[i] == COMPLETE[i] {
      HistoryShape(h, i);
    }
    assert h[..last] == COMPLETE[..last] == COMPLETE[..3][..last];
    if h[last] != Cancelled {
      assert h == COMPLETE[..last + 1];
    }
  }

  /** Exactly these are histories: the steps to payment, as far as they have come, and
      those cancelled before it. */
  lemma HistoriesAre(h: seq<PayoutState>)
    ensures IsHistory(h) <==> HasShape(h)
  {
    if IsHistory(h) {
      HistoryIsShaped(h);
    }
    if HasShape(h) {
      ShapedIsHistory(h);
    }
  }

  // ---- The ingestion run ----

  function Min(a: nat, b: nat): nat {
    if a < b then a else b
  }

  class TreasuryDatabase {
    var ledger: map<Text, Entry>
    var payouts: map<Text, seq<PayoutState>>
    var nextOffset: nat

    ghost function Contents(): Books reads this { Books(ledger, payouts) }

    constructor ()
      ensures Contents() == Books(map[], map[]) && nextOffset == 0
    {
      ledger, payouts, nextOffset := map[], map[], 0;
    }

    method UpsertLedgerEntryWithInitialState(key: Text, entry: Entry) returns (initialStateCreated: bool)
      modifies this
      ensures Contents() == Upserted(old(Contents()), key, entry) && nextOffset == old(nextOffset)
      ensures initialStateCreated == (key !in old(payouts))
    {
      ledger := ledger[key := entry];
      initialStateCreated := key !in payouts;
      if initialStateCreated {
        payouts := payouts[key := [PendingReview]];
      }
    }

    /** Appends a payout state if the latest one allows it. */
    method AppendPayoutState(key: Text, next: PayoutState) returns (ok: bool)
      requires forall k :: k in payouts ==> payouts[k] != []
      modifies this
      ensures ledger == old(ledger) && nextOffset == old(nextOffset)
      ensures (payouts, ok) == Appended(old(Contents()), key, next)
      ensures ok <==> key in ledger && AllowedTransition(LatestState(old(payouts), key), next)
      ensures !ok ==> payouts == old(payouts)
      ensures ok ==> payouts == old(payouts)[key := (if key in old(payouts) then old(payouts)[key] else []) + [next]]
    {
      if key !in ledger {
        return false;
      }
      var current := if key in payouts then payouts[key][|payouts[key]| - 1] else PendingReview;
      if !AllowedTransition(current, next) {
        return false;
      }
      payouts := payouts[key := (if key in payouts then payouts[key] else []) + [next]];
      return true;
    }
  }

  /** The state an entry is in; `PendingReview` if none was recorded. */
  function LatestState(payouts: map<Text, seq<PayoutState>>, key: Text): PayoutState
    requires key in payouts ==> payouts[key] != []
  {
    if key in payouts then payouts[key][|payouts[key]| - 1] else PendingReview
  }

  function Appended(b: Books, key: Text, next: PayoutState): (map<Text, seq<PayoutState>>, bool)
    requires forall k :: k in b.payouts ==> b.payouts[k] != []
  {
    if key !in b.ledger then (b.payouts, false)
    else
      var history := if key in b.payouts then b.payouts[key] else [];
      var current := if history == [] then PendingReview else history[|history| - 1];
      if AllowedTransition(current, next) then (b.payouts[key := history + [next]], true) else (b.payouts, false)
  }

  /** What the indexer returns: `visible` events of the stream are indexed. */
  function Fetch(stream: seq<Event>, visible: nat, limit: nat, offset: nat): (events: seq<Event>)
    ensures |events| <= limit
    ensures events != [] ==> offset + |events| <= |stream| && events == stream[offset..offset + |events|]
    ensures |events| < limit ==> offset + |events| >= Min(visible, |stream|)
  {
    var end := Min(visible, |stream|);
    if offset >= end then [] else stream[offset..Min(end, offset + limit)]
  }

  // ---- What is booked, from the event's own fields ----

  /** The amount an event owes under a component; `None` where it owes nothing there
      or cannot be booked. */
  function Owed(e: Event, c: Component): Option<nat> {
    match c
    case Logistics => if e.name == FundsReleasedStage1 && e.txHash.Some? then e.releasedLogisticsAmount else None
    case PlatformFee => if e.name == PlatformFeesPaidStage1 && e.txHash.Some? then e.paidPlatformFees else None
  }

  const LOGISTICS_SUFFIX: Text := [58, 108, 111, 103, 105, 115, 116, 105, 99, 115]
  const PLATFORM_FEE_SUFFIX: Text := [58, 112, 108, 97, 116, 102, 111, 114, 109, 95, 102, 101, 101]

  function KeyFor(e: Event, c: Component): Text {
    e.id + if c == Logistics then LOGISTICS_SUFFIX else PLATFORM_FEE_SUFFIX
  }

  /** The ledger's entry for the event under the component. */
  predicate IsBooked(ledger: map<Text, Entry>, e: Event, c: Component) {
    && Owed(e, c).Some? && KeyFor(e, c) in ledger
    && var entry := ledger[KeyFor(e, c)];
       && entry.tradeId == e.tradeId && Some(entry.txHash) == e.txHash && entry.blockNumber == e.blockNumber
       && entry.name == e.name && entry.component == c && Some(entry.amount) == Owed(e, c)
       && entry.timestamp == e.timestamp && entry.sourceEventId == e.id
  }

  /** Booking an event writes its entry, with a first payout state if it had none, and
      nothing else; an event that owes nothing is skipped. */
  predicate IsBooking(before: Books, e: Event, after: Books) {
    && (forall c: Component :: Owed(e, c).Some? ==>
          && IsBooked(after.ledger, e, c)
          && after.ledger == before.ledger[KeyFor(e, c) := after.ledger[KeyFor(e, c)]]
          && after.payouts == if KeyFor(e, c) in before.payouts then before.payouts
                              else before.payouts[KeyFor(e, c) := [PendingReview]])
    && ((forall c: Component :: Owed(e, c).None?) ==> after == before)
  }

  lemma KeyIsSpelledOut(e: Event, c: Component)
    ensures BuildEntryKey(e.id, c) == KeyFor(e, c)
  {
    assert [COLON] + LOGISTICS_TEXT == LOGISTICS_SUFFIX && [COLON] + PLATFORM_FEE_TEXT == PLATFORM_FEE_SUFFIX;
    assert e.id + [COLON] + ComponentText(c) == e.id + ([COLON] + ComponentText(c));
  }

  lemma PostingOwes(e: Event)
    ensures PostingOf(e).None? <==> Owed(e, Logistics).None? && Owed(e, PlatformFee).None?
    ensures forall c: Component :: Owed(e, c).Some? ==>
              PostingOf(e).Some? && PostingOf(e).value.key == KeyFor(e, c)
              && IsBooked(map[KeyFor(e, c) := PostingOf(e).value.entry], e, c)
    ensures Owed(e, Logistics).None? || Owed(e, PlatformFee).None?
  {
    KeyIsSpelledOut(e, Logistics);
    KeyIsSpelledOut(e, PlatformFee);
  }

  lemma PostedIsBooking(b: Books, e: Event)
    ensures IsBooking(b, e, Posted(b, PostingOf(e)))
  {
    PostingOwes(e);
  }

  /** The loop body: an event is booked under its component, or skipped. */
  method BookEvent(db: TreasuryDatabase, e: Event) returns (created: bool)
    modifies db
    ensures db.Contents() == Posted(old(db.Contents()), PostingOf(e)) && db.nextOffset == old(db.nextOffset)
    ensures IsBooking(old(db.Contents()), e, db.Contents())
    ensures |db.payouts| == |old(db.payouts)| + if created then 1 else 0
  {
    PostedIsBooking(db.Contents(), e);
    created := false;
    if e.name == FundsReleasedStage1 && e.releasedLogisticsAmount.Some? {
      if e.txHash.None? {
        return false;
      }
      created := db.UpsertLedgerEntryWithInitialState(BuildEntryKey(e.id, Logistics), EntryOf(e));
    }
    if e.name == PlatformFeesPaidStage1 && e.paidPlatformFees.Some? {
      if e.txHash.None? {
        return false;
      }
      created := db.UpsertLedgerEntryWithInitialState(BuildEntryKey(e.id, PlatformFee), EntryOf(e));
    }
  }

  // ---- Keys ----

  lemma KeysTellApart(a: Text, b: Text, c: Component, d: Component)
    requires BuildEntryKey(a, c) == BuildEntryKey(b, d)
    ensures a == b && c == d
  {
    var t := BuildEntryKey(a, c);
    var x, y := ComponentText(c), ComponentText(d);
    assert COLON !in x && COLON !in y;
    assert forall i :: |a| < i < |t| ==> t[i] == x[i - |a| - 1];
    assert forall i :: |b| < i < |t| ==> t[i] == y[i - |b| - 1];
    assert t[|a|] == COLON && t[|b|] == COLON;
    assert |a| == |b|;
    assert a == t[..|a|] && b == t[..|b|];
    assert |LOGISTICS_TEXT| != |PLATFORM_FEE_TEXT|;
  }

  predicate DistinctIds(events: seq<Event>) {
    forall i, j :: 0 <= i < j < |events| ==> events[i].id != events[j].id
  }

  /** Events `lo` up to `hi` are booked, and entries of no such event are as before. */
  ghost predicate StretchIsBooked(before: map<Text, Entry>, after: map<Text, Entry>, events: seq<Event>, lo: nat, hi: nat)
    requires hi <= |events|
  {
    && (forall i, c: Component :: lo <= i < hi && Owed(events[i], c).Some? ==> IsBooked(after, events[i], c))
    && (forall key :: (forall i, c: Component :: lo <= i < hi && Owed(events[i], c).Some? ==> key != KeyFor(events[i], c)) ==>
          (key in after <==> key in before) && (key in before ==> after[key] == before[key]))
  }

  lemma BookingKeepsOthers(before: Books, e: Event, after: Books, other: Event, c: Component)
    requires IsBooking(before, e, after) && e.id != other.id && IsBooked(before.ledger, other, c)
    ensures IsBooked(after.ledger, other, c)
  {
    forall d: Component ensures KeyFor(e, d) != KeyFor(other, c) {
      if KeyFor(e, d) == KeyFor(other, c) {
        KeyIsSpelledOut(e, d);
        KeyIsSpelledOut(other, c);
        KeysTellApart(e.id, other.id, d, c);
      }
    }
    assert Owed(e, Logistics).Some? || Owed(e, PlatformFee).Some? || after == before;
  }

  lemma BookingKeepsOtherKeys(before: Books, e: Event, after: Books, key: Text)
    requires IsBooking(before, e, after) && forall c: Component :: Owed(e, c).Some? ==> key != KeyFor(e, c)
    ensures key in after.ledger <==> key in before.ledger
    ensures key in before.ledger ==> after.ledger[key] == before.ledger[key]
  {
    assert Owed(e, Logistics).Some? || Owed(e, PlatformFee).Some? || after == before;
  }

  predicate IsTrace(trace: seq<Books>, stream: seq<Event>, begin: nat) {
    && |trace| == |stream| + 1
    && forall k {:trigger stream[k]} :: begin <= k < |stream| ==> trace[k + 1] == Posted(trace[k], PostingOf(stream[k]))
  }

  lemma StepOfTrace(trace: seq<Books>, events: seq<Event>, lo: nat, hi: nat)
    requires IsTrace(trace, events, lo) && lo < hi <= |events|
    ensures IsBooking(trace[hi - 1], events[hi - 1], trace[hi])
  {
    PostedIsBooking(trace[hi - 1], events[hi - 1]);
    assert trace[(hi - 1) + 1] == Posted(trace[hi - 1], PostingOf(events[hi - 1]));
  }

  /** Once booked, an event of the stretch stays booked to its end. */
  lemma {:induction false} StaysBooked(trace: seq<Books>, events: seq<Event>, lo: nat, hi: nat, i: nat, c: Component)
    requires IsTrace(trace, events, lo) && DistinctIds(events) && lo <= i < hi <= |events| && Owed(events[i], c).Some?
    ensures IsBooked(trace[hi].ledger, events[i], c)
    decreases hi
  {
    StepOfTrace(trace, events, lo, hi);
    if i < hi - 1 {
      StaysBooked(trace, events, lo, hi - 1, i, c);
      BookingKeepsOthers(trace[hi - 1], events[hi - 1], trace[hi], events[i], c);
    }
  }

  /** A key that no event of the stretch owes under is left alone. */
  lemma {:induction false} StaysUnbooked(trace: seq<Books>, events: seq<Event>, lo: nat, hi: nat, key: Text)
    requires IsTrace(trace, events, lo) && lo <= hi <= |events|
    requires forall i, c: Component :: lo <= i < hi && Owed(events[i], c).Some? ==> key != KeyFor(events[i], c)
    ensures key in trace[hi].ledger <==> key in trace[lo].ledger
    ensures key in trace[lo].ledger ==> trace[hi].ledger[key] == trace[lo].ledger[key]
    decreases hi
  {
    if lo < hi {
      StepOfTrace(trace, events, lo, hi);
      StaysUnbooked(trace, events, lo, hi - 1, key);
      BookingKeepsOtherKeys(trace[hi - 1], events[hi - 1], trace[hi], key);
    }
  }

  /** The books after each event of the stream, booked from `begin` on. */
  lemma MakeTrace(start: Books, stream: seq<Event>, begin: nat, hi: nat) returns (trace: seq<Books>)
    requires begin <= hi <= |stream|
    ensures IsTrace(trace, stream, begin) && trace[begin] == start
    ensures trace[hi] == Ingested(start, Postings(stream), begin, hi)
  {
    trace := seq(|stream| + 1, k requires 0 <= k <= |stream| => Ingested(start, Postings(stream), begin, k));
    forall k | begin <= k < |stream| ensures trace[k + 1] == Posted(trace[k], PostingOf(stream[k])) {
      assert Postings(stream)[k] == PostingOf(stream[k]);
    }
  }

  lemma {:induction false} TraceIsIngested(trace: seq<Books>, stream: seq<Event>, begin: nat, hi: nat)
    requires IsTrace(trace, stream, begin) && begin <= hi <= |stream|
    ensures trace[hi] == Ingested(trace[begin], Postings(stream), begin, hi)
    decreases hi
  {
    if begin < hi {
      TraceIsIngested(trace, stream, begin, hi - 1);
      assert stream[hi - 1] == stream[hi - 1];
    }
  }

  /** What an ingestion run makes of the ledger: every event of its stretch that owes an
      amount is booked, and every other entry is left alone. */
  lemma IngestedIsBooked(b: Books, events: seq<Event>, lo: nat, hi: nat)
    requires DistinctIds(events) && lo <= hi <= |events|
    ensures StretchIsBooked(b.ledger, Ingested(b, Postings(events), lo, hi).ledger, events, lo, hi)
  {
    var trace := MakeTrace(b, events, lo, hi);
    forall i, c: Component | lo <= i < hi && Owed(events[i], c).Some? ensures IsBooked(trace[hi].ledger, events[i], c) {
      StaysBooked(trace, events, lo, hi, i, c);
    }
    forall key | forall i, c: Component :: lo <= i < hi && Owed(events[i], c).Some? ==> key != KeyFor(events[i], c)
      ensures (key in trace[hi].ledger <==> key in b.ledger) && (key in b.ledger ==> trace[hi].ledger[key] == b.ledger[key])
    {
      StaysUnbooked(trace, events, lo, hi, key);
    }
  }

  /** One page of the stream, fetched and booked as far as a crash lets it. */
  method IngestPage(db: TreasuryDatabase, stream: seq<Event>, visible: nat, limit: nat, offset: nat,
                    ghost begin: nat, ghost trace: seq<Books>, crashAt: Option<nat>)
    returns (size: nat, handled: nat, inserted: nat)
    requires IsTrace(trace, stream, begin) && begin <= offset <= |stream| && db.Contents() == trace[offset]
    modifies db
    ensures handled <= size <= limit && offset + size <= |stream|
    ensures handled < size ==> crashAt == Some(offset + handled)
    ensures size < limit ==> offset + size >= Min(visible, |stream|)
    ensures db.Contents() == trace[offset + handled]
    ensures db.nextOffset == old(db.nextOffset) && |db.payouts| == |old(db.payouts)| + inserted
  {
    var events := Fetch(stream, visible, limit, offset);
    size, handled, inserted := |events|, 0, 0;
    while handled < |events| && crashAt != Some(offset + handled)
      invariant handled <= |events| && db.nextOffset == old(db.nextOffset)
      invariant db.Contents() == trace[offset + handled]
      invariant |db.payouts| == |old(db.payouts)| + inserted
    {
      assert events[handled] == stream[offset + handled];
      var created := BookEvent(db, events[handled]);
      inserted := if created then inserted + 1 else inserted;
      handled := handled + 1;
    }
  }

  /** The paging loop: page after page from the stored offset, up to the limit, the end of
      what is indexed, or the crash. */
  method IngestPages(db: TreasuryDatabase, stream: seq<Event>, visible: nat -> nat,
                     batchSize: nat, maxEvents: nat, crashAt: Option<nat>, ghost trace: seq<Books>)
    returns (crashed: bool, fetched: nat, inserted: nat)
    requires batchSize > 0 && maxEvents > 0 && db.nextOffset <= |stream|
    requires forall j: nat, k: nat :: j <= k ==> visible(j) <= visible(k)
    requires IsTrace(trace, stream, db.nextOffset) && db.Contents() == trace[db.nextOffset]
    modifies db
    ensures fetched <= maxEvents && old(db.nextOffset) + fetched <= |stream| && db.nextOffset == old(db.nextOffset)
    ensures db.Contents() == trace[old(db.nextOffset) + fetched]
    ensures |db.payouts| == |old(db.payouts)| + inserted
    ensures crashed ==> crashAt == Some(old(db.nextOffset) + fetched)
    ensures !crashed && fetched < maxEvents ==> old(db.nextOffset) + fetched >= Min(visible(0), |stream|)
  {
    ghost var begin := db.nextOffset;
    var offset := db.nextOffset;
    fetched, inserted, crashed := 0, 0, false;
    var page: nat := 0;
    var done := false;
    while fetched < maxEvents && !done
      invariant offset == begin + fetched <= |stream| && fetched <= maxEvents
      invariant db.nextOffset == begin
      invariant db.Contents() == trace[offset]
      invariant |db.payouts| == |old(db.payouts)| + inserted
      invariant done && fetched < maxEvents ==> offset >= Min(visible(0), |stream|)
      decreases !done, maxEvents - fetched
    {
      var limit := Min(batchSize, maxEvents - fetched);
      var size, handled, created := IngestPage(db, stream, visible(page), limit, offset, begin, trace, crashAt);
      fetched := fetched + handled;
      inserted := inserted + created;
      if handled < size {
        return true, fetched, inserted;
      }
      offset := offset + size;
      if size < limit {
        done := true;
      } else {
        page := page + 1;
      }
    }
  }

  /** One ingestion run. Page `k` sees the first `visible(k)` events of the stream,
      and the run crashes when its offset has come to `crashAt`: before it handles
      that event, at a fetch there, or before it stores that offset. Whatever it
      handled is a stretch of the stream from the stored offset; the offset moves to
      its end only when the run does not crash. */
  method IngestOnce(db: TreasuryDatabase, stream: seq<Event>, visible: nat -> nat,
                    batchSize: nat, maxEvents: nat, crashAt: Option<nat>)
    returns (crashed: bool, fetched: nat, inserted: nat)
    requires batchSize > 0 && maxEvents > 0 && db.nextOffset <= |stream|
    requires forall j: nat, k: nat :: j <= k ==> visible(j) <= visible(k)
    modifies db
    ensures fetched <= maxEvents && old(db.nextOffset) + fetched <= |stream|
    ensures db.Contents() == Ingested(old(db.Contents()), Postings(stream), old(db.nextOffset), old(db.nextOffset) + fetched)
    ensures db.nextOffset == if crashed then old(db.nextOffset) else old(db.nextOffset) + fetched
    ensures |db.payouts| == |old(db.payouts)| + inserted
    ensures crashed <==> crashAt == Some(old(db.nextOffset) + fetched)
    ensures !crashed && fetched < maxEvents ==> db.nextOffset >= Min(visible(0), |stream|)
  {
    ghost var begin := db.nextOffset;
    ghost var trace := MakeTrace(db.Contents(), stream, begin, begin);
    crashed, fetched, inserted := IngestPages(db, stream, visible, batchSize, maxEvents, crashAt, trace);
    TraceIsIngested(trace, stream, begin, begin + fetched);
    if crashed || crashAt == Some(db.nextOffset + fetched) {
      return true, fetched, inserted;
    }
    db.nextOffset := db.nextOffset + fetched;
  }

  // ---- The ledger of a prefix ----

  predicate DistinctKeys(posts: seq<Option<Posting>>) {
    forall i, j :: 0 <= i < j < |posts| && posts[i].Some? && posts[j].Some? ==> posts[i].value.key != posts[j].value.key
  }

  /** Events with distinct identifiers post under distinct keys. */
  lemma EventsPostApart(events: seq<Event>)
    requires DistinctIds(events)
    ensures DistinctKeys(Postings(events))
  {
    forall i, j | 0 <= i < j < |events| && PostingOf(events[i]).Some? && PostingOf(events[j]).Some?
      ensures PostingOf(events[i]).value.key != PostingOf(events[j]).value.key
    {
      if PostingOf(events[i]).value.key == PostingOf(events[j]).value.key {
        KeysTellApart(events[i].id, events[j].id, ComponentOf(events[i]).value, ComponentOf(events[j]).value);
      }
    }
  }

  /** The entry key of one of the first `p` postings. */
  predicate PostedIn(key: Text, posts: seq<Option<Posting>>, p: nat)
    requires p <= |posts|
  {
    exists i :: 0 <= i < p && posts[i].Some? && posts[i].value.key == key
  }

  /** One entry for each of the first `p` postings, and no others. */
  ghost predicate LedgerOf(ledger: map<Text, Entry>, posts: seq<Option<Posting>>, p: nat)
    requires p <= |posts|
  {
    && (forall i :: 0 <= i < p && posts[i].Some? ==>
          posts[i].value.key in ledger && ledger[posts[i].value.key] == posts[i].value.entry)
    && (forall key :: key in ledger ==> PostedIn(key, posts, p))
  }

  predicate HistoriesKept(b: Books) {
    b.payouts.Keys == b.ledger.Keys && forall key :: key in b.payouts ==> IsHistory(b.payouts[key])
  }

  predicate KeepsPayouts(before: Books, after: Books) {
    forall key :: key in before.payouts ==> key in after.payouts && after.payouts[key] == before.payouts[key]
  }

  lemma GrowLedger(ledger: map<Text, Entry>, posts: seq<Option<Posting>>, p: nat)
    requires DistinctKeys(posts) && p < |posts| && posts[p].Some? && LedgerOf(ledger, posts, p)
    ensures LedgerOf(ledger[posts[p].value.key := posts[p].value.entry], posts, p + 1)
  {
    forall k | k in ledger ensures PostedIn(k, posts, p + 1) {
      assert PostedIn(k, posts, p);
    }
    assert PostedIn(posts[p].value.key, posts, p + 1);
  }

  lemma SkipPosting(ledger: map<Text, Entry>, posts: seq<Option<Posting>>, p: nat)
    requires p < |posts| && posts[p].None? && LedgerOf(ledger, posts, p)
    ensures LedgerOf(ledger, posts, p + 1)
  {
    forall k | k in ledger ensures PostedIn(k, posts, p + 1) {
      assert PostedIn(k, posts, p);
    }
  }

  lemma PostOne(b: Books, posts: seq<Option<Posting>>, p: nat)
    requires DistinctKeys(posts) && p < |posts| && LedgerOf(b.ledger, posts, p) && HistoriesKept(b)
    ensures LedgerOf(Posted(b, posts[p]).ledger, posts, p + 1) && HistoriesKept(Posted(b, posts[p]))
    ensures KeepsPayouts(b, Posted(b, posts[p]))
  {
    if posts[p].Some? {
      GrowLedger(b.ledger, posts, p);
    } else {
      SkipPosting(b.ledger, posts, p);
    }
  }

  /** Posting again what the ledger already covers changes nothing. */
  lemma PostAgain(b: Books, posts: seq<Option<Posting>>, p: nat, i: nat)
    requires i < p <= |posts| && LedgerOf(b.ledger, posts, p) && HistoriesKept(b)
    ensures Posted(b, posts[i]) == b
  {
    if posts[i].Some? {
      assert b.ledger[posts[i].value.key := posts[i].value.entry] == b.ledger;
    }
  }

  function Max(a: nat, b: nat): nat {
    if a < b then b else a
  }

  /** One posting, whether new or made before. */
  lemma PostNext(b: Books, posts: seq<Option<Posting>>, p: nat, i: nat)
    requires DistinctKeys(posts) && i <= p <= |posts| && i < |posts| && LedgerOf(b.ledger, posts, p) && HistoriesKept(b)
    ensures LedgerOf(Posted(b, posts[i]).ledger, posts, Max(p, i + 1))
    ensures HistoriesKept(Posted(b, posts[i])) && KeepsPayouts(b, Posted(b, posts[i]))
  {
    if i < p {
      PostAgain(b, posts, p, i);
    } else {
      PostOne(b, posts, i);
    }
  }

  lemma KeepsPayoutsTransitive(a: Books, b: Books, c: Books)
    requires KeepsPayouts(a, b) && KeepsPayouts(b, c)
    ensures KeepsPayouts(a, c)
  {
  }

  /** A run over postings `lo` to `hi` when the first `p` are made makes the first
      `max(p, hi)` and leaves every existing payout history alone. */
  lemma {:induction false} IngestPrefix(b: Books, posts: seq<Option<Posting>>, lo: nat, hi: nat, p: nat)
    requires DistinctKeys(posts) && lo <= hi <= |posts| && lo <= p <= |posts|
    requires LedgerOf(b.ledger, posts, p) && HistoriesKept(b)
    ensures LedgerOf(Ingested(b, posts, lo, hi).ledger, posts, Max(p, hi))
    ensures HistoriesKept(Ingested(b, posts, lo, hi)) && KeepsPayouts(b, Ingested(b, posts, lo, hi))
    decreases hi
  {
    if lo < hi {
      IngestPrefix(b, posts, lo, hi - 1, p);
      var before := Ingested(b, posts, lo, hi - 1);
      PostNext(before, posts, Max(p, hi - 1), hi - 1);
      KeepsPayoutsTransitive(b, before, Posted(before, posts[hi - 1]));
    }
  }

  // ---- Runs ----

  datatype State = State(books: Books, nextOffset: nat)

  /** An ingestion that handled the events up to `reached`, or a payout step. */
  datatype Op = Ingest(reached: nat, crashed: bool) | Payout(key: Text, next: PayoutState)

  predicate Enabled(s: State, stream: seq<Event>, op: Op) {
    match op
    case Ingest(reached, _) => s.nextOffset <= reached <= |stream|
    case Payout(_, _) => forall key :: key in s.books.payouts ==> s.books.payouts[key] != []
  }

  function Next(s: State, stream: seq<Event>, op: Op): State
    requires Enabled(s, stream, op)
  {
    match op
    case Ingest(reached, crashed) =>
      State(Ingested(s.books, Postings(stream), s.nextOffset, reached), if crashed then s.nextOffset else reached)
    case Payout(key, next) => s.(books := s.books.(payouts := Appended(s.books, key, next).0))
  }

  predicate IsRun(states: seq<State>, ops: seq<Op>, stream: seq<Event>) {
    && |states| == |ops| + 1
    && forall i :: 0 <= i < |ops| ==> Enabled(states[i], stream, ops[i]) && states[i + 1] == Next(states[i], stream, ops[i])
  }

  ghost predicate Covers(s: State, stream: seq<Event>, p: nat) {
    && s.nextOffset <= p <= |stream|
    && LedgerOf(s.books.ledger, Postings(stream), p)
    && HistoriesKept(s.books)
  }

  lemma AppendKeepsHistories(b: Books, key: Text, next: PayoutState)
    requires HistoriesKept(b)
    ensures HistoriesKept(b.(payouts := Appended(b, key, next).0))
    ensures forall k :: k in b.payouts ==> b.payouts[k] <= Appended(b, key, next).0[k]
  {
  }

  const FRESH_START: State := State(Books(map[], map[]), 0)

  lemma StepCovers(s: State, stream: seq<Event>, op: Op, p: nat)
    requires DistinctIds(stream) && Covers(s, stream, p) && Enabled(s, stream, op)
    ensures Covers(Next(s, stream, op), stream, if op.Ingest? then Max(p, op.reached) else p)
  {
    EventsPostApart(stream);
    match op {
      case Ingest(reached, _) => IngestPrefix(s.books, Postings(stream), s.nextOffset, reached, p);
      case Payout(key, next) => AppendKeepsHistories(s.books, key, next);
    }
  }

  /** However many ingestion runs there are and wherever they crash, the ledger is
      that of a prefix of the stream at least as long as the stored offset. */
  lemma {:induction false} LedgerCoversPrefix(states: seq<State>, ops: seq<Op>, stream: seq<Event>, k: nat) returns (p: nat)
    requires IsRun(states, ops, stream) && states[0] == FRESH_START && DistinctIds(stream) && k <= |ops|
    ensures Covers(states[k], stream, p)
  {
    p := 0;
    if k > 0 {
      p := LedgerCoversPrefix(states, ops, stream, k - 1);
      StepCovers(states[k - 1], stream, ops[k - 1], p);
      p := if ops[k - 1].Ingest? then Max(p, ops[k - 1].reached) else p;
    }
  }

  lemma StepKeepsPayouts(s: State, stream: seq<Event>, op: Op, p: nat, key: Text)
    requires DistinctIds(stream) && Covers(s, stream, p) && Enabled(s, stream, op) && key in s.books.payouts
    ensures key in Next(s, stream, op).books.payouts
    ensures s.books.payouts[key] <= Next(s, stream, op).books.payouts[key]
    ensures op.Ingest? ==> Next(s, stream, op).books.payouts[key] == s.books.payouts[key]
  {
    EventsPostApart(stream);
    match op {
      case Ingest(reached, _) => IngestPrefix(s.books, Postings(stream), s.nextOffset, reached, p);
      case Payout(paid, next) => AppendKeepsHistories(s.books, paid, next);
    }
  }

  /** No ingestion, replayed or not, changes a payout history; histories only grow. */
  lemma {:induction false} PayoutsOnlyGrow(states: seq<State>, ops: seq<Op>, stream: seq<Event>, j: nat, k: nat, key: Text)
    requires IsRun(states, ops, stream) && states[0] == FRESH_START && DistinctIds(stream) && j <= k <= |ops|
    requires key in states[j].books.payouts
    ensures key in states[k].books.payouts
    ensures states[j].books.payouts[key] <= states[k].books.payouts[key]
    ensures (forall i :: j <= i < k ==> ops[i].Ingest?) ==> states[k].books.payouts[key] == states[j].books.payouts[key]
    decreases k
  {
    if j < k {
      PayoutsOnlyGrow(states, ops, stream, j, k - 1, key);
      var p := LedgerCoversPrefix(states, ops, stream, k - 1);
      StepKeepsPayouts(states[k - 1], stream, ops[k - 1], p, key);
    }
  }

  // ---- Conservation ----

  /** The amounts owed under a component over the first `p` events. */
  function EventTotal(events: seq<Event>, p: nat, c: Component): nat
    requires p <= |events|
  {
    if p == 0 then 0
    else EventTotal(events, p - 1, c) + if Owed(events[p - 1], c).Some? then Owed(events[p - 1], c).value else 0
  }

  /** How many of the first `p` events owe something. */
  function EligibleCount(events: seq<Event>, p: nat): nat
    requires p <= |events|
  {
    if p == 0 then 0
    else EligibleCount(events, p - 1)
         + if Owed(events[p - 1], Logistics).Some? || Owed(events[p - 1], PlatformFee).Some? then 1 else 0
  }

  function PostingTotal(posts: seq<Option<Posting>>, p: nat, c: Component): nat
    requires p <= |posts|
  {
    if p == 0 then 0
    else PostingTotal(posts, p - 1, c) + if posts[p - 1].Some? then Share(posts[p - 1].value.entry, c) else 0
  }

  function PostingCount(posts: seq<Option<Posting>>, p: nat): nat
    requires p <= |posts|
  {
    if p == 0 then 0 else PostingCount(posts, p - 1) + if posts[p - 1].Some? then 1 else 0
  }

  lemma {:induction false} PostingsTotalEvents(events: seq<Event>, p: nat, c: Component)
    requires p <= |events|
    ensures PostingTotal(Postings(events), p, c) == EventTotal(events, p, c)
    ensures PostingCount(Postings(events), p) == EligibleCount(events, p)
  {
    if p > 0 {
      PostingsTotalEvents(events, p - 1, c);
      PostingOwes(events[p - 1]);
    }
  }

  function Share(entry: Entry, c: Component): nat {
    if entry.component == c then entry.amount else 0
  }

  ghost function LedgerTotal(ledger: map<Text, Entry>, c: Component): nat
    decreases |ledger|
  {
    if ledger == map[] then 0
    else
      var key :| key in ledger;
      assert |(ledger - {key}).Keys| < |ledger.Keys|;
      Share(ledger[key], c) + LedgerTotal(ledger - {key}, c)
  }

  lemma {:induction false} TotalWithout(ledger: map<Text, Entry>, c: Component, key: Text)
    requires key in ledger
    ensures LedgerTotal(ledger, c) == Share(ledger[key], c) + LedgerTotal(ledger - {key}, c)
    decreases |ledger|
  {
    var first :| first in ledger && LedgerTotal(ledger, c) == Share(ledger[first], c) + LedgerTotal(ledger - {first}, c);
    if first != key {
      assert ledger - {first} - {key} == ledger - {key} - {first};
      assert |(ledger - {first}).Keys| < |ledger.Keys| && |(ledger - {key}).Keys| < |ledger.Keys|;
      TotalWithout(ledger - {first}, c, key);
      TotalWithout(ledger - {key}, c, first);
    }
  }

  lemma ShrinkLedger(ledger: map<Text, Entry>, posts: seq<Option<Posting>>, p: nat)
    requires DistinctKeys(posts) && p < |posts| && posts[p].Some? && LedgerOf(ledger, posts, p + 1)
    ensures posts[p].value.key in ledger && ledger[posts[p].value.key] == posts[p].value.entry
    ensures LedgerOf(ledger - {posts[p].value.key}, posts, p)
  {
    forall k | k in ledger && k != posts[p].value.key ensures PostedIn(k, posts, p) {
      assert PostedIn(k, posts, p + 1);
    }
  }

  lemma UnskipPosting(ledger: map<Text, Entry>, posts: seq<Option<Posting>>, p: nat)
    requires p < |posts| && posts[p].None? && LedgerOf(ledger, posts, p + 1)
    ensures LedgerOf(ledger, posts, p)
  {
    forall k | k in ledger ensures PostedIn(k, posts, p) {
      assert PostedIn(k, posts, p + 1);
    }
  }

  lemma SizeWithout(ledger: map<Text, Entry>, key: Text)
    requires key in ledger
    ensures |ledger| == |ledger - {key}| + 1
  {
    assert (ledger - {key}).Keys == ledger.Keys - {key};
    assert |ledger.Keys| == |ledger| && |(ledger - {key}).Keys| == |ledger - {key}|;
  }

  lemma NothingPosted(ledger: map<Text, Entry>, posts: seq<Option<Posting>>)
    requires LedgerOf(ledger, posts, 0)
    ensures ledger == map[]
  {
    assert forall key :: key in ledger ==> PostedIn(key, posts, 0);
  }

  lemma RemovePosting(ledger: map<Text, Entry>, posts: seq<Option<Posting>>, p: nat, c: Component) returns (rest: map<Text, Entry>)
    requires DistinctKeys(posts) && p < |posts| && LedgerOf(ledger, posts, p + 1)
    ensures LedgerOf(rest, posts, p)
    ensures LedgerTotal(ledger, c) == LedgerTotal(rest, c) + if posts[p].Some? then Share(posts[p].value.entry, c) else 0
    ensures |ledger| == |rest| + if posts[p].Some? then 1 else 0
  {
    if posts[p].Some? {
      var key := posts[p].value.key;
      ShrinkLedger(ledger, posts, p);
      TotalWithout(ledger, c, key);
      SizeWithout(ledger, key);
      rest := ledger - {key};
    } else {
      UnskipPosting(ledger, posts, p);
      rest := ledger;
    }
  }

  /** The ledger's entries and per-component totals are those of its postings. */
  lemma {:induction false} TotalsAreConserved(ledger: map<Text, Entry>, posts: seq<Option<Posting>>, p: nat, c: Component)
    requires DistinctKeys(posts) && p <= |posts| && LedgerOf(ledger, posts, p)
    ensures LedgerTotal(ledger, c) == PostingTotal(posts, p, c)
    ensures |ledger| == PostingCount(posts, p)
    decreases p
  {
    if p == 0 {
      NothingPosted(ledger, posts);
    } else {
      var rest := RemovePosting(ledger, posts, p - 1, c);
      TotalsAreConserved(rest, posts, p - 1, c);
    }
  }

  lemma PrefixIsBooked(ledger: map<Text, Entry>, events: seq<Event>, p: nat)
    requires p <= |events| && LedgerOf(ledger, Postings(events), p)
    ensures forall i, c: Component :: 0 <= i < p && Owed(events[i], c).Some? ==> IsBooked(ledger, events[i], c)
    ensures forall key :: key in ledger ==>
              exists i, c: Component :: 0 <= i < p && Owed(events[i], c).Some? && key == KeyFor(events[i], c)
  {
    forall i, c: Component | 0 <= i < p && Owed(events[i], c).Some? ensures IsBooked(ledger, events[i], c) {
      PostingOwes(events[i]);
      assert Postings(events)[i] == PostingOf(events[i]);
    }
    forall key | key in ledger
      ensures exists i, c: Component :: 0 <= i < p && Owed(events[i], c).Some? && key == KeyFor(events[i], c)
    {
      assert PostedIn(key, Postings(events), p);
      var i :| 0 <= i < p && Postings(events)[i].Some? && Postings(events)[i].value.key == key;
      PostingOwes(events[i]);
      assert Owed(events[i], Logistics).Some? || Owed(events[i], PlatformFee).Some?;
    }
  }

  /** In every reachable state the ledger is, entry by entry, that of some prefix at least
      as long as the stored offset: an event of it that owes an amount is booked with its
      own trade, transaction, block, component and amount, and nothing else is. */
  lemma LedgerIsOfItsEvents(states: seq<State>, ops: seq<Op>, stream: seq<Event>, k: nat) returns (p: nat)
    requires IsRun(states, ops, stream) && states[0] == FRESH_START && DistinctIds(stream) && k <= |ops|
    ensures states[k].nextOffset <= p <= |stream|
    ensures forall i, c: Component :: 0 <= i < p && Owed(stream[i], c).Some? ==> IsBooked(states[k].books.ledger, stream[i], c)
    ensures forall key :: key in states[k].books.ledger ==>
              exists i, c: Component :: 0 <= i < p && Owed(stream[i], c).Some? && key == KeyFor(stream[i], c)
  {
    p := LedgerCoversPrefix(states, ops, stream, k);
    PrefixIsBooked(states[k].books.ledger, stream, p);
  }

  /** In every reachable state the ledger holds one entry for each event that owes an
      amount, in some prefix at least as long as the stored offset, and the amounts
      booked under each component add up to what those events owe under it. */
  lemma BooksBalance(states: seq<State>, ops: seq<Op>, stream: seq<Event>, k: nat, c: Component) returns (p: nat)
    requires IsRun(states, ops, stream) && states[0] == FRESH_START && DistinctIds(stream) && k <= |ops|
    ensures states[k].nextOffset <= p <= |stream|
    ensures |states[k].books.ledger| == EligibleCount(stream, p)
    ensures LedgerTotal(states[k].books.ledger, c) == EventTotal(stream, p, c)
  {
    p := LedgerCoversPrefix(states, ops, stream, k);
    EventsPostApart(stream);
    TotalsAreConserved(states[k].books.ledger, Postings(stream), p, c);
    PostingsTotalEvents(stream, p, c);
  }
}

/** The indexer: escrow events folded into trades, proposals and event logs. The
    source handles a batch against caches and writes the database at the end. */
module Indexer {
  import opened Texts

  datatype TradeStatus = Locked | InTransit | ArrivalConfirmedStatus | Frozen | Closed

  datatype Terms = Terms(
    buyer: Text, supplier: Text, totalAmount: nat, logisticsAmount: nat, platformFeesAmount: nat,
    supplierFirstTranche: nat, supplierSecondTranche: nat, ricardianHash: Text)

  datatype Trade = Trade(terms: Terms, status: TradeStatus, createdAt: int, arrivalTimestamp: Option<int>)

  datatype ProposalKind = Dispute | OracleUpdate | AdminAdd

  /** `tradeId` is set for disputes, `subject` names the proposed oracle or admin. */
  datatype Proposal = Proposal(
    tradeId: Option<Text>, subject: Option<Text>, proposer: Text, approvalCount: nat,
    executed: bool, cancelled: bool, createdAt: int, expiresAt: int)

  /** Events that close or move a trade and carry no other change. */
  datatype Move =
    | FundsReleasedStage1 | FinalTrancheReleased | DisputeOpenedByBuyer
    | TradeCancelledAfterLockTimeout | InTransitTimeoutRefunded

  /** A decoded event. `Noted` events only go to a log; `Skipped` is an event of
      another contract, an undecodable one or one without a handler. */
  datatype Event =
    | TradeLocked(tradeId: Text, terms: Terms)
    | TradeMoved(tradeId: Text, move: Move)
    | ArrivalConfirmed(tradeId: Text, arrivalSeconds: int)
    | TradeNoted(tradeId: Text, name: Text)
    | DisputeProposed(proposalId: Text, tradeId: Text, proposer: Text)
    | ProposalOpened(kind: ProposalKind, proposalId: Text, subject: Text, proposer: Text)
    | ProposalApproved(kind: ProposalKind, proposalId: Text, approvalCount: nat)
    | DisputeFinalized(proposalId: Text)
    | ProposalCancelled(kind: ProposalKind, proposalId: Text)
    | OracleNoted(name: Text)
    | AdminNoted(name: Text)
    | SystemNoted(name: Text)
    | Skipped

  datatype Emitted = Emitted(eventId: Text, txHash: Option<Text>, event: Event)

  datatype Block = Block(height: nat, timestamp: int, events: seq<Emitted>)

  /** One event with its block's header. */
  datatype Stamped = Stamped(height: nat, timestamp: int, emitted: Emitted)

  datatype Logs = Logs(
    trade: seq<Stamped>, dispute: seq<Stamped>, oracle: seq<Stamped>, admin: seq<Stamped>, system: seq<Stamped>)

  type ProposalKey = (ProposalKind, Text)

  datatype Store = Store(trades: map<Text, Trade>, proposals: map<ProposalKey, Proposal>, logs: Logs)

  const PROPOSAL_TTL: int := 7 * 24 * 60 * 60 * 1000
  const NO_LOGS: Logs := Logs([], [], [], [], [])
  const EMPTY: Store := Store(map[], map[], NO_LOGS)

  function StatusAfter(move: Move): TradeStatus {
    match move
    case FundsReleasedStage1 => InTransit
    case DisputeOpenedByBuyer => Frozen
    case FinalTrancheReleased | TradeCancelledAfterLockTimeout | InTransitTimeoutRefunded => Closed
  }

  function LogTrade(logs: Logs, e: Stamped): Logs {
    logs.(trade := logs.trade + [e])
  }

  function LogProposal(logs: Logs, kind: ProposalKind, e: Stamped): Logs {
    match kind
    case Dispute => logs.(dispute := logs.dispute + [e])
    case OracleUpdate => logs.(oracle := logs.oracle + [e])
    case AdminAdd => logs.(admin := logs.admin + [e])
  }

  /** The handlers applied to one event, straight on the store. */
  function Apply(s: Store, e: Stamped): Store {
    match e.emitted.event
    case TradeLocked(tradeId, terms) =>
      s.(trades := s.trades[tradeId := Trade(terms, Locked, e.timestamp, None)], logs := LogTrade(s.logs, e))
    case TradeMoved(tradeId, move) =>
      if tradeId !in s.trades then s
      else s.(trades := s.trades[tradeId := s.trades[tradeId].(status := StatusAfter(move))], logs := LogTrade(s.logs, e))
    case ArrivalConfirmed(tradeId, seconds) =>
      if tradeId !in s.trades then s
      else s.(trades := s.trades[tradeId := s.trades[tradeId].(status := ArrivalConfirmedStatus,
                                                               arrivalTimestamp := Some(seconds * 1000))],
              logs := LogTrade(s.logs, e))
    case TradeNoted(tradeId, _) => if tradeId !in s.trades then s else s.(logs := LogTrade(s.logs, e))
    case DisputeProposed(proposalId, tradeId, proposer) =>
      if tradeId !in s.trades then s
      else WithProposal(s, (Dispute, proposalId),
                        Proposal(Some(tradeId), None, proposer, 1, false, false, e.timestamp, e.timestamp + PROPOSAL_TTL), e)
    case ProposalOpened(kind, proposalId, subject, proposer) =>
      WithProposal(s, (kind, proposalId),
                   Proposal(None, Some(subject), proposer, 1, false, false, e.timestamp, e.timestamp + PROPOSAL_TTL), e)
    case ProposalApproved(kind, proposalId, count) =>
      if (kind, proposalId) !in s.proposals then s
      else WithProposal(s, (kind, proposalId), s.proposals[(kind, proposalId)].(approvalCount := count), e)
    case DisputeFinalized(proposalId) =>
      if (Dispute, proposalId) !in s.proposals then s
      else WithProposal(s, (Dispute, proposalId), s.proposals[(Dispute, proposalId)].(executed := true), e)
    case ProposalCancelled(kind, proposalId) =>
      if (kind, proposalId) !in s.proposals then s
      else WithProposal(s, (kind, proposalId), s.proposals[(kind, proposalId)].(cancelled := true), e)
    case OracleNoted(_) => s.(logs := s.logs.(oracle := s.logs.oracle + [e]))
    case AdminNoted(_) => s.(logs := s.logs.(admin := s.logs.admin + [e]))
    case SystemNoted(_) => s.(logs := s.logs.(system := s.logs.system + [e]))
    case Skipped => s
  }

  function WithProposal(s: Store, key: ProposalKey, p: Proposal, e: Stamped): Store {
    s.(proposals := s.proposals[key := p], logs := LogProposal(s.logs, key.0, e))
  }

  /** One event at a time. */
  function Fold(s: Store, es: seq<Stamped>): Store
    decreases |es|
  {
    if es == [] then s else Fold(Apply(s, es[0]), es[1..])
  }

  function EventsOf(b: Block): seq<Stamped> {
    seq(|b.events|, i requires 0 <= i < |b.events| => Stamped(b.height, b.timestamp, b.events[i]))
  }

  function Stream(blocks: seq<Block>): seq<Stamped> {
    if blocks == [] then [] else EventsOf(blocks[0]) + Stream(blocks[1..])
  }

  lemma {:induction false} FoldConcat(s: Store, a: seq<Stamped>, b: seq<Stamped>)
    ensures Fold(s, a + b) == Fold(Fold(s, a), b)
    decreases |a|
  {
    if a == [] {
      assert a + b == b;
    } else {
      assert (a + b)[1..] == a[1..] + b;
      FoldConcat(Apply(s, a[0]), a[1..], b);
    }
  }

  function Joined(a: Logs, b: Logs): Logs {
    Logs(a.trade + b.trade, a.dispute + b.dispute, a.oracle + b.oracle, a.admin + b.admin, a.system + b.system)
  }

  class Database {
    var trades: map<Text, Trade>
    var proposals: map<ProposalKey, Proposal>
    var logs: Logs

    ghost function Contents(): Store reads this { Store(trades, proposals, logs) }

    constructor ()
      ensures Contents() == EMPTY
    {
      trades, proposals, logs := map[], map[], NO_LOGS;
    }
  }

  /** The caches of one batch. */
  class Batch {
    const db: Database
    var trades: map<Text, Trade>
    var proposals: map<ProposalKey, Proposal>
    var logs: Logs

    /** What the database would hold if the batch ended now. */
    ghost function View(): Store reads this, db {
      Store(db.trades + trades, db.proposals + proposals, Joined(db.logs, logs))
    }

    constructor (db: Database)
      ensures this.db == db && View() == db.Contents()
    {
      this.db := db;
      trades, proposals, logs := map[], map[], NO_LOGS;
      new;
      assert db.trades + map[] == db.trades && db.proposals + map[] == db.proposals;
    }

    method GetOrLoadTrade(tradeId: Text) returns (trade: Option<Trade>)
      modifies this
      ensures View() == old(View())
      ensures trade == if tradeId in old(View()).trades then Some(old(View()).trades[tradeId]) else None
      ensures trade.Some? ==> tradeId in trades && trades[tradeId] == trade.value
    {
      if tradeId in trades {
        return Some(trades[tradeId]);
      }
      if tradeId in db.trades {
        ghost var before := View().trades;
        trades := trades[tradeId := db.trades[tradeId]];
        assert View().trades == before;
        return Some(trades[tradeId]);
      }
      return None;
    }

    method GetOrLoadProposal(key: ProposalKey) returns (proposal: Option<Proposal>)
      modifies this
      ensures View() == old(View())
      ensures proposal == if key in old(View()).proposals then Some(old(View()).proposals[key]) else None
      ensures proposal.Some? ==> key in proposals && proposals[key] == proposal.value
    {
      if key in proposals {
        return Some(proposals[key]);
      }
      if key in db.proposals {
        ghost var before := View().proposals;
        proposals := proposals[key := db.proposals[key]];
        assert View().proposals == before;
        return Some(proposals[key]);
      }
      return None;
    }

    method SetTrade(tradeId: Text, trade: Trade)
      modifies this
      ensures View() == old(View()).(trades := old(View()).trades[tradeId := trade])
    {
      ghost var before := View().trades;
      trades := trades[tradeId := trade];
      assert View().trades == before[tradeId := trade];
    }

    method SetProposal(key: ProposalKey, proposal: Proposal, e: Stamped)
      modifies this
      ensures View() == WithProposal(old(View()), key, proposal, e)
    {
      ghost var before := View();
      proposals := proposals[key := proposal];
      logs := LogProposal(logs, key.0, e);
      assert View().proposals == before.proposals[key := proposal];
      JoinPush(db.logs, old(logs), logs, e);
    }

    method PushTradeEvent(e: Stamped)
      modifies this
      ensures View() == old(View()).(logs := LogTrade(old(View()).logs, e))
    {
      logs := LogTrade(logs, e);
      JoinPush(db.logs, old(logs), logs, e);
    }

    method HandleTradeEvent(e: Stamped)
      requires var event := e.emitted.event;
               event.TradeLocked? || event.TradeMoved? || event.ArrivalConfirmed? || event.TradeNoted?
      modifies this
      ensures View() == Apply(old(View()), e)
    {
      var event := e.emitted.event;
      if event.TradeLocked? {
        SetTrade(event.tradeId, Trade(event.terms, Locked, e.timestamp, None));
        PushTradeEvent(e);
        return;
      }
      var trade := GetOrLoadTrade(event.tradeId);
      if trade.None? {
        return;
      }
      if event.TradeMoved? {
        SetTrade(event.tradeId, trade.value.(status := StatusAfter(event.move)));
      } else if event.ArrivalConfirmed? {
        SetTrade(event.tradeId, trade.value.(status := ArrivalConfirmedStatus,
                                             arrivalTimestamp := Some(event.arrivalSeconds * 1000)));
      }
      PushTradeEvent(e);
    }

    method HandleProposalEvent(e: Stamped)
      requires var event := e.emitted.event;
               event.DisputeProposed? || event.ProposalOpened? || event.ProposalApproved?
               || event.DisputeFinalized? || event.ProposalCancelled?
      modifies this
      ensures View() == Apply(old(View()), e)
    {
      match e.emitted.event {
        case DisputeProposed(proposalId, tradeId, proposer) =>
          var trade := GetOrLoadTrade(tradeId);
          if trade.Some? {
            SetProposal((Dispute, proposalId),
                        Proposal(Some(tradeId), None, proposer, 1, false, false, e.timestamp, e.timestamp + PROPOSAL_TTL), e);
          }
        case ProposalOpened(kind, proposalId, subject, proposer) =>
          SetProposal((kind, proposalId),
                      Proposal(None, Some(subject), proposer, 1, false, false, e.timestamp, e.timestamp + PROPOSAL_TTL), e);
        case ProposalApproved(kind, proposalId, count) =>
          var proposal := GetOrLoadProposal((kind, proposalId));
          if proposal.Some? {
            SetProposal((kind, proposalId), proposal.value.(approvalCount := count), e);
          }
        case DisputeFinalized(proposalId) =>
          var proposal := GetOrLoadProposal((Dispute, proposalId));
          if proposal.Some? {
            SetProposal((Dispute, proposalId), proposal.value.(executed := true), e);
          }
        case ProposalCancelled(kind, proposalId) =>
          var proposal := GetOrLoadProposal((kind, proposalId));
          if proposal.Some? {
            SetProposal((kind, proposalId), proposal.value.(cancelled := true), e);
          }
      }
    }

    method Handle(e: Stamped)
      modifies this
      ensures View() == Apply(old(View()), e)
    {
      match e.emitted.event {
        case TradeLocked(_, _) => HandleTradeEvent(e);
        case TradeMoved(_, _) => HandleTradeEvent(e);
        case ArrivalConfirmed(_, _) => HandleTradeEvent(e);
        case TradeNoted(_, _) => HandleTradeEvent(e);
        case OracleNoted(_) =>
          logs := logs.(oracle := logs.oracle + [e]);
          JoinPush(db.logs, old(logs), logs, e);
        case AdminNoted(_) =>
          logs := logs.(admin := logs.admin + [e]);
          JoinPush(db.logs, old(logs), logs, e);
        case SystemNoted(_) =>
          logs := logs.(system := logs.system + [e]);
          JoinPush(db.logs, old(logs), logs, e);
        case Skipped =>
        case _ => HandleProposalEvent(e);
      }
    }
  }

  /** Pushing onto the buffered log pushes onto the joined one. */
  lemma JoinPush(a: Logs, b: Logs, c: Logs, e: Stamped)
    ensures c.trade == b.trade + [e] ==> Joined(a, c).trade == Joined(a, b).trade + [e]
    ensures c.dispute == b.dispute + [e] ==> Joined(a, c).dispute == Joined(a, b).dispute + [e]
    ensures c.oracle == b.oracle + [e] ==> Joined(a, c).oracle == Joined(a, b).oracle + [e]
    ensures c.admin == b.admin + [e] ==> Joined(a, c).admin == Joined(a, b).admin + [e]
    ensures c.system == b.system + [e] ==> Joined(a, c).system == Joined(a, b).system + [e]
  {
  }

  lemma FoldEvent(s: Store, es: seq<Stamped>, j: nat)
    requires j < |es|
    ensures Fold(s, es[j..]) == Fold(Apply(s, es[j]), es[j + 1..])
  {
    assert es[j..][0] == es[j] && es[j..][1..] == es[j + 1..];
  }

  lemma FoldBlock(s: Store, blocks: seq<Block>, i: nat)
    requires i < |blocks|
    ensures Fold(s, Stream(blocks[i..])) == Fold(Fold(s, EventsOf(blocks[i])), Stream(blocks[i + 1..]))
  {
    assert blocks[i..][0] == blocks[i] && blocks[i..][1..] == blocks[i + 1..];
    FoldConcat(s, EventsOf(blocks[i]), Stream(blocks[i + 1..]));
  }

  /** The inner loop: the events of one block, on the caches. */
  method IndexBlock(batch: Batch, es: seq<Stamped>)
    modifies batch
    ensures batch.View() == Fold(old(batch.View()), es)
  {
    var j := 0;
    assert es[0..] == es;
    while j < |es|
      invariant 0 <= j <= |es|
      invariant Fold(batch.View(), es[j..]) == Fold(old(batch.View()), es)
    {
      FoldEvent(batch.View(), es, j);
      batch.Handle(es[j]);
      j := j + 1;
    }
  }

  /** One batch: nested loops over blocks and events on the caches, then the
      upserts and inserts. The database ends as if each event had been applied
      to it by itself. */
  method IndexBatch(db: Database, blocks: seq<Block>)
    modifies db
    ensures db.Contents() == Fold(old(db.Contents()), Stream(blocks))
  {
    var batch := new Batch(db);
    var i := 0;
    assert Stream(blocks[0..]) == Stream(blocks) by { assert blocks[0..] == blocks; }
    while i < |blocks|
      invariant 0 <= i <= |blocks|
      invariant Fold(batch.View(), Stream(blocks[i..])) == Fold(old(db.Contents()), Stream(blocks))
      invariant fresh(batch) && batch.db == db && db.Contents() == old(db.Contents())
    {
      var es := EventsOf(blocks[i]);
      FoldBlock(batch.View(), blocks, i);
      IndexBlock(batch, es);
      i := i + 1;
    }
    db.trades := db.trades + batch.trades;
    db.proposals := db.proposals + batch.proposals;
    db.logs := Joined(db.logs, batch.logs);
  }

  function Flatten(batches: seq<seq<Block>>): seq<Block> {
    if batches == [] then [] else batches[0] + Flatten(batches[1..])
  }

  lemma {:induction false} StreamConcat(a: seq<Block>, b: seq<Block>)
    ensures Stream(a + b) == Stream(a) + Stream(b)
  {
    if a == [] {
      assert a + b == b;
    } else {
      assert (a + b)[1..] == a[1..] + b;
      StreamConcat(a[1..], b);
    }
  }

  /** What successive batches make of the store. */
  function Indexed(s: Store, batches: seq<seq<Block>>): Store
    decreases |batches|
  {
    if batches == [] then s else Indexed(Fold(s, Stream(batches[0])), batches[1..])
  }

  /** Batches index the flattened stream: how it is split makes no difference. */
  lemma {:induction false} IndexedIsFold(s: Store, batches: seq<seq<Block>>)
    ensures Indexed(s, batches) == Fold(s, Stream(Flatten(batches)))
    decreases |batches|
  {
    if batches != [] {
      StreamConcat(batches[0], Flatten(batches[1..]));
      FoldConcat(s, Stream(batches[0]), Stream(Flatten(batches[1..])));
      IndexedIsFold(Fold(s, Stream(batches[0])), batches[1..]);
    }
  }

  /** The processor's run over successive batches leaves what its specification says,
      which is the fold of all their events. */
  method Run(db: Database, batches: seq<seq<Block>>)
    modifies db
    ensures db.Contents() == Indexed(old(db.Contents()), batches)
    ensures db.Contents() == Fold(old(db.Contents()), Stream(Flatten(batches)))
  {
    var i := 0;
    assert batches[0..] == batches;
    while i < |batches|
      invariant 0 <= i <= |batches|
      invariant Indexed(db.Contents(), batches[i..]) == Indexed(old(db.Contents()), batches)
    {
      assert batches[i..][0] == batches[i] && batches[i..][1..] == batches[i + 1..];
      IndexBatch(db, batches[i]);
      i := i + 1;
    }
    IndexedIsFold(old(db.Contents()), batches);
  }

  /** Two splits of one chain of blocks index to the same store. */
  lemma SplitMakesNoDifference(s: Store, first: seq<seq<Block>>, second: seq<seq<Block>>)
    requires Flatten(first) == Flatten(second)
    ensures Indexed(s, first) == Indexed(s, second)
  {
    IndexedIsFold(s, first);
    IndexedIsFold(s, second);
  }

  // ---- What the fold says about a trade ----

  predicate Locks(e: Stamped, tradeId: Text) {
    e.emitted.event.TradeLocked? && e.emitted.event.tradeId == tradeId
  }

  /** The status an event gives a trade it knows. */
  function StatusSetBy(e: Stamped, tradeId: Text): Option<TradeStatus> {
    match e.emitted.event
    case TradeLocked(id, _) => if id == tradeId then Some(Locked) else None
    case TradeMoved(id, FundsReleasedStage1) => if id == tradeId then Some(InTransit) else None
    case TradeMoved(id, DisputeOpenedByBuyer) => if id == tradeId then Some(Frozen) else None
    case TradeMoved(id, _) => if id == tradeId then Some(Closed) else None
    case ArrivalConfirmed(id, _) => if id == tradeId then Some(ArrivalConfirmedStatus) else None
    case _ => None
  }

  /** The arrival time an event gives a trade it knows. */
  function ArrivalSetBy(e: Stamped, tradeId: Text): Option<Option<int>> {
    match e.emitted.event
    case TradeLocked(id, _) => if id == tradeId then Some(None) else None
    case ArrivalConfirmed(id, seconds) => if id == tradeId then Some(Some(seconds * 1000)) else None
    case _ => None
  }

  /** `es[i]` is the last event that sets the trade's status, its arrival, or that locks it. */
  predicate IsLastStatus(es: seq<Stamped>, tradeId: Text, i: nat) {
    && i < |es| && StatusSetBy(es[i], tradeId).Some?
    && forall j :: i < j < |es| ==> StatusSetBy(es[j], tradeId).None?
  }

  predicate IsLastArrival(es: seq<Stamped>, tradeId: Text, i: nat) {
    && i < |es| && ArrivalSetBy(es[i], tradeId).Some?
    && forall j :: i < j < |es| ==> ArrivalSetBy(es[j], tradeId).None?
  }

  predicate IsLastLock(es: seq<Stamped>, tradeId: Text, i: nat) {
    && i < |es| && Locks(es[i], tradeId)
    && forall j :: i < j < |es| ==> !Locks(es[j], tradeId)
  }

  lemma {:induction false} FoldPush(s: Store, front: seq<Stamped>, e: Stamped)
    ensures Fold(s, front + [e]) == Apply(Fold(s, front), e)
    decreases |front|
  {
    var es := front + [e];
    if front == [] {
      assert es[0] == e && es[1..] == [];
    } else {
      assert es[0] == front[0] && es[1..] == front[1..] + [e];
      FoldPush(Apply(s, front[0]), front[1..], e);
    }
  }

  lemma FoldLast(es: seq<Stamped>)
    requires es != []
    ensures Fold(EMPTY, es) == Apply(Fold(EMPTY, es[..|es| - 1]), es[|es| - 1])
  {
    FoldPush(EMPTY, es[..|es| - 1], es[|es| - 1]);
    assert es == es[..|es| - 1] + [es[|es| - 1]];
  }

  /** A trade is known exactly when it was locked. */
  lemma {:induction false} KnownIffLocked(es: seq<Stamped>, tradeId: Text)
    ensures tradeId in Fold(EMPTY, es).trades <==> exists i :: 0 <= i < |es| && Locks(es[i], tradeId)
    decreases |es|
  {
    if es != [] {
      FoldLast(es);
      var front := es[..|es| - 1];
      KnownIffLocked(front, tradeId);
      assert forall i :: 0 <= i < |front| ==> front[i] == es[i];
    }
  }

  lemma {:induction false} StatusFromLast(es: seq<Stamped>, tradeId: Text, i: nat)
    requires tradeId in Fold(EMPTY, es).trades && IsLastStatus(es, tradeId, i)
    ensures Fold(EMPTY, es).trades[tradeId].status == StatusSetBy(es[i], tradeId).value
    decreases |es|
  {
    FoldLast(es);
    if i < |es| - 1 {
      StatusFromLast(es[..|es| - 1], tradeId, i);
    }
  }

  lemma {:induction false} ArrivalFromLast(es: seq<Stamped>, tradeId: Text, i: nat)
    requires tradeId in Fold(EMPTY, es).trades && IsLastArrival(es, tradeId, i)
    ensures Fold(EMPTY, es).trades[tradeId].arrivalTimestamp == ArrivalSetBy(es[i], tradeId).value
    decreases |es|
  {
    FoldLast(es);
    if i < |es| - 1 {
      ArrivalFromLast(es[..|es| - 1], tradeId, i);
    }
  }

  lemma {:induction false} TermsFromLast(es: seq<Stamped>, tradeId: Text, i: nat)
    requires tradeId in Fold(EMPTY, es).trades && IsLastLock(es, tradeId, i)
    ensures Fold(EMPTY, es).trades[tradeId].terms == es[i].emitted.event.terms
    ensures Fold(EMPTY, es).trades[tradeId].createdAt == es[i].timestamp
    decreases |es|
  {
    FoldLast(es);
    if i < |es| - 1 {
      TermsFromLast(es[..|es| - 1], tradeId, i);
    }
  }

  /** The whole record in closed form: terms and creation time from the last event
      that locked the trade, status from the last event that sets it, arrival from the
      last lock or arrival. */
  lemma TradeIsWhatItsEventsSay(es: seq<Stamped>, tradeId: Text, locked: nat, moved: nat, arrived: nat)
    requires IsLastLock(es, tradeId, locked) && IsLastStatus(es, tradeId, moved) && IsLastArrival(es, tradeId, arrived)
    ensures tradeId in Fold(EMPTY, es).trades
    ensures Fold(EMPTY, es).trades[tradeId]
            == Trade(es[locked].emitted.event.terms, StatusSetBy(es[moved], tradeId).value,
                     es[locked].timestamp, ArrivalSetBy(es[arrived], tradeId).value)
  {
    KnownIffLocked(es, tradeId);
    StatusFromLast(es, tradeId, moved);
    ArrivalFromLast(es, tradeId, arrived);
    TermsFromLast(es, tradeId, locked);
  }

  lemma {:induction false} LastEventsExist(es: seq<Stamped>, tradeId: Text, k: nat) returns (locked: nat, moved: nat, arrived: nat)
    requires k < |es| && Locks(es[k], tradeId)
    ensures IsLastLock(es, tradeId, locked) && IsLastStatus(es, tradeId, moved) && IsLastArrival(es, tradeId, arrived)
    decreases |es|
  {
    var front, last := es[..|es| - 1], es[|es| - 1];
    locked, moved, arrived := |front|, |front|, |front|;
    if !Locks(last, tradeId) {
      var l, m, a := LastEventsExist(front, tradeId, k);
      locked := l;
      moved := if StatusSetBy(last, tradeId).Some? then |front| else m;
      arrived := if ArrivalSetBy(last, tradeId).Some? then |front| else a;
    }
  }

  /** Every known trade has such events, so the closed form covers it. */
  lemma KnownTradeHasLastEvents(es: seq<Stamped>, tradeId: Text) returns (locked: nat, moved: nat, arrived: nat)
    requires tradeId in Fold(EMPTY, es).trades
    ensures IsLastLock(es, tradeId, locked) && IsLastStatus(es, tradeId, moved) && IsLastArrival(es, tradeId, arrived)
  {
    KnownIffLocked(es, tradeId);
    var k: nat :| k < |es| && Locks(es[k], tradeId);
    locked, moved, arrived := LastEventsExist(es, tradeId, k);
  }

  /** The trade an event is logged under, for events that go to the trade log. */
  function LoggedTrade(e: Stamped): Option<Text> {
    match e.emitted.event
    case TradeLocked(id, _) => Some(id)
    case TradeMoved(id, _) => Some(id)
    case ArrivalConfirmed(id, _) => Some(id)
    case TradeNoted(id, _) => Some(id)
    case _ => None
  }

  predicate LockedBy(es: seq<Stamped>, tradeId: Text) {
    exists i :: 0 <= i < |es| && Locks(es[i], tradeId)
  }

  /** The trade events of a stream whose trade has been locked by then, in order. */
  function KnownTradeEvents(es: seq<Stamped>): seq<Stamped> {
    if es == [] then []
    else
      var e := es[|es| - 1];
      KnownTradeEvents(es[..|es| - 1])
      + if LoggedTrade(e).Some? && LockedBy(es, LoggedTrade(e).value) then [e] else []
  }

  /** The trade log holds exactly the events of trades locked by then, in stream order. */
  lemma {:induction false} TradeLogIsKnownEvents(es: seq<Stamped>)
    ensures Fold(EMPTY, es).logs.trade == KnownTradeEvents(es)
    decreases |es|
  {
    if es != [] {
      var front, last := es[..|es| - 1], es[|es| - 1];
      assert es == front + [last];
      FoldLast(es);
      TradeLogIsKnownEvents(front);
      if LoggedTrade(last).Some? {
        var id := LoggedTrade(last).value;
        KnownIffLocked(front, id);
        LockedByPush(front, last, id);
      }
    }
  }

  lemma LockedByPush(front: seq<Stamped>, last: Stamped, tradeId: Text)
    ensures LockedBy(front + [last], tradeId) <==> LockedBy(front, tradeId) || Locks(last, tradeId)
  {
    var es := front + [last];
    assert es[|front|] == last && forall i :: 0 <= i < |front| ==> es[i] == front[i];
  }
}

/** What the indexer's proposals and event logs hold, in closed form: from the events of
    the stream themselves. */
module IndexerProposals {
  import opened Texts
  import opened Indexer

  // ---- Which events count ----

  /** The event opens the proposal. */
  predicate Opens(e: Stamped, key: ProposalKey) {
    match e.emitted.event
    case DisputeProposed(proposalId, _, _) => key == (Dispute, proposalId)
    case ProposalOpened(kind, proposalId, _, _) => key == (kind, proposalId)
    case _ => false
  }

  /** A dispute is recorded only for a trade that was locked before it. */
  predicate IsAccepted(es: seq<Stamped>, i: nat, key: ProposalKey) {
    && i < |es| && Opens(es[i], key)
    && (es[i].emitted.event.DisputeProposed? ==>
          exists j :: 0 <= j < i && Locks(es[j], es[i].emitted.event.tradeId))
  }

  /** The `i`th event is the last that opened the proposal. */
  predicate IsLastOpening(es: seq<Stamped>, i: nat, key: ProposalKey) {
    IsAccepted(es, i, key) && forall j :: i < j < |es| ==> !IsAccepted(es, j, key)
  }

  function ApprovalsSetBy(e: Stamped, key: ProposalKey): Option<nat> {
    match e.emitted.event
    case ProposalApproved(kind, proposalId, count) => if key == (kind, proposalId) then Some(count) else None
    case _ => None
  }

  predicate Finalizes(e: Stamped, key: ProposalKey) {
    e.emitted.event.DisputeFinalized? && key == (Dispute, e.emitted.event.proposalId)
  }

  predicate Cancels(e: Stamped, key: ProposalKey) {
    e.emitted.event.ProposalCancelled? && key == (e.emitted.event.kind, e.emitted.event.proposalId)
  }

  /** The count of the last approval after `i`; one, the proposer's own, if there was none. */
  predicate IsCount(es: seq<Stamped>, i: nat, key: ProposalKey, count: nat) {
    if exists j :: i < j < |es| && ApprovalsSetBy(es[j], key).Some?
    then exists j :: i < j < |es| && ApprovalsSetBy(es[j], key) == Some(count)
                     && forall k :: j < k < |es| ==> ApprovalsSetBy(es[k], key).None?
    else count == 1
  }

  /** What the event that opened it says of the proposal. */
  predicate IsOpenedBy(p: Proposal, e: Stamped) {
    && p.createdAt == e.timestamp && p.expiresAt == e.timestamp + 7 * 24 * 60 * 60 * 1000
    && match e.emitted.event
       case DisputeProposed(_, tradeId, proposer) => p.tradeId == Some(tradeId) && p.subject == None && p.proposer == proposer
       case ProposalOpened(_, _, subject, proposer) => p.tradeId == None && p.subject == Some(subject) && p.proposer == proposer
       case _ => false
  }

  /** The record in terms of its opening event `i` and what came after it. */
  predicate FitsEvents(es: seq<Stamped>, i: nat, key: ProposalKey, p: Proposal)
    requires i < |es|
  {
    && IsOpenedBy(p, es[i]) && IsCount(es, i, key, p.approvalCount)
    && (p.executed <==> exists j :: i < j < |es| && Finalizes(es[j], key))
    && (p.cancelled <==> exists j :: i < j < |es| && Cancels(es[j], key))
  }

  // ---- Pushing one event ----

  lemma AcceptedBefore(front: seq<Stamped>, last: Stamped, i: nat, key: ProposalKey)
    requires i < |front|
    ensures IsAccepted(front + [last], i, key) <==> IsAccepted(front, i, key)
  {
    var es := front + [last];
    assert forall j :: 0 <= j <= i ==> es[j] == front[j];
  }

  /** Whether the last event opens the proposal shows in the store. */
  lemma AcceptedLast(front: seq<Stamped>, last: Stamped, key: ProposalKey)
    ensures var es := front + [last];
            IsAccepted(es, |front|, key) <==>
            Opens(last, key) && (last.emitted.event.DisputeProposed? ==> last.emitted.event.tradeId in Fold(EMPTY, front).trades)
  {
    var es := front + [last];
    assert forall j :: 0 <= j < |front| ==> es[j] == front[j];
    if last.emitted.event.DisputeProposed? {
      KnownIffLocked(front, last.emitted.event.tradeId);
    }
  }

  lemma CountAfterPush(front: seq<Stamped>, last: Stamped, i: nat, key: ProposalKey, count: nat)
    requires i < |front| && IsCount(front, i, key, count)
    ensures IsCount(front + [last], i, key,
                    if ApprovalsSetBy(last, key).Some? then ApprovalsSetBy(last, key).value else count)
  {
    var es := front + [last];
    assert forall j :: 0 <= j < |front| ==> es[j] == front[j];
    if ApprovalsSetBy(last, key).Some? {
      assert es[|front|] == last;
    } else if j :| i < j < |es| && ApprovalsSetBy(es[j], key).Some? {
      assert ApprovalsSetBy(front[j], key).Some?;
      var m :| i < m < |front| && ApprovalsSetBy(front[m], key) == Some(count)
               && forall k :: m < k < |front| ==> ApprovalsSetBy(front[k], key).None?;
      assert ApprovalsSetBy(es[m], key) == Some(count);
      assert forall k :: m < k < |es| ==> ApprovalsSetBy(es[k], key).None?;
    }
  }

  lemma FlagsAfterPush(front: seq<Stamped>, last: Stamped, i: nat, key: ProposalKey)
    requires i < |front|
    ensures var es := front + [last];
            && ((exists j :: i < j < |es| && Finalizes(es[j], key)) <==>
                (exists j :: i < j < |front| && Finalizes(front[j], key)) || Finalizes(last, key))
            && ((exists j :: i < j < |es| && Cancels(es[j], key)) <==>
                (exists j :: i < j < |front| && Cancels(front[j], key)) || Cancels(last, key))
  {
    var es := front + [last];
    assert es[|front|] == last && forall j :: 0 <= j < |front| ==> es[j] == front[j];
  }

  /** How one event changes a stored proposal that it does not open anew. */
  lemma StoredAfter(s: Store, e: Stamped, key: ProposalKey)
    requires key in s.proposals && !Opens(e, key)
    ensures var p := s.proposals[key];
            && key in Apply(s, e).proposals
            && Apply(s, e).proposals[key] ==
               p.(approvalCount := if ApprovalsSetBy(e, key).Some? then ApprovalsSetBy(e, key).value else p.approvalCount,
                  executed := p.executed || Finalizes(e, key), cancelled := p.cancelled || Cancels(e, key))
  {
  }

  lemma RefusedLeavesProposals(s: Store, e: Stamped)
    requires e.emitted.event.DisputeProposed? && e.emitted.event.tradeId !in s.trades
    ensures Apply(s, e) == s
  {
  }

  lemma OpenedIsStored(s: Store, e: Stamped, key: ProposalKey)
    requires Opens(e, key) && (e.emitted.event.DisputeProposed? ==> e.emitted.event.tradeId in s.trades)
    ensures key in Apply(s, e).proposals
    ensures var p := Apply(s, e).proposals[key];
            IsOpenedBy(p, e) && p.approvalCount == 1 && !p.executed && !p.cancelled
  {
  }

  lemma OthersStayAway(s: Store, e: Stamped, key: ProposalKey)
    requires key !in s.proposals
    ensures key in Apply(s, e).proposals <==>
            Opens(e, key) && (e.emitted.event.DisputeProposed? ==> e.emitted.event.tradeId in s.trades)
  {
  }

  // ---- Proposals ----

  lemma NewestOpening(front: seq<Stamped>, last: Stamped, key: ProposalKey)
    requires IsAccepted(front + [last], |front|, key)
    ensures var es := front + [last];
            && IsLastOpening(es, |front|, key) && key in Fold(EMPTY, es).proposals
            && FitsEvents(es, |front|, key, Fold(EMPTY, es).proposals[key])
  {
    var es := front + [last];
    FoldPush(EMPTY, front, last);
    AcceptedLast(front, last, key);
    OpenedIsStored(Fold(EMPTY, front), last, key);
    assert es[|front|] == last;
  }

  lemma EarlierOpening(front: seq<Stamped>, last: Stamped, key: ProposalKey, i: nat)
    requires key in Fold(EMPTY, front).proposals && IsLastOpening(front, i, key)
    requires FitsEvents(front, i, key, Fold(EMPTY, front).proposals[key])
    requires !IsAccepted(front + [last], |front|, key)
    ensures var es := front + [last];
            && IsLastOpening(es, i, key) && key in Fold(EMPTY, es).proposals
            && FitsEvents(es, i, key, Fold(EMPTY, es).proposals[key])
  {
    var es, s := front + [last], Fold(EMPTY, front);
    FoldPush(EMPTY, front, last);
    AcceptedLast(front, last, key);
    if Opens(last, key) {
      RefusedLeavesProposals(s, last);
    } else {
      StoredAfter(s, last, key);
    }
    CountAfterPush(front, last, i, key, s.proposals[key].approvalCount);
    FlagsAfterPush(front, last, i, key);
    assert es[i] == front[i];
    forall j | 0 <= j < |front| ensures IsAccepted(es, j, key) <==> IsAccepted(front, j, key) {
      AcceptedBefore(front, last, j, key);
    }
  }

  /** Every stored proposal is what its events say: who opened it last, for what and when,
      the count of the last approval since, and whether it was finalized or cancelled. */
  lemma {:induction false} ProposalIsWhatItsEventsSay(es: seq<Stamped>, key: ProposalKey) returns (i: nat)
    requires key in Fold(EMPTY, es).proposals
    ensures IsLastOpening(es, i, key) && FitsEvents(es, i, key, Fold(EMPTY, es).proposals[key])
    decreases |es|
  {
    var front, last := es[..|es| - 1], es[|es| - 1];
    assert es == front + [last];
    FoldPush(EMPTY, front, last);
    if IsAccepted(es, |front|, key) {
      i := |front|;
      NewestOpening(front, last, key);
    } else {
      AcceptedLast(front, last, key);
      if key !in Fold(EMPTY, front).proposals {
        OthersStayAway(Fold(EMPTY, front), last, key);
      }
      i := ProposalIsWhatItsEventsSay(front, key);
      EarlierOpening(front, last, key, i);
    }
  }

  /** And it is stored exactly when some event of the stream opened it. */
  lemma {:induction false} StoredIffOpened(es: seq<Stamped>, key: ProposalKey)
    ensures key in Fold(EMPTY, es).proposals <==> exists i :: 0 <= i < |es| && IsAccepted(es, i, key)
    decreases |es|
  {
    if es != [] {
      var front, last := es[..|es| - 1], es[|es| - 1];
      assert es == front + [last];
      FoldPush(EMPTY, front, last);
      StoredIffOpened(front, key);
      AcceptedLast(front, last, key);
      forall j | 0 <= j < |front| ensures IsAccepted(es, j, key) <==> IsAccepted(front, j, key) {
        AcceptedBefore(front, last, j, key);
      }
      StoredStepwise(Fold(EMPTY, front), last, key);
    }
  }

  lemma StoredStepwise(s: Store, e: Stamped, key: ProposalKey)
    ensures key in Apply(s, e).proposals <==>
            key in s.proposals
            || (Opens(e, key) && (e.emitted.event.DisputeProposed? ==> e.emitted.event.tradeId in s.trades))
  {
    if key !in s.proposals {
      OthersStayAway(s, e, key);
    }
  }

  // ---- Logs ----

  datatype LogName = DisputeLog | OracleLog | AdminLog | SystemLog

  function LogIn(logs: Logs, name: LogName): seq<Stamped> {
    match name
    case DisputeLog => logs.dispute
    case OracleLog => logs.oracle
    case AdminLog => logs.admin
    case SystemLog => logs.system
  }

  function LogFor(kind: ProposalKind): LogName {
    match kind
    case Dispute => DisputeLog
    case OracleUpdate => OracleLog
    case AdminAdd => AdminLog
  }

  predicate WasOpened(es: seq<Stamped>, key: ProposalKey) {
    exists i :: 0 <= i < |es| && IsAccepted(es, i, key)
  }

  predicate WasLocked(es: seq<Stamped>, tradeId: Text) {
    exists i :: 0 <= i < |es| && Locks(es[i], tradeId)
  }

  /** The event, coming after `front`, goes to the log. */
  predicate GoesTo(front: seq<Stamped>, e: Stamped, name: LogName) {
    match e.emitted.event
    case DisputeProposed(_, tradeId, _) => name == DisputeLog && WasLocked(front, tradeId)
    case ProposalOpened(kind, _, _, _) => name == LogFor(kind)
    case ProposalApproved(kind, proposalId, _) => name == LogFor(kind) && WasOpened(front, (kind, proposalId))
    case ProposalCancelled(kind, proposalId) => name == LogFor(kind) && WasOpened(front, (kind, proposalId))
    case DisputeFinalized(proposalId) => name == DisputeLog && WasOpened(front, (Dispute, proposalId))
    case OracleNoted(_) => name == OracleLog
    case AdminNoted(_) => name == AdminLog
    case SystemNoted(_) => name == SystemLog
    case _ => false
  }

  /** The events of the stream that go to the log, in order. */
  function EventsFor(es: seq<Stamped>, name: LogName): seq<Stamped> {
    if es == [] then []
    else
      var front, last := es[..|es| - 1], es[|es| - 1];
      EventsFor(front, name) + if GoesTo(front, last, name) then [last] else []
  }

  /** Each log holds exactly its events, in stream order: those of a proposal only once
      it was opened, those of a dispute only for a locked trade. */
  lemma {:induction false} LogsAreTheirEvents(es: seq<Stamped>, name: LogName)
    ensures LogIn(Fold(EMPTY, es).logs, name) == EventsFor(es, name)
    decreases |es|
  {
    if es != [] {
      var front, last := es[..|es| - 1], es[|es| - 1];
      assert es == front + [last];
      FoldPush(EMPTY, front, last);
      LogsAreTheirEvents(front, name);
      KnownAsOpened(front, last);
      LogStep(Fold(EMPTY, front), front, last, name);
    }
  }

  /** The store knows the trade or proposal of the event exactly if the stream does. */
  predicate KnowsAlike(s: Store, front: seq<Stamped>, e: Stamped) {
    match e.emitted.event
    case DisputeProposed(_, tradeId, _) => tradeId in s.trades <==> WasLocked(front, tradeId)
    case ProposalApproved(kind, proposalId, _) => (kind, proposalId) in s.proposals <==> WasOpened(front, (kind, proposalId))
    case ProposalCancelled(kind, proposalId) => (kind, proposalId) in s.proposals <==> WasOpened(front, (kind, proposalId))
    case DisputeFinalized(proposalId) => (Dispute, proposalId) in s.proposals <==> WasOpened(front, (Dispute, proposalId))
    case _ => true
  }

  lemma KnownAsOpened(front: seq<Stamped>, e: Stamped)
    ensures KnowsAlike(Fold(EMPTY, front), front, e)
  {
    match e.emitted.event {
      case DisputeProposed(_, tradeId, _) => KnownIffLocked(front, tradeId);
      case ProposalApproved(kind, proposalId, _) => StoredIffOpened(front, (kind, proposalId));
      case ProposalCancelled(kind, proposalId) => StoredIffOpened(front, (kind, proposalId));
      case DisputeFinalized(proposalId) => StoredIffOpened(front, (Dispute, proposalId));
      case _ =>
    }
  }

  lemma LogStep(s: Store, front: seq<Stamped>, e: Stamped, name: LogName)
    requires KnowsAlike(s, front, e)
    ensures LogIn(Apply(s, e).logs, name) == LogIn(s.logs, name) + if GoesTo(front, e, name) then [e] else []
  {
  }
}

/** The governance queue with each call taken as one atomic step: queueing with
    intent dedupe, execution, cleanup, and the audit log they write. */
module GovernanceQueue {
  import opened Texts
  import opened Governance
  import opened GovernanceExecution

  datatype State = State(items: Actions, audit: seq<AuditEntry>)

  datatype Config = Config(chainId: nat, queueTtlSeconds: nat, norm: Text -> Text)

  datatype QueueInput = QueueInput(
    category: Category, contractMethod: ContractMethod, proposalId: Option<nat>,
    targetAddress: Option<Text>, tradeId: Option<Text>, wallet: Text)

  /** What one execution meets: the two clock readings, the signer (`None` when
      resolving it fails or times out), the SDK and the status reader. */
  datatype Surroundings = Surroundings(checkedAt: int, writtenAt: int, signer: Option<Text>, sdk: SdkReply, reader: Reader)

  datatype Reply = Returned(action: Action) | NotFound | MissingWallet | SignerMismatch | ResolverThrew

  function InputKey(config: Config, input: QueueInput): Text {
    IntentKey(config.norm, Intent(input.category, input.contractMethod, input.proposalId,
                                  input.targetAddress, input.tradeId, config.chainId, input.wallet))
  }

  function QueueRecord(config: Config, input: QueueInput, id: Text, now: int): Action {
    Action(id, InputKey(config, input), input.proposalId, input.category, Requested, input.contractMethod,
           None, None, input.tradeId, config.chainId, input.targetAddress, now,
           Some(now + config.queueTtlSeconds * 1000), None, None, input.wallet)
  }

  /** The record of a request: what was asked for, requested now, due after the queue's ttl. */
  predicate IsRecordOf(config: Config, input: QueueInput, id: Text, now: int, a: Action) {
    && a.actionId == id && a.status == Requested && a.createdAt == now
    && a.expiresAt == Some(now + config.queueTtlSeconds * 1000)
    && a.category == input.category && a.contractMethod == input.contractMethod
    && a.proposalId == input.proposalId && a.targetAddress == input.targetAddress && a.tradeId == input.tradeId
    && a.actorWallet == input.wallet && a.chainId == config.chainId
    && a.txHash.None? && a.blockNumber.None? && a.executedAt.None? && a.errorCode.None?
  }

  /** The newest live action with this key, if there is one. */
  predicate IsFoundOpen(items: Actions, key: Text, now: int, found: Option<Action>) {
    match found
    case None => forall id :: id in items ==> !(items[id].intentKey == key && IsLive(items[id], now))
    case Some(a) =>
      && a.actionId in items && items[a.actionId] == a && a.intentKey == key && IsLive(a, now)
      && forall id :: id in items && items[id].intentKey == key && IsLive(items[id], now) && items[id] != a ==>
           Newer(a, items[id])
  }

  function Saved(s: State, a: Action, entry: AuditEntry): State {
    State(s.items[a.actionId := a], s.audit + [entry])
  }

  function Logged(s: State, entry: AuditEntry): State {
    s.(audit := s.audit + [entry])
  }

  function Enqueued(s: State, record: Action, found: Option<Action>): State {
    match found
    case Some(a) => Logged(s, AuditEntry(DuplicateReused, a.actionId, Some(a.status)))
    case None => Saved(s, record, AuditEntry(QueuedEvent, record.actionId, Some(Requested)))
  }

  function Staled(s: State, a: Action, event: Event, at: int): State {
    Saved(s, StaleRecord(a, at), AuditEntry(event, a.actionId, Some(Stale)))
  }

  predicate SignerMayExecute(norm: Text -> Text, a: Action, signer: Text) {
    IsApproval(a.contractMethod) ==> norm(a.actorWallet) != [] && norm(a.actorWallet) == norm(signer)
  }

  function ExecuteStep(s: State, norm: Text -> Text, id: Text, around: Surroundings): (State, Reply) {
    if id !in s.items then (s, NotFound)
    else
      var a := s.items[id];
      if a.status != Requested then (s, Returned(a))
      else if IsExpiredRequested(a, around.checkedAt) then
        (Staled(s, a, ExecutionStale, around.writtenAt), Returned(StaleRecord(a, around.writtenAt)))
      else if around.signer.None? then
        var failed := FailedRecord(a, around.writtenAt);
        (Saved(s, failed, AuditEntry(ExecutionFailedEvent, id, Some(Failed))), Returned(failed))
      else if IsApproval(a.contractMethod) && norm(a.actorWallet) == [] then (s, MissingWallet)
      else if IsApproval(a.contractMethod) && norm(a.actorWallet) != norm(around.signer.value) then
        (Logged(s, AuditEntry(ExecutionRejected, id, Some(Requested))), SignerMismatch)
      else
        var started := Logged(s, AuditEntry(ExecutionStarted, id, None));
        var closing := Closing(a, Execute(a, around.sdk), around.reader, around.writtenAt);
        if closing.None? then (started, ResolverThrew)
        else (Saved(started, closing.value.0, closing.value.1), Returned(closing.value.0))
  }

  // ---- What an execution does, from the action's own fields ----

  /** Only `a` is written, with these entries logged. */
  predicate Writes(before: State, after: State, a: Action, entries: seq<AuditEntry>) {
    after.items == before.items[a.actionId := a] && after.audit == before.audit + entries
  }

  predicate IsPast(a: Action, now: int) {
    a.expiresAt.Some? && a.expiresAt.value <= now
  }

  /** The action is admitted: requested, before its deadline, its signer known and, for
      an approval, the wallet that asked for it. */
  predicate IsAdmitted(norm: Text -> Text, a: Action, around: Surroundings) {
    && a.status == Requested && !IsPast(a, around.checkedAt) && around.signer.Some?
    && (IsApproval(a.contractMethod) ==> norm(a.actorWallet) != [] && norm(a.actorWallet) == norm(around.signer.value))
  }

  ghost predicate IsExecution(before: State, norm: Text -> Text, id: Text, around: Surroundings, after: State, reply: Reply)
    requires id in before.items
  {
    var a, at := before.items[id], around.writtenAt;
    if a.status != Requested then after == before && reply == Returned(a)
    else if IsPast(a, around.checkedAt) then
      var stale := a.(status := Stale, errorCode := Some(QueueExpired), executedAt := Some(at));
      reply == Returned(stale) && Writes(before, after, stale, [AuditEntry(ExecutionStale, id, Some(Stale))])
    else if around.signer.None? then
      var failed := a.(status := Failed, errorCode := Some(ExecutionFailed), executedAt := Some(at));
      reply == Returned(failed) && Writes(before, after, failed, [AuditEntry(ExecutionFailedEvent, id, Some(Failed))])
    else if !IsAdmitted(norm, a, around) then
      && after.items == before.items
      && if norm(a.actorWallet) == [] then after == before && reply == MissingWallet
         else reply == SignerMismatch && after.audit == before.audit + [AuditEntry(ExecutionRejected, id, Some(Requested))]
    else
      exists record, event ::
        && IsClosing(a, around.sdk, around.reader, at, record, event) && reply == Returned(record)
        && Writes(before, after, record, [AuditEntry(ExecutionStarted, id, None), AuditEntry(event, id, Some(record.status))])
  }

  lemma ExecutionIsRight(s: State, norm: Text -> Text, id: Text, around: Surroundings)
    requires Keyed(s.items) && id in s.items
    ensures var (after, reply) := ExecuteStep(s, norm, id, around); IsExecution(s, norm, id, around, after, reply)
  {
    var a := s.items[id];
    if IsAdmitted(norm, a, around) {
      ClosingIsRight(a, around.sdk, around.reader, around.writtenAt);
      ClosingLeavesRequested(a, around.sdk, around.reader, around.writtenAt);
      var c := Closing(a, Execute(a, around.sdk), around.reader, around.writtenAt).value;
      var entries := [AuditEntry(ExecutionStarted, id, None), AuditEntry(c.1.event, id, Some(c.0.status))];
      assert s.audit + [entries[0]] + [entries[1]] == s.audit + entries;
      assert Writes(s, ExecuteStep(s, norm, id, around).0, c.0, entries);
    }
  }

  function CleanOne(s: State, id: Text, now: int): State {
    if id in s.items && IsExpiredRequested(s.items[id], now) then Staled(s, s.items[id], CleanupStale, now) else s
  }

  /** Cleanup re-reads each candidate and marks it stale if it is still expired:
      the state after the first `n` candidates. */
  function Cleaned(s: State, candidates: seq<Action>, now: int, n: nat): State
    requires n <= |candidates|
    decreases n
  {
    if n == 0 then s else CleanOne(Cleaned(s, candidates, now, n - 1), candidates[n - 1].actionId, now)
  }

  function ExpiredIds(items: Actions, now: int): set<Text> {
    set id | id in items && IsExpiredRequested(items[id], now)
  }

  class GovernanceService {
    const config: Config
    var items: Actions
    var audit: seq<AuditEntry>

    ghost function Contents(): State reads this { State(items, audit) }

    constructor (config: Config)
      ensures this.config == config && Contents() == State(map[], [])
    {
      this.config := config;
      items, audit := map[], [];
    }

    method SaveActionWithAudit(a: Action, entry: AuditEntry)
      modifies this
      ensures Contents() == Saved(old(Contents()), a, entry)
    {
      items := items[a.actionId := a];
      audit := audit + [entry];
    }

    method FindOpenByIntentKey(key: Text, now: int) returns (found: Option<Action>)
      requires Keyed(items)
      ensures IsFoundOpen(items, key, now, found)
    {
      var sorted := SortedActions(items);
      var i := 0;
      while i < |sorted|
        invariant 0 <= i <= |sorted|
        invariant forall k :: 0 <= k < i ==> !(sorted[k].intentKey == key && IsLive(sorted[k], now))
      {
        if sorted[i].intentKey == key && IsLive(sorted[i], now) {
          assert sorted[i] in sorted;
          return Some(sorted[i]);
        }
        i := i + 1;
      }
      return None;
    }

    method SaveQueuedActionWithIntentDedupe(a: Action, now: int) returns (stored: Action, created: bool)
      requires Keyed(items)
      modifies this
      ensures exists found :: IsFoundOpen(old(items), a.intentKey, now, found)
                && Contents() == Enqueued(old(Contents()), a, found)
                && created == found.None? && stored == if created then a else found.value
    {
      var found := FindOpenByIntentKey(a.intentKey, now);
      if found.Some? {
        audit := audit + [AuditEntry(DuplicateReused, found.value.actionId, Some(found.value.status))];
        return found.value, false;
      }
      SaveActionWithAudit(a, AuditEntry(QueuedEvent, a.actionId, Some(Requested)));
      return a, true;
    }

    /** `id` is the fresh identifier drawn for the request. */
    method QueueAction(input: QueueInput, id: Text, now: int) returns (accepted: Action)
      requires Keyed(items)
      modifies this
      ensures exists found :: IsFoundOpen(old(items), InputKey(config, input), now, found)
                && Contents() == Enqueued(old(Contents()), QueueRecord(config, input, id, now), found)
                && accepted == if found.Some? then found.value else QueueRecord(config, input, id, now)
      ensures accepted.intentKey == InputKey(config, input)
      ensures id !in old(items) ==>
                if accepted.actionId == id
                then IsRecordOf(config, input, id, now, accepted) && items == old(items)[id := accepted]
                     && audit == old(audit) + [AuditEntry(QueuedEvent, id, Some(Requested))]
                else accepted.actionId in old(items) && old(items)[accepted.actionId] == accepted && IsLive(accepted, now)
                     && items == old(items)
                     && audit == old(audit) + [AuditEntry(DuplicateReused, accepted.actionId, Some(accepted.status))]
    {
      var record := QueueRecord(config, input, id, now);
      var stored, created := SaveQueuedActionWithIntentDedupe(record, now);
      accepted := stored;
    }

    method ExecuteAction(id: Text, around: Surroundings) returns (reply: Reply)
      requires Keyed(items)
      modifies this
      ensures (Contents(), reply) == ExecuteStep(old(Contents()), config.norm, id, around)
      ensures id !in old(items) ==> reply == NotFound && Contents() == old(Contents())
      ensures id in old(items) ==> IsExecution(old(Contents()), config.norm, id, around, Contents(), reply)
    {
      if id in items {
        ExecutionIsRight(Contents(), config.norm, id, around);
      }
      if id !in items {
        return NotFound;
      }
      var existing := items[id];
      if existing.status != Requested {
        return Returned(existing);
      }
      if IsExpiredRequested(existing, around.checkedAt) {
        var stale := StaleRecord(existing, around.writtenAt);
        SaveActionWithAudit(stale, AuditEntry(ExecutionStale, id, Some(Stale)));
        return Returned(stale);
      }
      if around.signer.None? {
        var failed := FailedRecord(existing, around.writtenAt);
        SaveActionWithAudit(failed, AuditEntry(ExecutionFailedEvent, id, Some(Failed)));
        return Returned(failed);
      }
      if IsApproval(existing.contractMethod) {
        var expected := config.norm(existing.actorWallet);
        if expected == [] {
          return MissingWallet;
        }
        if expected != config.norm(around.signer.value) {
          audit := audit + [AuditEntry(ExecutionRejected, id, Some(existing.status))];
          return SignerMismatch;
        }
      }
      audit := audit + [AuditEntry(ExecutionStarted, id, None)];
      var execution := Execute(existing, around.sdk);
      var closing := Closing(existing, execution, around.reader, around.writtenAt);
      if closing.None? {
        return ResolverThrew;
      }
      SaveActionWithAudit(closing.value.0, closing.value.1);
      return Returned(closing.value.0);
    }

    /** The newest expired requests, at most `limit` of them. */
    method ListRequestedExpired(now: int, limit: nat) returns (expired: seq<Action>)
      requires Keyed(items)
      ensures Descending(expired) && |expired| <= limit
      ensures forall a :: a in expired ==> a.actionId in items && items[a.actionId] == a && IsExpiredRequested(a, now)
      ensures forall id :: id in ExpiredIds(items, now) && items[id] !in expired ==>
                |expired| == limit && forall a :: a in expired ==> Newer(a, items[id])
    {
      var sorted := SortedActions(items);
      expired := [];
      var i := 0;
      while i < |sorted| && |expired| < limit
        invariant 0 <= i <= |sorted| && |expired| <= limit
        invariant forall a :: a in expired <==> a in sorted[..i] && IsExpiredRequested(a, now)
        invariant Descending(expired)
      {
        assert sorted[..i + 1] == sorted[..i] + [sorted[i]];
        assert forall a :: a in sorted[..i] ==> Newer(a, sorted[i]);
        if IsExpiredRequested(sorted[i], now) {
          expired := expired + [sorted[i]];
        }
        i := i + 1;
      }
      forall id | id in ExpiredIds(items, now) && items[id] !in expired
        ensures |expired| == limit && forall a :: a in expired ==> Newer(a, items[id])
      {
        var k :| 0 <= k < |sorted| && sorted[k] == items[id];
        assert forall l :: 0 <= l < i ==> sorted[l] in sorted[..i];
      }
    }

    method CleanCandidate(id: Text, now: int) returns (record: Option<Action>)
      modifies this
      ensures Contents() == CleanOne(old(Contents()), id, now)
      ensures record == if id in old(items) && IsExpiredRequested(old(items)[id], now)
                        then Some(StaleRecord(old(items)[id], now)) else None
    {
      if id !in items || !IsExpiredRequested(items[id], now) {
        return None;
      }
      var stale := StaleRecord(items[id], now);
      SaveActionWithAudit(stale, AuditEntry(CleanupStale, items[id].actionId, Some(Stale)));
      return Some(stale);
    }

    /** Marks stale the newest expired requests, at most `limit`. */
    method CleanupApply(now: int, limit: nat) returns (stale: seq<Action>, ghost candidates: seq<Action>)
      requires Keyed(items)
      modifies this
      ensures Candidates(old(items), candidates, now) && |stale| == |candidates| <= limit
      ensures Contents() == Cleaned(old(Contents()), candidates, now, |candidates|)
      ensures forall i :: 0 <= i < |stale| ==> stale[i] == StaleRecord(candidates[i], now)
      ensures |stale| < limit ==> forall id :: id in ExpiredIds(old(items), now) ==> old(items)[id] in candidates
    {
      var expired := ListRequestedExpired(now, limit);
      candidates := expired;
      stale := [];
      var i := 0;
      ghost var before := Contents();
      while i < |expired|
        invariant 0 <= i <= |expired| && |stale| == i
        invariant forall k :: 0 <= k < i ==> stale[k] == StaleRecord(expired[k], now)
        invariant Contents() == Cleaned(before, expired, now, i)
      {
        CandidateStillExpired(before, expired, now, i, i);
        var record := CleanCandidate(expired[i].actionId, now);
        if record.Some? {
          stale := stale + [record.value];
        }
        i := i + 1;
      }
    }
  }

  /** Stored, expired requests, newest first. */
  predicate Candidates(items: Actions, candidates: seq<Action>, now: int) {
    && Descending(candidates)
    && forall i :: 0 <= i < |candidates| ==>
         candidates[i].actionId in items && items[candidates[i].actionId] == candidates[i]
         && IsExpiredRequested(candidates[i], now)
  }

  lemma CandidatesDiffer(items: Actions, candidates: seq<Action>, now: int, i: nat, j: nat)
    requires Candidates(items, candidates, now) && i < j < |candidates|
    ensures candidates[i].actionId != candidates[j].actionId
  {
    LexIrreflexive(candidates[i].actionId);
    assert Newer(candidates[i], candidates[j]);
  }

  /** Cleaning earlier candidates leaves a later one as it was. */
  lemma {:induction false} CandidateStillExpired(s: State, candidates: seq<Action>, now: int, n: nat, k: nat)
    requires Candidates(s.items, candidates, now) && n <= k < |candidates|
    ensures var after := Cleaned(s, candidates, now, n).items;
            candidates[k].actionId in after && after[candidates[k].actionId] == candidates[k]
    decreases n
  {
    if n > 0 {
      CandidateStillExpired(s, candidates, now, n - 1, k);
      CandidateStillExpired(s, candidates, now, n - 1, n - 1);
      CandidatesDiffer(s.items, candidates, now, n - 1, k);
    }
  }

  /** Cleanup marks its candidates stale and touches no other action. */
  lemma {:induction false} CleanupTouchesCandidatesOnly(s: State, candidates: seq<Action>, now: int, n: nat, id: Text)
    requires Candidates(s.items, candidates, now) && n <= |candidates| && id in s.items
    ensures var after := Cleaned(s, candidates, now, n).items;
            && id in after
            && ((exists k :: 0 <= k < n && candidates[k].actionId == id) ==> after[id] == StaleRecord(s.items[id], now))
            && ((forall k :: 0 <= k < n ==> candidates[k].actionId != id) ==> after[id] == s.items[id])
    decreases n
  {
    if n > 0 {
      CleanupTouchesCandidatesOnly(s, candidates, now, n - 1, id);
      CandidateStillExpired(s, candidates, now, n - 1, n - 1);
      if k :| 0 <= k < n - 1 && candidates[k].actionId == id {
        CandidatesDiffer(s.items, candidates, now, k, n - 1);
      }
    }
  }
}

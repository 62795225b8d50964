/** What every sequence of atomic governance calls keeps. */
module GovernanceRuns {
  import opened Texts
  import opened Governance
  import opened GovernanceExecution
  import opened GovernanceQueue

  // ---- At most one live action per intent key ----

  predicate OneLive(items: Actions, now: int) {
    forall i, j :: (i in items && j in items && items[i].intentKey == items[j].intentKey
                    && IsLive(items[i], now) && IsLive(items[j], now)) ==> i == j
  }

  lemma OneLiveLater(items: Actions, now: int, later: int)
    requires OneLive(items, now) && now <= later
    ensures OneLive(items, later)
  {
    forall i, j | i in items && j in items && items[i].intentKey == items[j].intentKey
                  && IsLive(items[i], later) && IsLive(items[j], later) ensures i == j {
      assert IsLive(items[i], now) && IsLive(items[j], now);
    }
  }

  /** Replacing a live action by one with the same key keeps the claim, at any later time. */
  lemma ReplaceKeepsOneLive(items: Actions, id: Text, a: Action, now: int, later: int)
    requires OneLive(items, now) && now <= later && id in items
    requires a.intentKey == items[id].intentKey
    requires IsLive(items[id], now) || !IsLive(a, later)
    ensures OneLive(items[id := a], later)
  {
    OneLiveLater(items, now, later);
    forall i | i in items && IsLive(items[i], later) ensures IsLive(items[i], now) {
    }
  }

  // ---- The audit trail ----

  predicate IsTransition(event: Event) {
    event in {ExecutionSucceeded, ExecutionFailedEvent, ExecutionTimeoutEvent, ExecutionStale, CleanupStale}
  }

  function QueuedEntries(audit: seq<AuditEntry>, id: Text): nat {
    if audit == [] then 0
    else
      var e := audit[|audit| - 1];
      QueuedEntries(audit[..|audit| - 1], id) + if e.event == QueuedEvent && e.actionId == id then 1 else 0
  }

  /** The statuses recorded by an action's transition entries, in order. */
  function Transitions(audit: seq<AuditEntry>, id: Text): seq<Option<Status>> {
    if audit == [] then []
    else
      var e := audit[|audit| - 1];
      Transitions(audit[..|audit| - 1], id) + if IsTransition(e.event) && e.actionId == id then [e.status] else []
  }

  lemma AuditPush(audit: seq<AuditEntry>, e: AuditEntry, id: Text)
    ensures QueuedEntries(audit + [e], id)
            == QueuedEntries(audit, id) + if e.event == QueuedEvent && e.actionId == id then 1 else 0
    ensures Transitions(audit + [e], id)
            == Transitions(audit, id) + if IsTransition(e.event) && e.actionId == id then [e.status] else []
  {
    assert (audit + [e])[..|audit|] == audit;
  }

  /** One `queued` entry per stored action, and one transition entry, with the
      stored status, exactly when it has left `Requested`. */
  predicate AuditedFor(s: State, id: Text) {
    if id in s.items then
      && QueuedEntries(s.audit, id) == 1
      && Transitions(s.audit, id) == (if s.items[id].status == Requested then [] else [Some(s.items[id].status)])
    else QueuedEntries(s.audit, id) == 0 && Transitions(s.audit, id) == []
  }

  ghost predicate Audited(s: State) {
    forall id :: AuditedFor(s, id)
  }

  lemma SavedStaysAudited(s: State, a: Action, entry: AuditEntry)
    requires Audited(s) && entry.actionId == a.actionId
    requires if a.actionId in s.items
             then s.items[a.actionId].status == Requested != a.status
                  && IsTransition(entry.event) && entry.status == Some(a.status)
             else a.status == Requested && entry.event == QueuedEvent
    ensures Audited(Saved(s, a, entry))
  {
    forall id ensures AuditedFor(Saved(s, a, entry), id) {
      assert AuditedFor(s, id);
      AuditPush(s.audit, entry, id);
    }
  }

  lemma LoggedStaysAudited(s: State, entry: AuditEntry)
    requires Audited(s) && !IsTransition(entry.event) && entry.event != QueuedEvent
    ensures Audited(Logged(s, entry))
  {
    forall id ensures AuditedFor(Logged(s, entry), id) {
      assert AuditedFor(s, id);
      AuditPush(s.audit, entry, id);
    }
  }

  // ---- Steps ----

  /** One atomic call. A queue call carries the fresh identifier it drew and the
      live action its lookup found. */
  datatype Call =
    | QueueCall(input: QueueInput, id: Text, now: int, found: Option<Action>)
    | ExecuteCall(id: Text, around: Surroundings)
    | CleanupCall(candidates: seq<Action>, now: int)

  function Begin(c: Call): int {
    match c
    case QueueCall(_, _, now, _) => now
    case ExecuteCall(_, around) => around.checkedAt
    case CleanupCall(_, now) => now
  }

  function End(c: Call): int {
    if c.ExecuteCall? then c.around.writtenAt else Begin(c)
  }

  predicate Enabled(s: State, config: Config, last: int, c: Call) {
    && last <= Begin(c) <= End(c)
    && (c.QueueCall? ==> c.id !in s.items && IsFoundOpen(s.items, InputKey(config, c.input), c.now, c.found))
  }

  function After(s: State, config: Config, c: Call): State {
    match c
    case QueueCall(input, id, now, found) => Enqueued(s, QueueRecord(config, input, id, now), found)
    case ExecuteCall(id, around) => ExecuteStep(s, config.norm, id, around).0
    case CleanupCall(candidates, now) => Cleaned(s, candidates, now, |candidates|)
  }

  ghost predicate Healthy(s: State, now: int) {
    Keyed(s.items) && OneLive(s.items, now) && Audited(s)
  }

  lemma EnqueueStaysHealthy(s: State, config: Config, last: int, c: Call)
    requires c.QueueCall? && Healthy(s, last) && Enabled(s, config, last, c)
    ensures Healthy(After(s, config, c), End(c))
  {
    OneLiveLater(s.items, last, c.now);
    var record := QueueRecord(config, c.input, c.id, c.now);
    match c.found {
      case Some(a) => LoggedStaysAudited(s, AuditEntry(DuplicateReused, a.actionId, Some(a.status)));
      case None => SavedStaysAudited(s, record, AuditEntry(QueuedEvent, record.actionId, Some(Requested)));
    }
  }

  lemma StaleStaysHealthy(s: State, id: Text, event: Event, now: int, at: int)
    requires Healthy(s, now) && now <= at && id in s.items && s.items[id].status == Requested
    requires event == ExecutionStale || event == CleanupStale
    ensures Healthy(Staled(s, s.items[id], event, at), at)
  {
    var a := StaleRecord(s.items[id], at);
    ReplaceKeepsOneLive(s.items, id, a, now, at);
    SavedStaysAudited(s, a, AuditEntry(event, id, Some(Stale)));
  }

  lemma {:induction false} CleanupStaysHealthy(s: State, candidates: seq<Action>, now: int, n: nat)
    requires Healthy(s, now) && n <= |candidates|
    ensures Healthy(Cleaned(s, candidates, now, n), now)
    decreases n
  {
    if n > 0 {
      CleanupStaysHealthy(s, candidates, now, n - 1);
      var before := Cleaned(s, candidates, now, n - 1);
      var id := candidates[n - 1].actionId;
      if id in before.items && IsExpiredRequested(before.items[id], now) {
        StaleStaysHealthy(before, id, CleanupStale, now, now);
      }
    }
  }

  lemma ExecuteStaysHealthy(s: State, norm: Text -> Text, id: Text, around: Surroundings, last: int)
    requires Healthy(s, last) && last <= around.checkedAt <= around.writtenAt
    ensures Healthy(ExecuteStep(s, norm, id, around).0, around.writtenAt)
  {
    OneLiveLater(s.items, last, around.checkedAt);
    OneLiveLater(s.items, last, around.writtenAt);
    if id in s.items && s.items[id].status == Requested {
      var a := s.items[id];
      if IsExpiredRequested(a, around.checkedAt) {
        StaleStaysHealthy(s, id, ExecutionStale, around.checkedAt, around.writtenAt);
      } else if around.signer.None? {
        var failed := FailedRecord(a, around.writtenAt);
        ReplaceKeepsOneLive(s.items, id, failed, around.checkedAt, around.writtenAt);
        SavedStaysAudited(s, failed, AuditEntry(ExecutionFailedEvent, id, Some(Failed)));
      } else if !SignerMayExecute(norm, a, around.signer.value) {
        LoggedStaysAudited(s, AuditEntry(ExecutionRejected, id, Some(Requested)));
      } else {
        var started := AuditEntry(ExecutionStarted, id, None);
        LoggedStaysAudited(s, started);
        ClosingLeavesRequested(a, around.sdk, around.reader, around.writtenAt);
        var closing := Closing(a, Execute(a, around.sdk), around.reader, around.writtenAt).value;
        ReplaceKeepsOneLive(s.items, id, closing.0, around.checkedAt, around.writtenAt);
        SavedStaysAudited(Logged(s, started), closing.0, closing.1);
      }
    }
  }

  lemma StepStaysHealthy(s: State, config: Config, last: int, c: Call)
    requires Healthy(s, last) && Enabled(s, config, last, c)
    ensures Healthy(After(s, config, c), End(c))
  {
    match c {
      case QueueCall(_, _, _, _) => EnqueueStaysHealthy(s, config, last, c);
      case ExecuteCall(id, around) => ExecuteStaysHealthy(s, config.norm, id, around, last);
      case CleanupCall(candidates, now) =>
        OneLiveLater(s.items, last, now);
        CleanupStaysHealthy(s, candidates, now, |candidates|);
    }
  }

  // ---- Runs ----

  /** `states` is a run: one state before each call and one after the last. */
  predicate IsRun(states: seq<State>, calls: seq<Call>, config: Config, last: int)
    decreases |calls|
  {
    && |states| == |calls| + 1
    && (calls != [] ==>
          && Enabled(states[0], config, last, calls[0])
          && states[1] == After(states[0], config, calls[0])
          && IsRun(states[1..], calls[1..], config, End(calls[0])))
  }

  /** When the `k`-th state of a run came about. */
  function TimeOf(calls: seq<Call>, last: int, k: nat): int
    requires k <= |calls|
  {
    if k == 0 then last else End(calls[k - 1])
  }

  lemma {:induction false} RunStaysHealthy(states: seq<State>, calls: seq<Call>, config: Config, last: int, k: nat)
    requires IsRun(states, calls, config, last) && Healthy(states[0], last) && k <= |calls|
    ensures Healthy(states[k], TimeOf(calls, last, k))
    decreases k
  {
    if k > 0 {
      StepStaysHealthy(states[0], config, last, calls[0]);
      RunStaysHealthy(states[1..], calls[1..], config, End(calls[0]), k - 1);
    }
  }

  /** At every moment of every run from an empty store, each intent key has at
      most one live action. */
  lemma AtMostOneLive(states: seq<State>, calls: seq<Call>, config: Config, last: int, k: nat, now: int, i: Text, j: Text)
    requires IsRun(states, calls, config, last) && states[0] == State(map[], []) && k <= |calls|
    requires TimeOf(calls, last, k) <= now
    requires i in states[k].items && j in states[k].items
    requires states[k].items[i].intentKey == states[k].items[j].intentKey
    requires IsLive(states[k].items[i], now) && IsLive(states[k].items[j], now)
    ensures i == j
  {
    RunStaysHealthy(states, calls, config, last, k);
    OneLiveLater(states[k].items, TimeOf(calls, last, k), now);
  }

  /** In every state of every run each stored action has one `queued` entry and,
      once it has left `Requested`, one transition entry with its status. */
  lemma AuditMatchesStore(states: seq<State>, calls: seq<Call>, config: Config, last: int, k: nat, id: Text)
    requires IsRun(states, calls, config, last) && states[0] == State(map[], []) && k <= |calls|
    requires id in states[k].items
    ensures states[k].items[id].actionId == id
    ensures QueuedEntries(states[k].audit, id) == 1
    ensures Transitions(states[k].audit, id)
            == if states[k].items[id].status == Requested then [] else [Some(states[k].items[id].status)]
  {
    RunStaysHealthy(states, calls, config, last, k);
    assert AuditedFor(states[k], id);
  }

  // ---- Leaving `Requested` ----

  lemma {:induction false} CleanedKeepsSettled(s: State, candidates: seq<Action>, now: int, n: nat, id: Text)
    requires Keyed(s.items) && id in s.items && s.items[id].status != Requested && n <= |candidates|
    ensures Keyed(Cleaned(s, candidates, now, n).items)
    ensures id in Cleaned(s, candidates, now, n).items && Cleaned(s, candidates, now, n).items[id] == s.items[id]
    decreases n
  {
    if n > 0 {
      CleanedKeepsSettled(s, candidates, now, n - 1, id);
    }
  }

  lemma StepKeepsSettled(s: State, config: Config, last: int, c: Call, id: Text)
    requires Healthy(s, last) && Enabled(s, config, last, c) && id in s.items && s.items[id].status != Requested
    ensures id in After(s, config, c).items && After(s, config, c).items[id] == s.items[id]
  {
    match c {
      case QueueCall(_, _, _, _) =>
      case ExecuteCall(e, around) =>
        if e in s.items {
          ClosingLeavesRequested(s.items[e], around.sdk, around.reader, around.writtenAt);
        }
      case CleanupCall(candidates, now) => CleanedKeepsSettled(s, candidates, now, |candidates|, id);
    }
  }

  /** Once an action has left `Requested`, no later call of a run changes it. */
  lemma {:induction false} SettledForGood(states: seq<State>, calls: seq<Call>, config: Config, last: int, k: nat, id: Text)
    requires IsRun(states, calls, config, last) && Healthy(states[0], last) && k <= |calls|
    requires id in states[0].items && states[0].items[id].status != Requested
    ensures id in states[k].items && states[k].items[id] == states[0].items[id]
    decreases k
  {
    if k > 0 {
      StepKeepsSettled(states[0], config, last, calls[0], id);
      StepStaysHealthy(states[0], config, last, calls[0]);
      SettledForGood(states[1..], calls[1..], config, End(calls[0]), k - 1, id);
    }
  }

  /** An execution leaves a stored, unexpired request `Requested` exactly when a
      signer was resolved and the action is an approval that this signer may not
      give; otherwise it leaves `Requested`. It never throws for want of a status. */
  lemma ExecutionSettlesUnlessRejected(s: State, norm: Text -> Text, id: Text, around: Surroundings)
    requires Keyed(s.items) && id in s.items && s.items[id].status == Requested
    ensures var (after, reply) := ExecuteStep(s, norm, id, around);
            && id in after.items
            && (after.items[id].status == Requested <==>
                  && !IsExpiredRequested(s.items[id], around.checkedAt)
                  && around.signer.Some?
                  && !SignerMayExecute(norm, s.items[id], around.signer.value))
            && (after.items[id].status != Requested ==> reply == Returned(after.items[id]))
            && !reply.ResolverThrew? && !reply.NotFound?
  {
    ClosingLeavesRequested(s.items[id], around.sdk, around.reader, around.writtenAt);
  }
}

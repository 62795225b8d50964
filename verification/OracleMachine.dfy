/** Oracle triggers against trades that only move forward, under any interleaving
    of requests, retries, approvals, re-drives and confirmation polls. Every read,
    contract call and table write is a step of its own, and a task may stop at any
    point. */
module OracleMachine {
  import opened Texts
  import opened Oracle

  /** One run of the retry loop: the action it is for and how often it has reached
      the contract call. */
  datatype Launch = Launch(tradeId: nat, kind: TriggerType, calls: nat)

  /** What a task has found out so far and is about to do. Tasks in the retry loop
      name their launch. */
  datatype Task =
    /** The trade passed validation; a row is to be inserted. */
    | Creating(kind: TriggerType, tradeId: nat, awaitApproval: bool)
    /** The row is to be marked as awaiting approval. */
    | Marking(key: Text)
    /** The retry loop is about to read the trade. */
    | Retrying(key: Text, attempt: nat, launch: nat)
    /** The trade passed validation. */
    | Checked(key: Text, attempt: nat, launch: nat)
    /** The row is marked as executing; the contract call comes next. */
    | Calling(key: Text, attempt: nat, launch: nat)
    /** The contract call succeeded. */
    | Landed(key: Text, attempt: nat, launch: nat, txHash: Text)
    /** An attempt failed; the next status is to be written. */
    | Failing(key: Text, attempt: nat, launch: nat, isTerminal: bool)
    /** An exhausted row was found for a re-drive request. */
    | Redriving(key: Text)
    /** The re-drive's validation failed, so the row is to be confirmed. */
    | RedriveRefused(key: Text)
    /** The poll read the row as submitted. */
    | Polled(key: Text)
    /** The fallback saw the trade advanced. */
    | SawAdvance(key: Text)
    /** The indexer returned the transaction's event. */
    | SawEvent(key: Text)
    /** The row is past the hard timeout. */
    | SawTimeout(key: Text)

  datatype State = State(
    now: int,
    trades: map<nat, Trade>,
    rows: map<Text, Trigger>,
    tasks: map<nat, Task>,
    launches: seq<Launch>)

  datatype Step =
    | Tick(time: int)
    | Lock(tradeId: nat)
    | Move(tradeId: nat, to: TradeStatus, arrival: int)
    | Request(t: nat, kind: TriggerType, tradeId: nat, awaitApproval: bool)
    | RequestRedrive(t: nat, key: Text)
    | ReadForRedrive(t: nat)
    | Insert(t: nat, key: Text)
    | Reuse(t: nat, key: Text)
    | Mark(t: nat)
    | Approve(t: nat, key: Text)
    | Reject(key: Text)
    | ReadTrade(t: nat)
    | MarkExecuting(t: nat)
    | CallContract(t: nat, txHash: Text, arrival: int)
    | Fail(t: nat, isTerminal: bool)
    | RecordSubmitted(t: nat)
    | RecordFailure(t: nat)
    | Poll(t: nat, key: Text)
    | CheckOnChain(t: nat)
    | FindEvent(t: nat)
    | TimeOut(t: nat)
    | Confirm(t: nat)
    | Exhaust(t: nat)
    | Stop(t: nat)

  const EMPTY: State := State(0, map[], map[], map[], [])

  /** The contract's documented moves. */
  predicate CanMove(from: TradeStatus, to: TradeStatus) {
    match from
    case Locked => to == InTransit || to == Closed
    case InTransit => to == ArrivalConfirmed || to == Closed
    case ArrivalConfirmed => to == Frozen || to == Closed
    case Frozen => to == Closed
    case Closed => false
  }

  function Moved(trade: Trade, to: TradeStatus, arrival: int): Trade {
    Trade(to, if to == ArrivalConfirmed then Some(arrival) else trade.arrival)
  }

  /** The table's unique index on the action key of active rows. */
  predicate IndexAllows(rows: map<Text, Trigger>, key: Text, row: Trigger) {
    IsActive(row.status) ==>
      forall other :: other in rows && other != key && rows[other].kind == row.kind && rows[other].tradeId == row.tradeId
                      ==> !IsActive(rows[other].status)
  }

  function WithStatus(s: State, key: Text, status: TriggerStatus): Trigger
    requires key in s.rows
  {
    s.rows[key].(status := status)
  }

  predicate CanWrite(s: State, key: Text, status: TriggerStatus) {
    key in s.rows && IndexAllows(s.rows, key, WithStatus(s, key, status))
  }

  predicate KnowsTrade(s: State, key: Text) {
    key in s.rows && s.rows[key].tradeId in s.trades
  }

  /** The trade a row is about. */
  function TradeOf(s: State, key: Text): Trade
    requires KnowsTrade(s, key)
  {
    s.trades[s.rows[key].tradeId]
  }

  predicate Enabled(s: State, step: Step) {
    match step
    case Tick(time) => s.now <= time
    case Lock(tradeId) => tradeId !in s.trades
    case Move(tradeId, to, _) => tradeId in s.trades && CanMove(s.trades[tradeId].status, to)
    case Request(t, kind, tradeId, _) => t !in s.tasks && tradeId in s.trades && Validates(s.trades[tradeId], kind, s.now)
    case RequestRedrive(t, key) => t !in s.tasks && key in s.rows && s.rows[key].status == ExhaustedNeedsRedrive
    case ReadForRedrive(t) => t in s.tasks && s.tasks[t].Redriving? && KnowsTrade(s, s.tasks[t].key)
    case Insert(t, key) =>
      t in s.tasks && s.tasks[t].Creating? && key !in s.rows
      && IndexAllows(s.rows, key, NewRow(s.tasks[t].kind, s.tasks[t].tradeId))
    case Reuse(t, key) =>
      t in s.tasks && s.tasks[t].Creating? && key in s.rows
      && s.rows[key].kind == s.tasks[t].kind && s.rows[key].tradeId == s.tasks[t].tradeId
    case Mark(t) => t in s.tasks && s.tasks[t].Marking? && CanWrite(s, s.tasks[t].key, PendingApproval)
    case Approve(t, key) => t !in s.tasks && key in s.rows && s.rows[key].status == PendingApproval
    case Reject(key) => key in s.rows && s.rows[key].status == PendingApproval
    case ReadTrade(t) => t in s.tasks && s.tasks[t].Retrying? && KnowsTrade(s, s.tasks[t].key)
    case MarkExecuting(t) =>
      t in s.tasks && s.tasks[t].Checked? && s.tasks[t].launch < |s.launches| && CanWrite(s, s.tasks[t].key, Executing)
    case CallContract(t, _, _) =>
      t in s.tasks && s.tasks[t].Calling? && KnowsTrade(s, s.tasks[t].key)
      && TradeOf(s, s.tasks[t].key).status == Source(s.rows[s.tasks[t].key].kind)
    case Fail(t, _) => t in s.tasks && (s.tasks[t].Retrying? || s.tasks[t].Checked? || s.tasks[t].Calling? || s.tasks[t].Landed?)
    case RecordSubmitted(t) => t in s.tasks && s.tasks[t].Landed? && CanWrite(s, s.tasks[t].key, Submitted)
    case RecordFailure(t) => t in s.tasks && s.tasks[t].Failing? && s.tasks[t].key in s.rows
    case Poll(t, key) => t !in s.tasks && key in s.rows && s.rows[key].status == Submitted
    case CheckOnChain(t) => t in s.tasks && s.tasks[t].Polled? && KnowsTrade(s, s.tasks[t].key)
    case FindEvent(t) => t in s.tasks && s.tasks[t].Polled?
    case TimeOut(t) => t in s.tasks && s.tasks[t].Polled?
    case Confirm(t) =>
      t in s.tasks && (s.tasks[t].SawAdvance? || s.tasks[t].SawEvent? || s.tasks[t].RedriveRefused?) && s.tasks[t].key in s.rows
    case Exhaust(t) => t in s.tasks && s.tasks[t].SawTimeout? && s.tasks[t].key in s.rows
    case Stop(t) => t in s.tasks
  }

  function NewRow(kind: TriggerType, tradeId: nat): Trigger {
    Trigger(tradeId, kind, Pending, 0, None)
  }

  function Become(s: State, t: nat, task: Task): State {
    s.(tasks := s.tasks[t := task])
  }

  function End(s: State, t: nat): State {
    s.(tasks := s.tasks - {t})
  }

  function Store(s: State, key: Text, row: Trigger): State {
    s.(rows := s.rows[key := row])
  }

  /** The task starts the retry loop on a row. */
  function Begin(s: State, t: nat, key: Text): State
    requires key in s.rows
  {
    Become(s, t, Retrying(key, 1, |s.launches|)).(
      launches := s.launches + [Launch(s.rows[key].tradeId, s.rows[key].kind, 0)])
  }

  /** Where a task goes once its row exists. */
  function Resume(s: State, t: nat, key: Text, awaitApproval: bool): State
    requires key in s.rows
  {
    if awaitApproval then Become(s, t, Marking(key)) else Begin(s, t, key)
  }

  /** The row is marked, and the launch is about to make one more call. */
  function StartCall(s: State, t: nat): State
    requires t in s.tasks && s.tasks[t].Checked? && s.tasks[t].key in s.rows && s.tasks[t].launch < |s.launches|
  {
    var task := s.tasks[t];
    var launch := s.launches[task.launch];
    Become(Store(s, task.key, WithStatus(s, task.key, Executing).(attempts := task.attempt)), t,
           Calling(task.key, task.attempt, task.launch)).(
      launches := s.launches[task.launch := launch.(calls := launch.calls + 1)])
  }

  /** `maxAttempts` is the retry limit. */
  function Next(s: State, maxAttempts: nat, step: Step): State
    requires Enabled(s, step)
  {
    match step
    case Tick(time) => s.(now := time)
    case Lock(tradeId) => s.(trades := s.trades[tradeId := Trade(Locked, None)])
    case Move(tradeId, to, arrival) => s.(trades := s.trades[tradeId := Moved(s.trades[tradeId], to, arrival)])
    case Request(t, kind, tradeId, awaitApproval) => Become(s, t, Creating(kind, tradeId, awaitApproval))
    case RequestRedrive(t, key) => Become(s, t, Redriving(key))
    case ReadForRedrive(t) =>
      var key := s.tasks[t].key;
      var row := s.rows[key];
      if Validates(TradeOf(s, key), row.kind, s.now) then Become(s, t, Creating(row.kind, row.tradeId, false))
      else Become(s, t, RedriveRefused(key))
    case Insert(t, key) =>
      Resume(Store(s, key, NewRow(s.tasks[t].kind, s.tasks[t].tradeId)), t, key, s.tasks[t].awaitApproval)
    case Reuse(t, key) => Resume(s, t, key, s.tasks[t].awaitApproval)
    case Mark(t) => End(Store(s, s.tasks[t].key, WithStatus(s, s.tasks[t].key, PendingApproval)), t)
    case Approve(t, key) => Begin(Store(s, key, WithStatus(s, key, Pending)), t, key)
    case Reject(key) => Store(s, key, WithStatus(s, key, Rejected))
    case ReadTrade(t) =>
      var task := s.tasks[t];
      if task.attempt > maxAttempts then End(s, t)
      else if Validates(TradeOf(s, task.key), s.rows[task.key].kind, s.now) then
        Become(s, t, Checked(task.key, task.attempt, task.launch))
      else Become(s, t, Failing(task.key, task.attempt, task.launch, true))
    case MarkExecuting(t) => StartCall(s, t)
    case CallContract(t, txHash, arrival) =>
      var task := s.tasks[t];
      var row := s.rows[task.key];
      Become(s, t, Landed(task.key, task.attempt, task.launch, txHash)).(
        trades := s.trades[row.tradeId := Moved(s.trades[row.tradeId], Target(row.kind), arrival)])
    case Fail(t, isTerminal) =>
      var task := s.tasks[t];
      if task.attempt > maxAttempts then End(s, t)
      else Become(s, t, Failing(task.key, task.attempt, task.launch, isTerminal))
    case RecordSubmitted(t) =>
      var task := s.tasks[t];
      End(Store(s, task.key, WithStatus(s, task.key, Submitted).(txHash := Some(task.txHash))), t)
    case RecordFailure(t) =>
      var task := s.tasks[t];
      var status := DetermineNextStatus(task.isTerminal, task.attempt, maxAttempts);
      var after := Store(s, task.key, WithStatus(s, task.key, status).(attempts := task.attempt));
      if status == Failed then Become(after, t, Retrying(task.key, task.attempt + 1, task.launch)) else End(after, t)
    case Poll(t, key) => Become(s, t, Polled(key))
    case CheckOnChain(t) =>
      var key := s.tasks[t].key;
      if IsAdvanced(s.rows[key].kind, TradeOf(s, key).status) then Become(s, t, SawAdvance(key)) else s
    case FindEvent(t) => Become(s, t, SawEvent(s.tasks[t].key))
    case TimeOut(t) => Become(s, t, SawTimeout(s.tasks[t].key))
    case Confirm(t) => End(Store(s, s.tasks[t].key, WithStatus(s, s.tasks[t].key, Confirmed)), t)
    case Exhaust(t) => End(Store(s, s.tasks[t].key, WithStatus(s, s.tasks[t].key, ExhaustedNeedsRedrive)), t)
    case Stop(t) => End(s, t)
  }

  // ---- The invariant ----

  /** The trade has reached the trigger's source status (and, for finalizing, its
      dispute window has passed). */
  predicate Reached(s: State, kind: TriggerType, tradeId: nat) {
    && tradeId in s.trades
    && Rank(s.trades[tradeId].status) >= Rank(Source(kind))
    && (kind == FinalizeTrade ==>
          s.trades[tradeId].arrival.Some? && s.now > s.trades[tradeId].arrival.value + DISPUTE_WINDOW_MS)
  }

  /** The trade has left the trigger's source status for good. */
  predicate Past(s: State, kind: TriggerType, tradeId: nat) {
    tradeId in s.trades && Rank(s.trades[tradeId].status) > Rank(Source(kind))
  }

  predicate RowAgrees(s: State, row: Trigger) {
    && Reached(s, row.kind, row.tradeId)
    && (row.status == Submitted || row.status == Confirmed ==> Past(s, row.kind, row.tradeId))
  }

  predicate TaskAgrees(s: State, task: Task) {
    match task
    case Creating(kind, tradeId, _) => Reached(s, kind, tradeId)
    case Landed(key, _, _, _) => key in s.rows && Past(s, s.rows[key].kind, s.rows[key].tradeId)
    case RedriveRefused(key) => key in s.rows && Past(s, s.rows[key].kind, s.rows[key].tradeId)
    case Polled(key) => key in s.rows && Past(s, s.rows[key].kind, s.rows[key].tradeId)
    case SawAdvance(key) => key in s.rows && Past(s, s.rows[key].kind, s.rows[key].tradeId)
    case SawEvent(key) => key in s.rows && Past(s, s.rows[key].kind, s.rows[key].tradeId)
    case Marking(key) => key in s.rows
    case Retrying(key, _, _) => key in s.rows
    case Checked(key, _, _) => key in s.rows
    case Calling(key, _, _) => key in s.rows
    case Failing(key, _, _, _) => key in s.rows
    case Redriving(key) => key in s.rows
    case SawTimeout(key) => key in s.rows
  }

  ghost predicate Inv(s: State) {
    && (forall key :: key in s.rows ==> RowAgrees(s, s.rows[key]))
    && (forall t :: t in s.tasks ==> TaskAgrees(s, s.tasks[t]))
  }

  /** Time and trades only move forward, rows keep what they are triggers for. */
  predicate Forward(s: State, after: State) {
    && s.now <= after.now
    && (forall id :: id in s.trades ==>
          && id in after.trades
          && Rank(s.trades[id].status) <= Rank(after.trades[id].status)
          && (Rank(s.trades[id].status) >= 2 ==> after.trades[id].arrival == s.trades[id].arrival))
    && (forall key :: key in s.rows ==>
          key in after.rows && after.rows[key].kind == s.rows[key].kind && after.rows[key].tradeId == s.rows[key].tradeId)
  }

  lemma ForwardKeeps(s: State, after: State, kind: TriggerType, tradeId: nat)
    requires Forward(s, after)
    ensures Reached(s, kind, tradeId) ==> Reached(after, kind, tradeId)
    ensures Past(s, kind, tradeId) ==> Past(after, kind, tradeId)
  {
  }

  lemma ForwardKeepsTask(s: State, after: State, task: Task)
    requires Forward(s, after) && TaskAgrees(s, task)
    ensures TaskAgrees(after, task)
  {
    if task.Creating? {
      ForwardKeeps(s, after, task.kind, task.tradeId);
    } else {
      ForwardKeeps(s, after, s.rows[task.key].kind, s.rows[task.key].tradeId);
    }
  }

  /** A forward step keeps the invariant if what it changes agrees afterwards. */
  lemma ForwardKeepsInv(s: State, after: State)
    requires Inv(s) && Forward(s, after)
    requires forall key :: key in after.rows ==>
               (key in s.rows && after.rows[key] == s.rows[key]) || RowAgrees(after, after.rows[key])
    requires forall t :: t in after.tasks ==>
               (t in s.tasks && after.tasks[t] == s.tasks[t]) || TaskAgrees(after, after.tasks[t])
    ensures Inv(after)
  {
    forall key | key in after.rows ensures RowAgrees(after, after.rows[key]) {
      if key in s.rows && after.rows[key] == s.rows[key] {
        assert RowAgrees(s, s.rows[key]);
        ForwardKeeps(s, after, s.rows[key].kind, s.rows[key].tradeId);
      }
    }
    forall t | t in after.tasks ensures TaskAgrees(after, after.tasks[t]) {
      if t in s.tasks && after.tasks[t] == s.tasks[t] {
        ForwardKeepsTask(s, after, s.tasks[t]);
      }
    }
  }

  /** Writing a row's status keeps the invariant unless it claims the trade is past too soon. */
  lemma WriteKeepsInv(s: State, key: Text, row: Trigger, tasks: map<nat, Task>)
    requires Inv(s) && key in s.rows && row.kind == s.rows[key].kind && row.tradeId == s.rows[key].tradeId
    requires row.status == Submitted || row.status == Confirmed ==> Past(s, row.kind, row.tradeId)
    requires forall t :: t in tasks ==> (t in s.tasks && tasks[t] == s.tasks[t]) || TaskAgrees(s, tasks[t])
    ensures Inv(s.(rows := s.rows[key := row], tasks := tasks))
  {
    var after := s.(rows := s.rows[key := row], tasks := tasks);
    assert RowAgrees(s, s.rows[key]);
    assert Forward(s, after);
    forall t | t in tasks ensures TaskAgrees(after, tasks[t]) {
      ForwardKeepsTask(s, after, tasks[t]);
    }
    ForwardKeepsInv(s, after);
  }

  lemma TasksKeepInv(s: State, tasks: map<nat, Task>)
    requires Inv(s)
    requires forall t :: t in tasks ==> (t in s.tasks && tasks[t] == s.tasks[t]) || TaskAgrees(s, tasks[t])
    ensures Inv(s.(tasks := tasks))
  {
    var after := s.(tasks := tasks);
    forall t | t in tasks ensures TaskAgrees(after, tasks[t]) {
      ForwardKeepsTask(s, after, tasks[t]);
    }
    ForwardKeepsInv(s, after);
  }

  lemma InsertKeepsInv(s: State, key: Text, row: Trigger, tasks: map<nat, Task>)
    requires Inv(s) && key !in s.rows && row.status == Pending && Reached(s, row.kind, row.tradeId)
    requires var after := s.(rows := s.rows[key := row]);
             forall t :: t in tasks ==> (t in s.tasks && tasks[t] == s.tasks[t]) || TaskAgrees(after, tasks[t])
    ensures Inv(s.(rows := s.rows[key := row], tasks := tasks))
  {
    var grown := s.(rows := s.rows[key := row]);
    ForwardKeepsInv(s, grown);
    TasksKeepInv(grown, tasks);
  }

  /** The invariant does not speak of the call counts. */
  lemma LaunchesDoNotMatter(s: State, after: State)
    requires Inv(s) && after == s.(launches := after.launches)
    ensures Inv(after)
  {
    ForwardKeepsInv(s, after);
  }

  lemma TradesKeepInv(s: State, after: State)
    requires Inv(s) && Forward(s, after) && after.rows == s.rows && after.tasks == s.tasks
    ensures Inv(after)
  {
    ForwardKeepsInv(s, after);
  }

  lemma MoveIsForward(s: State, tradeId: nat, to: TradeStatus, arrival: int)
    requires tradeId in s.trades && CanMove(s.trades[tradeId].status, to)
    ensures Forward(s, s.(trades := s.trades[tradeId := Moved(s.trades[tradeId], to, arrival)]))
  {
  }

  /** A landed call takes the trade past the trigger's source. */
  lemma CallKeepsInv(s: State, maxAttempts: nat, t: nat, txHash: Text, arrival: int)
    requires Inv(s) && Enabled(s, CallContract(t, txHash, arrival))
    ensures Inv(Next(s, maxAttempts, CallContract(t, txHash, arrival)))
  {
    var key := s.tasks[t].key;
    var row := s.rows[key];
    var to := Target(row.kind);
    MoveIsForward(s, row.tradeId, to, arrival);
    var moved := s.(trades := s.trades[row.tradeId := Moved(s.trades[row.tradeId], to, arrival)]);
    TradesKeepInv(s, moved);
    TasksKeepInv(moved, moved.tasks[t := Landed(key, s.tasks[t].attempt, s.tasks[t].launch, txHash)]);
  }

  /** A re-drive's validation fails only for a trade that is past the source:
      the row was inserted after a validation, and time has not gone back. */
  lemma RefusedMeansPast(s: State, key: Text)
    requires Inv(s) && key in s.rows && !Validates(TradeOf(s, key), s.rows[key].kind, s.now)
    requires KnowsTrade(s, key)
    ensures Past(s, s.rows[key].kind, s.rows[key].tradeId)
  {
    assert RowAgrees(s, s.rows[key]);
  }

  lemma BecomeKeepsInv(s: State, t: nat, task: Task)
    requires Inv(s) && TaskAgrees(s, task)
    ensures Inv(Become(s, t, task))
  {
    TasksKeepInv(s, s.tasks[t := task]);
  }

  lemma RedriveReadKeepsInv(s: State, maxAttempts: nat, t: nat)
    requires Inv(s) && Enabled(s, ReadForRedrive(t))
    ensures Inv(Next(s, maxAttempts, ReadForRedrive(t)))
  {
    var key := s.tasks[t].key;
    var row := s.rows[key];
    assert TaskAgrees(s, s.tasks[t]) && RowAgrees(s, row);
    if Validates(TradeOf(s, key), row.kind, s.now) {
      BecomeKeepsInv(s, t, Creating(row.kind, row.tradeId, false));
    } else {
      RefusedMeansPast(s, key);
      BecomeKeepsInv(s, t, RedriveRefused(key));
    }
  }

  lemma PollKeepsInv(s: State, maxAttempts: nat, step: Step)
    requires Inv(s) && Enabled(s, step)
    requires step.Poll? || step.CheckOnChain? || step.FindEvent? || step.TimeOut?
    ensures Inv(Next(s, maxAttempts, step))
  {
    if step.Poll? {
      assert RowAgrees(s, s.rows[step.key]);
      BecomeKeepsInv(s, step.t, Polled(step.key));
    } else {
      assert TaskAgrees(s, s.tasks[step.t]);
      var key := s.tasks[step.t].key;
      match step {
        case FindEvent(t) => BecomeKeepsInv(s, t, SawEvent(key));
        case TimeOut(t) => BecomeKeepsInv(s, t, SawTimeout(key));
        case CheckOnChain(t) =>
          if IsAdvanced(s.rows[key].kind, TradeOf(s, key).status) {
            BecomeKeepsInv(s, t, SawAdvance(key));
          }
      }
    }
  }

  lemma ReadKeepsInv(s: State, maxAttempts: nat, step: Step)
    requires Inv(s) && Enabled(s, step)
    requires step.Request? || step.RequestRedrive? || step.Reuse? || step.ReadTrade? || step.Fail? || step.Stop?
    ensures Inv(Next(s, maxAttempts, step))
  {
    if step.Request? {
      BecomeKeepsInv(s, step.t, Creating(step.kind, step.tradeId, step.awaitApproval));
    } else if step.RequestRedrive? {
      BecomeKeepsInv(s, step.t, Redriving(step.key));
    } else {
      assert TaskAgrees(s, s.tasks[step.t]);
      var after := Next(s, maxAttempts, step);
      TasksKeepInv(s, after.tasks);
      LaunchesDoNotMatter(s.(tasks := after.tasks), after);
    }
  }

  lemma TaskWriteKeepsInv(s: State, key: Text, row: Trigger, t: nat, task: Task)
    requires Inv(s) && key in s.rows && row.kind == s.rows[key].kind && row.tradeId == s.rows[key].tradeId
    requires row.status == Submitted || row.status == Confirmed ==> Past(s, row.kind, row.tradeId)
    requires TaskAgrees(s, task)
    ensures Inv(End(Store(s, key, row), t)) && Inv(Become(Store(s, key, row), t, task))
  {
    WriteKeepsInv(s, key, row, s.tasks - {t});
    WriteKeepsInv(s, key, row, s.tasks[t := task]);
  }

  lemma RecordKeepsInv(s: State, maxAttempts: nat, step: Step)
    requires Inv(s) && Enabled(s, step)
    requires step.Mark? || step.Approve? || step.Reject? || step.MarkExecuting? || step.RecordSubmitted?
             || step.RecordFailure? || step.Confirm? || step.Exhaust?
    ensures Inv(Next(s, maxAttempts, step))
  {
    if step.Reject? {
      WriteKeepsInv(s, step.key, WithStatus(s, step.key, Rejected), s.tasks);
    } else if step.Approve? {
      TaskWriteKeepsInv(s, step.key, WithStatus(s, step.key, Pending), step.t, Retrying(step.key, 1, |s.launches|));
      LaunchesDoNotMatter(Become(Store(s, step.key, WithStatus(s, step.key, Pending)), step.t,
                                 Retrying(step.key, 1, |s.launches|)), Next(s, maxAttempts, step));
    } else {
      var task := s.tasks[step.t];
      assert TaskAgrees(s, task);
      var after := Next(s, maxAttempts, step);
      TaskWriteKeepsInv(s, task.key, after.rows[task.key], step.t,
                        if step.t in after.tasks then after.tasks[step.t] else task);
      LaunchesDoNotMatter(after.(launches := s.launches), after);
    }
  }

  lemma EnvironmentKeepsInv(s: State, maxAttempts: nat, step: Step)
    requires Inv(s) && Enabled(s, step) && (step.Tick? || step.Lock? || step.Move?)
    ensures Inv(Next(s, maxAttempts, step))
  {
    if step.Move? {
      MoveIsForward(s, step.tradeId, step.to, step.arrival);
    }
    TradesKeepInv(s, Next(s, maxAttempts, step));
  }

  lemma InsertStepKeepsInv(s: State, maxAttempts: nat, step: Step)
    requires Inv(s) && Enabled(s, step) && step.Insert?
    ensures Inv(Next(s, maxAttempts, step))
  {
    assert TaskAgrees(s, s.tasks[step.t]);
    var row := NewRow(s.tasks[step.t].kind, s.tasks[step.t].tradeId);
    var after := Next(s, maxAttempts, step);
    InsertKeepsInv(s, step.key, row, after.tasks);
    LaunchesDoNotMatter(s.(rows := s.rows[step.key := row], tasks := after.tasks), after);
  }

  lemma StepKeepsInv(s: State, maxAttempts: nat, step: Step)
    requires Inv(s) && Enabled(s, step)
    ensures Inv(Next(s, maxAttempts, step))
  {
    if step.Tick? || step.Lock? || step.Move? {
      EnvironmentKeepsInv(s, maxAttempts, step);
    } else if step.Insert? {
      InsertStepKeepsInv(s, maxAttempts, step);
    } else if step.CallContract? {
      CallKeepsInv(s, maxAttempts, step.t, step.txHash, step.arrival);
    } else if step.Mark? || step.Approve? || step.Reject? || step.MarkExecuting? || step.RecordSubmitted?
              || step.RecordFailure? || step.Confirm? || step.Exhaust? {
      RecordKeepsInv(s, maxAttempts, step);
    } else if step.Poll? || step.CheckOnChain? || step.FindEvent? || step.TimeOut? {
      PollKeepsInv(s, maxAttempts, step);
    } else if step.ReadForRedrive? {
      RedriveReadKeepsInv(s, maxAttempts, step.t);
    } else {
      ReadKeepsInv(s, maxAttempts, step);
    }
  }

  // ---- Runs ----

  predicate IsRun(states: seq<State>, steps: seq<Step>, maxAttempts: nat) {
    && |states| == |steps| + 1
    && forall i :: 0 <= i < |steps| ==>
         Enabled(states[i], steps[i]) && states[i + 1] == Next(states[i], maxAttempts, steps[i])
  }

  lemma {:induction false} RunKeepsInv(states: seq<State>, steps: seq<Step>, maxAttempts: nat, k: nat)
    requires IsRun(states, steps, maxAttempts) && states[0] == EMPTY && k <= |steps|
    ensures Inv(states[k])
  {
    if k > 0 {
      RunKeepsInv(states, steps, maxAttempts, k - 1);
      StepKeepsInv(states[k - 1], maxAttempts, steps[k - 1]);
    }
  }

  /** In every reachable state each trigger's trade is at or past its source
      status; it is strictly past it once the trigger is submitted or confirmed,
      by whatever route; and the fallback's test says exactly that. */
  lemma TriggersFollowTrades(states: seq<State>, steps: seq<Step>, maxAttempts: nat, k: nat, key: Text)
    requires IsRun(states, steps, maxAttempts) && states[0] == EMPTY && k <= |steps| && key in states[k].rows
    ensures var row := states[k].rows[key];
            && row.tradeId in states[k].trades
            && var status := states[k].trades[row.tradeId].status;
               && Rank(status) >= Rank(Source(row.kind))
               && (row.status == Submitted || row.status == Confirmed ==> Rank(status) > Rank(Source(row.kind)))
               && (IsAdvanced(row.kind, status) <==> Rank(status) > Rank(Source(row.kind)))
  {
    RunKeepsInv(states, steps, maxAttempts, k);
    assert RowAgrees(states[k], states[k].rows[key]);
  }

  /** A re-drive that cannot validate may confirm: the action's source is left for good. */
  lemma RedriveConfirmsRightly(states: seq<State>, steps: seq<Step>, maxAttempts: nat, k: nat, key: Text)
    requires IsRun(states, steps, maxAttempts) && states[0] == EMPTY && k <= |steps| && KnowsTrade(states[k], key)
    ensures !Validates(TradeOf(states[k], key), states[k].rows[key].kind, states[k].now) <==>
            Rank(TradeOf(states[k], key).status) > Rank(Source(states[k].rows[key].kind))
  {
    RunKeepsInv(states, steps, maxAttempts, k);
    assert RowAgrees(states[k], states[k].rows[key]);
  }
}

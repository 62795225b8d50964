/** What the oracle itself bounds: how often an action reaches the contract call,
    and how many of its rows are active, in any interleaving. */
module OracleAttempts {
  import opened Texts
  import opened Oracle
  import opened OracleMachine

  // ---- The retry budget ----

  predicate InLoop(task: Task) {
    task.Retrying? || task.Checked? || task.Calling? || task.Landed? || task.Failing?
  }

  /** The calls the launch may still make. */
  function CallsLeft(task: Task, maxAttempts: nat): int
    requires InLoop(task)
  {
    if task.Retrying? || task.Checked? then maxAttempts + 1 - task.attempt else maxAttempts - task.attempt
  }

  predicate IsFor(launch: Launch, row: Trigger) {
    launch.tradeId == row.tradeId && launch.kind == row.kind
  }

  predicate LoopAgrees(s: State, maxAttempts: nat, task: Task) {
    InLoop(task) ==>
      && task.key in s.rows && task.launch < |s.launches| && IsFor(s.launches[task.launch], s.rows[task.key])
      && (if task.Checked? then 1 else 0) <= CallsLeft(task, maxAttempts)
      && s.launches[task.launch].calls + CallsLeft(task, maxAttempts) <= maxAttempts
  }

  /** No two tasks run the same launch. */
  predicate OwnLaunches(s: State) {
    forall t, u :: t in s.tasks && u in s.tasks && t != u && InLoop(s.tasks[t]) && InLoop(s.tasks[u]) ==>
      s.tasks[t].launch != s.tasks[u].launch
  }

  ghost predicate Budgeted(s: State, maxAttempts: nat) {
    && (forall t :: t in s.tasks ==> LoopAgrees(s, maxAttempts, s.tasks[t]))
    && OwnLaunches(s)
    && (forall l :: 0 <= l < |s.launches| ==> s.launches[l].calls <= maxAttempts)
  }

  /** Rows are not removed and keep what they are triggers for. */
  predicate RowsKept(s: State, after: State) {
    forall key :: key in s.rows ==>
      key in after.rows && after.rows[key].kind == s.rows[key].kind && after.rows[key].tradeId == s.rows[key].tradeId
  }

  /** Only task `t` differs. */
  ghost predicate OnlyTask(s: State, after: State, t: nat) {
    forall u :: u != t ==> (u in s.tasks <==> u in after.tasks) && (u in s.tasks ==> after.tasks[u] == s.tasks[u])
  }

  /** A task that goes on with its launch, or leaves the loop, keeps the budget. */
  lemma MoveOnKeepsBudget(s: State, after: State, maxAttempts: nat, t: nat)
    requires Budgeted(s, maxAttempts) && RowsKept(s, after) && OnlyTask(s, after, t) && after.launches == s.launches
    requires t in after.tasks && InLoop(after.tasks[t]) ==>
               && t in s.tasks && InLoop(s.tasks[t])
               && after.tasks[t].key == s.tasks[t].key && after.tasks[t].launch == s.tasks[t].launch
               && (if after.tasks[t].Checked? then 1 else 0) <= CallsLeft(after.tasks[t], maxAttempts)
                                                             <= CallsLeft(s.tasks[t], maxAttempts)
    ensures Budgeted(after, maxAttempts)
  {
    forall u | u in after.tasks ensures LoopAgrees(after, maxAttempts, after.tasks[u]) {
      assert u in s.tasks ==> LoopAgrees(s, maxAttempts, s.tasks[u]);
    }
  }

  lemma BeginKeepsBudget(s: State, maxAttempts: nat, t: nat, key: Text)
    requires Budgeted(s, maxAttempts) && key in s.rows && (t in s.tasks ==> !InLoop(s.tasks[t]))
    ensures Budgeted(Begin(s, t, key), maxAttempts)
  {
    var after := Begin(s, t, key);
    forall u | u in after.tasks ensures LoopAgrees(after, maxAttempts, after.tasks[u]) {
      assert u in s.tasks ==> LoopAgrees(s, maxAttempts, s.tasks[u]);
    }
    forall u, v | u in after.tasks && v in after.tasks && u != v && InLoop(after.tasks[u]) && InLoop(after.tasks[v])
      ensures after.tasks[u].launch != after.tasks[v].launch
    {
      assert u != t ==> LoopAgrees(s, maxAttempts, s.tasks[u]);
      assert v != t ==> LoopAgrees(s, maxAttempts, s.tasks[v]);
    }
  }

  lemma CallKeepsBudget(s: State, maxAttempts: nat, t: nat)
    requires Budgeted(s, maxAttempts) && t in s.tasks && s.tasks[t].Checked?
    requires s.tasks[t].key in s.rows && s.tasks[t].launch < |s.launches|
    ensures Budgeted(StartCall(s, t), maxAttempts)
  {
    var after := StartCall(s, t);
    assert LoopAgrees(s, maxAttempts, s.tasks[t]);
    forall u | u in after.tasks ensures LoopAgrees(after, maxAttempts, after.tasks[u]) {
      assert LoopAgrees(s, maxAttempts, s.tasks[u]);
    }
  }

  /** The task that takes the step, if one does. */
  function TaskOf(step: Step): nat {
    match step
    case Request(t, _, _, _) => t
    case RequestRedrive(t, _) => t
    case ReadForRedrive(t) => t
    case Insert(t, _) => t
    case Reuse(t, _) => t
    case Mark(t) => t
    case Approve(t, _) => t
    case ReadTrade(t) => t
    case MarkExecuting(t) => t
    case CallContract(t, _, _) => t
    case Fail(t, _) => t
    case RecordSubmitted(t) => t
    case RecordFailure(t) => t
    case Poll(t, _) => t
    case CheckOnChain(t) => t
    case FindEvent(t) => t
    case TimeOut(t) => t
    case Confirm(t) => t
    case Exhaust(t) => t
    case Stop(t) => t
    case _ => 0
  }

  /** Steps that start a retry loop or make a call. */
  predicate Launching(step: Step) {
    step.Insert? || step.Reuse? || step.Approve? || step.MarkExecuting?
  }

  lemma OtherStepsMoveOn(s: State, maxAttempts: nat, step: Step)
    requires Enabled(s, step) && !Launching(step)
    ensures var after := Next(s, maxAttempts, step);
            RowsKept(s, after) && OnlyTask(s, after, TaskOf(step)) && after.launches == s.launches
  {
  }

  lemma LoopStepKeepsBudget(s: State, maxAttempts: nat, step: Step)
    requires Budgeted(s, maxAttempts) && Enabled(s, step) && !Launching(step)
    ensures Budgeted(Next(s, maxAttempts, step), maxAttempts)
  {
    OtherStepsMoveOn(s, maxAttempts, step);
    var t := TaskOf(step);
    assert t in s.tasks ==> LoopAgrees(s, maxAttempts, s.tasks[t]);
    MoveOnKeepsBudget(s, Next(s, maxAttempts, step), maxAttempts, t);
  }

  lemma LaunchingStepKeepsBudget(s: State, maxAttempts: nat, step: Step)
    requires Budgeted(s, maxAttempts) && Enabled(s, step) && Launching(step)
    ensures Budgeted(Next(s, maxAttempts, step), maxAttempts)
  {
    match step {
      case MarkExecuting(t) => CallKeepsBudget(s, maxAttempts, t);
      case Approve(t, key) =>
        var stored := Store(s, key, WithStatus(s, key, Pending));
        MoveOnKeepsBudget(s, stored, maxAttempts, t);
        BeginKeepsBudget(stored, maxAttempts, t, key);
      case Insert(t, key) =>
        var stored := Store(s, key, NewRow(s.tasks[t].kind, s.tasks[t].tradeId));
        MoveOnKeepsBudget(s, stored, maxAttempts, t);
        ResumeKeepsBudget(stored, maxAttempts, t, key, s.tasks[t].awaitApproval);
      case Reuse(t, key) => ResumeKeepsBudget(s, maxAttempts, t, key, s.tasks[t].awaitApproval);
    }
  }

  lemma ResumeKeepsBudget(s: State, maxAttempts: nat, t: nat, key: Text, awaitApproval: bool)
    requires Budgeted(s, maxAttempts) && key in s.rows && t in s.tasks && s.tasks[t].Creating?
    ensures Budgeted(Resume(s, t, key, awaitApproval), maxAttempts)
  {
    if awaitApproval {
      MoveOnKeepsBudget(s, Become(s, t, Marking(key)), maxAttempts, t);
    } else {
      BeginKeepsBudget(s, maxAttempts, t, key);
    }
  }

  lemma StepKeepsBudget(s: State, maxAttempts: nat, step: Step)
    requires Budgeted(s, maxAttempts) && Enabled(s, step)
    ensures Budgeted(Next(s, maxAttempts, step), maxAttempts)
  {
    if Launching(step) {
      LaunchingStepKeepsBudget(s, maxAttempts, step);
    } else {
      LoopStepKeepsBudget(s, maxAttempts, step);
    }
  }

  lemma {:induction false} RunKeepsBudget(states: seq<State>, steps: seq<Step>, maxAttempts: nat, k: nat)
    requires IsRun(states, steps, maxAttempts) && states[0] == EMPTY && k <= |steps|
    ensures Budgeted(states[k], maxAttempts)
  {
    if k > 0 {
      RunKeepsBudget(states, steps, maxAttempts, k - 1);
      StepKeepsBudget(states[k - 1], maxAttempts, steps[k - 1]);
    }
  }

  /** The calls made for an action by its first `n` launches, and by all launches. */
  function CallsBy(launches: seq<Launch>, n: nat, tradeId: nat, kind: TriggerType): nat
    requires n <= |launches|
  {
    if n == 0 then 0
    else CallsBy(launches, n - 1, tradeId, kind)
         + if launches[n - 1].tradeId == tradeId && launches[n - 1].kind == kind then launches[n - 1].calls else 0
  }

  function LaunchesBy(launches: seq<Launch>, n: nat, tradeId: nat, kind: TriggerType): nat
    requires n <= |launches|
  {
    if n == 0 then 0
    else LaunchesBy(launches, n - 1, tradeId, kind)
         + if launches[n - 1].tradeId == tradeId && launches[n - 1].kind == kind then 1 else 0
  }

  lemma {:induction false} CallsPerLaunch(launches: seq<Launch>, n: nat, tradeId: nat, kind: TriggerType, most: nat)
    requires n <= |launches| && forall l :: 0 <= l < |launches| ==> launches[l].calls <= most
    ensures CallsBy(launches, n, tradeId, kind) <= most * LaunchesBy(launches, n, tradeId, kind)
  {
    if n > 0 {
      CallsPerLaunch(launches, n - 1, tradeId, kind, most);
      var before := LaunchesBy(launches, n - 1, tradeId, kind);
      assert most * (before + 1) == most * before + most;
    }
  }

  /** The step starts the retry loop for the action: a request or re-drive that got
      its row and awaits no approval, or an approval. */
  predicate Starts(s: State, step: Step, tradeId: nat, kind: TriggerType) {
    match step
    case Insert(t, _) =>
      t in s.tasks && s.tasks[t].Creating? && !s.tasks[t].awaitApproval
      && s.tasks[t].tradeId == tradeId && s.tasks[t].kind == kind
    case Reuse(t, _) =>
      t in s.tasks && s.tasks[t].Creating? && !s.tasks[t].awaitApproval
      && s.tasks[t].tradeId == tradeId && s.tasks[t].kind == kind
    case Approve(_, key) => key in s.rows && s.rows[key].tradeId == tradeId && s.rows[key].kind == kind
    case _ => false
  }

  /** How often the first `k` steps start the loop for the action. */
  function StartsIn(states: seq<State>, steps: seq<Step>, k: nat, tradeId: nat, kind: TriggerType): nat
    requires k <= |steps| && |states| == |steps| + 1
  {
    if k == 0 then 0
    else StartsIn(states, steps, k - 1, tradeId, kind) + if Starts(states[k - 1], steps[k - 1], tradeId, kind) then 1 else 0
  }

  lemma {:induction false} SameActionsSameCount(a: seq<Launch>, b: seq<Launch>, n: nat, tradeId: nat, kind: TriggerType)
    requires n <= |a| && n <= |b|
    requires forall l :: 0 <= l < n ==> a[l].tradeId == b[l].tradeId && a[l].kind == b[l].kind
    ensures LaunchesBy(a, n, tradeId, kind) == LaunchesBy(b, n, tradeId, kind)
  {
    if n > 0 {
      SameActionsSameCount(a, b, n - 1, tradeId, kind);
    }
  }

  lemma BeginsAreStarts(s: State, maxAttempts: nat, step: Step, tradeId: nat, kind: TriggerType)
    requires Enabled(s, step)
    ensures var before, after := s.launches, Next(s, maxAttempts, step).launches;
            LaunchesBy(after, |after|, tradeId, kind) == LaunchesBy(before, |before|, tradeId, kind)
                                                         + if Starts(s, step, tradeId, kind) then 1 else 0
  {
    var before, after := s.launches, Next(s, maxAttempts, step).launches;
    if !Launching(step) {
      OtherStepsMoveOn(s, maxAttempts, step);
    } else {
      assert |before| <= |after| <= |before| + 1;
      SameActionsSameCount(before, after, |before|, tradeId, kind);
    }
  }

  lemma {:induction false} LaunchesAreStarts(states: seq<State>, steps: seq<Step>, maxAttempts: nat, k: nat, tradeId: nat, kind: TriggerType)
    requires IsRun(states, steps, maxAttempts) && states[0] == EMPTY && k <= |steps|
    ensures LaunchesBy(states[k].launches, |states[k].launches|, tradeId, kind) == StartsIn(states, steps, k, tradeId, kind)
  {
    if k > 0 {
      LaunchesAreStarts(states, steps, maxAttempts, k - 1, tradeId, kind);
      BeginsAreStarts(states[k - 1], maxAttempts, steps[k - 1], tradeId, kind);
    }
  }

  /** In any interleaving, an action reaches the contract call at most `maxAttempts`
      times for each time its loop was started: by a request, a re-drive or an approval. */
  lemma CallsAreBudgeted(states: seq<State>, steps: seq<Step>, maxAttempts: nat, k: nat, tradeId: nat, kind: TriggerType)
    requires IsRun(states, steps, maxAttempts) && states[0] == EMPTY && k <= |steps|
    ensures CallsBy(states[k].launches, |states[k].launches|, tradeId, kind)
            <= maxAttempts * StartsIn(states, steps, k, tradeId, kind)
  {
    RunKeepsBudget(states, steps, maxAttempts, k);
    CallsPerLaunch(states[k].launches, |states[k].launches|, tradeId, kind, maxAttempts);
    LaunchesAreStarts(states, steps, maxAttempts, k, tradeId, kind);
  }

  // ---- No calls once the trade has moved on ----

  /** Some task of the launch has validated the trade and is about to call. */
  predicate IsChecked(s: State, l: nat) {
    exists t :: t in s.tasks && s.tasks[t].Checked? && s.tasks[t].launch == l
  }

  /** The calls made by a launch, and the one it is committed to. */
  function Committed(s: State, l: nat): nat {
    if l >= |s.launches| then 0 else s.launches[l].calls + if IsChecked(s, l) then 1 else 0
  }

  predicate PastLaunch(s: State, l: nat) {
    l < |s.launches| ==> Past(s, s.launches[l].kind, s.launches[l].tradeId)
  }

  lemma ReadCommitsNothing(s: State, maxAttempts: nat, t: nat, l: nat)
    requires Budgeted(s, maxAttempts) && Enabled(s, ReadTrade(t)) && PastLaunch(s, l)
    ensures Committed(Next(s, maxAttempts, ReadTrade(t)), l) <= Committed(s, l)
  {
    var after := Next(s, maxAttempts, ReadTrade(t));
    assert LoopAgrees(s, maxAttempts, s.tasks[t]);
    if u :| u in after.tasks && after.tasks[u].Checked? && after.tasks[u].launch == l && l < |s.launches| {
      assert u != t;
      assert u in s.tasks && s.tasks[u] == after.tasks[u];
    }
  }

  lemma CallUsesCommitment(s: State, maxAttempts: nat, t: nat, l: nat)
    requires Budgeted(s, maxAttempts) && Enabled(s, MarkExecuting(t))
    ensures Committed(StartCall(s, t), l) <= Committed(s, l)
  {
    var after := StartCall(s, t);
    if u :| u in after.tasks && after.tasks[u].Checked? && after.tasks[u].launch == l {
      assert u in s.tasks && s.tasks[u] == after.tasks[u];
      assert u != t && InLoop(s.tasks[u]) && InLoop(s.tasks[t]);
      assert s.tasks[t].launch != l;
    }
  }

  lemma OtherStepsCommitNothing(s: State, maxAttempts: nat, step: Step, l: nat)
    requires Budgeted(s, maxAttempts) && Enabled(s, step) && !step.ReadTrade? && !step.MarkExecuting?
    ensures Committed(Next(s, maxAttempts, step), l) <= Committed(s, l)
  {
    var after := Next(s, maxAttempts, step);
    if u :| u in after.tasks && after.tasks[u].Checked? && after.tasks[u].launch == l {
      assert u in s.tasks && s.tasks[u] == after.tasks[u];
      assert LoopAgrees(s, maxAttempts, s.tasks[u]);
    }
  }

  lemma StepCommitsNothing(s: State, maxAttempts: nat, step: Step, l: nat)
    requires Budgeted(s, maxAttempts) && Enabled(s, step) && PastLaunch(s, l)
    ensures Committed(Next(s, maxAttempts, step), l) <= Committed(s, l)
  {
    match step {
      case ReadTrade(t) => ReadCommitsNothing(s, maxAttempts, t, l);
      case MarkExecuting(t) => CallUsesCommitment(s, maxAttempts, t, l);
      case _ => OtherStepsCommitNothing(s, maxAttempts, step, l);
    }
  }

  lemma PastStaysPast(s: State, maxAttempts: nat, step: Step, tradeId: nat, kind: TriggerType)
    requires Enabled(s, step) && Past(s, kind, tradeId)
    ensures Past(Next(s, maxAttempts, step), kind, tradeId)
  {
  }

  lemma LaunchKeepsAction(s: State, maxAttempts: nat, step: Step, l: nat)
    requires Enabled(s, step) && l < |s.launches|
    ensures var after := Next(s, maxAttempts, step);
            l < |after.launches| && after.launches[l].tradeId == s.launches[l].tradeId && after.launches[l].kind == s.launches[l].kind
  {
    if !Launching(step) {
      OtherStepsMoveOn(s, maxAttempts, step);
    }
  }

  /** Once a trade has left an action's source status, a launch of the action calls
      at most once more, and only if it had validated the trade before; launches
      started later never call. */
  lemma {:induction false} NoCallsAfterAdvance(states: seq<State>, steps: seq<Step>, maxAttempts: nat, j: nat, k: nat, l: nat)
    requires IsRun(states, steps, maxAttempts) && states[0] == EMPTY && j <= k <= |steps| && l < |states[k].launches|
    requires Past(states[j], states[k].launches[l].kind, states[k].launches[l].tradeId)
    ensures l >= |states[j].launches| ==> states[k].launches[l].calls == 0
    ensures l < |states[j].launches| ==>
              states[k].launches[l].calls <= states[j].launches[l].calls + if IsChecked(states[j], l) then 1 else 0
  {
    CommitmentOnlyFalls(states, steps, maxAttempts, j, k, l, states[k].launches[l].tradeId, states[k].launches[l].kind);
  }

  /** Launch `l`, if there is one yet, is for the action. */
  predicate LaunchIsFor(s: State, l: nat, tradeId: nat, kind: TriggerType) {
    l < |s.launches| ==> s.launches[l].tradeId == tradeId && s.launches[l].kind == kind
  }

  lemma {:induction false} EarlierLaunchIsFor(states: seq<State>, steps: seq<Step>, maxAttempts: nat, i: nat, k: nat, l: nat,
                                              tradeId: nat, kind: TriggerType)
    requires IsRun(states, steps, maxAttempts) && i <= k <= |steps| && LaunchIsFor(states[k], l, tradeId, kind)
    ensures LaunchIsFor(states[i], l, tradeId, kind)
    decreases k
  {
    if i < k {
      if l < |states[k - 1].launches| {
        LaunchKeepsAction(states[k - 1], maxAttempts, steps[k - 1], l);
      }
      EarlierLaunchIsFor(states, steps, maxAttempts, i, k - 1, l, tradeId, kind);
    }
  }

  lemma {:induction false} PastForGood(states: seq<State>, steps: seq<Step>, maxAttempts: nat, j: nat, k: nat, tradeId: nat, kind: TriggerType)
    requires IsRun(states, steps, maxAttempts) && j <= k <= |steps| && Past(states[j], kind, tradeId)
    ensures Past(states[k], kind, tradeId)
  {
    if j < k {
      PastForGood(states, steps, maxAttempts, j, k - 1, tradeId, kind);
      PastStaysPast(states[k - 1], maxAttempts, steps[k - 1], tradeId, kind);
    }
  }

  /** The commitments of launch `l` over the run. */
  function Commitments(states: seq<State>, l: nat): seq<nat> {
    seq(|states|, i requires 0 <= i < |states| => Committed(states[i], l))
  }

  lemma CommitmentFalls(states: seq<State>, steps: seq<Step>, maxAttempts: nat, j: nat, i: nat, k: nat, l: nat,
                        tradeId: nat, kind: TriggerType)
    requires IsRun(states, steps, maxAttempts) && states[0] == EMPTY && j <= i < k <= |steps|
    requires Past(states[j], kind, tradeId) && LaunchIsFor(states[k], l, tradeId, kind)
    ensures Commitments(states, l)[i + 1] <= Commitments(states, l)[i]
  {
    RunKeepsBudget(states, steps, maxAttempts, i);
    PastForGood(states, steps, maxAttempts, j, i, tradeId, kind);
    EarlierLaunchIsFor(states, steps, maxAttempts, i, k, l, tradeId, kind);
    StepCommitsNothing(states[i], maxAttempts, steps[i], l);
  }

  lemma {:induction false} Falls(ns: seq<nat>, j: nat, k: nat)
    requires j <= k < |ns| && forall i :: j <= i < k ==> ns[i + 1] <= ns[i]
    ensures ns[k] <= ns[j]
  {
    if j < k {
      Falls(ns, j, k - 1);
      assert ns[(k - 1) + 1] <= ns[k - 1];
    }
  }

  lemma CommitmentOnlyFalls(states: seq<State>, steps: seq<Step>, maxAttempts: nat, j: nat, k: nat, l: nat,
                            tradeId: nat, kind: TriggerType)
    requires IsRun(states, steps, maxAttempts) && states[0] == EMPTY && j <= k <= |steps|
    requires Past(states[j], kind, tradeId) && LaunchIsFor(states[k], l, tradeId, kind)
    ensures Committed(states[k], l) <= Committed(states[j], l)
  {
    var ns := Commitments(states, l);
    forall i | j <= i < k ensures ns[i + 1] <= ns[i] {
      CommitmentFalls(states, steps, maxAttempts, j, i, k, l, tradeId, kind);
    }
    Falls(ns, j, k);
  }

  // ---- One active row per action ----

  predicate SameAction(a: Trigger, b: Trigger) {
    a.kind == b.kind && a.tradeId == b.tradeId
  }

  predicate OneActive(rows: map<Text, Trigger>) {
    forall a, b :: a in rows && b in rows && a != b && SameAction(rows[a], rows[b]) ==>
      !IsActive(rows[a].status) || !IsActive(rows[b].status)
  }

  lemma WriteKeepsOneActive(rows: map<Text, Trigger>, key: Text, row: Trigger)
    requires OneActive(rows) && (key in rows ==> SameAction(rows[key], row))
    requires IsActive(row.status) ==> (key in rows && IsActive(rows[key].status)) || IndexAllows(rows, key, row)
    ensures OneActive(rows[key := row])
  {
  }

  lemma StepKeepsOneActive(s: State, maxAttempts: nat, step: Step)
    requires Enabled(s, step) && OneActive(s.rows)
    ensures OneActive(Next(s, maxAttempts, step).rows)
  {
    var after := Next(s, maxAttempts, step);
    match step {
      case Insert(t, key) => WriteKeepsOneActive(s.rows, key, NewRow(s.tasks[t].kind, s.tasks[t].tradeId));
      case Approve(_, key) => WriteKeepsOneActive(s.rows, key, after.rows[key]);
      case Reject(key) => WriteKeepsOneActive(s.rows, key, after.rows[key]);
      case Mark(t) => WriteKeepsOneActive(s.rows, s.tasks[t].key, after.rows[s.tasks[t].key]);
      case MarkExecuting(t) => WriteKeepsOneActive(s.rows, s.tasks[t].key, after.rows[s.tasks[t].key]);
      case RecordSubmitted(t) => WriteKeepsOneActive(s.rows, s.tasks[t].key, after.rows[s.tasks[t].key]);
      case RecordFailure(t) => WriteKeepsOneActive(s.rows, s.tasks[t].key, after.rows[s.tasks[t].key]);
      case Confirm(t) => WriteKeepsOneActive(s.rows, s.tasks[t].key, after.rows[s.tasks[t].key]);
      case Exhaust(t) => WriteKeepsOneActive(s.rows, s.tasks[t].key, after.rows[s.tasks[t].key]);
      case _ => assert after.rows == s.rows;
    }
  }

  /** In every reachable state at most one row of an action is active. The unique index
      guards inserts and the writes of `Mark`, `MarkExecuting` and `RecordSubmitted`;
      what is proved is that the others (`Approve`, `Reject`, `RecordFailure`, `Confirm`
      and `Exhaust`) never make an inactive row active. */
  lemma {:induction false} AtMostOneActiveRow(states: seq<State>, steps: seq<Step>, maxAttempts: nat, k: nat)
    requires IsRun(states, steps, maxAttempts) && states[0] == EMPTY && k <= |steps|
    ensures OneActive(states[k].rows)
  {
    if k > 0 {
      AtMostOneActiveRow(states, steps, maxAttempts, k - 1);
      StepKeepsOneActive(states[k - 1], maxAttempts, steps[k - 1]);
    }
  }
}

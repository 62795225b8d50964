/** What the oracle machine can reach: runs that use up every retry, the confirmation
    poll as machine steps, and a run in which a clock that goes back does harm. */
module OracleReach {
  import opened Texts
  import opened Oracle
  import opened OracleMachine
  import opened OracleAttempts
  import Confirmation = OracleConfirmation

  lemma Extend(states: seq<State>, steps: seq<Step>, maxAttempts: nat, step: Step)
    requires IsRun(states, steps, maxAttempts) && Enabled(states[|steps|], step)
    ensures IsRun(states + [Next(states[|steps|], maxAttempts, step)], steps + [step], maxAttempts)
  {
  }

  // ---- A retry loop that always fails ----

  /** Task `t` is about to make attempt `a` of `maxAttempts`, and will pass validation. */
  predicate ReadyToRetry(s: State, t: nat, key: Text, a: nat, l: nat, maxAttempts: nat) {
    && 1 <= a <= maxAttempts && l < |s.launches|
    && t in s.tasks && s.tasks[t] == Retrying(key, a, l)
    && KnowsTrade(s, key) && Validates(TradeOf(s, key), s.rows[key].kind, s.now)
    && CanWrite(s, key, Executing)
  }

  function WithCalls(launches: seq<Launch>, l: nat, more: nat): seq<Launch>
    requires l < |launches|
  {
    launches[l := launches[l].(calls := launches[l].calls + more)]
  }

  /** The state after an attempt whose call failed. */
  function AfterFailure(s: State, t: nat, key: Text, a: nat, l: nat, maxAttempts: nat): State
    requires key in s.rows && l < |s.launches|
  {
    s.(rows := s.rows[key := s.rows[key].(status := if a >= maxAttempts then ExhaustedNeedsRedrive else Failed, attempts := a)],
       tasks := if a >= maxAttempts then s.tasks - {t} else s.tasks[t := Retrying(key, a + 1, l)],
       launches := WithCalls(s.launches, l, 1))
  }

  /** The state in which the call of attempt `a` is about to be made. */
  function AtCall(s: State, t: nat, key: Text, a: nat, l: nat): State
    requires key in s.rows && l < |s.launches|
  {
    s.(rows := s.rows[key := s.rows[key].(status := Executing, attempts := a)],
       tasks := s.tasks[t := Calling(key, a, l)],
       launches := WithCalls(s.launches, l, 1))
  }

  lemma RunToCall(states: seq<State>, steps: seq<Step>, maxAttempts: nat, t: nat, key: Text, a: nat, l: nat)
    returns (states': seq<State>, steps': seq<Step>)
    requires IsRun(states, steps, maxAttempts) && ReadyToRetry(states[|steps|], t, key, a, l, maxAttempts)
    ensures IsRun(states', steps', maxAttempts) && states <= states'
    ensures states'[|steps'|] == AtCall(states[|steps|], t, key, a, l)
  {
    var s := states[|steps|];
    Extend(states, steps, maxAttempts, ReadTrade(t));
    var s1 := Next(s, maxAttempts, ReadTrade(t));
    assert s1 == Become(s, t, Checked(key, a, l));
    Extend(states + [s1], steps + [ReadTrade(t)], maxAttempts, MarkExecuting(t));
    var s2 := Next(s1, maxAttempts, MarkExecuting(t));
    states', steps' := states + [s1] + [s2], steps + [ReadTrade(t)] + [MarkExecuting(t)];
    var end := AtCall(s, t, key, a, l);
    assert s2.rows == end.rows && s2.tasks == end.tasks && s2.launches == end.launches;
  }

  lemma FailOnce(states: seq<State>, steps: seq<Step>, maxAttempts: nat, t: nat, key: Text, a: nat, l: nat)
    returns (states': seq<State>, steps': seq<Step>)
    requires IsRun(states, steps, maxAttempts) && ReadyToRetry(states[|steps|], t, key, a, l, maxAttempts)
    ensures IsRun(states', steps', maxAttempts) && states <= states'
    ensures states'[|steps'|] == AfterFailure(states[|steps|], t, key, a, l, maxAttempts)
  {
    var s := states[|steps|];
    states', steps' := RunToCall(states, steps, maxAttempts, t, key, a, l);
    var s2 := states'[|steps'|];
    Extend(states', steps', maxAttempts, Fail(t, false));
    var s3 := Next(s2, maxAttempts, Fail(t, false));
    assert s3.tasks[t] == Failing(key, a, l, false);
    states', steps' := states' + [s3], steps' + [Fail(t, false)];
    Extend(states', steps', maxAttempts, RecordFailure(t));
    var s4 := Next(s3, maxAttempts, RecordFailure(t));
    states', steps' := states' + [s4], steps' + [RecordFailure(t)];
    var end := AfterFailure(s, t, key, a, l, maxAttempts);
    assert s4.rows == end.rows && s4.tasks == end.tasks && s4.launches == end.launches;
  }

  /** The state after the loop has failed on all attempts from `a` on. */
  function AfterLoop(s: State, t: nat, key: Text, a: nat, l: nat, maxAttempts: nat): State
    requires key in s.rows && l < |s.launches| && a <= maxAttempts
  {
    s.(rows := s.rows[key := s.rows[key].(status := ExhaustedNeedsRedrive, attempts := maxAttempts)],
       tasks := s.tasks - {t},
       launches := WithCalls(s.launches, l, maxAttempts + 1 - a))
  }

  lemma {:induction false} FailAlways(states: seq<State>, steps: seq<Step>, maxAttempts: nat, t: nat, key: Text, a: nat, l: nat)
    returns (states': seq<State>, steps': seq<Step>)
    requires IsRun(states, steps, maxAttempts) && ReadyToRetry(states[|steps|], t, key, a, l, maxAttempts)
    ensures IsRun(states', steps', maxAttempts) && states <= states'
    ensures states'[|steps'|] == AfterLoop(states[|steps|], t, key, a, l, maxAttempts)
    decreases maxAttempts - a
  {
    var s := states[|steps|];
    states', steps' := FailOnce(states, steps, maxAttempts, t, key, a, l);
    var failed := states'[|steps'|];
    var end := AfterLoop(s, t, key, a, l, maxAttempts);
    if a == maxAttempts {
      assert failed == end;
    } else {
      assert ReadyToRetry(failed, t, key, a + 1, l, maxAttempts);
      states', steps' := FailAlways(states', steps', maxAttempts, t, key, a + 1, l);
      LoopGoesOn(s, t, key, a, l, maxAttempts);
    }
  }

  lemma LoopGoesOn(s: State, t: nat, key: Text, a: nat, l: nat, maxAttempts: nat)
    requires key in s.rows && l < |s.launches| && t in s.tasks && a < maxAttempts
    ensures AfterLoop(AfterFailure(s, t, key, a, l, maxAttempts), t, key, a + 1, l, maxAttempts)
            == AfterLoop(s, t, key, a, l, maxAttempts)
  {
    var left := AfterLoop(AfterFailure(s, t, key, a, l, maxAttempts), t, key, a + 1, l, maxAttempts);
    var right := AfterLoop(s, t, key, a, l, maxAttempts);
    assert left.rows == right.rows && left.tasks == right.tasks && left.launches == right.launches;
  }

  // ---- The call budget is attained ----

  function RowKey(n: nat): Text {
    seq(n, i => ZERO)
  }

  /** One trade still locked, whose release has been launched `n` times, each time
      failing on every attempt. */
  predicate Spent(s: State, n: nat, maxAttempts: nat) {
    && s.now == 0 && s.tasks == map[] && s.trades == map[0 := Trade(Locked, None)]
    && |s.launches| == n && (forall l :: 0 <= l < n ==> s.launches[l] == Launch(0, ReleaseStage1, maxAttempts))
    && (forall key :: key in s.rows ==>
          |key| < n && s.rows[key].tradeId == 0 && s.rows[key].kind == ReleaseStage1
          && s.rows[key].status == ExhaustedNeedsRedrive)
    && (n > 0 ==> RowKey(n - 1) in s.rows)
  }

  /** The next launch: a request for the first, a re-drive of the last row for the others. */
  lemma RunToCreating(states: seq<State>, steps: seq<Step>, n: nat, maxAttempts: nat)
    returns (states': seq<State>, steps': seq<Step>)
    requires IsRun(states, steps, maxAttempts) && Spent(states[|steps|], n, maxAttempts)
    ensures IsRun(states', steps', maxAttempts) && states <= states'
    ensures states'[|steps'|] == Become(states[|steps|], 0, Creating(ReleaseStage1, 0, false))
  {
    var s := states[|steps|];
    if n == 0 {
      var request := Request(0, ReleaseStage1, 0, false);
      Extend(states, steps, maxAttempts, request);
      states', steps' := states + [Next(s, maxAttempts, request)], steps + [request];
    } else {
      var redrive := RequestRedrive(0, RowKey(n - 1));
      Extend(states, steps, maxAttempts, redrive);
      var s1 := Next(s, maxAttempts, redrive);
      Extend(states + [s1], steps + [redrive], maxAttempts, ReadForRedrive(0));
      var s2 := Next(s1, maxAttempts, ReadForRedrive(0));
      states', steps' := states + [s1] + [s2], steps + [redrive] + [ReadForRedrive(0)];
      assert s2.tasks == map[0 := Creating(ReleaseStage1, 0, false)];
    }
  }

  /** The state after the new row's insert. */
  function Started(s: State, n: nat): State {
    s.(rows := s.rows[RowKey(n) := NewRow(ReleaseStage1, 0)],
       tasks := map[0 := Retrying(RowKey(n), 1, n)],
       launches := s.launches + [Launch(0, ReleaseStage1, 0)])
  }

  lemma SpentAfterLoop(s: State, n: nat, maxAttempts: nat)
    requires Spent(s, n, maxAttempts) && maxAttempts >= 1
    ensures ReadyToRetry(Started(s, n), 0, RowKey(n), 1, n, maxAttempts)
    ensures Spent(AfterLoop(Started(s, n), 0, RowKey(n), 1, n, maxAttempts), n + 1, maxAttempts)
  {
    var after := AfterLoop(Started(s, n), 0, RowKey(n), 1, n, maxAttempts);
    assert after.tasks == map[];
  }

  lemma InsertStarts(s: State, n: nat, maxAttempts: nat)
    requires Spent(s, n, maxAttempts)
    ensures var creating := Become(s, 0, Creating(ReleaseStage1, 0, false));
            Enabled(creating, Insert(0, RowKey(n))) && Next(creating, maxAttempts, Insert(0, RowKey(n))) == Started(s, n)
  {
    var creating := Become(s, 0, Creating(ReleaseStage1, 0, false));
    assert RowKey(n) !in s.rows;
    assert Next(creating, maxAttempts, Insert(0, RowKey(n))).tasks == Started(s, n).tasks;
  }

  lemma RunToStarted(states: seq<State>, steps: seq<Step>, n: nat, maxAttempts: nat)
    returns (states': seq<State>, steps': seq<Step>)
    requires IsRun(states, steps, maxAttempts) && Spent(states[|steps|], n, maxAttempts)
    ensures IsRun(states', steps', maxAttempts) && states <= states'
    ensures states'[|steps'|] == Started(states[|steps|], n)
  {
    states', steps' := RunToCreating(states, steps, n, maxAttempts);
    InsertStarts(states[|steps|], n, maxAttempts);
    Extend(states', steps', maxAttempts, Insert(0, RowKey(n)));
    states', steps' := states' + [Started(states[|steps|], n)], steps' + [Insert(0, RowKey(n))];
  }

  lemma SpendOneMore(states: seq<State>, steps: seq<Step>, n: nat, maxAttempts: nat)
    returns (states': seq<State>, steps': seq<Step>)
    requires IsRun(states, steps, maxAttempts) && Spent(states[|steps|], n, maxAttempts) && maxAttempts >= 1
    ensures IsRun(states', steps', maxAttempts) && states <= states'
    ensures Spent(states'[|steps'|], n + 1, maxAttempts)
  {
    states', steps' := RunToStarted(states, steps, n, maxAttempts);
    SpentAfterLoop(states[|steps|], n, maxAttempts);
    states', steps' := FailAlways(states', steps', maxAttempts, 0, RowKey(n), 1, n);
  }

  lemma {:induction false} SpendAll(n: nat, maxAttempts: nat) returns (states: seq<State>, steps: seq<Step>)
    requires maxAttempts >= 1
    ensures IsRun(states, steps, maxAttempts) && states[0] == EMPTY && Spent(states[|steps|], n, maxAttempts)
  {
    if n == 0 {
      assert IsRun([EMPTY], [], maxAttempts);
      Extend([EMPTY], [], maxAttempts, Lock(0));
      states, steps := [EMPTY] + [Next(EMPTY, maxAttempts, Lock(0))], [] + [Lock(0)];
    } else {
      states, steps := SpendAll(n - 1, maxAttempts);
      states, steps := SpendOneMore(states, steps, n - 1, maxAttempts);
    }
  }

  lemma {:induction false} FullLaunches(launches: seq<Launch>, n: nat, maxAttempts: nat)
    requires n <= |launches| && forall l :: 0 <= l < n ==> launches[l] == Launch(0, ReleaseStage1, maxAttempts)
    ensures LaunchesBy(launches, n, 0, ReleaseStage1) == n
    ensures CallsBy(launches, n, 0, ReleaseStage1) == maxAttempts * n
  {
    if n > 0 {
      FullLaunches(launches, n - 1, maxAttempts);
      assert maxAttempts * n == maxAttempts * (n - 1) + maxAttempts;
    }
  }

  /** The call bound is attained: for every number of starts there is a run in which
      an action is started so often and reaches the contract `maxAttempts` times each. */
  lemma BudgetIsAttained(n: nat, maxAttempts: nat) returns (states: seq<State>, steps: seq<Step>)
    requires maxAttempts >= 1
    ensures IsRun(states, steps, maxAttempts) && states[0] == EMPTY
    ensures StartsIn(states, steps, |steps|, 0, ReleaseStage1) == n
    ensures var launches := states[|steps|].launches;
            CallsBy(launches, |launches|, 0, ReleaseStage1) == maxAttempts * n
  {
    states, steps := SpendAll(n, maxAttempts);
    FullLaunches(states[|steps|].launches, n, maxAttempts);
    LaunchesAreStarts(states, steps, maxAttempts, |steps|, 0, ReleaseStage1);
  }

  // ---- The confirmation poll as machine steps ----

  /** What the poll meets is what the machine's trade is in, where it can be read. */
  predicate Sees(s: State, key: Text, around: Confirmation.Surroundings) {
    around.onChain.Some? ==> KnowsTrade(s, key) && around.onChain.value == TradeOf(s, key).status
  }

  /** The step by which a polling task learns enough to settle the trigger. */
  function Finding(s: State, t: nat, key: Text, submittedAt: int, last: Confirmation.Throttle,
                   around: Confirmation.Surroundings): Step
    requires key in s.rows
  {
    if Confirmation.SeesAdvance(last, s.rows[key], submittedAt, s.now, around) then CheckOnChain(t)
    else if s.now - submittedAt > Confirmation.HARD_TIMEOUT_MS then TimeOut(t)
    else FindEvent(t)
  }

  /** Every outcome of a confirmation poll is reached by machine steps that touch
      nothing else, so what holds in every reachable state holds after every poll. */
  lemma PollIsReached(states: seq<State>, steps: seq<Step>, maxAttempts: nat, t: nat, key: Text, submittedAt: int,
                      last: Confirmation.Throttle, around: Confirmation.Surroundings, status: TriggerStatus)
    returns (states': seq<State>, steps': seq<Step>)
    requires IsRun(states, steps, maxAttempts)
    requires var s := states[|steps|];
             && key in s.rows && s.rows[key].status == Submitted && t !in s.tasks && Sees(s, key, around)
             && Confirmation.IsOutcome(last, s.rows[key], submittedAt, s.now, around, status)
    ensures IsRun(states', steps', maxAttempts) && states <= states'
    ensures states'[|steps'|] == Store(states[|steps|], key, WithStatus(states[|steps|], key, status))
  {
    var s := states[|steps|];
    if status == Submitted {
      assert s.rows == s.rows[key := WithStatus(s, key, Submitted)];
      states', steps' := states, steps;
    } else {
      var poll, find := Poll(t, key), Finding(s, t, key, submittedAt, last, around);
      Extend(states, steps, maxAttempts, poll);
      var s1 := Next(s, maxAttempts, poll);
      Extend(states + [s1], steps + [poll], maxAttempts, find);
      var s2 := Next(s1, maxAttempts, find);
      var end := if status == Confirmed then Confirm(t) else Exhaust(t);
      Extend(states + [s1] + [s2], steps + [poll] + [find], maxAttempts, end);
      var s3 := Next(s2, maxAttempts, end);
      states', steps' := states + [s1] + [s2] + [s3], steps + [poll] + [find] + [end];
      assert s3.tasks == s.tasks;
    }
  }

  predicate HashesKept(s: State) {
    forall key :: key in s.rows && s.rows[key].status == Submitted ==> s.rows[key].txHash.Some?
  }

  lemma StepKeepsHashes(s: State, maxAttempts: nat, step: Step)
    requires Enabled(s, step) && HashesKept(s)
    ensures HashesKept(Next(s, maxAttempts, step))
  {
  }

  /** In every reachable state a submitted trigger has its transaction, so a poll
      past the hard timeout settles it. */
  lemma {:induction false} SubmittedHasTransaction(states: seq<State>, steps: seq<Step>, maxAttempts: nat, k: nat)
    requires IsRun(states, steps, maxAttempts) && states[0] == EMPTY && k <= |steps|
    ensures HashesKept(states[k])
  {
    if k > 0 {
      SubmittedHasTransaction(states, steps, maxAttempts, k - 1);
      StepKeepsHashes(states[k - 1], maxAttempts, steps[k - 1]);
    }
  }

  /** A row's attempt count is within the limit, positive once an attempt has been
      marked, and below the limit while the row waits for its next attempt. */
  predicate CountedRow(row: Trigger, maxAttempts: nat) {
    && row.attempts <= maxAttempts
    && (row.status == Executing || row.status == Failed ==> row.attempts >= 1)
    && (row.status == Failed ==> row.attempts < maxAttempts)
  }

  predicate CountedTask(task: Task, maxAttempts: nat) {
    match task
    case Retrying(_, attempt, _) => attempt >= 1
    case Checked(_, attempt, _) => 1 <= attempt <= maxAttempts
    case Calling(_, attempt, _) => 1 <= attempt <= maxAttempts
    case Failing(_, attempt, _, _) => 1 <= attempt <= maxAttempts
    case Landed(_, attempt, _, _) => 1 <= attempt <= maxAttempts
    case _ => true
  }

  predicate Counted(s: State, maxAttempts: nat) {
    && (forall key :: key in s.rows ==> CountedRow(s.rows[key], maxAttempts))
    && (forall t :: t in s.tasks ==> CountedTask(s.tasks[t], maxAttempts))
  }

  lemma AttemptKeepsCountedRow(s: State, maxAttempts: nat, step: Step, key: Text)
    requires step.MarkExecuting? || step.RecordFailure?
    requires Enabled(s, step) && Counted(s, maxAttempts) && key in Next(s, maxAttempts, step).rows
    ensures CountedRow(Next(s, maxAttempts, step).rows[key], maxAttempts)
  {
    assert CountedTask(s.tasks[step.t], maxAttempts);
    assert CountedRow(s.rows[key], maxAttempts);
  }

  lemma StepKeepsCountedRow(s: State, maxAttempts: nat, step: Step, key: Text)
    requires Enabled(s, step) && Counted(s, maxAttempts) && key in Next(s, maxAttempts, step).rows
    ensures CountedRow(Next(s, maxAttempts, step).rows[key], maxAttempts)
  {
    if step.MarkExecuting? || step.RecordFailure? {
      AttemptKeepsCountedRow(s, maxAttempts, step, key);
    } else if !step.Insert? {
      assert CountedRow(s.rows[key], maxAttempts);
    }
  }

  lemma StepKeepsCountedTask(s: State, maxAttempts: nat, step: Step, t: nat)
    requires Enabled(s, step) && Counted(s, maxAttempts) && t in Next(s, maxAttempts, step).tasks
    ensures CountedTask(Next(s, maxAttempts, step).tasks[t], maxAttempts)
  {
    if Next(s, maxAttempts, step).tasks[t].Checked? || Next(s, maxAttempts, step).tasks[t].Failing? {
      assert t in s.tasks && CountedTask(s.tasks[t], maxAttempts);
    }
  }

  /** In every reachable state the stored attempt counts are within the limit, and a
      row that says it will be tried again has attempts left. */
  lemma {:induction false} AttemptsAreCounted(states: seq<State>, steps: seq<Step>, maxAttempts: nat, k: nat)
    requires IsRun(states, steps, maxAttempts) && states[0] == EMPTY && k <= |steps|
    ensures Counted(states[k], maxAttempts)
  {
    if k > 0 {
      AttemptsAreCounted(states, steps, maxAttempts, k - 1);
      forall key | key in states[k].rows ensures CountedRow(states[k].rows[key], maxAttempts) {
        StepKeepsCountedRow(states[k - 1], maxAttempts, steps[k - 1], key);
      }
      forall t | t in states[k].tasks ensures CountedTask(states[k].tasks[t], maxAttempts) {
        StepKeepsCountedTask(states[k - 1], maxAttempts, steps[k - 1], t);
      }
    }
  }

  /** A poll never confirms a trigger whose trade is still at the trigger's source. */
  lemma PollConfirmsRightly(states: seq<State>, steps: seq<Step>, maxAttempts: nat, t: nat, key: Text, submittedAt: int,
                            last: Confirmation.Throttle, around: Confirmation.Surroundings)
    requires IsRun(states, steps, maxAttempts) && states[0] == EMPTY
    requires var s := states[|steps|];
             && key in s.rows && s.rows[key].status == Submitted && t !in s.tasks && Sees(s, key, around)
             && Confirmation.IsOutcome(last, s.rows[key], submittedAt, s.now, around, Confirmed)
    ensures KnowsTrade(states[|steps|], key)
    ensures Rank(TradeOf(states[|steps|], key).status) > Rank(Source(states[|steps|].rows[key].kind))
  {
    var states', steps' := PollIsReached(states, steps, maxAttempts, t, key, submittedAt, last, around, Confirmed);
    TriggersFollowTrades(states', steps', maxAttempts, |steps'|, key);
  }

  // ---- A clock that goes back ----

  predicate EnabledAnyClock(s: State, step: Step) {
    step.Tick? || Enabled(s, step)
  }

  function NextAnyClock(s: State, maxAttempts: nat, step: Step): State
    requires EnabledAnyClock(s, step)
  {
    if step.Tick? then s.(now := step.time) else Next(s, maxAttempts, step)
  }

  predicate IsRunAnyClock(states: seq<State>, steps: seq<Step>, maxAttempts: nat) {
    && |states| == |steps| + 1
    && forall i :: 0 <= i < |steps| ==>
         EnabledAnyClock(states[i], steps[i]) && states[i + 1] == NextAnyClock(states[i], maxAttempts, steps[i])
  }

  lemma ExtendAnyClock(states: seq<State>, steps: seq<Step>, maxAttempts: nat, step: Step)
    requires IsRunAnyClock(states, steps, maxAttempts) && EnabledAnyClock(states[|steps|], step)
    ensures IsRunAnyClock(states + [NextAnyClock(states[|steps|], maxAttempts, step)], steps + [step], maxAttempts)
  {
  }

  /** A confirmed trigger whose action has not happened. */
  predicate ConfirmedTooSoon(s: State, key: Text) {
    KnowsTrade(s, key) && s.rows[key].status == Confirmed && TradeOf(s, key).status == Source(s.rows[key].kind)
  }

  /** A re-drive of the row by task `t`, read when the clock shows `reading`. */
  function RedriveAt(t: nat, key: Text, reading: int): seq<Step> {
    [Tick(reading)] + [RequestRedrive(t, key)] + [ReadForRedrive(t)] + [Confirm(t)]
  }

  predicate ConfirmsWrongly(states: seq<State>, steps: seq<Step>, maxAttempts: nat, longer: seq<State>,
                            t: nat, key: Text, reading: int) {
    && IsRunAnyClock(longer, steps + RedriveAt(t, key, reading), maxAttempts)
    && states <= longer && ConfirmedTooSoon(longer[|longer| - 1], key)
  }

  ghost predicate CanConfirmWrongly(states: seq<State>, steps: seq<Step>, maxAttempts: nat, t: nat, key: Text, reading: int) {
    exists longer :: ConfirmsWrongly(states, steps, maxAttempts, longer, t, key, reading)
  }

  lemma RefusedConfirms(states: seq<State>, steps: seq<Step>, maxAttempts: nat, t: nat, key: Text, reading: int)
    returns (longer: seq<State>)
    requires IsRunAnyClock(states, steps, maxAttempts)
    requires var s := states[|steps|];
             && KnowsTrade(s, key) && s.rows[key].status == ExhaustedNeedsRedrive && t !in s.tasks
             && TradeOf(s, key).status == Source(s.rows[key].kind)
             && !Validates(TradeOf(s, key), s.rows[key].kind, reading)
    ensures ConfirmsWrongly(states, steps, maxAttempts, longer, t, key, reading)
  {
    var s := states[|steps|];
    var tick, ask, read := Tick(reading), RequestRedrive(t, key), ReadForRedrive(t);
    ExtendAnyClock(states, steps, maxAttempts, tick);
    var s1 := s.(now := reading);
    ExtendAnyClock(states + [s1], steps + [tick], maxAttempts, ask);
    var s2 := Become(s1, t, Redriving(key));
    ExtendAnyClock(states + [s1] + [s2], steps + [tick] + [ask], maxAttempts, read);
    var s3 := Become(s2, t, RedriveRefused(key));
    assert Next(s2, maxAttempts, read) == s3;
    ExtendAnyClock(states + [s1] + [s2] + [s3], steps + [tick] + [ask] + [read], maxAttempts, Confirm(t));
    longer := states + [s1] + [s2] + [s3] + [Next(s3, maxAttempts, Confirm(t))];
    assert steps + RedriveAt(t, key, reading) == steps + [tick] + [ask] + [read] + [Confirm(t)];
  }

  /** If the reading validates, the re-drive goes on to a new row. */
  lemma ValidatedGoesOn(states: seq<State>, steps: seq<Step>, maxAttempts: nat, t: nat, key: Text, reading: int, n: nat)
    requires IsRunAnyClock(states, steps, maxAttempts) && |steps| == n + 3
    requires steps[n] == Tick(reading) && steps[n + 1] == RequestRedrive(t, key) && steps[n + 2] == ReadForRedrive(t)
    requires KnowsTrade(states[n], key) && Validates(TradeOf(states[n], key), states[n].rows[key].kind, reading)
    ensures t in states[n + 3].tasks && states[n + 3].tasks[t].Creating?
  {
    var s := states[n];
    assert states[n + 1] == s.(now := reading);
    assert states[n + 2] == Become(s.(now := reading), t, Redriving(key));
  }

  /** And so it confirms nothing. */
  lemma ValidatedDoesNotConfirm(states: seq<State>, steps: seq<Step>, maxAttempts: nat, longer: seq<State>,
                                t: nat, key: Text, reading: int)
    requires |states| == |steps| + 1 && states <= longer && KnowsTrade(states[|steps|], key)
    requires Validates(TradeOf(states[|steps|], key), states[|steps|].rows[key].kind, reading)
    ensures !IsRunAnyClock(longer, steps + RedriveAt(t, key, reading), maxAttempts)
  {
    var all, n := steps + RedriveAt(t, key, reading), |steps|;
    assert all[n + 3] == Confirm(t);
    if IsRunAnyClock(longer, all, maxAttempts) {
      ValidatedGoesOn(longer[..n + 4], all[..n + 3], maxAttempts, t, key, reading, n);
    }
  }

  /** For every clock reading, in every reachable state with an exhausted trigger whose
      trade is still at its source: a re-drive that reads the trade then confirms the
      trigger wrongly if and only if it is a finalization and the reading is not after
      the end of the dispute window. */
  lemma RedriveConfirmsWronglyIff(states: seq<State>, steps: seq<Step>, maxAttempts: nat, t: nat, key: Text, reading: int)
    requires IsRun(states, steps, maxAttempts) && states[0] == EMPTY
    requires var s := states[|steps|];
             && KnowsTrade(s, key) && s.rows[key].status == ExhaustedNeedsRedrive && t !in s.tasks
             && TradeOf(s, key).status == Source(s.rows[key].kind)
    ensures states[|steps|].rows[key].kind == FinalizeTrade ==>
              TradeOf(states[|steps|], key).arrival.Some?
              && TradeOf(states[|steps|], key).arrival.value + DISPUTE_WINDOW_MS < states[|steps|].now
    ensures CanConfirmWrongly(states, steps, maxAttempts, t, key, reading) <==>
            states[|steps|].rows[key].kind == FinalizeTrade
            && reading <= TradeOf(states[|steps|], key).arrival.value + DISPUTE_WINDOW_MS
  {
    var s := states[|steps|];
    RunKeepsInv(states, steps, maxAttempts, |steps|);
    assert RowAgrees(s, s.rows[key]);
    RunIsRunAnyClock(states, steps, maxAttempts);
    if Validates(TradeOf(s, key), s.rows[key].kind, reading) {
      forall longer | states <= longer ensures !ConfirmsWrongly(states, steps, maxAttempts, longer, t, key, reading) {
        ValidatedDoesNotConfirm(states, steps, maxAttempts, longer, t, key, reading);
      }
    } else {
      var longer := RefusedConfirms(states, steps, maxAttempts, t, key, reading);
    }
  }

  lemma RunIsRunAnyClock(states: seq<State>, steps: seq<Step>, maxAttempts: nat)
    requires IsRun(states, steps, maxAttempts)
    ensures IsRunAnyClock(states, steps, maxAttempts)
  {
  }

  const FINALIZE_AT: int := DISPUTE_WINDOW_MS + 1

  /** One trade whose arrival was confirmed at time 0, with the dispute window over. */
  lemma RunToArrived(maxAttempts: nat) returns (states: seq<State>, steps: seq<Step>)
    ensures IsRun(states, steps, maxAttempts) && states[0] == EMPTY
    ensures states[|steps|] == State(FINALIZE_AT, map[0 := Trade(ArrivalConfirmed, Some(0))], map[], map[], [])
  {
    assert IsRun([EMPTY], [], maxAttempts);
    Extend([EMPTY], [], maxAttempts, Lock(0));
    var s1 := Next(EMPTY, maxAttempts, Lock(0));
    var leave, arrive, wait := Move(0, InTransit, 0), Move(0, ArrivalConfirmed, 0), Tick(FINALIZE_AT);
    Extend([EMPTY] + [s1], [] + [Lock(0)], maxAttempts, leave);
    var s2 := Next(s1, maxAttempts, leave);
    Extend([EMPTY] + [s1] + [s2], [] + [Lock(0)] + [leave], maxAttempts, arrive);
    var s3 := Next(s2, maxAttempts, arrive);
    Extend([EMPTY] + [s1] + [s2] + [s3], [] + [Lock(0)] + [leave] + [arrive], maxAttempts, wait);
    states := [EMPTY] + [s1] + [s2] + [s3] + [Next(s3, maxAttempts, wait)];
    steps := [] + [Lock(0)] + [leave] + [arrive] + [wait];
    assert states[|steps|].trades == map[0 := Trade(ArrivalConfirmed, Some(0))];
  }

  /** And such a state is reached: with a clock that goes back once, some run confirms
      a finalization whose trade has not been finalized. */
  lemma ClockMustNotGoBack(maxAttempts: nat) returns (states: seq<State>, steps: seq<Step>, key: Text)
    requires maxAttempts >= 1
    ensures IsRunAnyClock(states, steps, maxAttempts) && states[0] == EMPTY && ConfirmedTooSoon(states[|steps|], key)
  {
    states, steps := RunToArrived(maxAttempts);
    key := RowKey(1);
    var request := Request(0, FinalizeTrade, 0, false);
    Extend(states, steps, maxAttempts, request);
    var asked := Next(states[|steps|], maxAttempts, request);
    Extend(states + [asked], steps + [request], maxAttempts, Insert(0, key));
    var inserted := Next(asked, maxAttempts, Insert(0, key));
    states, steps := states + [asked] + [inserted], steps + [request] + [Insert(0, key)];
    states, steps := FailAlways(states, steps, maxAttempts, 0, key, 1, 0);
    RedriveConfirmsWronglyIff(states, steps, maxAttempts, 0, key, 0);
    var longer :| ConfirmsWrongly(states, steps, maxAttempts, longer, 0, key, 0);
    states, steps := longer, steps + RedriveAt(0, key, 0);
  }
}

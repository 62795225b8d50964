/** What the step-by-step governance machine can reach: the conditions under which
    its guarantees hold are exact. */
module GovernanceReach {
  import opened Texts
  import opened Governance
  import opened GovernanceExecution
  import opened GovernanceQueue
  import Atomic = GovernanceRuns
  import opened GovernanceMachine

  // ---- Fresh identifiers ----

  lemma {:induction false} LongerThanAll(keys: set<Text>) returns (n: nat)
    ensures forall k :: k in keys ==> |k| < n
  {
    n := 0;
    if keys != {} {
      var k :| k in keys;
      var rest := LongerThanAll(keys - {k});
      n := if |k| < rest then rest else |k| + 1;
    }
  }

  lemma FreshId(keys: set<Text>) returns (id: Text)
    ensures id !in keys
  {
    var n := LongerThanAll(keys);
    id := seq(n, i => ZERO);
  }

  lemma {:induction false} FreshNumber(used: set<nat>) returns (n: nat)
    ensures forall k :: k in used ==> k < n
  {
    n := 0;
    if used != {} {
      var k :| k in used;
      var rest := FreshNumber(used - {k});
      assert used == (used - {k}) + {k};
      n := if k < rest then rest else k + 1;
    }
  }

  // ---- Stored keys come from requests ----

  ghost predicate FromRequest(config: Config, key: Text) {
    exists input :: key == InputKey(config, input)
  }

  ghost predicate KeysFromRequests(m: Machine, config: Config) {
    forall id :: id in m.items ==> FromRequest(config, m.items[id].intentKey)
  }

  lemma StoringKeepsKeys(m: Machine, config: Config, id: Text, a: Action)
    requires KeysFromRequests(m, config) && FromRequest(config, a.intentKey)
    ensures KeysFromRequests(m.(items := m.items[id := a]), config)
  {
  }

  lemma WriteKeepsKeys(m: Machine, config: Config, step: Step)
    requires Inv(m) && Enabled(m, config, step) && KeysFromRequests(m, config) && (step.Write? || step.CleanWrite?)
    ensures KeysFromRequests(Next(m, config, step), config)
  {
    if step.Write? {
      var e := m.executors[step.t];
      assert ExecutorAgrees(m, e);
      StoringKeepsKeys(m, config, e.id, e.phase.record);
    } else {
      var c := m.cleaners[step.u];
      assert CleanerAgrees(m, c);
      StoringKeepsKeys(m, config, c.current.value.actionId, StaleRecord(c.current.value, c.now));
    }
  }

  lemma StepKeepsKeys(m: Machine, config: Config, step: Step)
    requires Inv(m) && Enabled(m, config, step) && KeysFromRequests(m, config)
    ensures KeysFromRequests(Next(m, config, step), config)
  {
    if step.Write? || step.CleanWrite? {
      WriteKeepsKeys(m, config, step);
    } else if step.Enqueue? {
      assert FromRequest(config, QueueRecord(config, step.input, step.id, m.now).intentKey);
      StoringKeepsKeys(m, config, step.id, QueueRecord(config, step.input, step.id, m.now));
    } else if !step.Tick? {
      ItemsChangeOnlyByWrites(m, config, step);
    }
  }

  lemma {:induction false} RunKeepsKeys(states: seq<Machine>, steps: seq<Step>, config: Config, k: nat)
    requires IsRun(states, steps, config) && states[0] == EMPTY && k <= |steps|
    ensures KeysFromRequests(states[k], config)
  {
    if k > 0 {
      RunKeepsKeys(states, steps, config, k - 1);
      RunKeepsInv(states, steps, config, k - 1);
      StepKeepsKeys(states[k - 1], config, steps[k - 1]);
    }
  }

  // ---- Exactly when one live action per key is at risk ----

  /** Steps that store or queue what has already been decided, without time passing. */
  predicate Settles(step: Step) {
    step.Enqueue? || step.Write? || step.Lose? || step.Start? || step.Acquire?
    || step.CleanStart? || step.CleanRead? || step.CleanWrite?
  }

  /** A continuation of settling steps that ends with two live actions of one key. */
  predicate Breaks(m: Machine, states: seq<Machine>, steps: seq<Step>, config: Config) {
    && IsRun(states, steps, config) && states[0] == m
    && (forall i :: 0 <= i < |steps| ==> Settles(steps[i]))
    && !Atomic.OneLive(states[|steps|].items, states[|steps|].now)
  }

  predicate NoLateWrite(m: Machine) {
    forall t :: t in m.executors ==> !LateWrite(m, t)
  }

  lemma SettlingAddsNoLateWrite(m: Machine, config: Config, step: Step)
    requires Inv(m) && Enabled(m, config, step) && Settles(step) && NoLateWrite(m)
    ensures NoLateWrite(Next(m, config, step))
  {
    var after := Next(m, config, step);
    assert after.now == m.now;
    forall t | t in after.executors ensures !LateWrite(after, t) {
      assert t in m.executors ==> !LateWrite(m, t);
    }
  }

  lemma {:induction false} OnTimeContinuation(m: Machine, states: seq<Machine>, steps: seq<Step>, config: Config, k: nat)
    requires Inv(m) && Atomic.OneLive(m.items, m.now) && NoLateWrite(m)
    requires IsRun(states, steps, config) && states[0] == m && k <= |steps|
    requires forall i :: 0 <= i < |steps| ==> Settles(steps[i])
    ensures Inv(states[k]) && Atomic.OneLive(states[k].items, states[k].now) && NoLateWrite(states[k])
  {
    if k > 0 {
      OnTimeContinuation(m, states, steps, config, k - 1);
      StepKeepsInv(states[k - 1], config, steps[k - 1]);
      StepKeepsOneLive(states[k - 1], config, steps[k - 1]);
      SettlingAddsNoLateWrite(states[k - 1], config, steps[k - 1]);
    }
  }

  /** If another live action has the key, the late write alone makes two. */
  lemma LateWriteMeetsLive(m: Machine, config: Config, t: nat, other: Text) returns (states: seq<Machine>, steps: seq<Step>)
    requires Inv(m) && LateWrite(m, t) && other in m.items && IsLive(m.items[other], m.now)
    requires m.items[other].intentKey == m.executors[t].phase.record.intentKey
    ensures Breaks(m, states, steps, config)
  {
    var id, record := m.executors[t].id, m.executors[t].phase.record;
    assert ExecutorAgrees(m, m.executors[t]);
    var after := Next(m, config, Write(t));
    states, steps := [m, after], [Write(t)];
    assert other != id;
    assert IsLive(after.items[id], after.now) && IsLive(after.items[other], after.now);
  }

  lemma BreaksAfter(m: Machine, step: Step, states: seq<Machine>, steps: seq<Step>, config: Config)
    requires Enabled(m, config, step) && Settles(step) && Breaks(Next(m, config, step), states, steps, config)
    ensures Breaks(m, [m] + states, [step] + steps, config)
  {
    var all, done := [m] + states, [step] + steps;
    forall i | 0 <= i < |done| ensures Enabled(all[i], config, done[i]) && all[i + 1] == Next(all[i], config, done[i]) {
      assert i > 0 ==> all[i] == states[i - 1] && done[i] == steps[i - 1];
    }
  }

  lemma FreshRequestQueues(m: Machine, config: Config, key: Text) returns (enqueue: Step)
    requires FromRequest(config, key)
    requires forall other :: other in m.items && m.items[other].intentKey == key ==> !IsLive(m.items[other], m.now)
    ensures enqueue.Enqueue? && Enabled(m, config, enqueue) && enqueue.id !in m.items
    ensures enqueue.found.None? && QueueRecord(config, enqueue.input, enqueue.id, m.now).intentKey == key
  {
    var input :| key == InputKey(config, input);
    var id := FreshId(m.items.Keys);
    enqueue := Enqueue(input, id, None);
  }

  /** If none has, a request with the key can be queued just before. */
  lemma LateWriteMeetsRequest(m: Machine, config: Config, t: nat) returns (states: seq<Machine>, steps: seq<Step>)
    requires Inv(m) && LateWrite(m, t) && KeysFromRequests(m, config) && config.queueTtlSeconds > 0
    requires forall other :: other in m.items && m.items[other].intentKey == m.executors[t].phase.record.intentKey
               ==> !IsLive(m.items[other], m.now)
    ensures Breaks(m, states, steps, config)
  {
    var enqueue := FreshRequestQueues(m, config, m.executors[t].phase.record.intentKey);
    var queued := Next(m, config, enqueue);
    StepKeepsInv(m, config, enqueue);
    assert IsLive(queued.items[enqueue.id], queued.now);
    states, steps := LateWriteMeetsLive(queued, config, t, enqueue.id);
    BreaksAfter(m, enqueue, states, steps, config);
    states, steps := [m] + states, [enqueue] + steps;
  }

  ghost predicate CanBreak(m: Machine, config: Config) {
    exists states, steps :: Breaks(m, states, steps, config)
  }

  /** From every reachable state with at most one live action per key: storing and
      queueing at this instant can lead to two of one key if and only if some
      executor is about to store an open status after its action's deadline. */
  lemma OneLiveAtRiskIffLateWrite(runStates: seq<Machine>, runSteps: seq<Step>, config: Config, k: nat)
    requires IsRun(runStates, runSteps, config) && runStates[0] == EMPTY && k <= |runSteps| && config.queueTtlSeconds > 0
    requires Atomic.OneLive(runStates[k].items, runStates[k].now)
    ensures CanBreak(runStates[k], config) <==> exists t :: t in runStates[k].executors && LateWrite(runStates[k], t)
  {
    var m := runStates[k];
    RunKeepsInv(runStates, runSteps, config, k);
    RunKeepsKeys(runStates, runSteps, config, k);
    if t :| t in m.executors && LateWrite(m, t) {
      var states, steps;
      if other :| other in m.items && m.items[other].intentKey == m.executors[t].phase.record.intentKey
                  && IsLive(m.items[other], m.now) {
        states, steps := LateWriteMeetsLive(m, config, t, other);
      } else {
        states, steps := LateWriteMeetsRequest(m, config, t);
      }
      assert Breaks(m, states, steps, config);
    } else if CanBreak(m, config) {
      var states, steps :| Breaks(m, states, steps, config);
      OnTimeContinuation(m, states, steps, config, |steps|);
    }
  }

  // ---- Exactly when an action can be called again ----

  lemma Extend(states: seq<Machine>, steps: seq<Step>, config: Config, step: Step)
    requires IsRun(states, steps, config) && Enabled(states[|steps|], config, step)
    ensures IsRun(states + [Next(states[|steps|], config, step)], steps + [step], config)
  {
  }

  /** Some signer may execute the action. */
  predicate Signable(norm: Text -> Text, a: Action) {
    IsApproval(a.contractMethod) ==> norm(a.actorWallet) != []
  }

  predicate Callable(m: Machine, config: Config, id: Text) {
    && id in m.items && m.items[id].status == Requested && !PastDeadline(m.items[id], m.now)
    && Signable(config.norm, m.items[id])
  }

  /** The machine after executor `t` has called the chain for stored action `a`. */
  function CalledBy(m: Machine, t: nat, a: Action, sdk: SdkReply): Machine {
    m.(lock := m.lock[a.actionId := t],
       executors := m.executors[t := Executor(a.actionId, Called(a, Execute(a, sdk)))],
       calls := m.calls + multiset{a.actionId})
  }

  /** A callable action that nobody has locked can be called by any new executor. */
  lemma RunToCall(states: seq<Machine>, steps: seq<Step>, config: Config, t: nat, id: Text, sdk: SdkReply)
    returns (states': seq<Machine>, steps': seq<Step>)
    requires IsRun(states, steps, config)
    requires var m := states[|steps|];
             && Keyed(m.items) && t !in m.executors && id !in m.lock && Callable(m, config, id)
    ensures IsRun(states', steps', config) && states <= states'
    ensures states'[|steps'|] == CalledBy(states[|steps|], t, states[|steps|].items[id], sdk)
  {
    var m := states[|steps|];
    var a := m.items[id];
    var start, acquire, load, sign, call := Start(t, id), Acquire(t), Load(t), Sign(t, Some(a.actorWallet)), Call(t, sdk);
    Extend(states, steps, config, start);
    var m1 := Next(m, config, start);
    Extend(states + [m1], steps + [start], config, acquire);
    var m2 := Next(m1, config, acquire);
    Extend(states + [m1] + [m2], steps + [start] + [acquire], config, load);
    var m3 := Next(m2, config, load);
    assert m3.executors[t] == Executor(id, Loaded(a));
    Extend(states + [m1] + [m2] + [m3], steps + [start] + [acquire] + [load], config, sign);
    var m4 := Next(m3, config, sign);
    assert m4.executors[t] == Executor(id, Signed(a));
    Extend(states + [m1] + [m2] + [m3] + [m4], steps + [start] + [acquire] + [load] + [sign], config, call);
    var m5 := Next(m4, config, call);
    steps' := steps + [start] + [acquire] + [load] + [sign] + [call];
    states' := states + [m1] + [m2] + [m3] + [m4] + [m5];
    assert m5.executors == CalledBy(m, t, a, sdk).executors && m5.lock == CalledBy(m, t, a, sdk).lock;
  }

  /** A continuation in which the action is called on chain again. */
  predicate CallsAgain(m: Machine, states: seq<Machine>, steps: seq<Step>, config: Config, id: Text) {
    IsRun(states, steps, config) && states[0] == m && states[|steps|].calls[id] > m.calls[id]
  }

  ghost predicate CanBeCalled(m: Machine, config: Config, id: Text) {
    exists states, steps :: CallsAgain(m, states, steps, config, id)
  }

  /** Nothing can call the action any more. */
  predicate IsDead(m: Machine, norm: Text -> Text, id: Text) {
    && id in m.items
    && (m.items[id].status != Requested || PastDeadline(m.items[id], m.now) || !Signable(norm, m.items[id]))
    && (id in m.lock && m.lock[id] in m.executors ==>
          var phase := m.executors[m.lock[id]].phase;
          !phase.Signed? && (phase.Loaded? ==> !Signable(norm, phase.existing)))
  }

  lemma LoadKeepsDead(m: Machine, norm: Text -> Text, t: nat, id: Text)
    requires Inv(m) && t in m.executors && m.executors[t].phase.Holding? && IsDead(m, norm, id)
    ensures IsDead(Loading(m, t), norm, id) && Loading(m, t).calls == m.calls
  {
    assert InPhase(m, t) && m.lock[m.executors[t].id] == t;
  }

  lemma SignKeepsDead(m: Machine, norm: Text -> Text, t: nat, signer: Option<Text>, id: Text)
    requires Inv(m) && t in m.executors && m.executors[t].phase.Loaded? && IsDead(m, norm, id)
    ensures IsDead(Signing(m, norm, t, signer), norm, id) && Signing(m, norm, t, signer).calls == m.calls
  {
    assert InPhase(m, t) && m.lock[m.executors[t].id] == t;
  }

  lemma CallKeepsDead(m: Machine, norm: Text -> Text, t: nat, sdk: SdkReply, id: Text)
    requires Inv(m) && t in m.executors && m.executors[t].phase.Signed? && IsDead(m, norm, id)
    ensures IsDead(Calling(m, t, sdk), norm, id) && Calling(m, t, sdk).calls[id] == m.calls[id]
  {
    assert InPhase(m, t) && m.lock[m.executors[t].id] == t;
  }

  lemma AcquireKeepsDead(m: Machine, norm: Text -> Text, t: nat, id: Text)
    requires Inv(m) && IsDead(m, norm, id)
    requires t in m.executors && m.executors[t].phase == Waiting && m.executors[t].id !in m.lock
    ensures IsDead(Acquiring(m, t), norm, id) && Acquiring(m, t).calls == m.calls
  {
    assert id in m.lock ==> InPhase(m, m.lock[id]);
  }

  lemma StoreKeepsDead(m: Machine, norm: Text -> Text, t: nat, id: Text)
    requires Inv(m) && t in m.executors && m.executors[t].phase.Writing? && IsDead(m, norm, id)
    ensures IsDead(Storing(m, t), norm, id) && Storing(m, t).calls == m.calls
  {
    assert ExecutorAgrees(m, m.executors[t]) && InPhase(m, t) && m.lock[m.executors[t].id] == t;
  }

  lemma LoseKeepsDead(m: Machine, norm: Text -> Text, t: nat, id: Text)
    requires Inv(m) && InPhase(m, t) && IsDead(m, norm, id)
    ensures IsDead(Losing(m, t), norm, id) && Losing(m, t).calls == m.calls
  {
    assert m.lock[m.executors[t].id] == t;
  }

  lemma ResolveKeepsDead(m: Machine, norm: Text -> Text, t: nat, reader: Reader, id: Text)
    requires Inv(m) && t in m.executors && m.executors[t].phase.Called? && IsDead(m, norm, id)
    ensures IsDead(Resolving(m, t, reader), norm, id) && Resolving(m, t, reader).calls == m.calls
  {
    assert InPhase(m, t) && m.lock[m.executors[t].id] == t;
    ResolveKeepsInv(m, t, reader);
  }

  lemma CleanWriteKeepsDead(m: Machine, norm: Text -> Text, u: nat, id: Text)
    requires Inv(m) && IsDead(m, norm, id)
    requires u in m.cleaners && m.cleaners[u].candidates != [] && m.cleaners[u].current.Some?
    ensures IsDead(CleanWriting(m, u), norm, id) && CleanWriting(m, u).calls == m.calls
  {
    assert CleanerAgrees(m, m.cleaners[u]);
  }

  lemma EnvironmentKeepsDead(m: Machine, config: Config, step: Step, id: Text)
    requires Inv(m) && Enabled(m, config, step) && IsDead(m, config.norm, id)
    requires step.Tick? || step.Enqueue? || step.Start? || step.CleanStart? || step.CleanRead?
    ensures IsDead(Next(m, config, step), config.norm, id) && Next(m, config, step).calls == m.calls
  {
    assert id in m.lock ==> InPhase(m, m.lock[id]);
  }

  lemma StepKeepsDead(m: Machine, config: Config, step: Step, id: Text)
    requires Inv(m) && Enabled(m, config, step) && IsDead(m, config.norm, id)
    ensures IsDead(Next(m, config, step), config.norm, id) && Next(m, config, step).calls[id] == m.calls[id]
  {
    match step {
      case Acquire(t) => AcquireKeepsDead(m, config.norm, t, id);
      case Load(t) => LoadKeepsDead(m, config.norm, t, id);
      case Sign(t, signer) => SignKeepsDead(m, config.norm, t, signer, id);
      case Call(t, sdk) => CallKeepsDead(m, config.norm, t, sdk, id);
      case Resolve(t, reader) => ResolveKeepsDead(m, config.norm, t, reader, id);
      case Write(t) => StoreKeepsDead(m, config.norm, t, id);
      case Lose(t) => LoseKeepsDead(m, config.norm, t, id);
      case CleanWrite(u) => CleanWriteKeepsDead(m, config.norm, u, id);
      case _ => EnvironmentKeepsDead(m, config, step, id);
    }
  }

  lemma {:induction false} DeadStaysDead(m: Machine, states: seq<Machine>, steps: seq<Step>, config: Config, id: Text, k: nat)
    requires Inv(m) && IsDead(m, config.norm, id)
    requires IsRun(states, steps, config) && states[0] == m && k <= |steps|
    ensures Inv(states[k]) && IsDead(states[k], config.norm, id) && states[k].calls[id] == m.calls[id]
  {
    if k > 0 {
      DeadStaysDead(m, states, steps, config, id, k - 1);
      StepKeepsInv(states[k - 1], config, steps[k - 1]);
      StepKeepsDead(states[k - 1], config, steps[k - 1], id);
    }
  }

  /** An executor that has read and admitted the action calls it. */
  lemma SignedCalls(m: Machine, config: Config, t: nat) returns (states: seq<Machine>, steps: seq<Step>)
    requires t in m.executors && m.executors[t].phase.Signed?
    ensures CallsAgain(m, states, steps, config, m.executors[t].id)
  {
    states, steps := [m, Calling(m, t, SdkError)], [Call(t, SdkError)];
  }

  /** One that has only read it is first given a signer who may execute it. */
  lemma LoadedCalls(m: Machine, config: Config, t: nat) returns (states: seq<Machine>, steps: seq<Step>)
    requires t in m.executors && m.executors[t].phase.Loaded? && Signable(config.norm, m.executors[t].phase.existing)
    ensures CallsAgain(m, states, steps, config, m.executors[t].id)
  {
    var a := m.executors[t].phase.existing;
    var sign := Sign(t, Some(a.actorWallet));
    var signed := Signing(m, config.norm, t, Some(a.actorWallet));
    assert signed == Enter(m, t, Signed(a));
    states, steps := [m, signed, Calling(signed, t, SdkError)], [sign, Call(t, SdkError)];
  }

  /** And if the action is callable, whoever else holds it can die and leave it to a new one. */
  lemma CallableCalls(m: Machine, config: Config, id: Text) returns (states: seq<Machine>, steps: seq<Step>)
    requires Inv(m) && Callable(m, config, id)
    ensures CallsAgain(m, states, steps, config, id)
  {
    states, steps := [m], [];
    if id in m.lock {
      var holder := m.lock[id];
      assert InPhase(m, holder);
      Extend(states, steps, config, Lose(holder));
      states, steps := [m] + [Losing(m, holder)], [] + [Lose(holder)];
      LoseKeepsInv(m, holder);
    }
    var free := states[|steps|];
    var t := FreshNumber(free.executors.Keys);
    assert t !in free.executors;
    states, steps := RunToCall(states, steps, config, t, id, SdkError);
  }

  /** From every reachable state a stored action can be called on chain again if and
      only if it is not dead: it is `Requested`, before its deadline and of a kind some
      signer may execute, or the executor that holds it has admitted such a version. */
  lemma CanBeCalledIffNotDead(runStates: seq<Machine>, runSteps: seq<Step>, config: Config, k: nat, id: Text)
    requires IsRun(runStates, runSteps, config) && runStates[0] == EMPTY && k <= |runSteps|
    requires id in runStates[k].items
    ensures CanBeCalled(runStates[k], config, id) <==> !IsDead(runStates[k], config.norm, id)
  {
    var m := runStates[k];
    RunKeepsInv(runStates, runSteps, config, k);
    if IsDead(m, config.norm, id) {
      if CanBeCalled(m, config, id) {
        var states, steps :| CallsAgain(m, states, steps, config, id);
        DeadStaysDead(m, states, steps, config, id, |steps|);
      }
    } else {
      var states, steps := AliveCalls(m, config, id);
      assert CallsAgain(m, states, steps, config, id);
    }
  }

  lemma AliveCalls(m: Machine, config: Config, id: Text) returns (states: seq<Machine>, steps: seq<Step>)
    requires Inv(m) && id in m.items && !IsDead(m, config.norm, id)
    ensures CallsAgain(m, states, steps, config, id)
  {
    if Callable(m, config, id) {
      states, steps := CallableCalls(m, config, id);
    } else {
      var holder := m.lock[id];
      assert InPhase(m, holder) && m.executors[holder].id == id;
      if m.executors[holder].phase.Signed? {
        states, steps := SignedCalls(m, config, holder);
      } else {
        states, steps := LoadedCalls(m, config, holder);
      }
    }
  }

  const FIRST: Text := [97]

  function Proposal(): QueueInput {
    QueueInput(UnpauseCategory, ProposeUnpause, None, None, None, [])
  }

  function FirstRecord(config: Config): Action {
    QueueRecord(config, Proposal(), FIRST, 0)
  }

  /** A queued action none of whose `n` calls has been stored, with the lock free. */
  predicate HasLost(m: Machine, config: Config, n: nat) {
    && m.now == 0 && m.lock == map[] && m.cleaners == map[]
    && m.items == map[FIRST := FirstRecord(config)]
    && (forall t :: t in m.executors ==> t < n)
    && m.calls[FIRST] == m.lost[FIRST] == n
  }

  lemma RunToQueued(config: Config) returns (states: seq<Machine>, steps: seq<Step>)
    ensures IsRun(states, steps, config) && states[0] == EMPTY && HasLost(states[|steps|], config, 0)
  {
    var enqueue := Enqueue(Proposal(), FIRST, None);
    var m := Next(EMPTY, config, enqueue);
    assert m.items == map[FIRST := FirstRecord(config)];
    assert IsRun([EMPTY], [], config);
    Extend([EMPTY], [], config, enqueue);
    states, steps := [EMPTY] + [m], [] + [enqueue];
  }

  lemma {:induction false} RunToLosses(config: Config, n: nat) returns (states: seq<Machine>, steps: seq<Step>)
    requires config.queueTtlSeconds > 0
    ensures IsRun(states, steps, config) && states[0] == EMPTY && HasLost(states[|steps|], config, n)
  {
    if n == 0 {
      states, steps := RunToQueued(config);
    } else {
      var states0, steps0 := RunToLosses(config, n - 1);
      var m := states0[|steps0|];
      states, steps := RunToCall(states0, steps0, config, n - 1, FIRST, SdkError);
      var called := states[|steps|];
      Extend(states, steps, config, Lose(n - 1));
      var after := Next(called, config, Lose(n - 1));
      assert after.lock == map[];
      states, steps := states + [after], steps + [Lose(n - 1)];
    }
  }

  /** The call bound is attained for every number of losses: for each `n` there is a
      run that loses `n` results of an action and calls it `n + 1` times. */
  lemma EveryLossAllowsACall(config: Config, n: nat) returns (states: seq<Machine>, steps: seq<Step>)
    requires config.queueTtlSeconds > 0
    ensures IsRun(states, steps, config) && states[0] == EMPTY
    ensures states[|steps|].lost[FIRST] == n && states[|steps|].calls[FIRST] == n + 1
  {
    states, steps := RunToLosses(config, n);
    states, steps := RunToCall(states, steps, config, n, FIRST, SdkError);
  }

  // ---- Exactly what can still change a settled action ----

  predicate IsSettled(m: Machine, id: Text) {
    id in m.items && m.items[id].status != Requested
  }

  /** The executor works on a version it read before, or is about to write one that
      differs from what is stored. */
  predicate ExecutorThreatens(m: Machine, id: Text, t: nat) {
    && t in m.executors && m.executors[t].id == id && id in m.items
    && var phase := m.executors[t].phase;
       IsUndecided(phase) || (phase.Writing? && phase.record != m.items[id])
  }

  predicate IsUndecided(phase: Phase) {
    phase.Loaded? || phase.Signed? || phase.Called?
  }

  /** The cleanup run is about to mark a version stale that differs, once marked, from
      what is stored. */
  predicate CleanerThreatens(m: Machine, id: Text, u: nat) {
    && u in m.cleaners && m.cleaners[u].candidates != [] && m.cleaners[u].current.Some? && id in m.items
    && m.cleaners[u].current.value.actionId == id
    && StaleRecord(m.cleaners[u].current.value, m.cleaners[u].now) != m.items[id]
  }

  ghost predicate Threatened(m: Machine, id: Text) {
    (exists t :: ExecutorThreatens(m, id, t)) || (exists u :: CleanerThreatens(m, id, u))
  }

  /** A continuation at whose end the stored action differs. */
  predicate Changes(m: Machine, states: seq<Machine>, steps: seq<Step>, config: Config, id: Text) {
    && IsRun(states, steps, config) && states[0] == m && id in m.items
    && (id in states[|steps|].items ==> states[|steps|].items[id] != m.items[id])
  }

  ghost predicate CanChange(m: Machine, config: Config, id: Text) {
    exists states, steps :: Changes(m, states, steps, config, id)
  }

  /** Under an executor's snapshot a settled action can only have been marked stale. */
  lemma SnapshotMeansStale(m: Machine, id: Text, t: nat)
    requires Inv(m) && IsSettled(m, id) && t in m.executors && m.executors[t].id == id
    requires IsUndecided(m.executors[t].phase)
    ensures m.items[id].status == Stale && InPhase(m, t)
  {
    assert ExecutorAgrees(m, m.executors[t]);
  }

  lemma WriteChanges(m: Machine, config: Config, id: Text, t: nat) returns (states: seq<Machine>, steps: seq<Step>)
    requires id in m.items && t in m.executors && m.executors[t].id == id
    requires m.executors[t].phase.Writing? && m.executors[t].phase.record != m.items[id]
    ensures Changes(m, states, steps, config, id)
  {
    states, steps := [m, Storing(m, t)], [Write(t)];
  }

  lemma ChangesAfter(m: Machine, step: Step, states: seq<Machine>, steps: seq<Step>, config: Config, id: Text)
    requires Enabled(m, config, step) && Changes(Next(m, config, step), states, steps, config, id)
    requires id in m.items && Next(m, config, step).items == m.items
    ensures Changes(m, [m] + states, [step] + steps, config, id)
  {
    var all, done := [m] + states, [step] + steps;
    forall i | 0 <= i < |done| ensures Enabled(all[i], config, done[i]) && all[i + 1] == Next(all[i], config, done[i]) {
      assert i > 0 ==> all[i] == states[i - 1] && done[i] == steps[i - 1];
    }
  }

  lemma LoadedChanges(m: Machine, config: Config, id: Text, t: nat) returns (states: seq<Machine>, steps: seq<Step>)
    requires Inv(m) && IsSettled(m, id) && t in m.executors && m.executors[t].id == id && m.executors[t].phase.Loaded?
    ensures Changes(m, states, steps, config, id)
  {
    SnapshotMeansStale(m, id, t);
    var failed := Signing(m, config.norm, t, None);
    assert failed == Enter(m, t, Writing(FailedRecord(m.executors[t].phase.existing, m.now), false));
    states, steps := WriteChanges(failed, config, id, t);
    ChangesAfter(m, Sign(t, None), states, steps, config, id);
    states, steps := [m] + states, [Sign(t, None)] + steps;
  }

  const SILENT: Reader := Reader(None, None, (n: int) => Unavailable, (n: int) => Unavailable)

  lemma CalledChanges(m: Machine, config: Config, id: Text, t: nat) returns (states: seq<Machine>, steps: seq<Step>)
    requires Inv(m) && IsSettled(m, id) && t in m.executors && m.executors[t].id == id && m.executors[t].phase.Called?
    ensures Changes(m, states, steps, config, id)
  {
    SnapshotMeansStale(m, id, t);
    var phase := m.executors[t].phase;
    assert ExecutorAgrees(m, m.executors[t]);
    var sdk :| phase.execution == Execute(phase.existing, sdk);
    ClosingLeavesRequested(phase.existing, sdk, SILENT, m.now);
    var closed := Resolving(m, t, SILENT);
    assert closed == Enter(m, t, Writing(Closing(phase.existing, phase.execution, SILENT, m.now).value.0, true));
    states, steps := WriteChanges(closed, config, id, t);
    ChangesAfter(m, Resolve(t, SILENT), states, steps, config, id);
    states, steps := [m] + states, [Resolve(t, SILENT)] + steps;
  }

  lemma SignedChanges(m: Machine, config: Config, id: Text, t: nat) returns (states: seq<Machine>, steps: seq<Step>)
    requires Inv(m) && IsSettled(m, id) && t in m.executors && m.executors[t].id == id && m.executors[t].phase.Signed?
    ensures Changes(m, states, steps, config, id)
  {
    var call := Call(t, SdkError);
    var called := Calling(m, t, SdkError);
    CallKeepsInv(m, t, SdkError);
    states, steps := CalledChanges(called, config, id, t);
    ChangesAfter(m, call, states, steps, config, id);
    states, steps := [m] + states, [call] + steps;
  }

  lemma CleanWriteChanges(m: Machine, config: Config, id: Text, u: nat) returns (states: seq<Machine>, steps: seq<Step>)
    requires CleanerThreatens(m, id, u)
    ensures Changes(m, states, steps, config, id)
  {
    states, steps := [m, CleanWriting(m, u)], [CleanWrite(u)];
  }

  lemma ThreatChanges(m: Machine, config: Config, id: Text) returns (states: seq<Machine>, steps: seq<Step>)
    requires Inv(m) && IsSettled(m, id) && Threatened(m, id)
    ensures Changes(m, states, steps, config, id)
  {
    if t :| ExecutorThreatens(m, id, t) {
      match m.executors[t].phase {
        case Loaded(_) => states, steps := LoadedChanges(m, config, id, t);
        case Signed(_) => states, steps := SignedChanges(m, config, id, t);
        case Called(_, _) => states, steps := CalledChanges(m, config, id, t);
        case Writing(_, _) => states, steps := WriteChanges(m, config, id, t);
      }
    } else {
      var u :| CleanerThreatens(m, id, u);
      states, steps := CleanWriteChanges(m, config, id, u);
    }
  }

  lemma WritesKeepSettled(m: Machine, config: Config, step: Step, id: Text)
    requires Inv(m) && Enabled(m, config, step) && IsSettled(m, id) && !Threatened(m, id)
    ensures id in Next(m, config, step).items && Next(m, config, step).items[id] == m.items[id]
  {
    if step.Write? {
      assert !ExecutorThreatens(m, id, step.t);
    } else if step.CleanWrite? {
      assert !CleanerThreatens(m, id, step.u);
    } else if !step.Tick? && !step.Enqueue? {
      ItemsChangeOnlyByWrites(m, config, step);
    }
  }

  predicate IsExecutorStep(step: Step) {
    step.Acquire? || step.Load? || step.Sign? || step.Call? || step.Resolve? || step.Write? || step.Lose?
  }

  predicate ChangesOne(m: Machine, after: Machine, t: nat) {
    && after.cleaners == m.cleaners && t in m.executors && t in after.executors
    && after.executors == m.executors[t := m.executors[t].(phase := after.executors[t].phase)]
  }

  lemma LoadChangesOne(m: Machine, t: nat)
    requires t in m.executors
    ensures ChangesOne(m, Loading(m, t), t)
  {
  }

  lemma SignChangesOne(m: Machine, norm: Text -> Text, t: nat, signer: Option<Text>)
    requires t in m.executors && m.executors[t].phase.Loaded?
    ensures ChangesOne(m, Signing(m, norm, t, signer), t)
  {
  }

  lemma ResolveChangesOne(m: Machine, t: nat, reader: Reader)
    requires t in m.executors && m.executors[t].phase.Called?
    ensures ChangesOne(m, Resolving(m, t, reader), t)
  {
  }

  lemma ExecutorStepChangesOne(m: Machine, config: Config, step: Step)
    requires Enabled(m, config, step) && IsExecutorStep(step)
    ensures ChangesOne(m, Next(m, config, step), step.t)
  {
    match step {
      case Load(t) => LoadChangesOne(m, t);
      case Sign(t, signer) => SignChangesOne(m, config.norm, t, signer);
      case Resolve(t, reader) => ResolveChangesOne(m, t, reader);
      case _ =>
    }
  }

  /** An executor that has nothing undecided comes to nothing undecided, and to nothing
      to write, unless it reads a request. */
  lemma DecidedStaysDecided(m: Machine, config: Config, step: Step)
    requires Enabled(m, config, step) && IsExecutorStep(step) && !IsUndecided(m.executors[step.t].phase)
    requires step.Load? ==> m.executors[step.t].id in m.items ==> m.items[m.executors[step.t].id].status != Requested
    ensures step.t in Next(m, config, step).executors
    ensures var phase := Next(m, config, step).executors[step.t].phase; !IsUndecided(phase) && !phase.Writing?
  {
  }

  lemma NoNewExecutorThreat(m: Machine, config: Config, step: Step, id: Text, t: nat)
    requires Inv(m) && Enabled(m, config, step) && IsSettled(m, id) && !Threatened(m, id)
    ensures !ExecutorThreatens(Next(m, config, step), id, t)
  {
    assert !ExecutorThreatens(m, id, t);
    WritesKeepSettled(m, config, step, id);
    if IsExecutorStep(step) {
      ExecutorStepChangesOne(m, config, step);
      if t == step.t && m.executors[t].id == id {
        DecidedStaysDecided(m, config, step);
      }
    }
  }

  lemma CleanReadSkipsSettled(m: Machine, u: nat, id: Text)
    requires Keyed(m.items) && IsSettled(m, id)
    requires u in m.cleaners && m.cleaners[u].candidates != [] && m.cleaners[u].current.None?
    requires CleanReading(m, u).cleaners[u].current.Some?
    ensures CleanReading(m, u).cleaners[u].current.value.actionId != id
  {
  }

  lemma NoNewCleanerThreat(m: Machine, config: Config, step: Step, id: Text, u: nat)
    requires Inv(m) && Enabled(m, config, step) && IsSettled(m, id) && !Threatened(m, id)
    ensures !CleanerThreatens(Next(m, config, step), id, u)
  {
    assert !CleanerThreatens(m, id, u);
    WritesKeepSettled(m, config, step, id);
    if IsExecutorStep(step) {
      ExecutorStepChangesOne(m, config, step);
    } else if step.CleanRead? && step.u == u && CleanReading(m, u).cleaners[u].current.Some? {
      CleanReadSkipsSettled(m, u, id);
    }
  }

  lemma NoNewThreat(m: Machine, config: Config, step: Step, id: Text)
    requires Inv(m) && Enabled(m, config, step) && IsSettled(m, id) && !Threatened(m, id)
    ensures !Threatened(Next(m, config, step), id)
  {
    forall t ensures !ExecutorThreatens(Next(m, config, step), id, t) {
      NoNewExecutorThreat(m, config, step, id, t);
    }
    forall u ensures !CleanerThreatens(Next(m, config, step), id, u) {
      NoNewCleanerThreat(m, config, step, id, u);
    }
  }

  lemma {:induction false} UnthreatenedStays(m: Machine, states: seq<Machine>, steps: seq<Step>, config: Config, id: Text, k: nat)
    requires Inv(m) && IsSettled(m, id) && !Threatened(m, id)
    requires IsRun(states, steps, config) && states[0] == m && k <= |steps|
    ensures Inv(states[k]) && id in states[k].items && states[k].items[id] == m.items[id] && !Threatened(states[k], id)
  {
    if k > 0 {
      UnthreatenedStays(m, states, steps, config, id, k - 1);
      StepKeepsInv(states[k - 1], config, steps[k - 1]);
      WritesKeepSettled(states[k - 1], config, steps[k - 1], id);
      NoNewThreat(states[k - 1], config, steps[k - 1], id);
    }
  }

  /** From every reachable state: some continuation changes a settled action if and only
      if an executor still works on an older version of it or is about to write a
      different one, or a cleanup run is about to mark a different version stale. */
  lemma SettledChangesIffThreatened(runStates: seq<Machine>, runSteps: seq<Step>, config: Config, k: nat, id: Text)
    requires IsRun(runStates, runSteps, config) && runStates[0] == EMPTY && k <= |runSteps|
    requires IsSettled(runStates[k], id)
    ensures CanChange(runStates[k], config, id) <==> Threatened(runStates[k], id)
  {
    var m := runStates[k];
    RunKeepsInv(runStates, runSteps, config, k);
    if Threatened(m, id) {
      var states, steps := ThreatChanges(m, config, id);
      assert Changes(m, states, steps, config, id);
    } else if CanChange(m, config, id) {
      var states, steps :| Changes(m, states, steps, config, id);
      UnthreatenedStays(m, states, steps, config, id, |steps|);
    }
  }

  lemma Suffix(states: seq<Machine>, steps: seq<Step>, config: Config, j: nat, k: nat)
    requires IsRun(states, steps, config) && j <= k <= |steps|
    ensures IsRun(states[j..k + 1], steps[j..k], config)
  {
    var later, taken := states[j..k + 1], steps[j..k];
    forall i | 0 <= i < |taken| ensures Enabled(later[i], config, taken[i]) && later[i + 1] == Next(later[i], config, taken[i]) {
      assert later[i] == states[j + i] && later[i + 1] == states[j + i + 1] && taken[i] == steps[j + i];
    }
  }

  /** So a settled action that is not threatened stays as it is in every run. */
  lemma SettledForGood(states: seq<Machine>, steps: seq<Step>, config: Config, j: nat, k: nat, id: Text)
    requires IsRun(states, steps, config) && states[0] == EMPTY && j <= k <= |steps|
    requires IsSettled(states[j], id) && !Threatened(states[j], id)
    ensures id in states[k].items && states[k].items[id] == states[j].items[id]
  {
    Suffix(states, steps, config, j, k);
    SettledChangesIffThreatened(states, steps, config, j, id);
    assert !Changes(states[j], states[j..k + 1], steps[j..k], config, id);
  }

  /** Such a threat is real: in a run from the start, cleanup that read the action before its
      execution was stored marks the executed action stale. */
  lemma CleanupOverwritesExecuted(config: Config) returns (states: seq<Machine>, steps: seq<Step>, j: nat)
    requires config.queueTtlSeconds > 0
    ensures IsRun(states, steps, config) && states[0] == EMPTY && j < |steps|
    ensures FIRST in states[j].items && states[j].items[FIRST].status == PendingApprovals
    ensures FIRST in states[|steps|].items && states[|steps|].items[FIRST].status == Stale
  {
    var deadline := config.queueTtlSeconds * 1000;
    states, steps := RunToQueued(config);
    states, steps := RunToCall(states, steps, config, 0, FIRST, SdkResult([], 0, None));
    var m := states[|steps|];
    Extend(states, steps, config, Tick(deadline));
    var m1 := Next(m, config, Tick(deadline));
    Extend(states + [m1], steps + [Tick(deadline)], config, CleanStart(0, deadline, [FIRST]));
    var m2 := Next(m1, config, CleanStart(0, deadline, [FIRST]));
    states, steps := states + [m1] + [m2], steps + [Tick(deadline)] + [CleanStart(0, deadline, [FIRST])];
    states, steps, j := OverwriteExecuted(states, steps, config);
  }

  lemma OverwriteExecuted(states: seq<Machine>, steps: seq<Step>, config: Config)
    returns (states': seq<Machine>, steps': seq<Step>, j: nat)
    requires IsRun(states, steps, config)
    requires var m := states[|steps|];
             && m.items == map[FIRST := FirstRecord(config)] && IsExpiredRequested(FirstRecord(config), m.now)
             && 0 in m.cleaners && m.cleaners[0] == Cleaner(m.now, [FIRST], None)
             && 0 in m.executors && m.executors[0].id == FIRST
             && m.executors[0].phase == Called(FirstRecord(config), Landed([], 0, None))
    ensures IsRun(states', steps', config) && states <= states' && j < |steps'|
    ensures FIRST in states'[j].items && states'[j].items[FIRST].status == PendingApprovals
    ensures FIRST in states'[|steps'|].items && states'[|steps'|].items[FIRST].status == Stale
  {
    var m := states[|steps|];
    Extend(states, steps, config, CleanRead(0));
    var m1 := Next(m, config, CleanRead(0));
    assert m1.cleaners[0].current == Some(FirstRecord(config));
    Extend(states + [m1], steps + [CleanRead(0)], config, Resolve(0, SILENT));
    var m2 := Next(m1, config, Resolve(0, SILENT));
    assert m2.executors[0].phase.Writing? && m2.executors[0].phase.record.status == PendingApprovals;
    Extend(states + [m1] + [m2], steps + [CleanRead(0)] + [Resolve(0, SILENT)], config, Write(0));
    var m3 := Next(m2, config, Write(0));
    Extend(states + [m1] + [m2] + [m3], steps + [CleanRead(0)] + [Resolve(0, SILENT)] + [Write(0)], config, CleanWrite(0));
    var m4 := Next(m3, config, CleanWrite(0));
    states' := states + [m1] + [m2] + [m3] + [m4];
    steps' := steps + [CleanRead(0)] + [Resolve(0, SILENT)] + [Write(0)] + [CleanWrite(0)];
    j := |steps| + 3;
  }
}

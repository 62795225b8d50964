/** Governance execution with every store read, chain call and store write its own
    step: executors hold the per-action lock, cleanup does not. */
module GovernanceMachine {
  import opened Texts
  import opened Governance
  import opened GovernanceExecution
  import opened GovernanceQueue
  import opened GovernanceRuns

  datatype Phase =
    | Waiting
    | Holding
    | Loaded(existing: Action)
    | Signed(existing: Action)
    | Called(existing: Action, execution: Execution)
    | Writing(record: Action, called: bool)
    | Done

  datatype Executor = Executor(id: Text, phase: Phase)

  /** One cleanup run: its clock reading, the candidates left, and the candidate
      it has re-read and is about to write. */
  datatype Cleaner = Cleaner(now: int, candidates: seq<Text>, current: Option<Action>)

  /** `calls` counts chain calls by action; `lost` counts those whose result was
      never stored, because the write failed or the process died. */
  datatype Machine = Machine(
    now: int,
    items: Actions,
    lock: map<Text, nat>,
    executors: map<nat, Executor>,
    cleaners: map<nat, Cleaner>,
    calls: multiset<Text>,
    lost: multiset<Text>)

  datatype Step =
    | Tick(to: int)
    | Enqueue(input: QueueInput, id: Text, found: Option<Action>)
    | Start(t: nat, id: Text)
    | Acquire(t: nat)
    | Load(t: nat)
    | Sign(t: nat, signer: Option<Text>)
    | Call(t: nat, sdk: SdkReply)
    | Resolve(t: nat, reader: Reader)
    | Write(t: nat)
    | Lose(t: nat)
    | CleanStart(u: nat, asOf: int, candidates: seq<Text>)
    | CleanRead(u: nat)
    | CleanWrite(u: nat)

  const EMPTY: Machine := Machine(0, map[], map[], map[], map[], multiset{}, multiset{})

  predicate InPhase(m: Machine, t: nat) {
    t in m.executors && m.executors[t].phase != Waiting && m.executors[t].phase != Done
  }

  predicate Enabled(m: Machine, config: Config, step: Step) {
    match step
    case Tick(to) => m.now <= to
    case Enqueue(input, id, found) =>
      id !in m.items && IsFoundOpen(m.items, InputKey(config, input), m.now, found)
    case Start(t, _) => t !in m.executors
    case Acquire(t) => t in m.executors && m.executors[t].phase == Waiting && m.executors[t].id !in m.lock
    case Load(t) => t in m.executors && m.executors[t].phase.Holding?
    case Sign(t, _) => t in m.executors && m.executors[t].phase.Loaded?
    case Call(t, _) => t in m.executors && m.executors[t].phase.Signed?
    case Resolve(t, _) => t in m.executors && m.executors[t].phase.Called?
    case Write(t) => t in m.executors && m.executors[t].phase.Writing?
    case Lose(t) => InPhase(m, t)
    case CleanStart(u, asOf, _) => u !in m.cleaners && asOf <= m.now
    case CleanRead(u) => u in m.cleaners && m.cleaners[u].candidates != [] && m.cleaners[u].current.None?
    case CleanWrite(u) => u in m.cleaners && m.cleaners[u].candidates != [] && m.cleaners[u].current.Some?
  }

  function Enter(m: Machine, t: nat, phase: Phase): Machine
    requires t in m.executors
  {
    m.(executors := m.executors[t := m.executors[t].(phase := phase)])
  }

  /** The executor ends and the lock it holds is released. */
  function Finish(m: Machine, t: nat): Machine
    requires t in m.executors
  {
    Enter(m, t, Done).(lock := m.lock - {m.executors[t].id})
  }

  function Loading(m: Machine, t: nat): (after: Machine)
    requires t in m.executors
    ensures after.items == m.items && after.now == m.now
  {
    var id := m.executors[t].id;
    if id !in m.items || m.items[id].status != Requested then Finish(m, t)
    else if IsExpiredRequested(m.items[id], m.now) then
      Enter(m, t, Writing(StaleRecord(m.items[id], m.now), false))
    else Enter(m, t, Loaded(m.items[id]))
  }

  function Signing(m: Machine, norm: Text -> Text, t: nat, signer: Option<Text>): (after: Machine)
    requires t in m.executors && m.executors[t].phase.Loaded?
    ensures after.items == m.items && after.now == m.now
  {
    var a := m.executors[t].phase.existing;
    if signer.None? then Enter(m, t, Writing(FailedRecord(a, m.now), false))
    else if !SignerMayExecute(norm, a, signer.value) then Finish(m, t)
    else Enter(m, t, Signed(a))
  }

  function Resolving(m: Machine, t: nat, reader: Reader): (after: Machine)
    requires t in m.executors && m.executors[t].phase.Called?
    ensures after.items == m.items && after.now == m.now
  {
    var phase := m.executors[t].phase;
    var closing := Closing(phase.existing, phase.execution, reader, m.now);
    if closing.None? then Losing(m, t) else Enter(m, t, Writing(closing.value.0, true))
  }

  predicate AfterCall(phase: Phase) {
    phase.Called? || (phase.Writing? && phase.called)
  }

  function Losing(m: Machine, t: nat): (after: Machine)
    requires t in m.executors
    ensures after.items == m.items && after.now == m.now
  {
    var id := m.executors[t].id;
    Finish(m, t).(lost := if AfterCall(m.executors[t].phase) then m.lost + multiset{id} else m.lost)
  }

  function Acquiring(m: Machine, t: nat): Machine
    requires t in m.executors
  {
    Enter(m, t, Holding).(lock := m.lock[m.executors[t].id := t])
  }

  function Calling(m: Machine, t: nat, sdk: SdkReply): Machine
    requires t in m.executors && m.executors[t].phase.Signed?
  {
    var a := m.executors[t].phase.existing;
    Enter(m, t, Called(a, Execute(a, sdk))).(calls := m.calls + multiset{m.executors[t].id})
  }

  function Storing(m: Machine, t: nat): Machine
    requires t in m.executors && m.executors[t].phase.Writing?
  {
    Finish(m, t).(items := m.items[m.executors[t].id := m.executors[t].phase.record])
  }

  function CleanReading(m: Machine, u: nat): Machine
    requires u in m.cleaners && m.cleaners[u].candidates != []
  {
    var c := m.cleaners[u];
    var id := c.candidates[0];
    m.(cleaners := m.cleaners[u :=
      if id in m.items && IsExpiredRequested(m.items[id], c.now) then c.(current := Some(m.items[id]))
      else c.(candidates := c.candidates[1..])])
  }

  function CleanWriting(m: Machine, u: nat): Machine
    requires u in m.cleaners && m.cleaners[u].candidates != [] && m.cleaners[u].current.Some?
  {
    var c := m.cleaners[u];
    m.(items := m.items[c.current.value.actionId := StaleRecord(c.current.value, c.now)],
       cleaners := m.cleaners[u := Cleaner(c.now, c.candidates[1..], None)])
  }

  function Next(m: Machine, config: Config, step: Step): Machine
    requires Enabled(m, config, step)
  {
    match step
    case Tick(to) => m.(now := to)
    case Enqueue(input, id, found) =>
      if found.Some? then m else m.(items := m.items[id := QueueRecord(config, input, id, m.now)])
    case Start(t, id) => m.(executors := m.executors[t := Executor(id, Waiting)])
    case Acquire(t) => Acquiring(m, t)
    case Load(t) => Loading(m, t)
    case Sign(t, signer) => Signing(m, config.norm, t, signer)
    case Call(t, sdk) => Calling(m, t, sdk)
    case Resolve(t, reader) => Resolving(m, t, reader)
    case Write(t) => Storing(m, t)
    case Lose(t) => Losing(m, t)
    case CleanStart(u, asOf, candidates) => m.(cleaners := m.cleaners[u := Cleaner(asOf, candidates, None)])
    case CleanRead(u) => CleanReading(m, u)
    case CleanWrite(u) => CleanWriting(m, u)
  }

  // ---- The invariant ----

  predicate LocksAgree(m: Machine) {
    && (forall id :: id in m.lock ==> InPhase(m, m.lock[id]) && m.executors[m.lock[id]].id == id)
    && (forall t :: t in m.executors && InPhase(m, t) ==>
          m.executors[t].id in m.lock && m.lock[m.executors[t].id] == t)
  }

  predicate PastDeadline(a: Action, now: int) {
    a.expiresAt.Some? && a.expiresAt.value <= now
  }

  /** `a` is a version of stored action `id`, which no executor has written since: it
      is still `Requested`, or cleanup marked it stale after its deadline. */
  predicate IsVersionOf(m: Machine, id: Text, a: Action) {
    && id in m.items && a.actionId == id
    && a.intentKey == m.items[id].intentKey && a.expiresAt == m.items[id].expiresAt
    && (m.items[id].status == Requested || (m.items[id].status == Stale && PastDeadline(a, m.now)))
  }

  ghost predicate ExecutorAgrees(m: Machine, e: Executor) {
    match e.phase
    case Waiting | Holding | Done => true
    case Loaded(a) => IsVersionOf(m, e.id, a) && a.status == Requested
    case Signed(a) => IsVersionOf(m, e.id, a) && a.status == Requested
    case Called(a, execution) => IsVersionOf(m, e.id, a) && exists sdk :: execution == Execute(a, sdk)
    case Writing(record, _) => IsVersionOf(m, e.id, record) && record.status != Requested
  }

  predicate CleanerAgrees(m: Machine, c: Cleaner) {
    && c.now <= m.now
    && (c.current.Some? ==>
          var a := c.current.value;
          && a.actionId in m.items && PastDeadline(a, m.now)
          && a.intentKey == m.items[a.actionId].intentKey && a.expiresAt == m.items[a.actionId].expiresAt)
  }

  /** The lock on `id` is held by an executor that has read the action but not called the chain. */
  predicate HeldBefore(m: Machine, id: Text) {
    id in m.lock && m.lock[id] in m.executors
    && var phase := m.executors[m.lock[id]].phase; phase.Loaded? || phase.Signed? || (phase.Writing? && !phase.called)
  }

  predicate HeldAfter(m: Machine, id: Text) {
    id in m.lock && m.lock[id] in m.executors && AfterCall(m.executors[m.lock[id]].phase)
  }

  /** How many calls an action may have had: one more than the lost results if its
      last call is still open or has been stored, and no more than those otherwise. */
  predicate BudgetKept(m: Machine, id: Text) {
    && m.calls[id] <= m.lost[id] + 1
    && (!HeldAfter(m, id) && (id in m.items ==> m.items[id].status == Requested) ==> m.calls[id] <= m.lost[id])
    && (HeldBefore(m, id) ==> m.calls[id] <= m.lost[id])
  }

  ghost predicate Inv(m: Machine) {
    && Keyed(m.items)
    && LocksAgree(m)
    && (forall t :: t in m.executors ==> ExecutorAgrees(m, m.executors[t]))
    && (forall u :: u in m.cleaners ==> CleanerAgrees(m, m.cleaners[u]))
    && (forall id :: BudgetKept(m, id))
  }

  lemma TickKeepsInv(m: Machine, to: int)
    requires Inv(m) && m.now <= to
    ensures Inv(m.(now := to))
  {
    var after := m.(now := to);
    forall id ensures BudgetKept(after, id) {
      assert BudgetKept(m, id);
    }
    forall t | t in m.executors ensures ExecutorAgrees(after, after.executors[t]) {
      assert ExecutorAgrees(m, m.executors[t]);
    }
    assert forall u :: u in m.cleaners ==> CleanerAgrees(m, m.cleaners[u]);
  }

  lemma StartKeepsInv(m: Machine, t: nat, id: Text)
    requires Inv(m) && t !in m.executors
    ensures Inv(m.(executors := m.executors[t := Executor(id, Waiting)]))
  {
    var after := m.(executors := m.executors[t := Executor(id, Waiting)]);
    assert LocksAgree(after) by {
      assert forall u :: u in m.executors ==> InPhase(after, u) == InPhase(m, u);
    }
    forall u | u in after.executors ensures ExecutorAgrees(after, after.executors[u]) {
      assert u != t ==> ExecutorAgrees(m, m.executors[u]);
    }
    forall i ensures BudgetKept(after, i) {
      assert BudgetKept(m, i);
    }
    assert forall u :: u in m.cleaners ==> CleanerAgrees(m, m.cleaners[u]);
  }

  lemma CleanersKeepInv(m: Machine, cleaners: map<nat, Cleaner>)
    requires Inv(m) && forall u :: u in cleaners ==> CleanerAgrees(m, cleaners[u])
    ensures Inv(m.(cleaners := cleaners))
  {
    var after := m.(cleaners := cleaners);
    assert forall t :: InPhase(after, t) == InPhase(m, t);
    forall t | t in m.executors ensures ExecutorAgrees(after, after.executors[t]) {
      assert ExecutorAgrees(m, m.executors[t]);
    }
    forall id ensures BudgetKept(after, id) {
      assert BudgetKept(m, id);
    }
  }

  lemma CleanReadKeepsInv(m: Machine, u: nat)
    requires Inv(m) && u in m.cleaners && m.cleaners[u].candidates != []
    requires m.cleaners[u].current.None?
    ensures Inv(CleanReading(m, u))
  {
    assert CleanerAgrees(m, m.cleaners[u]);
    assert forall v :: v in m.cleaners ==> CleanerAgrees(m, m.cleaners[v]);
    CleanersKeepInv(m, CleanReading(m, u).cleaners);
  }

  /** Storing a record that differs from the stored action in neither key nor
      deadline keeps every other view, provided the record has left `Requested`
      and its deadline has passed or no executor looks at it. */
  lemma StoreKeepsInv(m: Machine, id: Text, record: Action)
    requires Inv(m) && id in m.items && record.actionId == id && record.status != Requested
    requires record.intentKey == m.items[id].intentKey && record.expiresAt == m.items[id].expiresAt
    requires (record.status == Stale && PastDeadline(record, m.now)) || id !in m.lock
    ensures Inv(m.(items := m.items[id := record]))
  {
    var after := m.(items := m.items[id := record]);
    assert forall t :: InPhase(after, t) == InPhase(m, t);
    forall t | t in m.executors ensures ExecutorAgrees(after, after.executors[t]) {
      assert ExecutorAgrees(m, m.executors[t]);
      assert InPhase(m, t) ==> m.executors[t].id in m.lock;
    }
    assert forall u :: u in m.cleaners ==> CleanerAgrees(m, m.cleaners[u]);
    forall i ensures BudgetKept(after, i) {
      assert BudgetKept(m, i);
    }
  }

  lemma CleanWriteKeepsInv(m: Machine, u: nat)
    requires Inv(m) && u in m.cleaners && m.cleaners[u].candidates != [] && m.cleaners[u].current.Some?
    ensures Inv(CleanWriting(m, u))
  {
    var c := m.cleaners[u];
    assert CleanerAgrees(m, c);
    assert forall v :: v in m.cleaners ==> CleanerAgrees(m, m.cleaners[v]);
    CleanersKeepInv(m, m.cleaners[u := Cleaner(c.now, c.candidates[1..], None)]);
    StoreKeepsInv(m.(cleaners := m.cleaners[u := Cleaner(c.now, c.candidates[1..], None)]),
                  c.current.value.actionId, StaleRecord(c.current.value, c.now));
  }

  /** A new request changes no view: nobody has read it and nobody has executed it. */
  lemma EnqueueKeepsInv(m: Machine, a: Action)
    requires Inv(m) && a.actionId !in m.items
    ensures Inv(m.(items := m.items[a.actionId := a]))
  {
    var after := m.(items := m.items[a.actionId := a]);
    assert forall t :: InPhase(after, t) == InPhase(m, t);
    forall t | t in m.executors ensures ExecutorAgrees(after, after.executors[t]) {
      assert ExecutorAgrees(m, m.executors[t]);
    }
    assert forall u :: u in m.cleaners ==> CleanerAgrees(m, m.cleaners[u]);
    forall id ensures BudgetKept(after, id) {
      assert BudgetKept(m, id);
      if id == a.actionId && id in m.lock {
        assert ExecutorAgrees(m, m.executors[m.lock[id]]);
      }
    }
  }

  lemma EnterKeepsLocks(m: Machine, t: nat, phase: Phase)
    requires LocksAgree(m) && InPhase(m, t) && phase != Waiting && phase != Done
    ensures LocksAgree(Enter(m, t, phase))
  {
    assert forall u :: InPhase(Enter(m, t, phase), u) == InPhase(m, u);
  }

  lemma EnterKeepsBudget(m: Machine, t: nat, phase: Phase, id: Text)
    requires LocksAgree(m) && BudgetKept(m, id) && InPhase(m, t) && AfterCall(phase) == AfterCall(m.executors[t].phase)
    requires !AfterCall(phase) && !phase.Holding? ==> m.calls[m.executors[t].id] <= m.lost[m.executors[t].id]
    ensures BudgetKept(Enter(m, t, phase), id)
  {
  }

  lemma EnterKeepsInv(m: Machine, t: nat, phase: Phase)
    requires Inv(m) && InPhase(m, t) && phase != Waiting && phase != Done
    requires ExecutorAgrees(m, m.executors[t].(phase := phase))
    requires AfterCall(phase) == AfterCall(m.executors[t].phase)
    requires !AfterCall(phase) && !phase.Holding? ==> m.calls[m.executors[t].id] <= m.lost[m.executors[t].id]
    ensures Inv(Enter(m, t, phase))
  {
    var after := Enter(m, t, phase);
    EnterKeepsLocks(m, t, phase);
    forall u | u in after.executors ensures ExecutorAgrees(after, after.executors[u]) {
      assert ExecutorAgrees(m, m.executors[u]);
    }
    assert forall u :: u in m.cleaners ==> CleanerAgrees(m, m.cleaners[u]);
    forall id ensures BudgetKept(after, id) {
      EnterKeepsBudget(m, t, phase, id);
    }
  }

  lemma AcquireKeepsLocks(m: Machine, t: nat)
    requires LocksAgree(m) && t in m.executors && m.executors[t].phase == Waiting && m.executors[t].id !in m.lock
    ensures LocksAgree(Acquiring(m, t))
  {
    var after := Acquiring(m, t);
    assert forall u :: u != t ==> InPhase(after, u) == InPhase(m, u);
  }

  lemma AcquireKeepsInv(m: Machine, t: nat)
    requires Inv(m) && t in m.executors && m.executors[t].phase == Waiting && m.executors[t].id !in m.lock
    ensures Inv(Acquiring(m, t))
  {
    var after := Acquiring(m, t);
    AcquireKeepsLocks(m, t);
    forall u | u in after.executors ensures ExecutorAgrees(after, after.executors[u]) {
      assert ExecutorAgrees(m, m.executors[u]);
    }
    assert forall u :: u in m.cleaners ==> CleanerAgrees(m, m.cleaners[u]);
    forall id ensures BudgetKept(after, id) {
      assert BudgetKept(m, id);
    }
  }

  lemma CallKeepsInv(m: Machine, t: nat, sdk: SdkReply)
    requires Inv(m) && t in m.executors && m.executors[t].phase.Signed?
    ensures Inv(Calling(m, t, sdk))
  {
    var after := Calling(m, t, sdk);
    var id := m.executors[t].id;
    assert ExecutorAgrees(m, m.executors[t]) && InPhase(m, t) && m.lock[id] == t;
    assert forall u :: InPhase(after, u) == InPhase(m, u);
    assert LocksAgree(after);
    forall u | u in after.executors ensures ExecutorAgrees(after, after.executors[u]) {
      assert ExecutorAgrees(m, m.executors[u]);
    }
    assert forall u :: u in m.cleaners ==> CleanerAgrees(m, m.cleaners[u]);
    assert BudgetKept(m, id) && HeldBefore(m, id);
    forall i ensures BudgetKept(after, i) {
      assert BudgetKept(m, i);
    }
  }

  lemma FinishKeepsLocks(m: Machine, t: nat)
    requires LocksAgree(m) && InPhase(m, t)
    ensures LocksAgree(Finish(m, t))
  {
    var after := Finish(m, t);
    forall u | u in after.executors && InPhase(after, u)
      ensures after.executors[u].id in after.lock && after.lock[after.executors[u].id] == u
    {
      assert InPhase(m, u) && u != t;
    }
  }

  lemma FinishKeepsInv(m: Machine, t: nat)
    requires Inv(m) && InPhase(m, t) && !AfterCall(m.executors[t].phase)
    ensures Inv(Finish(m, t))
  {
    var after := Finish(m, t);
    FinishKeepsLocks(m, t);
    forall u | u in after.executors ensures ExecutorAgrees(after, after.executors[u]) {
      assert ExecutorAgrees(m, m.executors[u]);
    }
    assert forall u :: u in m.cleaners ==> CleanerAgrees(m, m.cleaners[u]);
    forall id ensures BudgetKept(after, id) {
      assert BudgetKept(m, id);
    }
  }

  lemma WriteKeepsViews(m: Machine, t: nat, u: nat)
    requires Inv(m) && t in m.executors && m.executors[t].phase.Writing? && u in m.executors
    ensures ExecutorAgrees(Storing(m, t), Storing(m, t).executors[u])
  {
    assert ExecutorAgrees(m, m.executors[t]) && InPhase(m, t);
    if u != t && InPhase(m, u) {
      assert ExecutorAgrees(m, m.executors[u]) && m.executors[u].id != m.executors[t].id;
    }
  }

  lemma WriteKeepsBudget(m: Machine, t: nat, id: Text)
    requires Inv(m) && t in m.executors && m.executors[t].phase.Writing?
    ensures BudgetKept(Storing(m, t), id)
  {
    assert ExecutorAgrees(m, m.executors[t]) && InPhase(m, t);
    assert BudgetKept(m, id);
  }

  lemma WriteKeepsInv(m: Machine, t: nat)
    requires Inv(m) && t in m.executors && m.executors[t].phase.Writing?
    ensures Inv(Storing(m, t))
  {
    var after := Storing(m, t);
    assert ExecutorAgrees(m, m.executors[t]) && InPhase(m, t);
    FinishKeepsLocks(m, t);
    assert LocksAgree(after) by {
      assert forall u :: InPhase(after, u) == InPhase(Finish(m, t), u);
    }
    forall u | u in after.executors ensures ExecutorAgrees(after, after.executors[u]) {
      WriteKeepsViews(m, t, u);
    }
    forall i ensures BudgetKept(after, i) {
      WriteKeepsBudget(m, t, i);
    }
    assert forall u :: u in after.cleaners ==> CleanerAgrees(m, m.cleaners[u]);
  }

  lemma LoseKeepsInv(m: Machine, t: nat)
    requires Inv(m) && InPhase(m, t)
    ensures Inv(Losing(m, t))
  {
    var after := Losing(m, t);
    FinishKeepsLocks(m, t);
    assert LocksAgree(after);
    forall u | u in after.executors ensures ExecutorAgrees(after, after.executors[u]) {
      assert ExecutorAgrees(m, m.executors[u]);
    }
    assert forall u :: u in after.cleaners ==> CleanerAgrees(m, m.cleaners[u]);
    forall i ensures BudgetKept(after, i) {
      assert BudgetKept(m, i);
    }
  }

  lemma StepKeepsInv(m: Machine, config: Config, step: Step)
    requires Inv(m) && Enabled(m, config, step)
    ensures Inv(Next(m, config, step))
  {
    match step {
      case Tick(to) => TickKeepsInv(m, to);
      case Enqueue(input, id, found) =>
        if found.None? {
          EnqueueKeepsInv(m, QueueRecord(config, input, id, m.now));
        }
      case Start(t, id) => StartKeepsInv(m, t, id);
      case Acquire(t) => AcquireKeepsInv(m, t);
      case Load(t) => LoadKeepsInv(m, t);
      case Sign(t, signer) => SignKeepsInv(m, config.norm, t, signer);
      case Call(t, sdk) => CallKeepsInv(m, t, sdk);
      case Resolve(t, reader) => ResolveKeepsInv(m, t, reader);
      case Write(t) => WriteKeepsInv(m, t);
      case Lose(t) => LoseKeepsInv(m, t);
      case CleanStart(u, asOf, candidates) =>
        assert forall v :: v in m.cleaners ==> CleanerAgrees(m, m.cleaners[v]);
        CleanersKeepInv(m, m.cleaners[u := Cleaner(asOf, candidates, None)]);
      case CleanRead(u) => CleanReadKeepsInv(m, u);
      case CleanWrite(u) => CleanWriteKeepsInv(m, u);
    }
  }

  lemma LoadKeepsInv(m: Machine, t: nat)
    requires Inv(m) && t in m.executors && m.executors[t].phase.Holding?
    ensures Inv(Loading(m, t))
  {
    var id := m.executors[t].id;
    assert BudgetKept(m, id);
    if id !in m.items || m.items[id].status != Requested {
      FinishKeepsInv(m, t);
    } else if IsExpiredRequested(m.items[id], m.now) {
      EnterKeepsInv(m, t, Writing(StaleRecord(m.items[id], m.now), false));
    } else {
      EnterKeepsInv(m, t, Loaded(m.items[id]));
    }
  }

  lemma SignKeepsInv(m: Machine, norm: Text -> Text, t: nat, signer: Option<Text>)
    requires Inv(m) && t in m.executors && m.executors[t].phase.Loaded?
    ensures Inv(Signing(m, norm, t, signer))
  {
    var a := m.executors[t].phase.existing;
    assert ExecutorAgrees(m, m.executors[t]) && BudgetKept(m, m.executors[t].id);
    if signer.None? {
      EnterKeepsInv(m, t, Writing(FailedRecord(a, m.now), false));
    } else if !SignerMayExecute(norm, a, signer.value) {
      FinishKeepsInv(m, t);
    } else {
      EnterKeepsInv(m, t, Signed(a));
    }
  }

  lemma ResolveKeepsInv(m: Machine, t: nat, reader: Reader)
    requires Inv(m) && t in m.executors && m.executors[t].phase.Called?
    ensures Inv(Resolving(m, t, reader))
    ensures Resolving(m, t, reader).executors[t].phase.Writing?
  {
    var phase := m.executors[t].phase;
    assert ExecutorAgrees(m, m.executors[t]);
    var sdk :| phase.execution == Execute(phase.existing, sdk);
    ClosingLeavesRequested(phase.existing, sdk, reader, m.now);
    var closing := Closing(phase.existing, phase.execution, reader, m.now);
    EnterKeepsInv(m, t, Writing(closing.value.0, true));
  }

  // ---- Runs ----

  predicate IsRun(states: seq<Machine>, steps: seq<Step>, config: Config) {
    && |states| == |steps| + 1
    && forall i :: 0 <= i < |steps| ==>
         Enabled(states[i], config, steps[i]) && states[i + 1] == Next(states[i], config, steps[i])
  }

  lemma {:induction false} RunKeepsInv(states: seq<Machine>, steps: seq<Step>, config: Config, k: nat)
    requires IsRun(states, steps, config) && states[0] == EMPTY && k <= |steps|
    ensures Inv(states[k])
  {
    if k > 0 {
      RunKeepsInv(states, steps, config, k - 1);
      StepKeepsInv(states[k - 1], config, steps[k - 1]);
    }
  }

  /** In any interleaving, an action is executed on chain at most once more than
      the results that were lost before being stored. */
  lemma CallsAreBounded(states: seq<Machine>, steps: seq<Step>, config: Config, k: nat, id: Text)
    requires IsRun(states, steps, config) && states[0] == EMPTY && k <= |steps|
    ensures states[k].calls[id] <= 1 + states[k].lost[id]
  {
    RunKeepsInv(states, steps, config, k);
    assert BudgetKept(states[k], id);
  }

  lemma OnlyLoseLoses(m: Machine, config: Config, step: Step)
    requires Inv(m) && Enabled(m, config, step) && !step.Lose?
    ensures Next(m, config, step).lost == m.lost
  {
    if step.Resolve? {
      ResolveKeepsInv(m, step.t, step.reader);
    }
  }

  lemma {:induction false} NothingLost(states: seq<Machine>, steps: seq<Step>, config: Config, k: nat)
    requires IsRun(states, steps, config) && states[0] == EMPTY && k <= |steps|
    requires forall i :: 0 <= i < k ==> !steps[i].Lose?
    ensures states[k].lost == multiset{}
  {
    if k > 0 {
      NothingLost(states, steps, config, k - 1);
      RunKeepsInv(states, steps, config, k - 1);
      OnlyLoseLoses(states[k - 1], config, steps[k - 1]);
    }
  }

  /** When every write succeeds, no action is executed on chain twice. */
  lemma AtMostOneCall(states: seq<Machine>, steps: seq<Step>, config: Config, k: nat, id: Text)
    requires IsRun(states, steps, config) && states[0] == EMPTY && k <= |steps|
    requires forall i :: 0 <= i < k ==> !steps[i].Lose?
    ensures states[k].calls[id] <= 1
  {
    CallsAreBounded(states, steps, config, k, id);
    NothingLost(states, steps, config, k);
  }

  // ---- One live action, step by step ----

  /** Executor `t` is about to store an open status after its action's deadline. */
  predicate LateWrite(m: Machine, t: nat) {
    && t in m.executors && m.executors[t].phase.Writing?
    && IsOpen(m.executors[t].phase.record.status) && PastDeadline(m.executors[t].phase.record, m.now)
  }

  predicate OnTime(m: Machine, step: Step) {
    step.Write? ==> !LateWrite(m, step.t)
  }

  lemma WriteKeepsOneLive(m: Machine, t: nat)
    requires Inv(m) && OneLive(m.items, m.now) && t in m.executors && m.executors[t].phase.Writing?
    requires var record := m.executors[t].phase.record; IsOpen(record.status) ==> !PastDeadline(record, m.now)
    ensures OneLive(m.items[m.executors[t].id := m.executors[t].phase.record], m.now)
  {
    assert ExecutorAgrees(m, m.executors[t]);
    ReplaceKeepsOneLive(m.items, m.executors[t].id, m.executors[t].phase.record, m.now, m.now);
  }

  lemma CleanWriteKeepsOneLive(m: Machine, u: nat)
    requires Inv(m) && OneLive(m.items, m.now) && u in m.cleaners && m.cleaners[u].current.Some?
    ensures var a := m.cleaners[u].current.value;
            OneLive(m.items[a.actionId := StaleRecord(a, m.cleaners[u].now)], m.now)
  {
    var c := m.cleaners[u];
    assert CleanerAgrees(m, c);
    ReplaceKeepsOneLive(m.items, c.current.value.actionId, StaleRecord(c.current.value, c.now), m.now, m.now);
  }

  lemma ItemsChangeOnlyByWrites(m: Machine, config: Config, step: Step)
    requires Enabled(m, config, step)
    requires !step.Tick? && !step.Write? && !step.CleanWrite? && !step.Enqueue?
    ensures Next(m, config, step).items == m.items && Next(m, config, step).now == m.now
  {
  }

  lemma StepKeepsOneLive(m: Machine, config: Config, step: Step)
    requires Inv(m) && Enabled(m, config, step) && OneLive(m.items, m.now) && OnTime(m, step)
    ensures OneLive(Next(m, config, step).items, Next(m, config, step).now)
  {
    match step {
      case Tick(to) => OneLiveLater(m.items, m.now, to);
      case Write(t) => WriteKeepsOneLive(m, t);
      case CleanWrite(u) => CleanWriteKeepsOneLive(m, u);
      case Enqueue(_, _, _) =>
      case _ => ItemsChangeOnlyByWrites(m, config, step);
    }
  }

  /** As long as executions are stored before their action's deadline, every
      interleaving keeps at most one live action per intent key. */
  lemma {:induction false} OnTimeRunsKeepOneLive(states: seq<Machine>, steps: seq<Step>, config: Config, k: nat)
    requires IsRun(states, steps, config) && states[0] == EMPTY && k <= |steps|
    requires forall i :: 0 <= i < k ==> OnTime(states[i], steps[i])
    ensures OneLive(states[k].items, states[k].now)
  {
    if k > 0 {
      OnTimeRunsKeepOneLive(states, steps, config, k - 1);
      RunKeepsInv(states, steps, config, k - 1);
      StepKeepsOneLive(states[k - 1], config, steps[k - 1]);
    }
  }
}

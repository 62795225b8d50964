/** An execution or a cleanup that nobody interferes with: the step-by-step machine then
    does exactly what the whole call is specified to do. */
module GovernanceAlone {
  import opened Texts
  import opened Governance
  import opened GovernanceExecution
  import opened GovernanceQueue
  import opened GovernanceMachine
  import opened GovernanceReach

  /** What the whole call makes of the stored actions, at one clock reading. */
  function Whole(m: Machine, config: Config, id: Text, signer: Option<Text>, sdk: SdkReply, reader: Reader): Actions {
    ExecuteStep(State(m.items, []), config.norm, id, GovernanceQueue.Surroundings(m.now, m.now, signer, sdk, reader)).0.items
  }

  /** A run of executor `t`'s steps at one instant. */
  predicate IsAlone(m: Machine, states: seq<Machine>, steps: seq<Step>, config: Config, t: nat) {
    && IsRun(states, steps, config) && states[0] == m
    && forall i :: 0 <= i < |steps| ==> IsExecutorStep(steps[i]) && steps[i].t == t
  }

  /** The executor is through: its lock is free again and the clock stands. */
  predicate IsThrough(m: Machine, after: Machine, t: nat, id: Text) {
    t in after.executors && after.executors[t] == Executor(id, Done) && after.lock == m.lock - {id} && after.now == m.now
  }

  lemma Prepend(m: Machine, step: Step, states: seq<Machine>, steps: seq<Step>, config: Config, t: nat)
    requires Enabled(m, config, step) && IsExecutorStep(step) && step.t == t
    requires IsAlone(Next(m, config, step), states, steps, config, t)
    ensures IsAlone(m, [m] + states, [step] + steps, config, t)
  {
    var all, done := [m] + states, [step] + steps;
    forall i | 0 <= i < |done|
      ensures Enabled(all[i], config, done[i]) && all[i + 1] == Next(all[i], config, done[i])
      ensures IsExecutorStep(done[i]) && done[i].t == t
    {
      assert i > 0 ==> all[i] == states[i - 1] && done[i] == steps[i - 1];
    }
  }

  lemma FromWriting(m: Machine, config: Config, t: nat, id: Text) returns (states: seq<Machine>, steps: seq<Step>)
    requires t in m.executors && m.executors[t].id == id && m.executors[t].phase.Writing?
    ensures IsAlone(m, states, steps, config, t) && IsThrough(m, states[|steps|], t, id)
    ensures states[|steps|].items == m.items[id := m.executors[t].phase.record]
  {
    states, steps := [m, Storing(m, t)], [Write(t)];
  }

  lemma FromSigned(m: Machine, config: Config, t: nat, id: Text, a: Action, sdk: SdkReply, reader: Reader)
    returns (states: seq<Machine>, steps: seq<Step>)
    requires t in m.executors && m.executors[t] == Executor(id, Signed(a))
    ensures IsAlone(m, states, steps, config, t) && IsThrough(m, states[|steps|], t, id)
    ensures Closing(a, Execute(a, sdk), reader, m.now).Some?
    ensures states[|steps|].items == m.items[id := Closing(a, Execute(a, sdk), reader, m.now).value.0]
  {
    ClosingLeavesRequested(a, sdk, reader, m.now);
    var called := Calling(m, t, sdk);
    var closed := Resolving(called, t, reader);
    states, steps := FromWriting(closed, config, t, id);
    Prepend(called, Resolve(t, reader), states, steps, config, t);
    Prepend(m, Call(t, sdk), [called] + states, [Resolve(t, reader)] + steps, config, t);
    states, steps := [m] + ([called] + states), [Call(t, sdk)] + ([Resolve(t, reader)] + steps);
  }

  lemma FromLoaded(m: Machine, config: Config, t: nat, id: Text, a: Action, signer: Option<Text>, sdk: SdkReply, reader: Reader)
    returns (states: seq<Machine>, steps: seq<Step>)
    requires t in m.executors && m.executors[t] == Executor(id, Loaded(a)) && id in m.items && m.items[id] == a
    requires a.actionId == id && a.status == Requested && !IsExpiredRequested(a, m.now)
    ensures IsAlone(m, states, steps, config, t) && IsThrough(m, states[|steps|], t, id)
    ensures states[|steps|].items == Whole(m, config, id, signer, sdk, reader)
  {
    var next := Signing(m, config.norm, t, signer);
    ClosingLeavesRequested(a, sdk, reader, m.now);
    if signer.None? {
      states, steps := FromWriting(next, config, t, id);
    } else if !SignerMayExecute(config.norm, a, signer.value) {
      states, steps := [next], [];
    } else {
      states, steps := FromSigned(next, config, t, id, a, sdk, reader);
    }
    Prepend(m, Sign(t, signer), states, steps, config, t);
    states, steps := [m] + states, [Sign(t, signer)] + steps;
  }

  lemma FromHolding(m: Machine, config: Config, t: nat, id: Text, signer: Option<Text>, sdk: SdkReply, reader: Reader)
    returns (states: seq<Machine>, steps: seq<Step>)
    requires Keyed(m.items) && t in m.executors && m.executors[t] == Executor(id, Holding)
    ensures IsAlone(m, states, steps, config, t) && IsThrough(m, states[|steps|], t, id)
    ensures states[|steps|].items == Whole(m, config, id, signer, sdk, reader)
  {
    var next := Loading(m, t);
    if id !in m.items || m.items[id].status != Requested {
      states, steps := [next], [];
    } else if IsExpiredRequested(m.items[id], m.now) {
      states, steps := FromWriting(next, config, t, id);
    } else {
      states, steps := FromLoaded(next, config, t, id, m.items[id], signer, sdk, reader);
    }
    Prepend(m, Load(t), states, steps, config, t);
    states, steps := [m] + states, [Load(t)] + steps;
  }

  /** From every state: an executor that is waiting for a free lock, and is not interrupted,
      leaves the stored actions exactly as the whole call does, and the lock free. */
  lemma AloneIsWhole(m: Machine, config: Config, t: nat, id: Text, signer: Option<Text>, sdk: SdkReply, reader: Reader)
    returns (states: seq<Machine>, steps: seq<Step>)
    requires Keyed(m.items) && t in m.executors && m.executors[t] == Executor(id, Waiting) && id !in m.lock
    ensures IsAlone(m, states, steps, config, t) && IsThrough(m, states[|steps|], t, id)
    ensures states[|steps|].items == Whole(m, config, id, signer, sdk, reader)
  {
    var held := Acquiring(m, t);
    states, steps := FromHolding(held, config, t, id, signer, sdk, reader);
    Prepend(m, Acquire(t), states, steps, config, t);
    states, steps := [m] + states, [Acquire(t)] + steps;
    assert held.lock - {id} == m.lock - {id};
  }

  // ---- Cleanup ----

  /** One candidate of a cleanup run that is not interrupted: read and, if it is still
      expired, marked stale, as the whole call does with each of its candidates. */
  lemma CandidateAlone(m: Machine, config: Config, u: nat) returns (states: seq<Machine>, steps: seq<Step>)
    requires Keyed(m.items) && u in m.cleaners && m.cleaners[u].candidates != [] && m.cleaners[u].current.None?
    ensures IsRun(states, steps, config) && states[0] == m
    ensures var c, after := m.cleaners[u], states[|steps|];
            && after.items == CleanOne(State(m.items, []), c.candidates[0], c.now).items
            && u in after.cleaners && after.cleaners[u] == Cleaner(c.now, c.candidates[1..], None)
            && after == m.(items := after.items, cleaners := after.cleaners)
            && after.cleaners == m.cleaners[u := after.cleaners[u]]
  {
    var read := CleanReading(m, u);
    var c := m.cleaners[u];
    var id := c.candidates[0];
    if id in m.items && IsExpiredRequested(m.items[id], c.now) {
      var written := CleanWriting(read, u);
      states, steps := [m, read, written], [CleanRead(u), CleanWrite(u)];
    } else {
      states, steps := [m, read], [CleanRead(u)];
    }
  }
}

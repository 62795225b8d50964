/** Compliance decisions on trades, ordered by a clock that may go backwards, and
    the gate that blocks and resumes oracle progression. */
module Compliance {
  import opened Texts

  datatype Result = Allow | Deny

  datatype Reason = OverrideActive | OtherReason(code: Text)

  datatype Decision = Decision(
    decisionId: Text, tradeId: Text, result: Result, reason: Reason, decidedAt: int, overrideWindowEndsAt: Option<int>)

  datatype BlockState = Free | Held | ResumePending

  datatype Block = Block(
    latestDecisionId: Text, state: BlockState, reasonCode: Text, blockedAt: Option<int>, resumedAt: Option<int>, updatedAt: int)

  datatype TradeStatus = TradeStatus(
    currentResult: Result, blocked: bool, latestDecisionId: Text, updatedAt: int)

  /** Decisions in the order they were saved, and the block record of each trade. */
  datatype State = State(decisions: seq<Decision>, blocks: map<Text, Block>)

  datatype DecisionInput = DecisionInput(tradeId: Text, result: Result, reason: Reason, overrideWindowEndsAt: Option<int>)

  datatype ControlInput = ControlInput(tradeId: Text, decisionId: Option<Text>, reasonCode: Text)

  datatype Error =
    | AlreadyBlocked | NotBlocked | DecisionNotFound | OtherTrade | NoDecision
    | NotLatest | NotAllowed | OverrideExpired | StatusMissing

  datatype Reply = Done(status: TradeStatus) | Refused(error: Error)

  const EMPTY: State := State([], map[])

  /** `a` comes before `b` in the latest-first order. */
  predicate Newer(a: Decision, b: Decision) {
    a.decidedAt > b.decidedAt || (a.decidedAt == b.decidedAt && LexLess(b.decisionId, a.decisionId))
  }

  /** The trade's decisions sorted latest first, and of those the first. */
  function LatestDecision(decisions: seq<Decision>, tradeId: Text): Option<Decision> {
    if decisions == [] then None
    else
      var last := decisions[|decisions| - 1];
      var before := LatestDecision(decisions[..|decisions| - 1], tradeId);
      if last.tradeId == tradeId && (before.None? || Newer(last, before.value)) then Some(last) else before
  }

  function FindDecision(decisions: seq<Decision>, decisionId: Text): Option<Decision> {
    if decisions == [] then None
    else if decisions[|decisions| - 1].decisionId == decisionId then Some(decisions[|decisions| - 1])
    else FindDecision(decisions[..|decisions| - 1], decisionId)
  }

  function Max(a: int, b: int): int {
    if a < b then b else a
  }

  function NextDecisionTimestamp(decisions: seq<Decision>, tradeId: Text, now: int): int {
    var latest := LatestDecision(decisions, tradeId);
    if latest.None? then now else Max(now, latest.value.decidedAt + 1)
  }

  function NewDecision(s: State, input: DecisionInput, id: Text, now: int): Decision {
    Decision(id, input.tradeId, input.result, input.reason, NextDecisionTimestamp(s.decisions, input.tradeId, now),
             input.overrideWindowEndsAt)
  }

  function Created(s: State, input: DecisionInput, id: Text, now: int): State {
    s.(decisions := s.decisions + [NewDecision(s, input, id, now)])
  }

  function StatusOf(s: State, tradeId: Text): Option<TradeStatus> {
    var latest := LatestDecision(s.decisions, tradeId);
    if latest.None? then None
    else if tradeId !in s.blocks then
      Some(TradeStatus(latest.value.result, false, latest.value.decisionId, latest.value.decidedAt))
    else
      Some(TradeStatus(latest.value.result, s.blocks[tradeId].state != Free, latest.value.decisionId,
                       Max(s.blocks[tradeId].updatedAt, latest.value.decidedAt)))
  }

  /** Oracle progression is held back: the state is anything but free. */
  predicate IsBlocked(s: State, tradeId: Text) {
    tradeId in s.blocks && s.blocks[tradeId].state != Free
  }

  datatype Resolved = Resolved(decision: Option<Decision>) | Unresolved(error: Error)

  function ResolveDecision(s: State, tradeId: Text, decisionId: Option<Text>): Resolved {
    if decisionId.None? then Resolved(LatestDecision(s.decisions, tradeId))
    else
      var found := FindDecision(s.decisions, decisionId.value);
      if found.None? then Unresolved(DecisionNotFound)
      else if found.value.tradeId != tradeId then Unresolved(OtherTrade)
      else Resolved(found)
  }

  function Answer(s: State, tradeId: Text): Reply {
    var status := StatusOf(s, tradeId);
    if status.None? then Refused(StatusMissing) else Done(status.value)
  }

  /** The new decision says what its input said, at a time that is not before the clock's
      and after every earlier decision on the trade, by no more than it must be. */
  predicate IsRecording(before: seq<Decision>, input: DecisionInput, id: Text, now: int, d: Decision, after: seq<Decision>) {
    && after == before + [d]
    && d.decisionId == id && d.tradeId == input.tradeId && d.result == input.result && d.reason == input.reason
    && d.overrideWindowEndsAt == input.overrideWindowEndsAt
    && d.decidedAt >= now
    && (forall k :: 0 <= k < |before| && before[k].tradeId == input.tradeId ==> before[k].decidedAt < d.decidedAt)
    && (d.decidedAt == now
        || exists k :: 0 <= k < |before| && before[k].tradeId == input.tradeId && before[k].decidedAt + 1 == d.decidedAt)
  }

  lemma RecordingIsRight(s: State, input: DecisionInput, id: Text, now: int)
    ensures IsRecording(s.decisions, input, id, now, NewDecision(s, input, id, now), Created(s, input, id, now).decisions)
  {
    var before := s.decisions;
    forall k | 0 <= k < |before| && before[k].tradeId == input.tradeId
      ensures before[k].decidedAt < NextDecisionTimestamp(before, input.tradeId, now)
    {
      LatestIsNewest(before, input.tradeId, k);
    }
    LatestIsOfTrade(before, input.tradeId);
    if LatestDecision(before, input.tradeId).Some? {
      var k :| 0 <= k < |before| && before[k] == LatestDecision(before, input.tradeId).value;
    }
  }

  class ComplianceService {
    var decisions: seq<Decision>
    var blocks: map<Text, Block>

    ghost function Contents(): State reads this { State(decisions, blocks) }

    constructor ()
      ensures Contents() == EMPTY
    {
      decisions, blocks := [], map[];
    }

    method CreateDecision(input: DecisionInput, id: Text, now: int) returns (decision: Decision)
      modifies this
      ensures Contents() == Created(old(Contents()), input, id, now)
      ensures decision == NewDecision(old(Contents()), input, id, now)
      ensures IsRecording(old(decisions), input, id, now, decision, decisions) && blocks == old(blocks)
    {
      RecordingIsRight(Contents(), input, id, now);
      var latest := LatestDecision(decisions, input.tradeId);
      var decidedAt := now;
      if latest.Some? {
        decidedAt := Max(now, latest.value.decidedAt + 1);
      }
      decision := Decision(id, input.tradeId, input.result, input.reason, decidedAt, input.overrideWindowEndsAt);
      decisions := decisions + [decision];
    }

    method BlockOracleProgression(input: ControlInput, now: int) returns (reply: Reply)
      modifies this
      ensures (Contents(), reply) == Blocked(old(Contents()), input, now)
    {
      if input.tradeId in blocks && blocks[input.tradeId].state == Held {
        return Refused(AlreadyBlocked);
      }
      var resolved := ResolveDecision(State(decisions, blocks), input.tradeId, input.decisionId);
      if resolved.Unresolved? {
        return Refused(resolved.error);
      }
      if resolved.decision.None? {
        return Refused(NoDecision);
      }
      blocks := blocks[input.tradeId := Block(resolved.decision.value.decisionId, Held, input.reasonCode, Some(now), None, now)];
      return Answer(State(decisions, blocks), input.tradeId);
    }

    /** `checkedAt` and `now` are the two clock readings of a resume. */
    method ResumeOracleProgression(input: ControlInput, checkedAt: int, now: int) returns (reply: Reply)
      modifies this
      ensures (Contents(), reply) == Resumed(old(Contents()), input, checkedAt, now)
    {
      if input.tradeId !in blocks || blocks[input.tradeId].state == Free {
        return Refused(NotBlocked);
      }
      var resolved := ResolveDecision(State(decisions, blocks), input.tradeId, input.decisionId);
      if resolved.Unresolved? {
        return Refused(resolved.error);
      }
      var latest := LatestDecision(decisions, input.tradeId);
      if latest.None? {
        return Refused(NoDecision);
      }
      if resolved.decision.Some? && resolved.decision.value.decisionId != latest.value.decisionId {
        return Refused(NotLatest);
      }
      if latest.value.result != Allow {
        return Refused(NotAllowed);
      }
      if latest.value.reason == OverrideActive {
        if latest.value.overrideWindowEndsAt.None? || latest.value.overrideWindowEndsAt.value <= checkedAt {
          return Refused(OverrideExpired);
        }
      }
      blocks := blocks[input.tradeId := blocks[input.tradeId].(
        latestDecisionId := latest.value.decisionId, state := Free, reasonCode := input.reasonCode,
        resumedAt := Some(now), updatedAt := now)];
      return Answer(State(decisions, blocks), input.tradeId);
    }
  }

  function Blocked(s: State, input: ControlInput, now: int): (State, Reply) {
    var resolved := ResolveDecision(s, input.tradeId, input.decisionId);
    if input.tradeId in s.blocks && s.blocks[input.tradeId].state == Held then (s, Refused(AlreadyBlocked))
    else if resolved.Unresolved? then (s, Refused(resolved.error))
    else if resolved.decision.None? then (s, Refused(NoDecision))
    else
      var after := s.(blocks := s.blocks[input.tradeId :=
        Block(resolved.decision.value.decisionId, Held, input.reasonCode, Some(now), None, now)]);
      (after, Answer(after, input.tradeId))
  }

  function Resumed(s: State, input: ControlInput, checkedAt: int, now: int): (State, Reply) {
    var resolved := ResolveDecision(s, input.tradeId, input.decisionId);
    var latest := LatestDecision(s.decisions, input.tradeId);
    if !IsBlocked(s, input.tradeId) then (s, Refused(NotBlocked))
    else if resolved.Unresolved? then (s, Refused(resolved.error))
    else if latest.None? then (s, Refused(NoDecision))
    else if resolved.decision.Some? && resolved.decision.value.decisionId != latest.value.decisionId then (s, Refused(NotLatest))
    else if latest.value.result != Allow then (s, Refused(NotAllowed))
    else if latest.value.reason == OverrideActive
            && (latest.value.overrideWindowEndsAt.None? || latest.value.overrideWindowEndsAt.value <= checkedAt)
    then (s, Refused(OverrideExpired))
    else
      var after := s.(blocks := s.blocks[input.tradeId := s.blocks[input.tradeId].(
        latestDecisionId := latest.value.decisionId, state := Free, reasonCode := input.reasonCode,
        resumedAt := Some(now), updatedAt := now)]);
      (after, Answer(after, input.tradeId))
  }

  // ---- Order ----

  lemma NewerTransitive(a: Decision, b: Decision, c: Decision)
    requires Newer(a, b) && Newer(b, c)
    ensures Newer(a, c)
  {
    if a.decidedAt == c.decidedAt {
      LexTransitive(c.decisionId, b.decisionId, a.decisionId);
    }
  }

  /** The latest decision is the trade's maximum in the latest-first order. */
  lemma {:induction false} LatestIsNewest(decisions: seq<Decision>, tradeId: Text, k: nat)
    requires k < |decisions| && decisions[k].tradeId == tradeId
    ensures var latest := LatestDecision(decisions, tradeId);
            && latest.Some? && latest.value in decisions && latest.value.tradeId == tradeId
            && ((latest.value.decisionId == decisions[k].decisionId && latest.value.decidedAt == decisions[k].decidedAt)
                || Newer(latest.value, decisions[k]))
    decreases |decisions|
  {
    var front, last := decisions[..|decisions| - 1], decisions[|decisions| - 1];
    var before := LatestDecision(front, tradeId);
    LatestIsOfTrade(front, tradeId);
    if k < |front| {
      LatestIsNewest(front, tradeId, k);
      if last.tradeId == tradeId && Newer(last, before.value) && before.value.decisionId != decisions[k].decisionId {
        NewerTransitive(last, before.value, decisions[k]);
      }
    } else if before.Some? && !Newer(last, before.value) {
      LexTotal(last.decisionId, before.value.decisionId);
    }
  }

  lemma {:induction false} LatestIsOfTrade(decisions: seq<Decision>, tradeId: Text)
    ensures var latest := LatestDecision(decisions, tradeId);
            latest.Some? ==> latest.value in decisions && latest.value.tradeId == tradeId
    decreases |decisions|
  {
    if decisions != [] {
      LatestIsOfTrade(decisions[..|decisions| - 1], tradeId);
    }
  }

  /** The decision on a trade that was saved last. */
  function LastRecorded(decisions: seq<Decision>, tradeId: Text): Option<Decision> {
    if decisions == [] then None
    else if decisions[|decisions| - 1].tradeId == tradeId then Some(decisions[|decisions| - 1])
    else LastRecorded(decisions[..|decisions| - 1], tradeId)
  }

  /** Decisions on one trade are in strictly increasing time order. */
  predicate Increasing(decisions: seq<Decision>) {
    forall i, j :: 0 <= i < j < |decisions| && decisions[i].tradeId == decisions[j].tradeId ==>
      decisions[i].decidedAt < decisions[j].decidedAt
  }

  lemma {:induction false} LatestIsLastRecorded(decisions: seq<Decision>, tradeId: Text)
    requires Increasing(decisions)
    ensures LatestDecision(decisions, tradeId) == LastRecorded(decisions, tradeId)
    decreases |decisions|
  {
    if decisions != [] {
      var front := decisions[..|decisions| - 1];
      LatestIsLastRecorded(front, tradeId);
      LatestIsOfTrade(front, tradeId);
      if LatestDecision(front, tradeId).Some? {
        var k :| 0 <= k < |front| && front[k] == LatestDecision(front, tradeId).value;
        assert decisions[k] == front[k];
      }
    }
  }

  lemma CreateKeepsIncreasing(s: State, input: DecisionInput, id: Text, now: int)
    requires Increasing(s.decisions)
    ensures Increasing(Created(s, input, id, now).decisions)
  {
    forall i | 0 <= i < |s.decisions| && s.decisions[i].tradeId == input.tradeId
      ensures s.decisions[i].decidedAt < NextDecisionTimestamp(s.decisions, input.tradeId, now)
    {
      LatestIsNewest(s.decisions, input.tradeId, i);
    }
  }

  // ---- Runs ----

  datatype Call =
    | Create(input: DecisionInput, id: Text, now: int)
    | BlockCall(control: ControlInput, now: int)
    | ResumeCall(control: ControlInput, checkedAt: int, now: int)

  /** Identifiers are fresh; the clock readings are arbitrary. */
  predicate Enabled(s: State, c: Call) {
    c.Create? ==> forall d :: d in s.decisions ==> d.decisionId != c.id
  }

  function After(s: State, c: Call): State {
    match c
    case Create(input, id, now) => Created(s, input, id, now)
    case BlockCall(control, now) => Blocked(s, control, now).0
    case ResumeCall(control, checkedAt, now) => Resumed(s, control, checkedAt, now).0
  }

  predicate IsRun(states: seq<State>, calls: seq<Call>) {
    && |states| == |calls| + 1
    && forall i :: 0 <= i < |calls| ==> Enabled(states[i], calls[i]) && states[i + 1] == After(states[i], calls[i])
  }

  predicate DistinctIds(decisions: seq<Decision>) {
    forall i, j :: 0 <= i < j < |decisions| ==> decisions[i].decisionId != decisions[j].decisionId
  }

  predicate Sound(s: State) {
    && Increasing(s.decisions)
    && DistinctIds(s.decisions)
    && forall t :: t in s.blocks ==> LatestDecision(s.decisions, t).Some? && s.blocks[t].state != ResumePending
  }

  lemma {:induction false} FoundIsRecorded(decisions: seq<Decision>, decisionId: Text)
    ensures var found := FindDecision(decisions, decisionId);
            if found.Some? then found.value in decisions && found.value.decisionId == decisionId
            else forall d :: d in decisions ==> d.decisionId != decisionId
    decreases |decisions|
  {
    if decisions != [] {
      FoundIsRecorded(decisions[..|decisions| - 1], decisionId);
    }
  }

  lemma ResolvedMeansDecided(s: State, tradeId: Text, decisionId: Option<Text>)
    requires var r := ResolveDecision(s, tradeId, decisionId); r.Resolved? && r.decision.Some?
    ensures LatestDecision(s.decisions, tradeId).Some?
  {
    if decisionId.Some? {
      FoundIsRecorded(s.decisions, decisionId.value);
      var d := FindDecision(s.decisions, decisionId.value).value;
      var k :| 0 <= k < |s.decisions| && s.decisions[k] == d;
      LatestIsNewest(s.decisions, tradeId, k);
    }
  }

  lemma StepStaysSound(s: State, c: Call)
    requires Sound(s) && Enabled(s, c)
    ensures Sound(After(s, c))
  {
    match c {
      case Create(input, id, now) => CreateKeepsIncreasing(s, input, id, now);
      case BlockCall(control, now) =>
        var r := ResolveDecision(s, control.tradeId, control.decisionId);
        if r.Resolved? && r.decision.Some? {
          ResolvedMeansDecided(s, control.tradeId, control.decisionId);
        }
      case ResumeCall(_, _, _) =>
    }
  }

  /** Whatever the clock does, decisions on one trade get strictly increasing
      times, so the latest decision is the one recorded last. */
  lemma {:induction false} RunsStaySound(states: seq<State>, calls: seq<Call>, k: nat)
    requires IsRun(states, calls) && states[0] == EMPTY && k <= |calls|
    ensures Sound(states[k])
    ensures forall t :: LatestDecision(states[k].decisions, t) == LastRecorded(states[k].decisions, t)
  {
    if k > 0 {
      RunsStaySound(states, calls, k - 1);
      StepStaysSound(states[k - 1], calls[k - 1]);
    }
    forall t ensures LatestDecision(states[k].decisions, t) == LastRecorded(states[k].decisions, t) {
      LatestIsLastRecorded(states[k].decisions, t);
    }
  }

  // ---- Decisions are what their calls said ----

  predicate CreatesFor(c: Call, tradeId: Text) {
    c.Create? && c.input.tradeId == tradeId
  }

  /** The `i`th call is the last of the first `k` that records a decision on the trade. */
  predicate IsLastCreate(calls: seq<Call>, k: nat, tradeId: Text, i: nat)
    requires k <= |calls|
  {
    i < k && CreatesFor(calls[i], tradeId) && forall j :: i < j < k ==> !CreatesFor(calls[j], tradeId)
  }

  /** The decision records the call: its identifier and everything its input said. */
  predicate Records(d: Decision, c: Call)
    requires c.Create?
  {
    && d.decisionId == c.id && d.tradeId == c.input.tradeId && d.result == c.input.result && d.reason == c.input.reason
    && d.overrideWindowEndsAt == c.input.overrideWindowEndsAt && d.decidedAt >= c.now
  }

  lemma CreateRecords(s: State, c: Call)
    requires c.Create?
    ensures After(s, c).blocks == s.blocks && |After(s, c).decisions| == |s.decisions| + 1
    ensures After(s, c).decisions[..|s.decisions|] == s.decisions
    ensures Records(After(s, c).decisions[|s.decisions|], c)
  {
  }

  lemma ControlsRecordNothing(s: State, c: Call)
    requires !c.Create?
    ensures After(s, c).decisions == s.decisions
  {
  }

  /** The decision recorded last on a trade is that of the trade's last `Create` call. */
  lemma {:induction false} LastRecordedIsLastCreate(states: seq<State>, calls: seq<Call>, k: nat, tradeId: Text, i: nat)
    requires IsRun(states, calls) && states[0] == EMPTY && k <= |calls| && IsLastCreate(calls, k, tradeId, i)
    ensures var last := LastRecorded(states[k].decisions, tradeId); last.Some? && Records(last.value, calls[i])
    decreases k
  {
    var s, c := states[k - 1], calls[k - 1];
    if c.Create? {
      CreateRecords(s, c);
    } else {
      ControlsRecordNothing(s, c);
    }
    if i < k - 1 {
      LastRecordedIsLastCreate(states, calls, k - 1, tradeId, i);
    }
  }

  /** And there is none before the first such call. */
  lemma {:induction false} RecordedNeedsCreate(states: seq<State>, calls: seq<Call>, k: nat, tradeId: Text) returns (i: nat)
    requires IsRun(states, calls) && states[0] == EMPTY && k <= |calls|
    requires LastRecorded(states[k].decisions, tradeId).Some?
    ensures IsLastCreate(calls, k, tradeId, i)
  {
    var s, c := states[k - 1], calls[k - 1];
    if CreatesFor(c, tradeId) {
      i := k - 1;
    } else {
      if c.Create? {
        CreateRecords(s, c);
      } else {
        ControlsRecordNothing(s, c);
      }
      i := RecordedNeedsCreate(states, calls, k - 1, tradeId);
    }
  }

  /** The trade's last decision admits a resume: it is ALLOW, it is the one named (if
      any is), and an override's window is open. */
  predicate Admits(calls: seq<Call>, k: nat, control: ControlInput, checkedAt: int, i: nat)
    requires k <= |calls|
  {
    && IsLastCreate(calls, k, control.tradeId, i)
    && calls[i].input.result == Allow
    && (control.decisionId.Some? ==> control.decisionId.value == calls[i].id)
    && (calls[i].input.reason == OverrideActive ==>
          calls[i].input.overrideWindowEndsAt.Some? && calls[i].input.overrideWindowEndsAt.value > checkedAt)
  }

  /** Over any run: a resume succeeds if and only if the trade is blocked and its last
      `Create` call admits it. */
  lemma ResumeSucceedsIff(states: seq<State>, calls: seq<Call>, k: nat, control: ControlInput, checkedAt: int, now: int)
    requires IsRun(states, calls) && states[0] == EMPTY && k <= |calls|
    ensures var reply := Resumed(states[k], control, checkedAt, now).1;
            && (reply.Done? <==> IsBlocked(states[k], control.tradeId) && exists i: nat :: Admits(calls, k, control, checkedAt, i))
            && (reply.Done? ==> exists i: nat :: Admits(calls, k, control, checkedAt, i) && reply.status.latestDecisionId == calls[i].id)
  {
    ResumeSucceedsByLast(states, calls, k, control, checkedAt, now);
    if LastRecorded(states[k].decisions, control.tradeId).Some? {
      var i := RecordedNeedsCreate(states, calls, k, control.tradeId);
      LastRecordedIsLastCreate(states, calls, k, control.tradeId, i);
      assert forall j: nat :: IsLastCreate(calls, k, control.tradeId, j) ==> j == i;
      assert Resumed(states[k], control, checkedAt, now).1.Done? ==> Admits(calls, k, control, checkedAt, i);
    } else {
      forall i: nat | IsLastCreate(calls, k, control.tradeId, i) ensures false {
        LastRecordedIsLastCreate(states, calls, k, control.tradeId, i);
      }
    }
  }

  /** In terms of the stored decisions: the trade is blocked, the decision named (if
      any) is its last recorded one, that one is ALLOW, and an override among them is
      still open. The missing-status error never arises. */
  lemma ResumeSucceedsByLast(states: seq<State>, calls: seq<Call>, k: nat, control: ControlInput, checkedAt: int, now: int)
    requires IsRun(states, calls) && states[0] == EMPTY && k <= |calls|
    ensures var s := states[k];
            var (after, reply) := Resumed(s, control, checkedAt, now);
            var last := LastRecorded(s.decisions, control.tradeId);
            && (reply.Done? <==>
                  && IsBlocked(s, control.tradeId)
                  && last.Some? && last.value.result == Allow
                  && (control.decisionId.Some? ==> control.decisionId.value == last.value.decisionId)
                  && (last.value.reason == OverrideActive ==>
                        last.value.overrideWindowEndsAt.Some? && last.value.overrideWindowEndsAt.value > checkedAt))
            && reply != Refused(StatusMissing)
            && (reply.Done? ==> !reply.status.blocked && !IsBlocked(after, control.tradeId)
                                && reply.status.latestDecisionId == last.value.decisionId)
            && (!reply.Done? ==> after == s)
  {
    var s := states[k];
    RunsStaySound(states, calls, k);
    LatestIsOfTrade(s.decisions, control.tradeId);
    if control.decisionId.Some? {
      FoundIsRecorded(s.decisions, control.decisionId.value);
    }
  }

  /** A block succeeds exactly when the trade is not blocked and has the decision
      named, or any decision if none is named. */
  lemma BlockSucceedsIff(states: seq<State>, calls: seq<Call>, k: nat, control: ControlInput, now: int)
    requires IsRun(states, calls) && states[0] == EMPTY && k <= |calls|
    ensures var s := states[k];
            var (after, reply) := Blocked(s, control, now);
            && (reply.Done? <==>
                  && !IsBlocked(s, control.tradeId)
                  && exists d :: d in s.decisions && d.tradeId == control.tradeId
                                 && (control.decisionId.Some? ==> d.decisionId == control.decisionId.value))
            && reply != Refused(StatusMissing)
            && (reply.Done? ==> reply.status.blocked && IsBlocked(after, control.tradeId))
            && (!reply.Done? ==> after == s)
  {
    var s := states[k];
    RunsStaySound(states, calls, k);
    LatestIsOfTrade(s.decisions, control.tradeId);
    if control.decisionId.Some? {
      FoundIsRecorded(s.decisions, control.decisionId.value);
    }
    var r := ResolveDecision(s, control.tradeId, control.decisionId);
    if r.Resolved? && r.decision.Some? {
      ResolvedMeansDecided(s, control.tradeId, control.decisionId);
    }
    if d :| d in s.decisions && d.tradeId == control.tradeId
            && (control.decisionId.Some? ==> d.decisionId == control.decisionId.value) {
      var j :| 0 <= j < |s.decisions| && s.decisions[j] == d;
      LatestIsNewest(s.decisions, control.tradeId, j);
    }
  }

  // ---- Why a control is refused, and what it leaves ----

  predicate HasDecision(s: State, decisionId: Text) {
    exists d :: d in s.decisions && d.decisionId == decisionId
  }

  predicate Decided(s: State, tradeId: Text, decisionId: Text) {
    exists d :: d in s.decisions && d.decisionId == decisionId && d.tradeId == tradeId
  }

  /** The named decision, if any is named, is one on the trade. */
  predicate NamesOwn(s: State, control: ControlInput) {
    control.decisionId.Some? ==> Decided(s, control.tradeId, control.decisionId.value)
  }

  /** The reason a resume is refused for, the first that applies. */
  predicate IsResumeRefusal(s: State, control: ControlInput, checkedAt: int, error: Error) {
    var last := LastRecorded(s.decisions, control.tradeId);
    match error
    case NotBlocked => !IsBlocked(s, control.tradeId)
    case DecisionNotFound =>
      IsBlocked(s, control.tradeId) && control.decisionId.Some? && !HasDecision(s, control.decisionId.value)
    case OtherTrade =>
      && IsBlocked(s, control.tradeId) && control.decisionId.Some? && HasDecision(s, control.decisionId.value)
      && !NamesOwn(s, control)
    case NotLatest =>
      && IsBlocked(s, control.tradeId) && NamesOwn(s, control)
      && control.decisionId.Some? && last.Some? && last.value.decisionId != control.decisionId.value
    case NotAllowed =>
      && IsBlocked(s, control.tradeId) && last.Some? && last.value.result != Allow
      && (control.decisionId.Some? ==> last.value.decisionId == control.decisionId.value)
    case OverrideExpired =>
      && IsBlocked(s, control.tradeId) && last.Some? && last.value.result == Allow && last.value.reason == OverrideActive
      && (control.decisionId.Some? ==> last.value.decisionId == control.decisionId.value)
      && (last.value.overrideWindowEndsAt.None? || last.value.overrideWindowEndsAt.value <= checkedAt)
    case _ => false
  }

  /** Every refusal of a resume is for the reason it names, and nothing changes; a resume
      that succeeds frees the trade under the control's own reason and the last decision,
      keeps when it was blocked, and reports the trade so. */
  lemma ResumeMeans(states: seq<State>, calls: seq<Call>, k: nat, control: ControlInput, checkedAt: int, now: int)
    requires IsRun(states, calls) && states[0] == EMPTY && k <= |calls|
    ensures var s := states[k];
            var (after, reply) := Resumed(s, control, checkedAt, now);
            var last := LastRecorded(s.decisions, control.tradeId);
            && (reply.Refused? ==> IsResumeRefusal(s, control, checkedAt, reply.error) && after == s)
            && (reply.Done? ==>
                  && control.tradeId in s.blocks && last.Some?
                  && after.decisions == s.decisions
                  && after.blocks == s.blocks[control.tradeId :=
                       Block(last.value.decisionId, Free, control.reasonCode, s.blocks[control.tradeId].blockedAt, Some(now), now)]
                  && reply.status == TradeStatus(last.value.result, false, last.value.decisionId, Max(now, last.value.decidedAt)))
  {
    var s := states[k];
    RunsStaySound(states, calls, k);
    LatestIsOfTrade(s.decisions, control.tradeId);
    if control.decisionId.Some? {
      NamedDecision(s, control.tradeId, control.decisionId.value);
    }
  }

  lemma NamedDecision(s: State, tradeId: Text, decisionId: Text)
    requires Sound(s)
    ensures var found := FindDecision(s.decisions, decisionId);
            && (found.Some? <==> HasDecision(s, decisionId))
            && (found.Some? ==> found.value.decisionId == decisionId
                                && (found.value.tradeId == tradeId <==> Decided(s, tradeId, decisionId)))
    ensures Decided(s, tradeId, decisionId) ==> LatestDecision(s.decisions, tradeId).Some?
  {
    FoundIsRecorded(s.decisions, decisionId);
    if d :| d in s.decisions && d.decisionId == decisionId && d.tradeId == tradeId {
      var found := FindDecision(s.decisions, decisionId).value;
      var i :| 0 <= i < |s.decisions| && s.decisions[i] == d;
      var j :| 0 <= j < |s.decisions| && s.decisions[j] == found;
      assert i == j;
      LatestIsNewest(s.decisions, tradeId, i);
    }
  }

  predicate IsBlockRefusal(s: State, control: ControlInput, error: Error) {
    match error
    case AlreadyBlocked => IsBlocked(s, control.tradeId)
    case DecisionNotFound =>
      !IsBlocked(s, control.tradeId) && control.decisionId.Some? && !HasDecision(s, control.decisionId.value)
    case OtherTrade =>
      && !IsBlocked(s, control.tradeId) && control.decisionId.Some? && HasDecision(s, control.decisionId.value)
      && !NamesOwn(s, control)
    case NoDecision =>
      !IsBlocked(s, control.tradeId) && control.decisionId.None? && LastRecorded(s.decisions, control.tradeId).None?
    case _ => false
  }

  /** The same of a block: it holds the trade under the control's reason and the decision
      named, or the last one. */
  lemma BlockMeans(states: seq<State>, calls: seq<Call>, k: nat, control: ControlInput, now: int)
    requires IsRun(states, calls) && states[0] == EMPTY && k <= |calls|
    ensures var s := states[k];
            var (after, reply) := Blocked(s, control, now);
            var last := LastRecorded(s.decisions, control.tradeId);
            && (reply.Refused? ==> IsBlockRefusal(s, control, reply.error) && after == s)
            && (reply.Done? ==>
                  && last.Some? && after.decisions == s.decisions
                  && after.blocks == s.blocks[control.tradeId :=
                       Block(if control.decisionId.Some? then control.decisionId.value else last.value.decisionId,
                             Held, control.reasonCode, Some(now), None, now)]
                  && reply.status == TradeStatus(last.value.result, true, last.value.decisionId, Max(now, last.value.decidedAt)))
  {
    var s := states[k];
    RunsStaySound(states, calls, k);
    LatestIsOfTrade(s.decisions, control.tradeId);
    if control.decisionId.Some? {
      NamedDecision(s, control.tradeId, control.decisionId.value);
    }
  }

  /** A trade's status reports its last decision and whether it is blocked, and there is
      one as soon as there is a decision. */
  lemma StatusReports(states: seq<State>, calls: seq<Call>, k: nat, tradeId: Text)
    requires IsRun(states, calls) && states[0] == EMPTY && k <= |calls|
    ensures var s := states[k];
            var status, last := StatusOf(s, tradeId), LastRecorded(s.decisions, tradeId);
            && (status.Some? <==> last.Some?)
            && (status.Some? ==>
                  && status.value.currentResult == last.value.result && status.value.latestDecisionId == last.value.decisionId
                  && (status.value.blocked <==> IsBlocked(s, tradeId))
                  && status.value.updatedAt >= last.value.decidedAt
                  && (tradeId !in s.blocks ==> status.value.updatedAt == last.value.decidedAt))
  {
    RunsStaySound(states, calls, k);
  }

  predicate Blocks(states: seq<State>, calls: seq<Call>, i: nat, tradeId: Text)
    requires |states| == |calls| + 1 && i < |calls|
  {
    && calls[i].BlockCall? && calls[i].control.tradeId == tradeId
    && Blocked(states[i], calls[i].control, calls[i].now).1.Done?
  }

  predicate Resumes(states: seq<State>, calls: seq<Call>, i: nat, tradeId: Text)
    requires |states| == |calls| + 1 && i < |calls|
  {
    && calls[i].ResumeCall? && calls[i].control.tradeId == tradeId
    && Resumed(states[i], calls[i].control, calls[i].checkedAt, calls[i].now).1.Done?
  }

  /** The `i`th call blocked the trade, and none of the first `k` has resumed it since. */
  predicate BlockedBy(states: seq<State>, calls: seq<Call>, k: nat, tradeId: Text, i: nat)
    requires |states| == |calls| + 1 && k <= |calls|
  {
    i < k && Blocks(states, calls, i, tradeId) && forall j: nat :: i < j < k ==> !Resumes(states, calls, j, tradeId)
  }

  lemma OthersKeepBlocked(states: seq<State>, calls: seq<Call>, k: nat, tradeId: Text)
    requires IsRun(states, calls) && states[0] == EMPTY && k < |calls|
    requires !Blocks(states, calls, k, tradeId) && !Resumes(states, calls, k, tradeId)
    ensures IsBlocked(states[k + 1], tradeId) == IsBlocked(states[k], tradeId)
  {
    match calls[k] {
      case Create(_, _, _) =>
      case BlockCall(control, now) => BlockMeans(states, calls, k, control, now);
      case ResumeCall(control, checkedAt, now) => ResumeMeans(states, calls, k, control, checkedAt, now);
    }
  }

  lemma OtherCallsDoNotCount(states: seq<State>, calls: seq<Call>, k: nat, tradeId: Text, i: nat)
    requires |states| == |calls| + 1 && k < |calls|
    requires !Blocks(states, calls, k, tradeId) && !Resumes(states, calls, k, tradeId)
    ensures BlockedBy(states, calls, k + 1, tradeId, i) <==> BlockedBy(states, calls, k, tradeId, i)
  {
    if BlockedBy(states, calls, k, tradeId, i) {
      forall j: nat | i < j < k + 1 ensures !Resumes(states, calls, j, tradeId) {
        assert j < k ==> !Resumes(states, calls, j, tradeId);
      }
    }
    if BlockedBy(states, calls, k + 1, tradeId, i) {
      assert i != k;
      forall j: nat | i < j < k ensures !Resumes(states, calls, j, tradeId) {
      }
    }
  }

  ghost predicate IsHeld(states: seq<State>, calls: seq<Call>, k: nat, tradeId: Text)
    requires |states| == |calls| + 1 && k <= |calls|
  {
    exists i: nat :: BlockedBy(states, calls, k, tradeId, i)
  }

  lemma OtherCallsKeepHeld(states: seq<State>, calls: seq<Call>, k: nat, tradeId: Text)
    requires |states| == |calls| + 1 && k < |calls|
    requires !Blocks(states, calls, k, tradeId) && !Resumes(states, calls, k, tradeId)
    ensures IsHeld(states, calls, k + 1, tradeId) <==> IsHeld(states, calls, k, tradeId)
  {
    var next := k + 1;
    if i: nat :| BlockedBy(states, calls, k, tradeId, i) {
      OtherCallsDoNotCount(states, calls, k, tradeId, i);
    }
    if i: nat :| BlockedBy(states, calls, next, tradeId, i) {
      OtherCallsDoNotCount(states, calls, k, tradeId, i);
    }
  }

  /** Over any run: a trade is blocked exactly when some block of it succeeded and no
      resume of it has succeeded since. */
  lemma {:induction false} BlockedIff(states: seq<State>, calls: seq<Call>, k: nat, tradeId: Text)
    requires IsRun(states, calls) && states[0] == EMPTY && k <= |calls|
    ensures IsBlocked(states[k], tradeId) <==> IsHeld(states, calls, k, tradeId)
  {
    if k > 0 {
      var c := calls[k - 1];
      if Blocks(states, calls, k - 1, tradeId) {
        BlockMeans(states, calls, k - 1, c.control, c.now);
        assert BlockedBy(states, calls, k, tradeId, k - 1);
      } else if Resumes(states, calls, k - 1, tradeId) {
        ResumeMeans(states, calls, k - 1, c.control, c.checkedAt, c.now);
      } else {
        BlockedIff(states, calls, k - 1, tradeId);
        OthersKeepBlocked(states, calls, k - 1, tradeId);
        OtherCallsKeepHeld(states, calls, k - 1, tradeId);
      }
    }
  }

  /** A blocked trade stays blocked, whatever decisions are recorded, until a
      resume of that very trade succeeds. */
  lemma BlockedUntilResumed(s: State, c: Call, tradeId: Text)
    requires IsBlocked(s, tradeId) && !IsBlocked(After(s, c), tradeId)
    ensures c.ResumeCall? && c.control.tradeId == tradeId
    ensures Resumed(s, c.control, c.checkedAt, c.now).1.Done?
  {
  }

  /** Over a run: between a state in which a trade is blocked and a later one in
      which it is not, a resume of that trade succeeded. */
  lemma {:induction false} UnblockedOnlyByResume(states: seq<State>, calls: seq<Call>, j: nat, k: nat, tradeId: Text) returns (i: nat)
    requires IsRun(states, calls) && j <= k <= |calls|
    requires IsBlocked(states[j], tradeId) && !IsBlocked(states[k], tradeId)
    ensures j <= i < k && calls[i].ResumeCall? && calls[i].control.tradeId == tradeId
    ensures Resumed(states[i], calls[i].control, calls[i].checkedAt, calls[i].now).1.Done?
    decreases k
  {
    if IsBlocked(states[k - 1], tradeId) {
      i := k - 1;
      BlockedUntilResumed(states[i], calls[i], tradeId);
    } else {
      i := UnblockedOnlyByResume(states, calls, j, k - 1, tradeId);
    }
  }
}

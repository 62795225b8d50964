/** What one queued action does on chain, and the status its outcome is given. */
module GovernanceExecution {
  import opened Texts
  import opened Governance

  const MAX_SAFE_INTEGER: nat := 9007199254740991

  /** What an SDK call does. */
  datatype SdkReply =
    | SdkResult(txHash: Text, blockNumber: nat, proposalId: Option<nat>)
    | SdkTimeout
    | SdkError

  datatype Execution =
    | Landed(txHash: Text, blockNumber: nat, proposalId: Option<nat>)
    | TimedOut
    | Errored

  function Plain(sdk: SdkReply): Execution {
    match sdk
    case SdkResult(txHash, blockNumber, _) => Landed(txHash, blockNumber, None)
    case SdkTimeout => TimedOut
    case SdkError => Errored
  }

  function WithProposal(sdk: SdkReply): Execution {
    match sdk
    case SdkResult(txHash, blockNumber, Some(id)) =>
      if id <= MAX_SAFE_INTEGER then Landed(txHash, blockNumber, Some(id)) else Errored
    case SdkResult(_, _, None) => Errored
    case SdkTimeout => TimedOut
    case SdkError => Errored
  }

  predicate NeedsProposal(m: ContractMethod) {
    m in {ApproveTreasuryPayout, ExecuteTreasuryPayout, CancelExpiredTreasuryPayout,
          ApproveOracle, ExecuteOracle, CancelExpiredOracle}
  }

  /** The method table: what `execute` makes of an action. */
  function Execute(a: Action, sdk: SdkReply): Execution {
    match a.contractMethod
    case Pause | ProposeUnpause | ApproveUnpause | CancelUnpauseProposal | PauseClaims | UnpauseClaims
       | ClaimTreasury | DisableOracleEmergency => Plain(sdk)
    case ProposeTreasuryPayout | ProposeOracle =>
      if a.targetAddress.None? || a.targetAddress.value == [] then Errored else WithProposal(sdk)
    case ApproveTreasuryPayout | ExecuteTreasuryPayout | CancelExpiredTreasuryPayout
       | ApproveOracle | ExecuteOracle | CancelExpiredOracle =>
      if a.proposalId.None? then Errored else Plain(sdk)
    case Other(_) => Errored
  }

  // ---- Status after execution ----

  datatype ProposalState = ProposalState(executed: bool, cancelled: bool, expired: bool, approvalCount: nat)

  /** A proposal lookup: it fails, finds nothing, or finds a proposal. */
  datatype Lookup = Unavailable | Missing | Found(proposal: ProposalState)

  datatype GovernanceStatus = GovernanceStatus(paused: bool, approvalsRequired: nat)

  datatype UnpauseState = UnpauseState(hasActiveProposal: bool, approvalCount: nat)

  /** What the status reader answers; `None` where the read fails. */
  datatype Reader = Reader(
    status: Option<GovernanceStatus>,
    unpause: Option<UnpauseState>,
    treasuryProposal: int -> Lookup,
    oracleProposal: int -> Lookup)

  /** `None` stands for an exception. */
  function ResolveProposal(lookup: Lookup, approvalsRequired: nat): Option<Status> {
    match lookup
    case Unavailable | Missing => None
    case Found(p) =>
      if p.executed then Some(Executed)
      else if p.cancelled then Some(Cancelled)
      else if p.expired then Some(Expired)
      else Some(if p.approvalCount >= approvalsRequired then Approved else PendingApprovals)
  }

  function ResolveUnpauseApproval(r: Reader): Option<Status> {
    if r.status.None? || r.unpause.None? then None
    else if !r.status.value.paused && !r.unpause.value.hasActiveProposal then Some(Executed)
    else Some(if r.unpause.value.approvalCount >= r.status.value.approvalsRequired
              then Approved else PendingApprovals)
  }

  function ProposalNumber(id: Option<nat>): int {
    if id.None? then -1 else id.value
  }

  function ResolvePostExecution(m: ContractMethod, proposalId: Option<nat>, r: Reader): Option<Status> {
    match m
    case Pause | PauseClaims | UnpauseClaims | ClaimTreasury | DisableOracleEmergency
       | ExecuteTreasuryPayout | ExecuteOracle => Some(Executed)
    case ProposeUnpause | ProposeTreasuryPayout | ProposeOracle => Some(PendingApprovals)
    case ApproveUnpause => ResolveUnpauseApproval(r)
    case CancelUnpauseProposal | CancelExpiredTreasuryPayout | CancelExpiredOracle => Some(Cancelled)
    case ApproveTreasuryPayout =>
      if r.status.None? then None
      else ResolveProposal(r.treasuryProposal(ProposalNumber(proposalId)), r.status.value.approvalsRequired)
    case ApproveOracle =>
      if r.status.None? then None
      else ResolveProposal(r.oracleProposal(ProposalNumber(proposalId)), r.status.value.approvalsRequired)
    case Other(_) => None
  }

  function Fallback(m: ContractMethod): Option<Status> {
    match m
    case ProposeUnpause | ApproveUnpause | ProposeTreasuryPayout | ApproveTreasuryPayout
       | ProposeOracle | ApproveOracle => Some(PendingApprovals)
    case _ => None
  }

  /** The record kept for a landed execution; `None` where the source throws. */
  function ExecutedRecord(a: Action, e: Execution, r: Reader, at: int): Option<Action>
    requires e.Landed?
  {
    var proposalId := if e.proposalId.Some? then e.proposalId else a.proposalId;
    var resolved := ResolvePostExecution(a.contractMethod, proposalId, r);
    var status := if resolved.Some? then resolved else Fallback(a.contractMethod);
    if status.None? then None
    else Some(a.(proposalId := proposalId, status := status.value, txHash := Some(e.txHash),
                 blockNumber := Some(e.blockNumber), executedAt := Some(at),
                 errorCode := if resolved.Some? then None else Some(StatusReconciliationRequired)))
  }

  predicate ProposesUpdate(m: ContractMethod) {
    m == ProposeTreasuryPayout || m == ProposeOracle
  }

  /** The action has what its method needs, so the SDK is called. */
  predicate CanCall(a: Action) {
    && !a.contractMethod.Other?
    && (ProposesUpdate(a.contractMethod) ==> a.targetAddress.Some? && a.targetAddress.value != [])
    && (NeedsProposal(a.contractMethod) ==> a.proposalId.Some?)
  }

  /** The SDK's result can be used: a proposal comes with a safe number. */
  predicate Succeeds(a: Action, sdk: SdkReply) {
    && CanCall(a) && sdk.SdkResult?
    && (ProposesUpdate(a.contractMethod) ==> sdk.proposalId.Some? && sdk.proposalId.value <= MAX_SAFE_INTEGER)
  }

  /** A call lands exactly when the SDK is called and its result can be used, so an
      unsupported method never reaches the resolver that would throw for it. */
  lemma LandsOnlyWhenSupported(a: Action, sdk: SdkReply)
    ensures Execute(a, sdk).Landed? <==> Succeeds(a, sdk)
    ensures Execute(a, sdk).TimedOut? <==> CanCall(a) && sdk.SdkTimeout?
  {
  }

  /** Method table, resolver and fallback together never throw: whatever lands
      on chain gets a status other than `Requested`, and is marked for
      reconciliation exactly when an approval's state could not be read. */
  lemma LandedIsAlwaysRecorded(a: Action, sdk: SdkReply, r: Reader, at: int)
    requires Execute(a, sdk).Landed?
    ensures var after := ExecutedRecord(a, Execute(a, sdk), r, at);
            && after.Some?
            && after.value.status in {Submitted, PendingApprovals, Approved, Executed, Cancelled, Expired}
            && after.value.status != Submitted
            && (after.value.errorCode.Some? ==> IsApproval(a.contractMethod) && after.value.status == PendingApprovals)
            && after.value.actionId == a.actionId && after.value.intentKey == a.intentKey
            && after.value.expiresAt == a.expiresAt && after.value.createdAt == a.createdAt
  {
    LandsOnlyWhenSupported(a, sdk);
  }

  function FailedRecord(a: Action, at: int): Action {
    a.(status := Failed, errorCode := Some(ExecutionFailed), executedAt := Some(at))
  }

  function TimedOutRecord(a: Action, at: int): Action {
    a.(status := Submitted, errorCode := Some(ExecutionTimeout), executedAt := Some(at))
  }

  function StaleRecord(a: Action, at: int): Action {
    a.(status := Stale, errorCode := Some(QueueExpired), executedAt := Some(at))
  }

  datatype Event =
    | QueuedEvent | DuplicateReused | ExecutionStarted | ExecutionRejected
    | ExecutionSucceeded | ExecutionFailedEvent | ExecutionTimeoutEvent | ExecutionStale | CleanupStale

  datatype AuditEntry = AuditEntry(event: Event, actionId: Text, status: Option<Status>)

  /** The record and audit entry that close a chain call; `None` where it throws. */
  function Closing(a: Action, e: Execution, r: Reader, at: int): Option<(Action, AuditEntry)> {
    match e
    case TimedOut => Some((TimedOutRecord(a, at), AuditEntry(ExecutionTimeoutEvent, a.actionId, Some(Submitted))))
    case Errored => Some((FailedRecord(a, at), AuditEntry(ExecutionFailedEvent, a.actionId, Some(Failed))))
    case Landed(_, _, _) =>
      var after := ExecutedRecord(a, e, r, at);
      if after.None? then None
      else Some((after.value, AuditEntry(ExecutionSucceeded, a.actionId, Some(after.value.status))))
  }

  /** Every chain call is closed by a record that has left `Requested`, never as stale,
      and an audit entry with the same status. */
  lemma ClosingLeavesRequested(a: Action, sdk: SdkReply, r: Reader, at: int)
    ensures var c := Closing(a, Execute(a, sdk), r, at);
            && c.Some?
            && c.value.0.status != Requested && c.value.0.status != Stale
            && c.value.1.status == Some(c.value.0.status)
            && c.value.1.actionId == a.actionId
            && c.value.1.event in {ExecutionSucceeded, ExecutionFailedEvent, ExecutionTimeoutEvent}
            && c.value.0.actionId == a.actionId && c.value.0.intentKey == a.intentKey
            && c.value.0.expiresAt == a.expiresAt && c.value.0.createdAt == a.createdAt
  {
    if Execute(a, sdk).Landed? {
      LandedIsAlwaysRecorded(a, sdk, r, at);
    }
  }

  // ---- What is recorded, from the action, the SDK and the chain's own answers ----

  /** The status of an approved proposal that could be read: its flags in order, then
      whether the approvals suffice. */
  predicate FitsProposal(p: ProposalState, approvalsRequired: nat, status: Status) {
    && status in {Executed, Cancelled, Expired, Approved, PendingApprovals}
    && (status == Executed <==> p.executed)
    && (status == Cancelled <==> p.cancelled && !p.executed)
    && (status == Expired <==> p.expired && !p.executed && !p.cancelled)
    && (status == Approved <==> !p.executed && !p.cancelled && !p.expired && p.approvalCount >= approvalsRequired)
  }

  predicate FitsUnpause(g: GovernanceStatus, u: UnpauseState, status: Status) {
    && status in {Executed, Approved, PendingApprovals}
    && (status == Executed <==> !g.paused && !u.hasActiveProposal)
    && (status == Approved <==> (g.paused || u.hasActiveProposal) && u.approvalCount >= g.approvalsRequired)
  }

  /** The read that an approval's status needs has failed. */
  predicate CannotRead(m: ContractMethod, number: int, r: Reader) {
    match m
    case ApproveUnpause => r.status.None? || r.unpause.None?
    case ApproveTreasuryPayout => r.status.None? || !r.treasuryProposal(number).Found?
    case ApproveOracle => r.status.None? || !r.oracleProposal(number).Found?
    case _ => false
  }

  /** The status given to a call that landed. */
  predicate FitsLanded(m: ContractMethod, number: int, r: Reader, status: Status) {
    && (m in {Pause, PauseClaims, UnpauseClaims, ClaimTreasury, DisableOracleEmergency, ExecuteTreasuryPayout, ExecuteOracle} ==>
          status == Executed)
    && (m in {ProposeUnpause, ProposeTreasuryPayout, ProposeOracle} ==> status == PendingApprovals)
    && (m in {CancelUnpauseProposal, CancelExpiredTreasuryPayout, CancelExpiredOracle} ==> status == Cancelled)
    && (CannotRead(m, number, r) ==> status == PendingApprovals)
    && (m == ApproveUnpause && !CannotRead(m, number, r) ==> FitsUnpause(r.status.value, r.unpause.value, status))
    && (m == ApproveTreasuryPayout && !CannotRead(m, number, r) ==>
          FitsProposal(r.treasuryProposal(number).proposal, r.status.value.approvalsRequired, status))
    && (m == ApproveOracle && !CannotRead(m, number, r) ==>
          FitsProposal(r.oracleProposal(number).proposal, r.status.value.approvalsRequired, status))
  }

  /** The record and audit event that close a call of the action: for one that landed
      the chain's data and a fitting status, marked where the status could not be read;
      for a timeout the unknown outcome; for anything else a failure. */
  predicate IsClosing(a: Action, sdk: SdkReply, r: Reader, at: int, record: Action, event: Event) {
    && record == a.(proposalId := record.proposalId, status := record.status, txHash := record.txHash,
                    blockNumber := record.blockNumber, executedAt := Some(at), errorCode := record.errorCode)
    && (Succeeds(a, sdk) ==>
          && event == ExecutionSucceeded
          && record.txHash == Some(sdk.txHash) && record.blockNumber == Some(sdk.blockNumber)
          && record.proposalId == (if ProposesUpdate(a.contractMethod) then sdk.proposalId else a.proposalId)
          && var number := if a.proposalId.Some? then a.proposalId.value else -1;
             && FitsLanded(a.contractMethod, number, r, record.status)
             && record.errorCode == (if CannotRead(a.contractMethod, number, r) then Some(StatusReconciliationRequired) else None))
    && (!Succeeds(a, sdk) ==>
          && record.proposalId == a.proposalId && record.txHash == a.txHash && record.blockNumber == a.blockNumber
          && if CanCall(a) && sdk.SdkTimeout?
             then record.status == Submitted && record.errorCode == Some(ExecutionTimeout) && event == ExecutionTimeoutEvent
             else record.status == Failed && record.errorCode == Some(ExecutionFailed) && event == ExecutionFailedEvent)
  }

  lemma LandedFits(a: Action, sdk: SdkReply, r: Reader, at: int)
    requires Succeeds(a, sdk)
    ensures Execute(a, sdk) == Landed(sdk.txHash, sdk.blockNumber, if ProposesUpdate(a.contractMethod) then sdk.proposalId else None)
    ensures ExecutedRecord(a, Execute(a, sdk), r, at).Some?
    ensures IsClosing(a, sdk, r, at, ExecutedRecord(a, Execute(a, sdk), r, at).value, ExecutionSucceeded)
  {
  }

  /** Every call is closed as its action, the SDK's reply and the chain's answers say. */
  lemma ClosingIsRight(a: Action, sdk: SdkReply, r: Reader, at: int)
    ensures var c := Closing(a, Execute(a, sdk), r, at);
            && c.Some? && IsClosing(a, sdk, r, at, c.value.0, c.value.1.event)
            && c.value.1 == AuditEntry(c.value.1.event, a.actionId, Some(c.value.0.status))
  {
    if Succeeds(a, sdk) {
      LandedFits(a, sdk, r, at);
    } else {
      LandsOnlyWhenSupported(a, sdk);
    }
  }

  /** Only one status fits, so the record is determined. */
  lemma OneClosing(a: Action, sdk: SdkReply, r: Reader, at: int, x: Action, e: Event, y: Action, f: Event)
    requires IsClosing(a, sdk, r, at, x, e) && IsClosing(a, sdk, r, at, y, f)
    ensures x == y && e == f
  {
    if Succeeds(a, sdk) {
      OneStatus(a.contractMethod, if a.proposalId.Some? then a.proposalId.value else -1, r, x.status, y.status);
    }
  }

  lemma OneStatus(m: ContractMethod, number: int, r: Reader, s: Status, t: Status)
    requires !m.Other? && FitsLanded(m, number, r, s) && FitsLanded(m, number, r, t)
    ensures s == t
  {
    if m.ApproveUnpause? || m.ApproveTreasuryPayout? || m.ApproveOracle? {
      assert CannotRead(m, number, r) || s in {Executed, Cancelled, Expired, Approved, PendingApprovals};
    } else {
      assert m in {Pause, PauseClaims, UnpauseClaims, ClaimTreasury, DisableOracleEmergency, ExecuteTreasuryPayout, ExecuteOracle}
        || m in {ProposeUnpause, ProposeTreasuryPayout, ProposeOracle}
        || m in {CancelUnpauseProposal, CancelExpiredTreasuryPayout, CancelExpiredOracle};
    }
  }
}

/** The intents that the gateway's mutation routes can build, and what it takes
    for two of them to share a key. */
module GovernanceRoutes {
  import opened Texts
  import opened Governance
  import opened GovernanceExecution
  import opened GovernanceQueue

  /** One constructor for each route, with what its request adds to the intent:
      a validated or on-chain address, a proposal number, or both. */
  datatype Route =
    | PauseRoute
    | ProposeUnpauseRoute
    | ApproveUnpauseRoute
    | CancelUnpauseRoute
    | PauseClaimsRoute
    | UnpauseClaimsRoute
    | SweepRoute
    | ProposeReceiverRoute(address: Text)
    | ApproveReceiverRoute(proposalId: nat, address: Text)
    | ExecuteReceiverRoute(proposalId: nat, address: Text)
    | CancelReceiverRoute(proposalId: nat, address: Text)
    | DisableOracleRoute(address: Text)
    | ProposeOracleRoute(address: Text)
    | ApproveOracleRoute(proposalId: nat, address: Text)
    | ExecuteOracleRoute(proposalId: nat, address: Text)
    | CancelOracleRoute(proposalId: nat, address: Text)

  function MethodOf(r: Route): ContractMethod {
    match r
    case PauseRoute => Pause
    case ProposeUnpauseRoute => ProposeUnpause
    case ApproveUnpauseRoute => ApproveUnpause
    case CancelUnpauseRoute => CancelUnpauseProposal
    case PauseClaimsRoute => PauseClaims
    case UnpauseClaimsRoute => UnpauseClaims
    case SweepRoute => ClaimTreasury
    case ProposeReceiverRoute(_) => ProposeTreasuryPayout
    case ApproveReceiverRoute(_, _) => ApproveTreasuryPayout
    case ExecuteReceiverRoute(_, _) => ExecuteTreasuryPayout
    case CancelReceiverRoute(_, _) => CancelExpiredTreasuryPayout
    case DisableOracleRoute(_) => DisableOracleEmergency
    case ProposeOracleRoute(_) => ProposeOracle
    case ApproveOracleRoute(_, _) => ApproveOracle
    case ExecuteOracleRoute(_, _) => ExecuteOracle
    case CancelOracleRoute(_, _) => CancelExpiredOracle
  }

  function CategoryOf(r: Route): Category {
    match r
    case PauseRoute => PauseCategory
    case ProposeUnpauseRoute | ApproveUnpauseRoute | CancelUnpauseRoute => UnpauseCategory
    case PauseClaimsRoute => ClaimsPauseCategory
    case UnpauseClaimsRoute => ClaimsUnpauseCategory
    case SweepRoute => TreasurySweepCategory
    case ProposeReceiverRoute(_) | ApproveReceiverRoute(_, _) | ExecuteReceiverRoute(_, _)
       | CancelReceiverRoute(_, _) => TreasuryPayoutReceiverUpdateCategory
    case DisableOracleRoute(_) => OracleDisableEmergencyCategory
    case ProposeOracleRoute(_) | ApproveOracleRoute(_, _) | ExecuteOracleRoute(_, _)
       | CancelOracleRoute(_, _) => OracleUpdateCategory
  }

  function ProposalOf(r: Route): Option<nat> {
    match r
    case ApproveReceiverRoute(id, _) => Some(id)
    case ExecuteReceiverRoute(id, _) => Some(id)
    case CancelReceiverRoute(id, _) => Some(id)
    case ApproveOracleRoute(id, _) => Some(id)
    case ExecuteOracleRoute(id, _) => Some(id)
    case CancelOracleRoute(id, _) => Some(id)
    case _ => None
  }

  function TargetOf(r: Route): Option<Text> {
    match r
    case ProposeReceiverRoute(a) => Some(a)
    case ApproveReceiverRoute(_, a) => Some(a)
    case ExecuteReceiverRoute(_, a) => Some(a)
    case CancelReceiverRoute(_, a) => Some(a)
    case DisableOracleRoute(a) => Some(a)
    case ProposeOracleRoute(a) => Some(a)
    case ApproveOracleRoute(_, a) => Some(a)
    case ExecuteOracleRoute(_, a) => Some(a)
    case CancelOracleRoute(_, a) => Some(a)
    case _ => None
  }

  /** No route passes a trade; the wallet is the session's. */
  function RouteIntent(r: Route, chainId: nat, wallet: Text): Intent {
    Intent(CategoryOf(r), MethodOf(r), ProposalOf(r), TargetOf(r), None, chainId, wallet)
  }

  // ---- Plain texts ----

  /** ASCII letters, digits and the underscore: what addresses, numbers and names are made of. */
  predicate IsPlainUnit(u: CodeUnit) {
    IsDigit(u) || 65 <= u <= 90 || 97 <= u <= 122 || u == 95
  }

  predicate IsPlain(t: Text) {
    forall u :: u in t ==> IsPlainUnit(u)
  }

  predicate IsPlainChar(c: char) {
    '0' <= c <= '9' || 'A' <= c <= 'Z' || 'a' <= c <= 'z' || c == '_'
  }

  function LowerUnit(u: CodeUnit): CodeUnit {
    if 65 <= u <= 90 then u + 32 else u
  }

  function Lowered(t: Text): Text {
    seq(|t|, i requires 0 <= i < |t| => LowerUnit(t[i]))
  }

  /** Trimming and lower-casing a plain text lowers its letters and does nothing else. */
  ghost predicate Normalizes(norm: Text -> Text) {
    forall t :: IsPlain(t) ==> norm(t) == Lowered(t)
  }

  /** An address: a non-empty plain text. */
  predicate IsAddress(t: Text) {
    t != [] && IsPlain(t)
  }

  predicate FromRequest(r: Route, wallet: Text) {
    (TargetOf(r).Some? ==> IsAddress(TargetOf(r).value)) && IsAddress(wallet)
  }

  lemma PlainHasNoBar(t: Text)
    requires IsPlain(t)
    ensures BAR !in Lowered(t)
  {
    forall i | 0 <= i < |t| ensures Lowered(t)[i] != BAR {
      assert t[i] in t;
    }
  }

  predicate PlainString(s: string) {
    forall c :: c in s ==> IsPlainChar(c)
  }

  lemma PlainLiteral(s: string)
    requires PlainString(s)
    ensures IsPlain(Ascii(s)) && |Ascii(s)| == |s|
  {
    forall i | 0 <= i < |s| ensures IsPlainUnit(Ascii(s)[i]) {
      assert s[i] in s;
    }
  }

  /** A name made of a verb and a subject. */
  lemma PlainName(verb: string, subject: string)
    requires PlainString(verb) && PlainString(subject) && verb != []
    ensures IsPlain(Ascii(verb + subject)) && |Ascii(verb + subject)| == |verb| + |subject|
    ensures Ascii(verb + subject)[0] == Unit(verb[0])
  {
    PlainLiteral(verb + subject);
    assert (verb + subject)[0] == verb[0];
  }

  lemma PlainJoin(a: string, b: string)
    requires PlainString(a) && PlainString(b)
    ensures PlainString(a + b) && |a + b| == |a| + |b|
  {
  }

  lemma PlainSubjects()
    ensures PlainString(RECEIVER_UPDATE) && |RECEIVER_UPDATE| == 27
    ensures PlainString(ORACLE_UPDATE) && |ORACLE_UPDATE| == 12
  {
  }

  lemma PlainPauseCategories()
    ensures IsPlain(CategoryName(PauseCategory)) && IsPlain(CategoryName(UnpauseCategory))
    ensures IsPlain(CategoryName(ClaimsPauseCategory)) && IsPlain(CategoryName(ClaimsUnpauseCategory))
  {
    PlainLiteral("pause");
    PlainLiteral("unpause");
    PlainLiteral("claims_pause");
    PlainLiteral("claims_unpause");
  }

  lemma PlainTreasuryCategories()
    ensures IsPlain(CategoryName(TreasurySweepCategory))
    ensures IsPlain(CategoryName(TreasuryPayoutReceiverUpdateCategory))
  {
    PlainLiteral("treasury_sweep");
    PlainLiteral("treasury_payout_receiver_update");
  }

  lemma PlainOracleCategories()
    ensures IsPlain(CategoryName(OracleDisableEmergencyCategory)) && IsPlain(CategoryName(OracleUpdateCategory))
  {
    PlainLiteral("oracle_disable_emergency");
    PlainLiteral("oracle_update");
  }

  lemma PlainCategory(c: Category)
    ensures IsPlain(CategoryName(c))
  {
    match c {
      case PauseCategory | UnpauseCategory | ClaimsPauseCategory | ClaimsUnpauseCategory => PlainPauseCategories();
      case TreasurySweepCategory | TreasuryPayoutReceiverUpdateCategory => PlainTreasuryCategories();
      case OracleDisableEmergencyCategory | OracleUpdateCategory => PlainOracleCategories();
    }
  }

  /** A method name's length and first unit, by which no two are alike. */
  function Mark(m: ContractMethod): (nat, CodeUnit)
    requires !m.Other?
  {
    match m
    case Pause => (5, 112)
    case ProposeUnpause => (14, 112)
    case ApproveUnpause => (14, 97)
    case CancelUnpauseProposal => (21, 99)
    case PauseClaims => (11, 112)
    case UnpauseClaims => (13, 117)
    case ClaimTreasury => (13, 99)
    case ProposeTreasuryPayout => (34, 112)
    case ApproveTreasuryPayout => (34, 97)
    case ExecuteTreasuryPayout => (34, 101)
    case CancelExpiredTreasuryPayout => (48, 99)
    case DisableOracleEmergency => (22, 100)
    case ProposeOracle => (19, 112)
    case ApproveOracle => (19, 97)
    case ExecuteOracle => (19, 101)
    case CancelExpiredOracle => (33, 99)
  }

  predicate IsMarked(m: ContractMethod)
    requires !m.Other?
  {
    MethodName(m) != [] && IsPlain(MethodName(m)) && |MethodName(m)| == Mark(m).0 && MethodName(m)[0] == Mark(m).1
  }

  lemma MarkedReceiverRequests()
    ensures IsMarked(ProposeTreasuryPayout) && IsMarked(ApproveTreasuryPayout) && IsMarked(ExecuteTreasuryPayout)
  {
    PlainSubjects();
    PlainName("propose", RECEIVER_UPDATE);
    PlainName("approve", RECEIVER_UPDATE);
    PlainName("execute", RECEIVER_UPDATE);
  }

  lemma MarkedReceiverCancel()
    ensures IsMarked(CancelExpiredTreasuryPayout)
  {
    PlainSubjects();
    PlainJoin("cancelExpired", RECEIVER_UPDATE);
    PlainName("cancelExpired" + RECEIVER_UPDATE, "Proposal");
  }

  lemma MarkedOracleRequests()
    ensures IsMarked(ProposeOracle) && IsMarked(ApproveOracle) && IsMarked(ExecuteOracle)
  {
    PlainSubjects();
    PlainName("propose", ORACLE_UPDATE);
    PlainName("approve", ORACLE_UPDATE);
    PlainName("execute", ORACLE_UPDATE);
  }

  lemma MarkedOracleCancel()
    ensures IsMarked(CancelExpiredOracle)
  {
    PlainSubjects();
    PlainJoin("cancelExpired", ORACLE_UPDATE);
    PlainName("cancelExpired" + ORACLE_UPDATE, "Proposal");
  }

  lemma MarkedUnpauseMethods()
    ensures IsMarked(Pause) && IsMarked(ProposeUnpause) && IsMarked(ApproveUnpause) && IsMarked(CancelUnpauseProposal)
  {
    PlainLiteral("pause");
    PlainLiteral("proposeUnpause");
    PlainLiteral("approveUnpause");
    PlainLiteral("cancelUnpauseProposal");
  }

  lemma MarkedClaimMethods()
    ensures IsMarked(PauseClaims) && IsMarked(UnpauseClaims) && IsMarked(ClaimTreasury)
  {
    PlainLiteral("pauseClaims");
    PlainLiteral("unpauseClaims");
    PlainLiteral("claimTreasury");
  }

  lemma MarkedDisable()
    ensures IsMarked(DisableOracleEmergency)
  {
    PlainLiteral("disableOracleEmergency");
  }

  lemma PlainMethod(m: ContractMethod)
    requires !m.Other?
    ensures IsMarked(m)
  {
    match m {
      case Pause | ProposeUnpause | ApproveUnpause | CancelUnpauseProposal => MarkedUnpauseMethods();
      case PauseClaims | UnpauseClaims | ClaimTreasury => MarkedClaimMethods();
      case DisableOracleEmergency => MarkedDisable();
      case ProposeTreasuryPayout | ApproveTreasuryPayout | ExecuteTreasuryPayout => MarkedReceiverRequests();
      case CancelExpiredTreasuryPayout => MarkedReceiverCancel();
      case ProposeOracle | ApproveOracle | ExecuteOracle => MarkedOracleRequests();
      case CancelExpiredOracle => MarkedOracleCancel();
    }
  }

  /** No two supported methods have one name, even ignoring case. */
  lemma MethodNamesDiffer(m: ContractMethod, n: ContractMethod)
    requires !m.Other? && !n.Other? && Lowered(MethodName(m)) == Lowered(MethodName(n))
    ensures m == n
  {
    PlainMethod(m);
    PlainMethod(n);
    assert Lowered(MethodName(m))[0] == Mark(m).1 && Lowered(MethodName(n))[0] == Mark(n).1;
    assert Mark(m) == Mark(n);
  }

  lemma DecimalIsPlain(n: nat)
    ensures IsPlain(Decimal(n)) && Lowered(Decimal(n)) == Decimal(n)
  {
    var t := Decimal(n);
    forall i | 0 <= i < |t| ensures LowerUnit(t[i]) == t[i] {
      assert t[i] in t && IsDigit(t[i]);
    }
  }

  // ---- What the routes build ----

  /** Every intent that a route builds is free of the separator. */
  lemma RouteIntentsAreBarFree(norm: Text -> Text, r: Route, chainId: nat, wallet: Text)
    requires Normalizes(norm) && FromRequest(r, wallet)
    ensures BarFree(Fragments(norm, RouteIntent(r, chainId, wallet)))
  {
    var i := RouteIntent(r, chainId, wallet);
    PlainCategory(i.category);
    PlainHasNoBar(CategoryName(i.category));
    PlainMethod(i.contractMethod);
    PlainHasNoBar(MethodName(i.contractMethod));
    DecimalIsPlain(chainId);
    PlainHasNoBar(Decimal(chainId));
    PlainHasNoBar(wallet);
    if i.proposalId.Some? {
      DecimalIsPlain(i.proposalId.value);
      PlainHasNoBar(Decimal(i.proposalId.value));
    }
    if i.targetAddress.Some? {
      PlainHasNoBar(i.targetAddress.value);
    }
  }

  predicate SameTarget(a: Option<Text>, b: Option<Text>) {
    if a.Some? && b.Some? then Lowered(a.value) == Lowered(b.value) else a == b
  }

  lemma NumberFragmentsMatch(norm: Text -> Text, a: Option<nat>, b: Option<nat>)
    requires Normalizes(norm)
    ensures NumberFragment(norm, a) == NumberFragment(norm, b) <==> a == b
  {
    if a.Some? {
      DecimalIsPlain(a.value);
      DecimalRoundTrip(a.value);
    }
    if b.Some? {
      DecimalIsPlain(b.value);
      DecimalRoundTrip(b.value);
    }
  }

  lemma TargetFragmentsMatch(norm: Text -> Text, a: Option<Text>, b: Option<Text>)
    requires Normalizes(norm) && (a.Some? ==> IsAddress(a.value)) && (b.Some? ==> IsAddress(b.value))
    ensures TextFragment(norm, a) == TextFragment(norm, b) <==> SameTarget(a, b)
  {
    if a.Some? {
      assert |Lowered(a.value)| == |a.value| > 0;
    }
    if b.Some? {
      assert |Lowered(b.value)| == |b.value| > 0;
    }
  }

  /** Two requests on one gateway share an intent key exactly when they came by one
      route, with the same proposal and the same target up to letter case, and, for
      approvals, from the same wallet up to letter case. */
  lemma SameKeyIffSameRequest(norm: Text -> Text, chainId: nat, r: Route, wallet: Text, s: Route, other: Text)
    requires Normalizes(norm) && FromRequest(r, wallet) && FromRequest(s, other)
    ensures IntentKey(norm, RouteIntent(r, chainId, wallet)) == IntentKey(norm, RouteIntent(s, chainId, other)) <==>
            && MethodOf(r) == MethodOf(s)
            && ProposalOf(r) == ProposalOf(s)
            && SameTarget(TargetOf(r), TargetOf(s))
            && (IsApproval(MethodOf(r)) ==> Lowered(wallet) == Lowered(other))
  {
    var i, j := RouteIntent(r, chainId, wallet), RouteIntent(s, chainId, other);
    RouteIntentsAreBarFree(norm, r, chainId, wallet);
    RouteIntentsAreBarFree(norm, s, chainId, other);
    SameKeyIffSameFields(norm, i, j);
    NumberFragmentsMatch(norm, i.proposalId, j.proposalId);
    TargetFragmentsMatch(norm, i.targetAddress, j.targetAddress);
    PlainMethod(i.contractMethod);
    PlainMethod(j.contractMethod);
    if Lowered(MethodName(i.contractMethod)) == Lowered(MethodName(j.contractMethod)) {
      MethodNamesDiffer(i.contractMethod, j.contractMethod);
      SameRouteSameCategory(r, s);
    }
  }

  lemma SameRouteSameCategory(r: Route, s: Route)
    requires MethodOf(r) == MethodOf(s)
    ensures CategoryOf(r) == CategoryOf(s)
  {
  }

  // ---- From the routes to the queue and the chain ----

  /** What a route puts into the queue, for the wallet of the session. */
  function RouteInput(r: Route, wallet: Text): QueueInput {
    QueueInput(CategoryOf(r), MethodOf(r), ProposalOf(r), TargetOf(r), None, wallet)
  }

  /** The same route, with the same proposal and the same address up to letter case. */
  predicate SameRoute(r: Route, s: Route) {
    match (r, s)
    case (PauseRoute, PauseRoute) => true
    case (ProposeUnpauseRoute, ProposeUnpauseRoute) => true
    case (ApproveUnpauseRoute, ApproveUnpauseRoute) => true
    case (CancelUnpauseRoute, CancelUnpauseRoute) => true
    case (PauseClaimsRoute, PauseClaimsRoute) => true
    case (UnpauseClaimsRoute, UnpauseClaimsRoute) => true
    case (SweepRoute, SweepRoute) => true
    case (ProposeReceiverRoute(a), ProposeReceiverRoute(b)) => Lowered(a) == Lowered(b)
    case (ApproveReceiverRoute(i, a), ApproveReceiverRoute(j, b)) => i == j && Lowered(a) == Lowered(b)
    case (ExecuteReceiverRoute(i, a), ExecuteReceiverRoute(j, b)) => i == j && Lowered(a) == Lowered(b)
    case (CancelReceiverRoute(i, a), CancelReceiverRoute(j, b)) => i == j && Lowered(a) == Lowered(b)
    case (DisableOracleRoute(a), DisableOracleRoute(b)) => Lowered(a) == Lowered(b)
    case (ProposeOracleRoute(a), ProposeOracleRoute(b)) => Lowered(a) == Lowered(b)
    case (ApproveOracleRoute(i, a), ApproveOracleRoute(j, b)) => i == j && Lowered(a) == Lowered(b)
    case (ExecuteOracleRoute(i, a), ExecuteOracleRoute(j, b)) => i == j && Lowered(a) == Lowered(b)
    case (CancelOracleRoute(i, a), CancelOracleRoute(j, b)) => i == j && Lowered(a) == Lowered(b)
    case _ => false
  }

  predicate IsApprovalRoute(r: Route) {
    r.ApproveUnpauseRoute? || r.ApproveReceiverRoute? || r.ApproveOracleRoute?
  }

  lemma RoutesMatchFields(r: Route, s: Route)
    ensures SameRoute(r, s) <==>
            MethodOf(r) == MethodOf(s) && ProposalOf(r) == ProposalOf(s) && SameTarget(TargetOf(r), TargetOf(s))
  {
  }

  /** Two requests share their key in the queue exactly when they came by the same route
      with the same proposal and address, and, for approvals, from the same wallet. */
  lemma QueuedAlikeIffSameRoute(config: Config, r: Route, wallet: Text, s: Route, other: Text)
    requires Normalizes(config.norm) && FromRequest(r, wallet) && FromRequest(s, other)
    ensures InputKey(config, RouteInput(r, wallet)) == InputKey(config, RouteInput(s, other)) <==>
            SameRoute(r, s) && (IsApprovalRoute(r) ==> Lowered(wallet) == Lowered(other))
  {
    SameKeyIffSameRequest(config.norm, config.chainId, r, wallet, s, other);
    RoutesMatchFields(r, s);
  }

  /** What a route's action is on chain once its call has landed. */
  predicate IsOutcomeOf(r: Route, status: Status) {
    match r
    case ProposeUnpauseRoute | ProposeReceiverRoute(_) | ProposeOracleRoute(_) => status == PendingApprovals
    case CancelUnpauseRoute | CancelReceiverRoute(_, _) | CancelOracleRoute(_, _) => status == Cancelled
    case ApproveUnpauseRoute | ApproveReceiverRoute(_, _) | ApproveOracleRoute(_, _) =>
      status in {Executed, Cancelled, Expired, Approved, PendingApprovals}
    case _ => status == Executed
  }

  /** The category goes with the method: one category for each that stands alone, and one
      for the whole life of each kind of proposal. */
  lemma CategoriesFitMethods(r: Route)
    ensures var c, m := CategoryOf(r), MethodOf(r);
            && (c == PauseCategory <==> m == Pause)
            && (c == UnpauseCategory <==> m in {ProposeUnpause, ApproveUnpause, CancelUnpauseProposal})
            && (c == ClaimsPauseCategory <==> m == PauseClaims)
            && (c == ClaimsUnpauseCategory <==> m == UnpauseClaims)
            && (c == TreasurySweepCategory <==> m == ClaimTreasury)
            && (c == OracleDisableEmergencyCategory <==> m == DisableOracleEmergency)
            && (c == OracleUpdateCategory <==> m in {ProposeOracle, ApproveOracle, ExecuteOracle, CancelExpiredOracle})
            && (r == PauseClaimsRoute <==> m == PauseClaims) && (r == SweepRoute <==> m == ClaimTreasury)
  {
  }

  /** Every action a route queues can be called on chain, needs a wallet's approval exactly
      for the approval routes, and ends, once landed, as its route says. */
  lemma RoutesCanBeExecuted(config: Config, r: Route, wallet: Text, id: Text, now: int, sdk: SdkReply, reader: Reader, at: int)
    requires FromRequest(r, wallet)
    ensures var a := QueueRecord(config, RouteInput(r, wallet), id, now);
            && IsRecordOf(config, RouteInput(r, wallet), id, now, a)
            && CanCall(a)
            && (IsApproval(a.contractMethod) <==> IsApprovalRoute(r))
            && (Succeeds(a, sdk) ==>
                  ExecutedRecord(a, Execute(a, sdk), reader, at).Some?
                  && IsOutcomeOf(r, ExecutedRecord(a, Execute(a, sdk), reader, at).value.status))
  {
    var a := QueueRecord(config, RouteInput(r, wallet), id, now);
    if Succeeds(a, sdk) {
      LandedFits(a, sdk, reader, at);
    }
  }
}

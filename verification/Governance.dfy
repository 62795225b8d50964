/** Governance actions: their records, the intent key that identifies a request,
    and the newest-first order in which the store lists them. */
module Governance {
  import opened Texts

  datatype Category =
    | PauseCategory | UnpauseCategory | ClaimsPauseCategory | ClaimsUnpauseCategory
    | TreasurySweepCategory | TreasuryPayoutReceiverUpdateCategory
    | OracleDisableEmergencyCategory | OracleUpdateCategory

  datatype Status =
    | Requested | Submitted | PendingApprovals | Approved
    | Executed | Cancelled | Expired | Stale | Failed

  /** `Other` is any method name the executor does not support. */
  datatype ContractMethod =
    | Pause | ProposeUnpause | ApproveUnpause | CancelUnpauseProposal
    | PauseClaims | UnpauseClaims | ClaimTreasury
    | ProposeTreasuryPayout | ApproveTreasuryPayout | ExecuteTreasuryPayout | CancelExpiredTreasuryPayout
    | DisableOracleEmergency
    | ProposeOracle | ApproveOracle | ExecuteOracle | CancelExpiredOracle
    | Other(name: Text)

  datatype ErrorCode = ExecutionFailed | ExecutionTimeout | QueueExpired | StatusReconciliationRequired

  datatype Action = Action(
    actionId: Text,
    intentKey: Text,
    proposalId: Option<nat>,
    category: Category,
    status: Status,
    contractMethod: ContractMethod,
    txHash: Option<Text>,
    blockNumber: Option<nat>,
    tradeId: Option<Text>,
    chainId: nat,
    targetAddress: Option<Text>,
    createdAt: int,
    expiresAt: Option<int>,
    executedAt: Option<int>,
    errorCode: Option<ErrorCode>,
    actorWallet: Text)

  type Actions = map<Text, Action>

  predicate IsOpen(status: Status) {
    status in {Requested, Submitted, PendingApprovals, Approved}
  }

  predicate IsExpiredRequested(a: Action, now: int) {
    a.status == Requested && a.expiresAt.Some? && a.expiresAt.value <= now
  }

  /** Still counts against its intent key. */
  predicate IsLive(a: Action, now: int) {
    IsOpen(a.status) && !IsExpiredRequested(a, now)
  }

  predicate IsApproval(m: ContractMethod) {
    m.ApproveUnpause? || m.ApproveTreasuryPayout? || m.ApproveOracle?
  }

  // ---- Intent keys ----

  datatype Intent = Intent(
    category: Category,
    contractMethod: ContractMethod,
    proposalId: Option<nat>,
    targetAddress: Option<Text>,
    tradeId: Option<Text>,
    chainId: nat,
    approverWallet: Text)

  const BAR: CodeUnit := 124

  function CategoryName(c: Category): Text {
    match c
    case PauseCategory => Ascii("pause")
    case UnpauseCategory => Ascii("unpause")
    case ClaimsPauseCategory => Ascii("claims_pause")
    case ClaimsUnpauseCategory => Ascii("claims_unpause")
    case TreasurySweepCategory => Ascii("treasury_sweep")
    case TreasuryPayoutReceiverUpdateCategory => Ascii("treasury_payout_receiver_update")
    case OracleDisableEmergencyCategory => Ascii("oracle_disable_emergency")
    case OracleUpdateCategory => Ascii("oracle_update")
  }

  const RECEIVER_UPDATE: string := "TreasuryPayoutAddressUpdate"
  const ORACLE_UPDATE: string := "OracleUpdate"

  function MethodName(m: ContractMethod): Text {
    match m
    case Pause => Ascii("pause")
    case ProposeUnpause => Ascii("proposeUnpause")
    case ApproveUnpause => Ascii("approveUnpause")
    case CancelUnpauseProposal => Ascii("cancelUnpauseProposal")
    case PauseClaims => Ascii("pauseClaims")
    case UnpauseClaims => Ascii("unpauseClaims")
    case ClaimTreasury => Ascii("claimTreasury")
    case ProposeTreasuryPayout => Ascii("propose" + RECEIVER_UPDATE)
    case ApproveTreasuryPayout => Ascii("approve" + RECEIVER_UPDATE)
    case ExecuteTreasuryPayout => Ascii("execute" + RECEIVER_UPDATE)
    case CancelExpiredTreasuryPayout => Ascii("cancelExpired" + RECEIVER_UPDATE + "Proposal")
    case DisableOracleEmergency => Ascii("disableOracleEmergency")
    case ProposeOracle => Ascii("propose" + ORACLE_UPDATE)
    case ApproveOracle => Ascii("approve" + ORACLE_UPDATE)
    case ExecuteOracle => Ascii("execute" + ORACLE_UPDATE)
    case CancelExpiredOracle => Ascii("cancelExpired" + ORACLE_UPDATE + "Proposal")
    case Other(name) => name
  }

  function NumberFragment(norm: Text -> Text, n: Option<nat>): Text {
    if n.None? then [] else norm(Decimal(n.value))
  }

  function TextFragment(norm: Text -> Text, t: Option<Text>): Text {
    if t.None? then [] else norm(t.value)
  }

  /** The wallet that counts: the approver's, and only for approval methods. */
  function ApproverFragment(norm: Text -> Text, i: Intent): Text {
    if IsApproval(i.contractMethod) then norm(i.approverWallet) else []
  }

  /** The normalized fields in key order; `norm` trims and lower-cases. */
  function Fragments(norm: Text -> Text, i: Intent): seq<Text> {
    [norm(CategoryName(i.category)),
     norm(MethodName(i.contractMethod)),
     NumberFragment(norm, i.proposalId),
     TextFragment(norm, i.targetAddress),
     TextFragment(norm, i.tradeId),
     norm(Decimal(i.chainId)),
     ApproverFragment(norm, i)]
  }

  function Join(parts: seq<Text>): Text {
    if parts == [] then []
    else if |parts| == 1 then parts[0]
    else parts[0] + [BAR] + Join(parts[1..])
  }

  function IntentKey(norm: Text -> Text, i: Intent): Text {
    Join([Ascii("v1")] + Fragments(norm, i))
  }

  predicate BarFree(parts: seq<Text>) {
    forall p :: p in parts ==> BAR !in p
  }

  /** The first separator splits a text in one way only. */
  lemma SplitAtFirstBar(a: Text, b: Text, x: Text, y: Text)
    requires a + [BAR] + x == b + [BAR] + y
    requires BAR !in a && BAR !in b
    ensures a == b && x == y
  {
    var t := a + [BAR] + x;
    assert forall i :: 0 <= i < |a| ==> t[i] == a[i];
    assert forall i :: 0 <= i < |b| ==> t[i] == b[i];
    assert t[|a|] == BAR && t[|b|] == BAR;
    assert |a| == |b|;
    assert a == t[..|a|] && b == t[..|b|];
    assert x == t[|a| + 1..] && y == t[|b| + 1..];
  }

  lemma {:induction false} JoinInjective(xs: seq<Text>, ys: seq<Text>)
    requires |xs| == |ys| && BarFree(xs) && BarFree(ys)
    requires Join(xs) == Join(ys)
    ensures xs == ys
  {
    if |xs| == 1 {
      assert xs == [xs[0]] && ys == [ys[0]];
    } else if |xs| > 1 {
      assert xs[0] in xs && ys[0] in ys;
      SplitAtFirstBar(xs[0], ys[0], Join(xs[1..]), Join(ys[1..]));
      JoinInjective(xs[1..], ys[1..]);
      assert xs == [xs[0]] + xs[1..] && ys == [ys[0]] + ys[1..];
    }
  }

  /** Two intents have one key exactly when they agree field by field after
      normalization, the wallet counting only for approval methods. */
  lemma SameKeyIffSameFields(norm: Text -> Text, i: Intent, j: Intent)
    requires BarFree(Fragments(norm, i)) && BarFree(Fragments(norm, j))
    ensures IntentKey(norm, i) == IntentKey(norm, j) <==>
            && norm(CategoryName(i.category)) == norm(CategoryName(j.category))
            && norm(MethodName(i.contractMethod)) == norm(MethodName(j.contractMethod))
            && NumberFragment(norm, i.proposalId) == NumberFragment(norm, j.proposalId)
            && TextFragment(norm, i.targetAddress) == TextFragment(norm, j.targetAddress)
            && TextFragment(norm, i.tradeId) == TextFragment(norm, j.tradeId)
            && norm(Decimal(i.chainId)) == norm(Decimal(j.chainId))
            && ApproverFragment(norm, i) == ApproverFragment(norm, j)
  {
    var v := [Ascii("v1")];
    var f, g := Fragments(norm, i), Fragments(norm, j);
    if IntentKey(norm, i) == IntentKey(norm, j) {
      assert BAR !in Ascii("v1");
      JoinInjective(v + f, v + g);
      assert f == (v + f)[1..] && g == (v + g)[1..];
    }
    assert f == g <==> (f[0] == g[0] && f[1] == g[1] && f[2] == g[2] && f[3] == g[3]
                        && f[4] == g[4] && f[5] == g[5] && f[6] == g[6]);
  }

  /** Approvals of one proposal by different wallets stay apart; anything else
      repeated by another wallet is the same intent. */
  lemma WalletSeparatesApprovalsOnly(norm: Text -> Text, i: Intent, wallet: Text)
    requires var j := i.(approverWallet := wallet);
             BarFree(Fragments(norm, i)) && BarFree(Fragments(norm, j))
    ensures IntentKey(norm, i) == IntentKey(norm, i.(approverWallet := wallet)) <==>
            (IsApproval(i.contractMethod) ==> norm(i.approverWallet) == norm(wallet))
  {
    SameKeyIffSameFields(norm, i, i.(approverWallet := wallet));
  }

  // ---- Newest first ----

  predicate Newer(a: Action, b: Action) {
    a.createdAt > b.createdAt || (a.createdAt == b.createdAt && LexLess(b.actionId, a.actionId))
  }

  predicate Keyed(items: Actions) {
    forall id :: id in items ==> items[id].actionId == id
  }

  predicate Descending(list: seq<Action>) {
    forall i, j :: 0 <= i < j < |list| ==> Newer(list[i], list[j])
  }

  /** `list` holds exactly the stored actions, newest first. */
  predicate SortedOf(list: seq<Action>, items: Actions) {
    && Descending(list)
    && (forall a :: a in list ==> a.actionId in items && items[a.actionId] == a)
    && (forall id :: id in items ==> items[id] in list)
  }

  lemma NewerTransitive(a: Action, b: Action, c: Action)
    requires Newer(a, b) && Newer(b, c)
    ensures Newer(a, c)
  {
    if a.createdAt == c.createdAt {
      LexTransitive(c.actionId, b.actionId, a.actionId);
    }
  }

  lemma NewerTotal(a: Action, b: Action)
    requires a.actionId != b.actionId
    ensures Newer(a, b) <==> !Newer(b, a)
  {
    LexTotal(a.actionId, b.actionId);
    if Newer(a, b) && Newer(b, a) {
      LexTransitive(a.actionId, b.actionId, a.actionId);
      LexIrreflexive(a.actionId);
    }
  }

  /** Puts one action into a newest-first list. */
  method Insert(list: seq<Action>, a: Action) returns (r: seq<Action>)
    requires Descending(list)
    requires forall b :: b in list ==> b.actionId != a.actionId
    ensures Descending(r)
    ensures forall b :: b in r <==> b == a || b in list
  {
    var i := 0;
    while i < |list| && Newer(list[i], a)
      invariant 0 <= i <= |list|
      invariant forall k :: 0 <= k < i ==> Newer(list[k], a)
    {
      i := i + 1;
    }
    r := list[..i] + [a] + list[i..];
    forall k | i <= k < |list| ensures Newer(a, list[k]) {
      assert list[i] in list;
      NewerTotal(a, list[i]);
      if i < k {
        NewerTransitive(a, list[i], list[k]);
      }
    }
    assert list == list[..i] + list[i..];
  }

  method SortedActions(items: Actions) returns (list: seq<Action>)
    requires Keyed(items)
    ensures SortedOf(list, items)
  {
    list := [];
    var rest := items.Keys;
    while rest != {}
      invariant rest <= items.Keys
      invariant Descending(list)
      invariant forall b :: b in list ==> b.actionId in items.Keys - rest && items[b.actionId] == b
      invariant forall id :: id in items.Keys - rest ==> items[id] in list
      decreases |rest|
    {
      var id :| id in rest;
      list := Insert(list, items[id]);
      rest := rest - {id};
    }
  }
}

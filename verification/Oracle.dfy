/** Oracle triggers: trade states, what a trigger needs of its trade, and the
    retry loop that carries one trigger to the chain. */
module Oracle {
  import opened Texts

  datatype TradeStatus = Locked | InTransit | ArrivalConfirmed | Frozen | Closed

  /** `arrival` is set when arrival is confirmed. */
  datatype Trade = Trade(status: TradeStatus, arrival: Option<int>)

  datatype TriggerType = ReleaseStage1 | ConfirmArrival | FinalizeTrade

  datatype TriggerStatus =
    | Pending | Executing | Submitted | Confirmed | Failed
    | ExhaustedNeedsRedrive | TerminalFailure | PendingApproval | Rejected

  datatype Trigger = Trigger(
    tradeId: nat, kind: TriggerType, status: TriggerStatus, attempts: nat, txHash: Option<Text>)

  const DISPUTE_WINDOW_MS: int := 24 * 60 * 60 * 1000

  /** The status number the contract uses. */
  function Rank(s: TradeStatus): nat {
    match s
    case Locked => 0
    case InTransit => 1
    case ArrivalConfirmed => 2
    case Frozen => 3
    case Closed => 4
  }

  /** The trade status a trigger starts from. */
  function Source(kind: TriggerType): TradeStatus {
    match kind
    case ReleaseStage1 => Locked
    case ConfirmArrival => InTransit
    case FinalizeTrade => ArrivalConfirmed
  }

  /** Where the contract takes the trade when the trigger's call succeeds. */
  function Target(kind: TriggerType): TradeStatus {
    match kind
    case ReleaseStage1 => InTransit
    case ConfirmArrival => ArrivalConfirmed
    case FinalizeTrade => Closed
  }

  /** The source-state and dispute-window checks: `false` is a validation error. */
  predicate Validates(trade: Trade, kind: TriggerType, now: int) {
    match kind
    case ReleaseStage1 => trade.status == Locked
    case ConfirmArrival => trade.status == InTransit
    case FinalizeTrade =>
      && trade.status == ArrivalConfirmed
      && trade.arrival.Some?
      && now > trade.arrival.value + DISPUTE_WINDOW_MS
  }

  /** The confirmation fallback's test. */
  predicate IsAdvanced(kind: TriggerType, status: TradeStatus) {
    match kind
    case ReleaseStage1 => status != Locked
    case ConfirmArrival => status != InTransit
    case FinalizeTrade => status != ArrivalConfirmed
  }

  function DetermineNextStatus(isTerminal: bool, attempt: nat, maxAttempts: nat): TriggerStatus {
    if isTerminal then TerminalFailure
    else if attempt >= maxAttempts then ExhaustedNeedsRedrive
    else Failed
  }

  /** Statuses of which the table allows one row per action key. */
  predicate IsActive(status: TriggerStatus) {
    status in {Pending, Executing, Submitted, PendingApproval}
  }

  // ---- Action keys ----

  const COLON: CodeUnit := 58

  function TypeName(kind: TriggerType): Text {
    match kind
    case ReleaseStage1 => Ascii("RELEASE_STAGE_1")
    case ConfirmArrival => Ascii("CONFIRM_ARRIVAL")
    case FinalizeTrade => Ascii("FINALIZE_TRADE")
  }

  function ActionKey(kind: TriggerType, tradeId: nat): Text {
    TypeName(kind) + [COLON] + Decimal(tradeId)
  }

  /** Triggers of different types or trades never share an action key. */
  lemma ActionKeyTellsApart(kind: TriggerType, tradeId: nat, other: TriggerType, otherId: nat)
    requires ActionKey(kind, tradeId) == ActionKey(other, otherId)
    ensures kind == other && tradeId == otherId
  {
    var t := ActionKey(kind, tradeId);
    var x, y := Decimal(tradeId), Decimal(otherId);
    var a, b := TypeName(kind), TypeName(other);
    assert COLON !in x && COLON !in y;
    assert forall i :: |a| < i < |t| ==> t[i] == x[i - |a| - 1];
    assert forall i :: |b| < i < |t| ==> t[i] == y[i - |b| - 1];
    assert t[|a|] == COLON && t[|b|] == COLON;
    assert |a| == |b|;
    assert x == t[|a| + 1..] && y == t[|b| + 1..];
    DecimalRoundTrip(tradeId);
    DecimalRoundTrip(otherId);
    assert t[0] == a[0] == b[0];
  }
}

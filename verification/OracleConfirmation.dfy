/** The confirmation worker's look at one submitted trigger: the throttled on-chain
    fallback, the hard timeout and the indexer, in that order. */
module OracleConfirmation {
  import opened Texts
  import opened Oracle

  const HARD_TIMEOUT_MS: int := 30 * 60 * 1000
  const FALLBACK_THRESHOLD_MS: int := 20 * 60 * 1000
  const FALLBACK_MIN_INTERVAL_MS: int := 5 * 60 * 1000

  /** What the worker would meet: the on-chain status and whether the indexer has
      the event; `None` where the call fails. */
  datatype Surroundings = Surroundings(onChain: Option<TradeStatus>, hasEvent: Option<bool>)

  /** When each trade was last checked on chain. */
  type Throttle = map<nat, int>

  function ShouldCheck(last: Throttle, tradeId: nat, now: int, ageMs: int): bool {
    && ageMs >= FALLBACK_THRESHOLD_MS
    && (tradeId in last ==> now - last[tradeId] >= FALLBACK_MIN_INTERVAL_MS)
  }

  /** A throttled check ran and found the trade away from the trigger's source. */
  predicate SeesAdvance(last: Throttle, row: Trigger, submittedAt: int, now: int, around: Surroundings) {
    && ShouldCheck(last, row.tradeId, now, now - submittedAt)
    && around.onChain.Some? && around.onChain.value != Source(row.kind)
  }

  /** What a poll may leave a submitted trigger in: confirmed if the trade was seen to
      have advanced, or if the event is indexed and the trigger not too old; given up
      if it is too old and no advance was seen. */
  predicate IsOutcome(last: Throttle, row: Trigger, submittedAt: int, now: int, around: Surroundings, status: TriggerStatus) {
    && status in {Submitted, Confirmed, ExhaustedNeedsRedrive}
    && (status == Confirmed <==>
          row.txHash.Some? && (SeesAdvance(last, row, submittedAt, now, around)
                               || (now - submittedAt <= HARD_TIMEOUT_MS && around.hasEvent == Some(true))))
    && (status == ExhaustedNeedsRedrive <==>
          row.txHash.Some? && now - submittedAt > HARD_TIMEOUT_MS && !SeesAdvance(last, row, submittedAt, now, around))
  }

  class ConfirmationWorker {
    var lastOnChainCheck: Throttle

    constructor ()
      ensures lastOnChainCheck == map[]
    {
      lastOnChainCheck := map[];
    }

    method ShouldRunOnChainCheck(tradeId: nat, now: int, ageMs: int) returns (run: bool)
      modifies this
      ensures run == ShouldCheck(old(lastOnChainCheck), tradeId, now, ageMs)
      ensures lastOnChainCheck == if run then old(lastOnChainCheck)[tradeId := now] else old(lastOnChainCheck)
    {
      if ageMs < FALLBACK_THRESHOLD_MS {
        return false;
      }
      if tradeId in lastOnChainCheck && now - lastOnChainCheck[tradeId] < FALLBACK_MIN_INTERVAL_MS {
        return false;
      }
      lastOnChainCheck := lastOnChainCheck[tradeId := now];
      return true;
    }

    method TryOnChainFallback(row: Trigger, now: int, ageMs: int, around: Surroundings) returns (confirmed: bool)
      modifies this
      ensures confirmed <==> ShouldCheck(old(lastOnChainCheck), row.tradeId, now, ageMs)
                             && around.onChain.Some? && IsAdvanced(row.kind, around.onChain.value)
      ensures lastOnChainCheck == if ShouldCheck(old(lastOnChainCheck), row.tradeId, now, ageMs)
                                  then old(lastOnChainCheck)[row.tradeId := now] else old(lastOnChainCheck)
    {
      var run := ShouldRunOnChainCheck(row.tradeId, now, ageMs);
      if !run || around.onChain.None? {
        return false;
      }
      return IsAdvanced(row.kind, around.onChain.value);
    }

    method CheckConfirmation(row: Trigger, submittedAt: int, now: int, around: Surroundings) returns (status: TriggerStatus)
      requires row.status == Submitted
      modifies this
      ensures IsOutcome(old(lastOnChainCheck), row, submittedAt, now, around, status)
      ensures lastOnChainCheck == if row.txHash.Some? && ShouldCheck(old(lastOnChainCheck), row.tradeId, now, now - submittedAt)
                                  then old(lastOnChainCheck)[row.tradeId := now] else old(lastOnChainCheck)
    {
      if row.txHash.None? {
        return row.status;
      }
      var ageMs := now - submittedAt;
      var onChainConfirmed := TryOnChainFallback(row, now, ageMs, around);
      if onChainConfirmed {
        return Confirmed;
      }
      if ageMs > HARD_TIMEOUT_MS {
        return ExhaustedNeedsRedrive;
      }
      if around.hasEvent == Some(true) {
        return Confirmed;
      }
      return row.status;
    }
  }

  // ---- A trigger over many polls ----

  /** One poll of a trigger, with the throttle as other polls have left it. */
  datatype Look = Look(last: Throttle, now: int, around: Surroundings)

  /** `statuses[i]` is the trigger's status before look `i`; once it has left
      `Submitted`, no poll reads it again. */
  predicate IsWatch(row: Trigger, submittedAt: int, looks: seq<Look>, statuses: seq<TriggerStatus>) {
    && |statuses| == |looks| + 1 && statuses[0] == Submitted
    && forall i :: 0 <= i < |looks| ==>
         if statuses[i] == Submitted
         then IsOutcome(looks[i].last, row, submittedAt, looks[i].now, looks[i].around, statuses[i + 1])
         else statuses[i + 1] == statuses[i]
  }

  /** The look settles the trigger. */
  predicate IsDecisive(row: Trigger, submittedAt: int, look: Look) {
    || look.now - submittedAt > HARD_TIMEOUT_MS
    || look.around.hasEvent == Some(true)
    || SeesAdvance(look.last, row, submittedAt, look.now, look.around)
  }

  /** Over any number of polls and whatever the throttle answers: a trigger with a
      transaction stays submitted exactly until its first decisive look, which also
      settles it for good. */
  lemma {:induction false} SettledByFirstDecisiveLook(row: Trigger, submittedAt: int, looks: seq<Look>, statuses: seq<TriggerStatus>, n: nat)
    requires IsWatch(row, submittedAt, looks, statuses) && row.txHash.Some? && n <= |looks|
    ensures statuses[n] == Submitted <==> forall i :: 0 <= i < n ==> !IsDecisive(row, submittedAt, looks[i])
    ensures forall i :: 0 <= i < n && statuses[i] == Submitted && IsDecisive(row, submittedAt, looks[i]) ==>
              statuses[n] == statuses[i + 1] != Submitted
  {
    if n > 0 {
      SettledByFirstDecisiveLook(row, submittedAt, looks, statuses, n - 1);
    }
  }

  /** So the first poll past the hard timeout settles it at the latest, and as given
      up only if no poll, this one included, saw the trade advance. */
  lemma SettledByHardTimeout(row: Trigger, submittedAt: int, looks: seq<Look>, statuses: seq<TriggerStatus>, late: nat)
    requires IsWatch(row, submittedAt, looks, statuses) && row.txHash.Some? && late < |looks|
    requires looks[late].now - submittedAt > HARD_TIMEOUT_MS
    requires forall i :: 0 <= i < late ==> looks[i].now - submittedAt <= HARD_TIMEOUT_MS
    ensures statuses[late + 1] == Confirmed || statuses[late + 1] == ExhaustedNeedsRedrive
    ensures statuses[late + 1] == ExhaustedNeedsRedrive <==>
              && !SeesAdvance(looks[late].last, row, submittedAt, looks[late].now, looks[late].around)
              && forall i :: 0 <= i < late ==> !IsDecisive(row, submittedAt, looks[i])
  {
    SettledByFirstDecisiveLook(row, submittedAt, looks, statuses, late);
    EarlySettlesAreConfirmed(row, submittedAt, looks, statuses, late);
  }

  /** Before the hard timeout a trigger is never given up. */
  lemma {:induction false} EarlySettlesAreConfirmed(row: Trigger, submittedAt: int, looks: seq<Look>, statuses: seq<TriggerStatus>, n: nat)
    requires IsWatch(row, submittedAt, looks, statuses) && n <= |looks|
    requires forall i :: 0 <= i < n ==> looks[i].now - submittedAt <= HARD_TIMEOUT_MS
    ensures statuses[n] == Submitted || statuses[n] == Confirmed
  {
    if n > 0 {
      EarlySettlesAreConfirmed(row, submittedAt, looks, statuses, n - 1);
    }
  }

  // ---- The throttle over a run ----

  datatype Poll = Poll(tradeId: nat, submittedAt: int, now: int)

  function Checked(last: Throttle, p: Poll): bool {
    ShouldCheck(last, p.tradeId, p.now, p.now - p.submittedAt)
  }

  /** The throttle after the first `n` polls. */
  function After(polls: seq<Poll>, n: nat): Throttle
    requires n <= |polls|
  {
    if n == 0 then map[]
    else
      var last := After(polls, n - 1);
      var p := polls[n - 1];
      if Checked(last, p) then last[p.tradeId := p.now] else last
  }

  /** Once a trade has been checked, the throttle remembers a time no earlier than
      that check. */
  lemma {:induction false} CheckIsRemembered(polls: seq<Poll>, i: nat, n: nat)
    requires i < n <= |polls| && Checked(After(polls, i), polls[i])
    ensures polls[i].tradeId in After(polls, n) && After(polls, n)[polls[i].tradeId] >= polls[i].now
    decreases n
  {
    if i < n - 1 {
      CheckIsRemembered(polls, i, n - 1);
    }
  }

  /** Two on-chain checks of one trade are at least the minimum interval apart,
      whatever the clock does in between. */
  lemma ChecksAreSpaced(polls: seq<Poll>, i: nat, j: nat)
    requires i < j < |polls| && polls[i].tradeId == polls[j].tradeId
    requires Checked(After(polls, i), polls[i]) && Checked(After(polls, j), polls[j])
    ensures polls[j].now >= polls[i].now + FALLBACK_MIN_INTERVAL_MS
  {
    CheckIsRemembered(polls, i, j);
  }

  /** The `i`th poll is the last of the first `n` that checked the trade on chain. */
  predicate IsLastCheck(polls: seq<Poll>, n: nat, tradeId: nat, i: nat)
    requires n <= |polls|
  {
    && i < n && polls[i].tradeId == tradeId && Checked(After(polls, i), polls[i])
    && forall j :: i < j < n && polls[j].tradeId == tradeId ==> !Checked(After(polls, j), polls[j])
  }

  lemma OtherPollsDoNotCount(polls: seq<Poll>, n: nat, tradeId: nat, i: nat)
    requires n < |polls| && (polls[n].tradeId != tradeId || !Checked(After(polls, n), polls[n]))
    ensures IsLastCheck(polls, n + 1, tradeId, i) <==> IsLastCheck(polls, n, tradeId, i)
  {
    if IsLastCheck(polls, n, tradeId, i) {
      assert forall j :: i < j < n + 1 && polls[j].tradeId == tradeId ==> !Checked(After(polls, j), polls[j]);
    }
    if IsLastCheck(polls, n + 1, tradeId, i) {
      assert i != n;
    }
  }

  /** The throttle remembers exactly the last check of each trade. */
  lemma {:induction false} ThrottleIsLastCheck(polls: seq<Poll>, n: nat, tradeId: nat) returns (i: nat)
    requires n <= |polls|
    ensures tradeId in After(polls, n) ==> IsLastCheck(polls, n, tradeId, i) && After(polls, n)[tradeId] == polls[i].now
    ensures tradeId !in After(polls, n) ==> forall j: nat :: !IsLastCheck(polls, n, tradeId, j)
  {
    i := 0;
    if n > 0 {
      var p := polls[n - 1];
      if p.tradeId == tradeId && Checked(After(polls, n - 1), p) {
        i := n - 1;
      } else {
        i := ThrottleIsLastCheck(polls, n - 1, tradeId);
        OtherPollsDoNotCount(polls, n - 1, tradeId, i);
        forall j: nat | tradeId !in After(polls, n) ensures !IsLastCheck(polls, n, tradeId, j) {
          OtherPollsDoNotCount(polls, n - 1, tradeId, j);
        }
      }
    }
  }

  lemma OneLastCheck(polls: seq<Poll>, n: nat, tradeId: nat, i: nat, j: nat)
    requires n <= |polls| && IsLastCheck(polls, n, tradeId, i) && IsLastCheck(polls, n, tradeId, j)
    ensures i == j
  {
  }

  /** Over any sequence of polls a poll checks the trade on chain exactly when the trigger
      is at least twenty minutes old and the trade's last check, if there was one, was at
      least five minutes ago. */
  lemma CheckedIff(polls: seq<Poll>, j: nat)
    requires j < |polls|
    ensures var p := polls[j];
            Checked(After(polls, j), p) <==>
            && p.now - p.submittedAt >= 20 * 60 * 1000
            && forall i: nat :: IsLastCheck(polls, j, p.tradeId, i) ==> p.now - polls[i].now >= 5 * 60 * 1000
  {
    var tradeId := polls[j].tradeId;
    var last := ThrottleIsLastCheck(polls, j, tradeId);
    forall i: nat | tradeId in After(polls, j) && IsLastCheck(polls, j, tradeId, i) ensures i == last {
      OneLastCheck(polls, j, tradeId, i, last);
    }
  }
}

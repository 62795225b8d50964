/** The retry loop that carries one oracle trigger to the chain. */
module OracleRetry {
  import opened Texts
  import opened Oracle

  const MAX_JITTER_MS: nat := 1000

  /** What one attempt meets: the trade read and checked, then the contract call. */
  datatype Attempt =
    | CheckFails(isTerminal: bool)
    | CallFails(isTerminal: bool)
    | Lands(txHash: Text)

  datatype Result = Finished(status: TriggerStatus) | Threw

  predicate Retries(a: Attempt) {
    !a.Lands? && !a.isTerminal
  }

  function Pow2(n: nat): nat {
    if n == 0 then 1 else 2 * Pow2(n - 1)
  }

  function Min(a: nat, b: nat): nat {
    if a < b then a else b
  }

  /** `draw` is the random number, at least 0 and below 1. */
  function Jitter(maxJitter: nat, draw: real): nat
    requires 0.0 <= draw < 1.0
  {
    if maxJitter == 0 then 0 else (draw * maxJitter as real).Floor
  }

  lemma JitterBelow(maxJitter: nat, draw: real)
    requires 0.0 <= draw < 1.0 && maxJitter > 0
    ensures 0 <= (draw * maxJitter as real).Floor < maxJitter
  {
    assert draw * maxJitter as real < maxJitter as real;
    assert draw * maxJitter as real >= 0.0;
  }

  /** Every whole number below the limit is drawn by some random number. */
  lemma EveryJitterIsDrawn(maxJitter: nat, ms: nat) returns (draw: real)
    requires ms < maxJitter
    ensures 0.0 <= draw < 1.0 && Jitter(maxJitter, draw) == ms
  {
    draw := ms as real / maxJitter as real;
    QuotientIsBelowOne(ms, maxJitter);
    assert draw * maxJitter as real == ms as real;
  }

  lemma QuotientIsBelowOne(a: nat, b: nat)
    requires a < b
    ensures 0.0 <= a as real / b as real < 1.0
  {
  }

  /** The delay after `n` doublings. */
  function Doubled(baseMs: nat, n: nat): nat {
    if n == 0 then baseMs else Doubled(baseMs, n - 1) + Doubled(baseMs, n - 1)
  }

  lemma {:induction false} PowerDoubles(baseMs: nat, n: nat)
    ensures baseMs * Pow2(n) == Doubled(baseMs, n)
  {
    if n > 0 {
      PowerDoubles(baseMs, n - 1);
      assert baseMs * (2 * Pow2(n - 1)) == 2 * (baseMs * Pow2(n - 1));
    }
  }

  /** A backoff lies between the capped exponential delay and the cap. */
  function CalculateBackoff(attempt: nat, baseMs: nat, maxMs: nat, draw: real): (ms: nat)
    requires attempt >= 1 && 0.0 <= draw < 1.0
    ensures Min(Doubled(baseMs, attempt - 1), maxMs) <= ms <= maxMs
    ensures ms < Min(Doubled(baseMs, attempt - 1), maxMs) + MAX_JITTER_MS
  {
    PowerDoubles(baseMs, attempt - 1);
    var capped := Min(baseMs * Pow2(attempt - 1), maxMs);
    var window := maxMs - capped;
    JitterBelow(Min(MAX_JITTER_MS, window + 1), draw);
    capped + Jitter(Min(MAX_JITTER_MS, window + 1), draw)
  }

  /** The attempts a run makes: up to the first that does not retry, or all of them. */
  predicate StopsAt(world: nat -> Attempt, maxAttempts: nat, last: nat) {
    && 1 <= last <= maxAttempts
    && (forall k :: 1 <= k < last ==> Retries(world(k)))
    && (last < maxAttempts ==> !Retries(world(last)))
  }

  /** The status that the last attempt leaves. */
  function StatusAfter(a: Attempt, attempt: nat, maxAttempts: nat): TriggerStatus {
    if a.Lands? then Submitted else DetermineNextStatus(a.isTerminal, attempt, maxAttempts)
  }

  function CallsUpTo(world: nat -> Attempt, last: nat): nat {
    if last == 0 then 0 else CallsUpTo(world, last - 1) + if world(last).CheckFails? then 0 else 1
  }

  lemma {:induction false} CallsAtMost(world: nat -> Attempt, last: nat)
    ensures CallsUpTo(world, last) <= last
  {
    if last > 0 {
      CallsAtMost(world, last - 1);
    }
  }

  function Sum(xs: seq<nat>): nat {
    if xs == [] then 0 else Sum(xs[..|xs| - 1]) + xs[|xs| - 1]
  }

  lemma {:induction false} SumAtMost(xs: seq<nat>, bound: nat)
    requires forall x :: x in xs ==> x <= bound
    ensures Sum(xs) <= |xs| * bound
  {
    if xs != [] {
      var rest := xs[..|xs| - 1];
      assert forall x :: x in rest ==> x in xs;
      SumAtMost(rest, bound);
      assert xs[|xs| - 1] in xs;
      assert |xs| * bound == |rest| * bound + bound;
    }
  }

  /** The trigger table with its update and compare-and-set statements. */
  class TriggerTable {
    var rows: map<Text, Trigger>

    constructor ()
      ensures rows == map[]
    {
      rows := map[];
    }

    method UpdateStatus(key: Text, status: TriggerStatus, attempts: Option<nat>, txHash: Option<Text>)
      modifies this
      ensures rows == if key !in old(rows) then old(rows)
                      else old(rows)[key := old(rows)[key].(
                             status := status,
                             attempts := if attempts.Some? then attempts.value else old(rows)[key].attempts,
                             txHash := if txHash.Some? then txHash else old(rows)[key].txHash)]
    {
      if key in rows {
        var row := rows[key];
        rows := rows[key := row.(status := status,
                                 attempts := if attempts.Some? then attempts.value else row.attempts,
                                 txHash := if txHash.Some? then txHash else row.txHash)];
      }
    }

    /** Approves a trigger that awaits approval, and no other. */
    method ApproveTrigger(key: Text) returns (updated: Option<Trigger>)
      modifies this
      ensures updated.Some? <==> key in old(rows) && old(rows)[key].status == PendingApproval
      ensures updated.Some? ==> updated.value == old(rows)[key].(status := Pending)
                                && rows == old(rows)[key := updated.value]
      ensures updated.None? ==> rows == old(rows)
    {
      if key !in rows || rows[key].status != PendingApproval {
        return None;
      }
      rows := rows[key := rows[key].(status := Pending)];
      return Some(rows[key]);
    }

    /** Rejects a trigger that awaits approval, and no other. */
    method RejectTrigger(key: Text) returns (updated: Option<Trigger>)
      modifies this
      ensures updated.Some? <==> key in old(rows) && old(rows)[key].status == PendingApproval
      ensures updated.Some? ==> updated.value == old(rows)[key].(status := Rejected)
                                && rows == old(rows)[key := updated.value]
      ensures updated.None? ==> rows == old(rows)
    {
      if key !in rows || rows[key].status != PendingApproval {
        return None;
      }
      rows := rows[key := rows[key].(status := Rejected)];
      return Some(rows[key]);
    }
  }

  /** Each sleep lies between its capped exponential delay and the cap. */
  predicate SleepsInBounds(sleeps: seq<nat>, baseMs: nat, maxMs: nat) {
    forall k :: 0 <= k < |sleeps| ==> Min(Doubled(baseMs, k), maxMs) <= sleeps[k] <= maxMs
  }

  /** So all sleeps of a run together last at most the cap for each retry. */
  lemma TotalSleep(sleeps: seq<nat>, baseMs: nat, maxMs: nat, most: nat)
    requires SleepsInBounds(sleeps, baseMs, maxMs) && |sleeps| <= most
    ensures Sum(sleeps) <= most * maxMs
  {
    assert forall s :: s in sleeps ==> s <= maxMs;
    SumAtMost(sleeps, maxMs);
    ScaleUp(|sleeps|, most, maxMs);
  }

  /** Only `key`'s row differs, and not in what it is a trigger for. */
  predicate OnlyRowChanged(before: map<Text, Trigger>, after: map<Text, Trigger>, key: Text) {
    && key in before && key in after
    && after == before[key := after[key]]
    && after[key].tradeId == before[key].tradeId && after[key].kind == before[key].kind
  }

  /** The retry loop. It makes attempts up to the first that does not retry, at most
      `maxAttempts`, returns the status it stored, and sleeps between attempts within
      the backoff bounds. It throws only if it may make no attempt at all. */
  method ExecuteWithRetry(table: TriggerTable, key: Text, world: nat -> Attempt, draw: nat -> real,
                          maxAttempts: nat, baseMs: nat, maxMs: nat)
    returns (result: Result, calls: nat, sleeps: seq<nat>, ghost last: nat)
    requires key in table.rows
    requires forall k :: 0.0 <= draw(k) < 1.0
    modifies table
    ensures result == Threw <==> maxAttempts == 0
    ensures result == Threw ==> table.rows == old(table.rows) && calls == 0 && sleeps == []
    ensures OnlyRowChanged(old(table.rows), table.rows, key)
    ensures result != Threw ==>
              && StopsAt(world, maxAttempts, last)
              && result == Finished(StatusAfter(world(last), last, maxAttempts))
              && result.status in {Submitted, TerminalFailure, ExhaustedNeedsRedrive}
              && table.rows[key].status == result.status && table.rows[key].attempts == last
              && (world(last).Lands? ==> table.rows[key].txHash == Some(world(last).txHash))
              && calls == CallsUpTo(world, last) <= maxAttempts
              && |sleeps| == last - 1 < maxAttempts && SleepsInBounds(sleeps, baseMs, maxMs)
  {
    var attempt: nat := 1;
    calls, sleeps, last := 0, [], 0;
    while attempt <= maxAttempts
      invariant attempt == 1 || 1 <= attempt <= maxAttempts
      invariant maxAttempts == 0 ==> table.rows == old(table.rows)
      invariant forall k :: 1 <= k < attempt ==> Retries(world(k))
      invariant calls == CallsUpTo(world, attempt - 1)
      invariant |sleeps| == attempt - 1 && SleepsInBounds(sleeps, baseMs, maxMs)
      invariant OnlyRowChanged(old(table.rows), table.rows, key)
      decreases maxAttempts - attempt
    {
      var met := world(attempt);
      if !met.CheckFails? {
        table.UpdateStatus(key, Executing, Some(attempt), None);
        calls := calls + 1;
      }
      assert calls == CallsUpTo(world, attempt);
      if met.Lands? {
        table.UpdateStatus(key, Submitted, None, Some(met.txHash));
        last := attempt;
        CallsAtMost(world, attempt);
        return Finished(Submitted), calls, sleeps, last;
      }
      var nextStatus := DetermineNextStatus(met.isTerminal, attempt, maxAttempts);
      table.UpdateStatus(key, nextStatus, Some(attempt), None);
      if nextStatus == TerminalFailure || nextStatus == ExhaustedNeedsRedrive {
        last := attempt;
        CallsAtMost(world, attempt);
        return Finished(nextStatus), calls, sleeps, last;
      }
      if attempt < maxAttempts && !met.isTerminal {
        var backoff := CalculateBackoff(attempt, baseMs, maxMs, draw(attempt));
        sleeps := sleeps + [backoff];
        attempt := attempt + 1;
        continue;
      }
      return Threw, calls, sleeps, last;
    }
    return Threw, calls, sleeps, last;
  }

  lemma ScaleUp(a: nat, b: nat, c: nat)
    requires a <= b
    ensures a * c <= b * c
  {
  }

  /** The loop ends `Submitted` exactly when some attempt lands before any
      attempt fails for good. */
  lemma SubmittedIffLands(world: nat -> Attempt, maxAttempts: nat, last: nat)
    requires StopsAt(world, maxAttempts, last)
    ensures StatusAfter(world(last), last, maxAttempts) == Submitted <==>
            exists k :: 1 <= k <= maxAttempts && world(k).Lands? && forall j :: 1 <= j < k ==> Retries(world(j))
    ensures StatusAfter(world(last), last, maxAttempts) == ExhaustedNeedsRedrive <==>
            forall k :: 1 <= k <= maxAttempts ==> Retries(world(k))
  {
    if k :| 1 <= k <= maxAttempts && world(k).Lands? && forall j :: 1 <= j < k ==> Retries(world(j)) {
      assert k == last;
    }
  }
}

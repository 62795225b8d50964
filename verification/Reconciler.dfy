/** One reconciliation run: pages of indexed trades, each compared with the chain,
    its findings stored under the run's key, and the run's counts. */
module Reconciler {
  import opened Texts
  import opened Classifier

  datatype RunStatus = Running | Completed | FailedRun

  datatype Counts = Counts(critical: nat, high: nat, medium: nat, low: nat)

  datatype Run = Run(status: RunStatus, totalTrades: nat, driftCount: nat, counts: Counts)

  /** The conflict key of the drift table. */
  datatype DriftKey = DriftKey(runKey: Text, tradeId: Text, code: Code, field: Field)

  datatype Drift = Drift(severity: Severity, onchainValue: Value, indexedValue: Value, occurrences: nat)

  datatype Outcome = Skipped(run: Run) | Done(run: Run) | Threw

  const NO_COUNTS: Counts := Counts(0, 0, 0, 0)
  const STARTED: Run := Run(Running, 0, 0, NO_COUNTS)
  const STATS: Run := Run(Completed, 0, 0, NO_COUNTS)

  function KeyOf(runKey: Text, f: Finding): DriftKey {
    DriftKey(runKey, f.tradeId, f.code, f.field)
  }

  function Upserted(drifts: map<DriftKey, Drift>, runKey: Text, f: Finding): map<DriftKey, Drift> {
    var k := KeyOf(runKey, f);
    drifts[k := Drift(f.severity, f.onchainValue, f.indexedValue, if k in drifts then drifts[k].occurrences + 1 else 1)]
  }

  function UpsertedAll(drifts: map<DriftKey, Drift>, runKey: Text, fs: seq<Finding>): map<DriftKey, Drift> {
    if fs == [] then drifts else Upserted(UpsertedAll(drifts, runKey, fs[..|fs| - 1]), runKey, fs[|fs| - 1])
  }

  function Counted(c: Counts, s: Severity): Counts {
    match s
    case Critical => c.(critical := c.critical + 1)
    case High => c.(high := c.high + 1)
    case Medium => c.(medium := c.medium + 1)
    case Low => c.(low := c.low + 1)
  }

  /** Counts with those of more findings added. */
  function AddAll(c: Counts, fs: seq<Finding>): Counts {
    if fs == [] then c else Counted(AddAll(c, fs[..|fs| - 1]), fs[|fs| - 1].severity)
  }

  function Total(c: Counts): nat {
    c.critical + c.high + c.medium + c.low
  }

  /** What a run has stored and counted. */
  datatype Progress = Progress(drifts: map<DriftKey, Drift>, scope: set<(Text, Text)>, stats: Run)

  function Stepped(p: Progress, runKey: Text, tradeId: Text, fs: seq<Finding>): Progress {
    Progress(UpsertedAll(p.drifts, runKey, fs), p.scope + {(runKey, tradeId)},
             p.stats.(totalTrades := p.stats.totalTrades + 1, driftCount := p.stats.driftCount + |fs|,
                      counts := AddAll(p.stats.counts, fs)))
  }

  /** The run after its first `n` trades. */
  function After(start: Progress, runKey: Text, trades: seq<IndexedTrade>, compared: seq<seq<Finding>>, n: nat): (p: Progress)
    requires n <= |trades| == |compared|
    ensures p.stats.totalTrades == start.stats.totalTrades + n && p.stats.status == start.stats.status
    decreases n
  {
    if n == 0 then start
    else Stepped(After(start, runKey, trades, compared, n - 1), runKey, trades[n - 1].tradeId, compared[n - 1])
  }

  function Min(a: nat, b: nat): nat {
    if a < b then a else b
  }

  class ReconciliationDatabase {
    var runs: map<Text, Run>
    var drifts: map<DriftKey, Drift>
    var scope: set<(Text, Text)>

    constructor ()
      ensures runs == map[] && drifts == map[] && scope == {}
    {
      runs, drifts, scope := map[], map[], {};
    }

    method CreateRun(runKey: Text) returns (row: Run, created: bool)
      modifies this
      ensures drifts == old(drifts) && scope == old(scope)
      ensures created == (runKey !in old(runs))
      ensures runs == if created then old(runs)[runKey := STARTED] else old(runs)
      ensures row == runs[runKey]
    {
      created := runKey !in runs;
      if created {
        runs := runs[runKey := STARTED];
      }
      row := runs[runKey];
    }

    method UpsertDrift(runKey: Text, f: Finding)
      modifies this
      ensures runs == old(runs) && scope == old(scope) && drifts == Upserted(old(drifts), runKey, f)
    {
      var k := KeyOf(runKey, f);
      drifts := drifts[k := Drift(f.severity, f.onchainValue, f.indexedValue,
                                  if k in drifts then drifts[k].occurrences + 1 else 1)];
    }

    method UpsertRunTradeScope(runKey: Text, tradeId: Text)
      modifies this
      ensures runs == old(runs) && drifts == old(drifts) && scope == old(scope) + {(runKey, tradeId)}
    {
      scope := scope + {(runKey, tradeId)};
    }

    method CompleteRun(runKey: Text, stats: Run)
      modifies this
      ensures drifts == old(drifts) && scope == old(scope)
      ensures runs == if runKey in old(runs) then old(runs)[runKey := stats] else old(runs)
    {
      if runKey in runs {
        runs := runs[runKey := stats];
      }
    }

    method FailRun(runKey: Text)
      modifies this
      ensures drifts == old(drifts) && scope == old(scope)
      ensures runs == if runKey in old(runs) then old(runs)[runKey := old(runs)[runKey].(status := FailedRun)] else old(runs)
    {
      if runKey in runs {
        runs := runs[runKey := runs[runKey].(status := FailedRun)];
      }
    }
  }

  /** The findings of one trade, stored and counted. */
  method StoreFindings(db: ReconciliationDatabase, runKey: Text, findings: seq<Finding>, stats: Run) returns (after: Run)
    modifies db
    ensures db.runs == old(db.runs) && db.scope == old(db.scope)
    ensures db.drifts == UpsertedAll(old(db.drifts), runKey, findings)
    ensures after == stats.(driftCount := stats.driftCount + |findings|, counts := AddAll(stats.counts, findings))
  {
    after := stats;
    var i := 0;
    assert findings[..0] == [];
    while i < |findings|
      invariant 0 <= i <= |findings|
      invariant db.runs == old(db.runs) && db.scope == old(db.scope)
      invariant db.drifts == UpsertedAll(old(db.drifts), runKey, findings[..i])
      invariant after == stats.(driftCount := stats.driftCount + i, counts := AddAll(stats.counts, findings[..i]))
    {
      var f := findings[i];
      assert findings[..i + 1][..i] == findings[..i];
      db.UpsertDrift(runKey, f);
      after := after.(driftCount := after.driftCount + 1, counts := Counted(after.counts, f.severity));
      i := i + 1;
    }
    assert findings[..i] == findings;
  }

  function Page(trades: seq<IndexedTrade>, limit: nat, offset: nat): (page: seq<IndexedTrade>)
    ensures |page| <= limit
    ensures page != [] ==> offset + |page| <= |trades| && page == trades[offset..offset + |page|]
    ensures |page| < limit ==> offset + |page| >= |trades|
  {
    if offset >= |trades| then [] else trades[offset..Min(|trades|, offset + limit)]
  }

  predicate MayStart(runs: map<Text, Run>, runKey: Text) {
    runKey in runs ==> runs[runKey].status == FailedRun
  }

  /** `compared` holds what comparing each trade with the chain finds. */
  ghost predicate ComparesEach(compared: seq<seq<Finding>>, h: Helpers, trades: seq<IndexedTrade>, chain: Text -> Read) {
    && |compared| == |trades|
    && forall k {:trigger compared[k]} :: 0 <= k < |trades| ==> compared[k] == Drifts(h, trades[k], chain(trades[k].tradeId))
  }

  /** The progress of a run before each trade and at the end, step by step. */
  ghost predicate IsTrace(trace: seq<Progress>, runKey: Text, trades: seq<IndexedTrade>, compared: seq<seq<Finding>>) {
    && |compared| == |trades| && |trace| == |trades| + 1
    && forall k {:trigger compared[k]} :: 0 <= k < |trades| ==>
         trace[k + 1] == Stepped(trace[k], runKey, trades[k].tradeId, compared[k])
  }

  lemma MakeComparison(h: Helpers, trades: seq<IndexedTrade>, chain: Text -> Read) returns (compared: seq<seq<Finding>>)
    ensures ComparesEach(compared, h, trades, chain)
  {
    compared := seq(|trades|, i requires 0 <= i < |trades| => Drifts(h, trades[i], chain(trades[i].tradeId)));
  }

  lemma MakeTrace(start: Progress, runKey: Text, trades: seq<IndexedTrade>, compared: seq<seq<Finding>>)
    returns (trace: seq<Progress>)
    requires |compared| == |trades|
    ensures IsTrace(trace, runKey, trades, compared) && trace[0] == start
  {
    trace := seq(|trades| + 1, k requires 0 <= k <= |trades| => After(start, runKey, trades, compared, k));
    forall k | 0 <= k < |trades| ensures trace[k + 1] == Stepped(trace[k], runKey, trades[k].tradeId, compared[k]) {
      assert trace[k + 1] == After(start, runKey, trades, compared, k + 1);
    }
  }

  /** A trace shows the run after each number of trades. */
  lemma {:induction false} TraceIsRun(trace: seq<Progress>, runKey: Text, trades: seq<IndexedTrade>, compared: seq<seq<Finding>>, n: nat)
    requires IsTrace(trace, runKey, trades, compared) && n <= |trades|
    ensures trace[n] == After(trace[0], runKey, trades, compared, n)
    decreases n
  {
    if n > 0 {
      TraceIsRun(trace, runKey, trades, compared, n - 1);
      var findings := compared[n - 1];
      assert trace[n] == Stepped(trace[n - 1], runKey, trades[n - 1].tradeId, findings);
    }
  }

  /** One trade: put in scope, compared with the chain, its findings stored and counted. */
  method ReconcileTrade(db: ReconciliationDatabase, h: Helpers, trade: IndexedTrade, read: Read, runKey: Text, stats: Run,
                        ghost expected: seq<Finding>)
    returns (after: Run)
    requires expected == Drifts(h, trade, read)
    modifies db
    ensures db.runs == old(db.runs) && after.totalTrades == stats.totalTrades + 1
    ensures Progress(db.drifts, db.scope, after)
            == Stepped(Progress(old(db.drifts), old(db.scope), stats), runKey, trade.tradeId, expected)
  {
    db.UpsertRunTradeScope(runKey, trade.tradeId);
    var findings := ClassifyDrifts(h, trade, read);
    after := StoreFindings(db, runKey, findings, stats.(totalTrades := stats.totalTrades + 1));
  }

  method ReconcileNext(db: ReconciliationDatabase, h: Helpers, trade: IndexedTrade, chain: Text -> Read, runKey: Text, stats: Run,
                       ghost n: nat, ghost trades: seq<IndexedTrade>, ghost trace: seq<Progress>, ghost compared: seq<seq<Finding>>)
    returns (after: Run)
    requires IsTrace(trace, runKey, trades, compared) && ComparesEach(compared, h, trades, chain)
    requires n < |trades| && trade == trades[n] && Progress(db.drifts, db.scope, stats) == trace[n]
    modifies db
    ensures db.runs == old(db.runs) && after.totalTrades == stats.totalTrades + 1
    ensures Progress(db.drifts, db.scope, after) == trace[n + 1]
  {
    after := ReconcileTrade(db, h, trade, chain(trade.tradeId), runKey, stats, compared[n]);
  }

  /** The trades of one page in turn; `handled` falls short when a failure stops it. */
  method ReconcilePage(db: ReconciliationDatabase, h: Helpers, page: seq<IndexedTrade>, chain: Text -> Read, runKey: Text,
                       offset: nat, stats: Run, failAt: Option<nat>,
                       ghost trades: seq<IndexedTrade>, ghost trace: seq<Progress>, ghost compared: seq<seq<Finding>>)
    returns (after: Run, handled: nat)
    requires IsTrace(trace, runKey, trades, compared) && ComparesEach(compared, h, trades, chain)
    requires offset + |page| <= |trades| && page == trades[offset..offset + |page|]
    requires Progress(db.drifts, db.scope, stats) == trace[offset]
    modifies db
    ensures handled <= |page| && (handled < |page| ==> failAt == Some(offset + handled))
    ensures db.runs == old(db.runs) && after.totalTrades == stats.totalTrades + handled
    ensures Progress(db.drifts, db.scope, after) == trace[offset + handled]
  {
    after, handled := stats, 0;
    while handled < |page| && failAt != Some(offset + handled)
      invariant handled <= |page| && db.runs == old(db.runs) && after.totalTrades == stats.totalTrades + handled
      invariant Progress(db.drifts, db.scope, after) == trace[offset + handled]
    {
      var trade := page[handled];
      assert trade == trades[offset + handled];
      after := ReconcileNext(db, h, trade, chain, runKey, after, offset + handled, trades, trace, compared);
      handled := handled + 1;
    }
  }

  /** The paging loop. It stops at the end of the trades, at the limit, or where a
      failure strikes. */
  method ReconcilePages(db: ReconciliationDatabase, h: Helpers, trades: seq<IndexedTrade>, chain: Text -> Read, runKey: Text,
                        batchSize: nat, maxTradesPerRun: nat, failAt: Option<nat>,
                        ghost trace: seq<Progress>, ghost compared: seq<seq<Finding>>)
    returns (stats: Run, failed: bool)
    requires batchSize > 0 && IsTrace(trace, runKey, trades, compared) && ComparesEach(compared, h, trades, chain)
    requires trace[0] == Progress(db.drifts, db.scope, STATS)
    modifies db
    ensures db.runs == old(db.runs)
    ensures failed ==> failAt.Some? && failAt.value <= |trades|
    ensures Progress(db.drifts, db.scope, stats) == trace[if failed then failAt.value else Min(|trades|, maxTradesPerRun)]
  {
    stats, failed := STATS, false;
    var offset := 0;
    var done := false;
    while stats.totalTrades < maxTradesPerRun && !done
      invariant db.runs == old(db.runs)
      invariant offset == stats.totalTrades <= maxTradesPerRun && offset <= |trades|
      invariant Progress(db.drifts, db.scope, stats) == trace[offset]
      invariant done ==> offset == |trades|
      decreases !done, maxTradesPerRun - stats.totalTrades
    {
      var limit := Min(batchSize, maxTradesPerRun - stats.totalTrades);
      var page := Page(trades, limit, offset);
      if page == [] {
        done := true;
        continue;
      }
      var after, handled := ReconcilePage(db, h, page, chain, runKey, offset, stats, failAt, trades, trace, compared);
      stats := after;
      if handled < |page| {
        return stats, true;
      }
      offset := offset + |page|;
      done := |page| < limit;
    }
  }

  /** One run. It is skipped when its key is completed or running; otherwise it
      compares the first `min(|trades|, maxTradesPerRun)` trades, stores and counts
      their findings, and completes. `failAt` is the trade at which the database
      or the indexer fails, if it does; what came before stays stored. */
  method ReconcileOnce(db: ReconciliationDatabase, h: Helpers, trades: seq<IndexedTrade>, chain: Text -> Read, runKey: Text,
                       batchSize: nat, maxTradesPerRun: nat, failAt: Option<nat>)
    returns (outcome: Outcome, ghost trace: seq<Progress>, ghost compared: seq<seq<Finding>>)
    requires batchSize > 0
    modifies db
    ensures outcome.Skipped? <==> !MayStart(old(db.runs), runKey)
    ensures outcome.Skipped? <==> runKey in old(db.runs) && old(db.runs)[runKey].status in {Completed, Running}
    ensures outcome.Skipped? ==> outcome.run == old(db.runs)[runKey]
                                 && db.runs == old(db.runs) && db.drifts == old(db.drifts) && db.scope == old(db.scope)
    ensures IsTrace(trace, runKey, trades, compared) && ComparesEach(compared, h, trades, chain)
    ensures trace[0] == Progress(old(db.drifts), old(db.scope), STATS)
    ensures outcome.Done? ==>
              && Progress(db.drifts, db.scope, outcome.run) == trace[Min(|trades|, maxTradesPerRun)]
              && db.runs == old(db.runs)[runKey := outcome.run]
    ensures outcome.Threw? ==>
              && failAt.Some? && failAt.value <= |trades|
              && db.drifts == trace[failAt.value].drifts && db.scope == trace[failAt.value].scope
              && runKey in db.runs && db.runs[runKey].status == FailedRun
    ensures failAt.None? ==> !outcome.Threw?
  {
    compared := MakeComparison(h, trades, chain);
    trace := MakeTrace(Progress(db.drifts, db.scope, STATS), runKey, trades, compared);
    var row, created := db.CreateRun(runKey);
    if !created && row.status == Completed {
      outcome := Skipped(row);
      return;
    }
    if !created && row.status == Running {
      outcome := Skipped(row);
      return;
    }
    var stats, failed := ReconcilePages(db, h, trades, chain, runKey, batchSize, maxTradesPerRun, failAt, trace, compared);
    if failed {
      db.FailRun(runKey);
      outcome := Threw;
      return;
    }
    db.CompleteRun(runKey, stats);
    outcome := Done(stats);
  }

  // ---- What a fresh run's counts say ----

  predicate DistinctTrades(trades: seq<IndexedTrade>) {
    forall i, j :: 0 <= i < j < |trades| ==> trades[i].tradeId != trades[j].tradeId
  }

  /** The drift rows of one run. */
  function RowsOf(drifts: map<DriftKey, Drift>, runKey: Text): set<DriftKey> {
    set k | k in drifts && k.runKey == runKey
  }

  predicate DistinctFindings(fs: seq<Finding>) {
    forall i, j :: 0 <= i < j < |fs| ==>
      fs[i].tradeId != fs[j].tradeId || fs[i].code != fs[j].code || fs[i].field != fs[j].field
  }

  /** Each trade's findings are about it and distinct. */
  predicate OwnFindings(trades: seq<IndexedTrade>, compared: seq<seq<Finding>>) {
    && |compared| == |trades|
    && forall t :: 0 <= t < |trades| ==>
         DistinctFindings(compared[t]) && forall k :: 0 <= k < |compared[t]| ==> compared[t][k].tradeId == trades[t].tradeId
  }

  lemma DriftsAreOwn(h: Helpers, i: IndexedTrade, read: Read, fs: seq<Finding>)
    requires fs == Drifts(h, i, read)
    ensures DistinctFindings(fs) && forall k :: 0 <= k < |fs| ==> fs[k].tradeId == i.tradeId
  {
    forall j, k | 0 <= j < k < |fs| ensures fs[j].code != fs[k].code || fs[j].field != fs[k].field {
      FindingsAreDistinct(h, i, read, j, k);
    }
    ChecksArePlaced(h, i, read);
    FailingAscends(Checks(h, i, read), i.tradeId);
    assert forall k :: 0 <= k < |fs| ==> fs[k] in fs;
  }

  lemma {:induction false} FindingsBelongToTrades(trades: seq<IndexedTrade>, compared: seq<seq<Finding>>, n: nat, k: nat)
    returns (t: nat)
    requires OwnFindings(trades, compared) && n <= |trades| && k < |AllFindings(compared, n)|
    ensures t < n && AllFindings(compared, n)[k].tradeId == trades[t].tradeId
    decreases n
  {
    var front := AllFindings(compared, n - 1);
    if k < |front| {
      t := FindingsBelongToTrades(trades, compared, n - 1, k);
    } else {
      t := n - 1;
      assert AllFindings(compared, n)[k] == compared[n - 1][k - |front|];
    }
  }

  lemma JoinDistinct(a: seq<Finding>, b: seq<Finding>)
    requires DistinctFindings(a) && DistinctFindings(b)
    requires forall i, j :: 0 <= i < |a| && 0 <= j < |b| ==> a[i].tradeId != b[j].tradeId
    ensures DistinctFindings(a + b)
  {
    forall i, j | 0 <= i < j < |a + b|
      ensures (a + b)[i].tradeId != (a + b)[j].tradeId || (a + b)[i].code != (a + b)[j].code
              || (a + b)[i].field != (a + b)[j].field
    {
      assert i < |a| <= j ==> a[i].tradeId != b[j - |a|].tradeId;
    }
  }

  lemma {:induction false} AllFindingsDistinct(trades: seq<IndexedTrade>, compared: seq<seq<Finding>>, n: nat)
    requires DistinctTrades(trades) && OwnFindings(trades, compared) && n <= |trades|
    ensures DistinctFindings(AllFindings(compared, n))
    decreases n
  {
    if n > 0 {
      var front, last := AllFindings(compared, n - 1), compared[n - 1];
      AllFindingsDistinct(trades, compared, n - 1);
      forall i, j | 0 <= i < |front| && 0 <= j < |last| ensures front[i].tradeId != last[j].tradeId {
        var t := FindingsBelongToTrades(trades, compared, n - 1, i);
      }
      JoinDistinct(front, last);
    }
  }

  /** The stored rows of a run are the keys of its findings and what it had before. */
  lemma {:induction false} RowsAreFindings(drifts: map<DriftKey, Drift>, runKey: Text, fs: seq<Finding>)
    requires RowsOf(drifts, runKey) == {} && DistinctFindings(fs)
    ensures RowsOf(UpsertedAll(drifts, runKey, fs), runKey) == set i | 0 <= i < |fs| :: KeyOf(runKey, fs[i])
    ensures |RowsOf(UpsertedAll(drifts, runKey, fs), runKey)| == |fs|
  {
    if fs != [] {
      var front, f := fs[..|fs| - 1], fs[|fs| - 1];
      RowsAreFindings(drifts, runKey, front);
      var rows := RowsOf(UpsertedAll(drifts, runKey, front), runKey);
      assert RowsOf(UpsertedAll(drifts, runKey, fs), runKey) == rows + {KeyOf(runKey, f)};
      assert KeyOf(runKey, f) !in rows;
      assert forall i :: 0 <= i < |front| ==> front[i] == fs[i];
    }
  }

  lemma {:induction false} CountsAddUp(c: Counts, fs: seq<Finding>)
    ensures Total(AddAll(c, fs)) == Total(c) + |fs|
  {
    if fs != [] {
      CountsAddUp(c, fs[..|fs| - 1]);
    }
  }

  lemma {:induction false} UpsertedConcat(drifts: map<DriftKey, Drift>, runKey: Text, a: seq<Finding>, b: seq<Finding>)
    ensures UpsertedAll(UpsertedAll(drifts, runKey, a), runKey, b) == UpsertedAll(drifts, runKey, a + b)
  {
    if b == [] {
      assert a + b == a;
    } else {
      assert (a + b)[..|a + b| - 1] == a + b[..|b| - 1];
      UpsertedConcat(drifts, runKey, a, b[..|b| - 1]);
    }
  }

  lemma {:induction false} AddConcat(c: Counts, a: seq<Finding>, b: seq<Finding>)
    ensures AddAll(AddAll(c, a), b) == AddAll(c, a + b)
  {
    if b == [] {
      assert a + b == a;
    } else {
      assert (a + b)[..|a + b| - 1] == a + b[..|b| - 1];
      AddConcat(c, a, b[..|b| - 1]);
    }
  }

  /** The findings of the first `n` trades, in the order they are made. */
  function AllFindings(compared: seq<seq<Finding>>, n: nat): seq<Finding>
    requires n <= |compared|
  {
    if n == 0 then [] else AllFindings(compared, n - 1) + compared[n - 1]
  }

  /** A run's progress in terms of all its findings. */
  lemma {:induction false} ProgressIsAllFindings(start: Progress, runKey: Text, trades: seq<IndexedTrade>, compared: seq<seq<Finding>>, n: nat)
    requires n <= |trades| == |compared|
    ensures var p, fs := After(start, runKey, trades, compared, n), AllFindings(compared, n);
            && p.drifts == UpsertedAll(start.drifts, runKey, fs)
            && p.stats.driftCount == start.stats.driftCount + |fs|
            && p.stats.counts == AddAll(start.stats.counts, fs)
            && p.scope == start.scope + ScopeOf(runKey, trades, n)
  {
    if n > 0 {
      ProgressIsAllFindings(start, runKey, trades, compared, n - 1);
      UpsertedConcat(start.drifts, runKey, AllFindings(compared, n - 1), compared[n - 1]);
      AddConcat(start.stats.counts, AllFindings(compared, n - 1), compared[n - 1]);
      assert ScopeOf(runKey, trades, n) == ScopeOf(runKey, trades, n - 1) + {(runKey, trades[n - 1].tradeId)};
    }
  }

  function ScopeOf(runKey: Text, trades: seq<IndexedTrade>, n: nat): set<(Text, Text)>
    requires n <= |trades|
  {
    set i | 0 <= i < n :: (runKey, trades[i].tradeId)
  }

  lemma {:induction false} ScopeSize(runKey: Text, trades: seq<IndexedTrade>, n: nat)
    requires DistinctTrades(trades) && n <= |trades|
    ensures |ScopeOf(runKey, trades, n)| == n
  {
    if n > 0 {
      ScopeSize(runKey, trades, n - 1);
      assert (runKey, trades[n - 1].tradeId) !in ScopeOf(runKey, trades, n - 1);
      assert ScopeOf(runKey, trades, n) == ScopeOf(runKey, trades, n - 1) + {(runKey, trades[n - 1].tradeId)};
    }
  }

  lemma ComparedAreOwn(compared: seq<seq<Finding>>, h: Helpers, trades: seq<IndexedTrade>, chain: Text -> Read)
    requires ComparesEach(compared, h, trades, chain)
    ensures OwnFindings(trades, compared)
  {
    forall t | 0 <= t < |trades|
      ensures DistinctFindings(compared[t]) && forall k :: 0 <= k < |compared[t]| ==> compared[t][k].tradeId == trades[t].tradeId
    {
      DriftsAreOwn(h, trades[t], chain(trades[t].tradeId), compared[t]);
    }
  }

  /** A run over distinct trades under a fresh key: its drift count is the sum of
      its severity counts and the number of rows it stored, and it covers exactly
      its first `n` trades. */
  lemma FreshRunAddsUp(trace: seq<Progress>, compared: seq<seq<Finding>>, h: Helpers, trades: seq<IndexedTrade>,
                       chain: Text -> Read, runKey: Text, n: nat)
    requires IsTrace(trace, runKey, trades, compared) && ComparesEach(compared, h, trades, chain)
    requires DistinctTrades(trades) && n <= |trades|
    requires RowsOf(trace[0].drifts, runKey) == {} && trace[0].stats == STATS
    ensures var p := trace[n];
            && p.stats.driftCount == Total(p.stats.counts) == |RowsOf(p.drifts, runKey)|
            && p.stats.totalTrades == n == |ScopeOf(runKey, trades, n)|
            && p.scope == trace[0].scope + ScopeOf(runKey, trades, n)
  {
    ComparedAreOwn(compared, h, trades, chain);
    OwnFindingsAddUp(trace, runKey, trades, compared, n);
  }

  lemma OwnFindingsAddUp(trace: seq<Progress>, runKey: Text, trades: seq<IndexedTrade>, compared: seq<seq<Finding>>, n: nat)
    requires IsTrace(trace, runKey, trades, compared) && OwnFindings(trades, compared)
    requires DistinctTrades(trades) && n <= |trades|
    requires RowsOf(trace[0].drifts, runKey) == {} && trace[0].stats == STATS
    ensures var p := trace[n];
            && p.stats.driftCount == Total(p.stats.counts) == |RowsOf(p.drifts, runKey)|
            && p.stats.totalTrades == n == |ScopeOf(runKey, trades, n)|
            && p.scope == trace[0].scope + ScopeOf(runKey, trades, n)
  {
    var fs := AllFindings(compared, n);
    TraceIsRun(trace, runKey, trades, compared, n);
    AllFindingsDistinct(trades, compared, n);
    RowsAreFindings(trace[0].drifts, runKey, fs);
    CountsAddUp(NO_COUNTS, fs);
    ScopeSize(runKey, trades, n);
    ProgressIsAllFindings(trace[0], runKey, trades, compared, n);
  }

  // ---- What a fresh run stores and counts ----

  /** How many of the findings have the severity. */
  function CountOf(fs: seq<Finding>, severity: Severity): nat {
    if fs == [] then 0 else CountOf(fs[..|fs| - 1], severity) + if fs[|fs| - 1].severity == severity then 1 else 0
  }

  lemma {:induction false} CountsAreOfTheirSeverity(c: Counts, fs: seq<Finding>)
    ensures var all := AddAll(c, fs);
            && all.critical == c.critical + CountOf(fs, Critical) && all.high == c.high + CountOf(fs, High)
            && all.medium == c.medium + CountOf(fs, Medium) && all.low == c.low + CountOf(fs, Low)
  {
    if fs != [] {
      CountsAreOfTheirSeverity(c, fs[..|fs| - 1]);
    }
  }

  /** The row of a finding in the table. */
  predicate HasRow(drifts: map<DriftKey, Drift>, runKey: Text, f: Finding, occurrences: nat) {
    var key := DriftKey(runKey, f.tradeId, f.code, f.field);
    key in drifts && drifts[key] == Drift(f.severity, f.onchainValue, f.indexedValue, occurrences)
  }

  /** Under a fresh key every distinct finding has its own row, seen once. */
  lemma {:induction false} RowsHoldFindings(drifts: map<DriftKey, Drift>, runKey: Text, fs: seq<Finding>)
    requires RowsOf(drifts, runKey) == {} && DistinctFindings(fs)
    ensures forall i :: 0 <= i < |fs| ==> HasRow(UpsertedAll(drifts, runKey, fs), runKey, fs[i], 1)
  {
    if fs != [] {
      var front, f := fs[..|fs| - 1], fs[|fs| - 1];
      RowsHoldFindings(drifts, runKey, front);
      RowsAreFindings(drifts, runKey, front);
      assert KeyOf(runKey, f) !in RowsOf(UpsertedAll(drifts, runKey, front), runKey);
      forall i | 0 <= i < |fs| ensures HasRow(UpsertedAll(drifts, runKey, fs), runKey, fs[i], 1) {
        if i < |front| {
          assert front[i] == fs[i] && HasRow(UpsertedAll(drifts, runKey, front), runKey, front[i], 1);
        }
      }
    }
  }

  /** A row under another key is not touched. */
  lemma {:induction false} OtherRowsStay(drifts: map<DriftKey, Drift>, runKey: Text, fs: seq<Finding>, key: DriftKey)
    requires key.runKey != runKey
    ensures key in UpsertedAll(drifts, runKey, fs) <==> key in drifts
    ensures key in drifts ==> UpsertedAll(drifts, runKey, fs)[key] == drifts[key]
  {
    if fs != [] {
      OtherRowsStay(drifts, runKey, fs[..|fs| - 1], key);
    }
  }

  /** How many of the findings have the key. */
  function SeenIn(fs: seq<Finding>, runKey: Text, key: DriftKey): nat {
    if fs == [] then 0
    else
      var last := fs[|fs| - 1];
      SeenIn(fs[..|fs| - 1], runKey, key) + if DriftKey(runKey, last.tradeId, last.code, last.field) == key then 1 else 0
  }

  /** Upserting counts every time a drift is seen, under fresh and used keys alike. */
  lemma {:induction false} OccurrencesAreCounted(drifts: map<DriftKey, Drift>, runKey: Text, fs: seq<Finding>, key: DriftKey)
    ensures var after := UpsertedAll(drifts, runKey, fs);
            && (key in after <==> key in drifts || SeenIn(fs, runKey, key) > 0)
            && (key in after ==>
                  after[key].occurrences == (if key in drifts then drifts[key].occurrences else 0) + SeenIn(fs, runKey, key))
  {
    if fs != [] {
      OccurrencesAreCounted(drifts, runKey, fs[..|fs| - 1], key);
    }
  }

  lemma {:induction false} InAllFindings(compared: seq<seq<Finding>>, n: nat, f: Finding)
    requires n <= |compared|
    ensures f in AllFindings(compared, n) <==> exists t :: 0 <= t < n && f in compared[t]
  {
    if n > 0 {
      InAllFindings(compared, n - 1, f);
    }
  }

  /** A drift of one of the first `n` trades, from what the indexer and the chain hold. */
  predicate IsDriftOf(h: Helpers, trades: seq<IndexedTrade>, chain: Text -> Read, n: nat, f: Finding)
    requires n <= |trades|
  {
    exists t :: 0 <= t < n && IsDrift(h, trades[t], chain(trades[t].tradeId), f)
  }

  lemma AllFindingsAreDrifts(compared: seq<seq<Finding>>, h: Helpers, trades: seq<IndexedTrade>, chain: Text -> Read, n: nat, f: Finding)
    requires ComparesEach(compared, h, trades, chain) && n <= |trades|
    ensures f in AllFindings(compared, n) <==> IsDriftOf(h, trades, chain, n, f)
  {
    InAllFindings(compared, n, f);
    forall t | 0 <= t < n ensures f in compared[t] <==> IsDrift(h, trades[t], chain(trades[t].tradeId), f) {
      FindingsAreTheDrifts(h, trades[t], chain(trades[t].tradeId), f);
    }
  }

  /** A run over distinct trades under a fresh key stores exactly the drifts of its first
      `n` trades, each in a row of its own with its severity and both values, leaves the
      rows of other runs alone, and counts each severity right. */
  lemma FreshRunStoresTheDrifts(trace: seq<Progress>, compared: seq<seq<Finding>>, h: Helpers, trades: seq<IndexedTrade>,
                                chain: Text -> Read, runKey: Text, n: nat)
    requires IsTrace(trace, runKey, trades, compared) && ComparesEach(compared, h, trades, chain)
    requires DistinctTrades(trades) && n <= |trades|
    requires RowsOf(trace[0].drifts, runKey) == {} && trace[0].stats == STATS
    ensures forall f :: IsDriftOf(h, trades, chain, n, f) ==> HasRow(trace[n].drifts, runKey, f, 1)
    ensures forall key :: key in RowsOf(trace[n].drifts, runKey) ==>
              exists f :: IsDriftOf(h, trades, chain, n, f) && key == DriftKey(runKey, f.tradeId, f.code, f.field)
    ensures forall key: DriftKey :: key.runKey != runKey ==>
              (key in trace[n].drifts <==> key in trace[0].drifts)
              && (key in trace[0].drifts ==> trace[n].drifts[key] == trace[0].drifts[key])
    ensures var counts, all := trace[n].stats.counts, AllFindings(compared, n);
            && counts.critical == CountOf(all, Critical) && counts.high == CountOf(all, High)
            && counts.medium == CountOf(all, Medium) && counts.low == CountOf(all, Low)
  {
    var all := AllFindings(compared, n);
    ComparedAreOwn(compared, h, trades, chain);
    TraceIsRun(trace, runKey, trades, compared, n);
    AllFindingsDistinct(trades, compared, n);
    ProgressIsAllFindings(trace[0], runKey, trades, compared, n);
    RowsAreFindings(trace[0].drifts, runKey, all);
    RowsHoldFindings(trace[0].drifts, runKey, all);
    CountsAreOfTheirSeverity(NO_COUNTS, all);
    forall f | IsDriftOf(h, trades, chain, n, f) ensures HasRow(trace[n].drifts, runKey, f, 1) {
      AllFindingsAreDrifts(compared, h, trades, chain, n, f);
      var i :| 0 <= i < |all| && all[i] == f;
    }
    forall key | key in RowsOf(trace[n].drifts, runKey)
      ensures exists f :: IsDriftOf(h, trades, chain, n, f) && key == DriftKey(runKey, f.tradeId, f.code, f.field)
    {
      var i :| 0 <= i < |all| && key == KeyOf(runKey, all[i]);
      assert all[i] in all;
      AllFindingsAreDrifts(compared, h, trades, chain, n, all[i]);
    }
    forall key: DriftKey | key.runKey != runKey
      ensures (key in trace[n].drifts <==> key in trace[0].drifts)
              && (key in trace[0].drifts ==> trace[n].drifts[key] == trace[0].drifts[key])
    {
      OtherRowsStay(trace[0].drifts, runKey, all, key);
    }
  }
}

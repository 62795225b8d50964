/** Keyset paging over governance actions while the store keeps changing. */
module GovernancePaging {
  import opened Texts
  import opened Governance

  datatype Query = Query(category: Option<Category>, status: Option<Status>, tradeId: Option<Text>)

  /** A place in the newest-first order: the boundary item of a page. */
  datatype Cursor = Cursor(createdAt: int, actionId: Text)

  predicate Matches(q: Query, a: Action) {
    && (q.category.None? || a.category == q.category.value)
    && (q.status.None? || a.status == q.status.value)
    && (q.tradeId.None? || a.tradeId == q.tradeId)
  }

  predicate IsBelow(a: Action, cursor: Option<Cursor>) {
    cursor.None?
    || a.createdAt < cursor.value.createdAt
    || (a.createdAt == cursor.value.createdAt && LexLess(a.actionId, cursor.value.actionId))
  }

  function CursorOf(a: Action): Cursor {
    Cursor(a.createdAt, a.actionId)
  }

  /** What a page must be: the newest `limit` matching actions below the cursor,
      in order, with a next cursor exactly when matching actions remain. */
  predicate IsPage(items: Actions, q: Query, cursor: Option<Cursor>, limit: nat,
                   page: seq<Action>, next: Option<Cursor>) {
    && |page| <= limit
    && Descending(page)
    && (forall a :: a in page ==> a.actionId in items && items[a.actionId] == a && Matches(q, a) && IsBelow(a, cursor))
    && (forall id :: id in items && Matches(q, items[id]) && IsBelow(items[id], cursor) && items[id] !in page ==>
          next.Some? && IsBelow(items[id], next))
    && (next.Some? ==> |page| == limit > 0 && next.value == CursorOf(page[limit - 1]))
    && (next.Some? ==> exists id :: id in items && Matches(q, items[id]) && IsBelow(items[id], next))
  }

  function Select(list: seq<Action>, q: Query, cursor: Option<Cursor>): (r: seq<Action>)
    ensures forall a :: a in r <==> a in list && Matches(q, a) && IsBelow(a, cursor)
    decreases |list|
  {
    if list == [] then []
    else (if Matches(q, list[0]) && IsBelow(list[0], cursor) then [list[0]] else []) + Select(list[1..], q, cursor)
  }

  lemma {:induction false} SelectDescending(list: seq<Action>, q: Query, cursor: Option<Cursor>)
    requires Descending(list)
    ensures Descending(Select(list, q, cursor))
    decreases |list|
  {
    if list != [] {
      SelectDescending(list[1..], q, cursor);
      assert forall a :: a in list[1..] ==> Newer(list[0], a);
    }
  }

  /** All matching actions below the cursor, newest first. */
  predicate CandidatesOf(candidates: seq<Action>, items: Actions, q: Query, cursor: Option<Cursor>) {
    && Descending(candidates)
    && (forall a :: a in candidates ==> a.actionId in items && items[a.actionId] == a && Matches(q, a) && IsBelow(a, cursor))
    && (forall id :: id in items && Matches(q, items[id]) && IsBelow(items[id], cursor) ==> items[id] in candidates)
  }

  lemma WholePage(candidates: seq<Action>, items: Actions, q: Query, cursor: Option<Cursor>, limit: nat)
    requires CandidatesOf(candidates, items, q, cursor) && |candidates| <= limit
    ensures IsPage(items, q, cursor, limit, candidates, None)
  {
  }

  lemma CutPage(candidates: seq<Action>, items: Actions, q: Query, cursor: Option<Cursor>, limit: nat)
    requires CandidatesOf(candidates, items, q, cursor) && 1 <= limit < |candidates|
    ensures IsPage(items, q, cursor, limit, candidates[..limit], Some(CursorOf(candidates[limit - 1])))
  {
    var page, next := candidates[..limit], Some(CursorOf(candidates[limit - 1]));
    forall id | id in items && Matches(q, items[id]) && IsBelow(items[id], cursor) && items[id] !in page
      ensures IsBelow(items[id], next)
    {
      var i :| 0 <= i < |candidates| && candidates[i] == items[id];
      assert forall k :: 0 <= k < limit ==> candidates[k] in page;
      assert Newer(candidates[limit - 1], candidates[i]);
    }
    var first := candidates[limit];
    assert first in candidates && Newer(candidates[limit - 1], first);
    assert first.actionId in items && Matches(q, items[first.actionId]) && IsBelow(items[first.actionId], next);
  }

  method List(items: Actions, q: Query, cursor: Option<Cursor>, limit: nat)
    returns (page: seq<Action>, next: Option<Cursor>)
    requires Keyed(items) && limit >= 1
    ensures IsPage(items, q, cursor, limit, page, next)
    ensures forall a :: a in page ==>
              && (q.category.Some? ==> a.category == q.category.value) && (q.status.Some? ==> a.status == q.status.value)
              && (q.tradeId.Some? ==> a.tradeId == q.tradeId)
    ensures cursor.None? && next.None? && q.category.None? && q.status.None? && q.tradeId.None? ==>
              forall id :: id in items ==> items[id] in page
  {
    var sorted := SortedActions(items);
    var candidates := Select(sorted, q, cursor);
    SelectDescending(sorted, q, cursor);
    if |candidates| <= limit {
      WholePage(candidates, items, q, cursor, limit);
      return candidates, None;
    }
    CutPage(candidates, items, q, cursor, limit);
    return candidates[..limit], Some(CursorOf(candidates[limit - 1]));
  }

  // ---- Walking the pages ----

  /** The store met by one call, and what the call returned. */
  datatype Visit = Visit(items: Actions, page: seq<Action>, next: Option<Cursor>)

  predicate SameIdentity(a: Action, b: Action) {
    a.actionId == b.actionId && a.createdAt == b.createdAt && a.category == b.category && a.tradeId == b.tradeId
  }

  /** Between calls actions may be added and statuses may change. */
  predicate Evolves(before: Actions, after: Actions) {
    forall id :: id in before ==> id in after && SameIdentity(before[id], after[id])
  }

  /** A client that follows each next cursor. */
  predicate Walk(visits: seq<Visit>, q: Query, limit: nat, cursor: Option<Cursor>)
    decreases |visits|
  {
    visits == [] ||
    (&& Keyed(visits[0].items)
     && IsPage(visits[0].items, q, cursor, limit, visits[0].page, visits[0].next)
     && (|visits| > 1 ==> visits[0].next.Some? && Evolves(visits[0].items, visits[1].items))
     && Walk(visits[1..], q, limit, visits[0].next))
  }

  function Returned(visits: seq<Visit>): seq<Action> {
    if visits == [] then [] else visits[0].page + Returned(visits[1..])
  }

  lemma BelowTransitive(a: Action, b: Action, cursor: Option<Cursor>)
    requires IsBelow(b, cursor) && IsBelow(a, Some(CursorOf(b)))
    ensures IsBelow(a, cursor)
  {
    if cursor.Some? && a.createdAt == cursor.value.createdAt {
      LexTransitive(a.actionId, b.actionId, cursor.value.actionId);
    }
  }

  /** Pages never overlap or go back: everything returned is strictly descending. */
  lemma {:induction false} PagesDescend(visits: seq<Visit>, q: Query, limit: nat, cursor: Option<Cursor>)
    requires Walk(visits, q, limit, cursor)
    ensures Descending(Returned(visits))
    ensures forall a :: a in Returned(visits) ==> IsBelow(a, cursor)
    decreases |visits|
  {
    if |visits| > 1 {
      var v := visits[0];
      var rest := Returned(visits[1..]);
      PagesDescend(visits[1..], q, limit, v.next);
      var last := v.page[limit - 1];
      assert last in v.page;
      forall a | a in rest ensures IsBelow(a, cursor) {
        BelowTransitive(a, last, cursor);
      }
      forall a, i | a in rest && 0 <= i < limit ensures Newer(v.page[i], a) {
        assert IsBelow(a, Some(CursorOf(last))) && Newer(last, a);
        if i < limit - 1 {
          NewerTransitive(v.page[i], last, a);
        }
      }
      DescendingConcat(v.page, rest);
    } else if visits != [] {
      assert Returned(visits) == visits[0].page;
    }
  }

  lemma DescendingConcat(a: seq<Action>, b: seq<Action>)
    requires Descending(a) && Descending(b)
    requires forall x, i :: x in b && 0 <= i < |a| ==> Newer(a[i], x)
    ensures Descending(a + b)
  {
    forall i, j | 0 <= i < j < |a + b| ensures Newer((a + b)[i], (a + b)[j]) {
      if |a| <= j {
        assert (a + b)[j] in b;
      }
    }
  }

  lemma {:induction false} ReturnedIsStored(visits: seq<Visit>, q: Query, limit: nat, cursor: Option<Cursor>)
    requires visits != [] && Walk(visits, q, limit, cursor)
    ensures Evolves(visits[0].items, visits[|visits| - 1].items)
    ensures forall a :: a in Returned(visits) ==>
              a.actionId in visits[|visits| - 1].items && SameIdentity(a, visits[|visits| - 1].items[a.actionId])
    decreases |visits|
  {
    if |visits| > 1 {
      ReturnedIsStored(visits[1..], q, limit, visits[0].next);
      assert visits[1..][|visits| - 2] == visits[|visits| - 1];
      assert Evolves(visits[0].items, visits[1].items) && Evolves(visits[1].items, visits[|visits| - 1].items);
    } else {
      assert Returned(visits) == visits[0].page;
    }
  }

  lemma ReturnedOnce(visits: seq<Visit>, q: Query, limit: nat, cursor: Option<Cursor>, i: nat, j: nat)
    requires Walk(visits, q, limit, cursor) && i < j < |Returned(visits)|
    ensures Returned(visits)[i].actionId != Returned(visits)[j].actionId
  {
    PagesDescend(visits, q, limit, cursor);
    ReturnedIsStored(visits, q, limit, cursor);
    var a, b := Returned(visits)[i], Returned(visits)[j];
    assert a in Returned(visits) && b in Returned(visits) && Newer(a, b);
    if a.actionId == b.actionId {
      LexIrreflexive(a.actionId);
    }
  }

  lemma ReturnedOrBelow(v: Visit, q: Query, limit: nat, cursor: Option<Cursor>, id: Text)
    requires IsPage(v.items, q, cursor, limit, v.page, v.next)
    requires id in v.items && Matches(q, v.items[id]) && IsBelow(v.items[id], cursor)
    ensures v.items[id] in v.page || (v.next.Some? && IsBelow(v.items[id], v.next))
  {
  }

  lemma SamePlace(a: Action, b: Action, q: Query, cursor: Option<Cursor>)
    requires SameIdentity(a, b) && q.status.None?
    ensures Matches(q, a) == Matches(q, b) && IsBelow(a, cursor) == IsBelow(b, cursor)
  {
  }

  lemma Position(page: seq<Action>, a: Action) returns (k: nat)
    requires a in page
    ensures k < |page| && page[k] == a
  {
    k :| 0 <= k < |page| && page[k] == a;
  }

  lemma ReturnedOrNext(visits: seq<Visit>, q: Query, limit: nat, cursor: Option<Cursor>, id: Text)
    requires visits != [] && Walk(visits, q, limit, cursor) && visits[|visits| - 1].next.None?
    requires q.status.None? && id in visits[0].items && visits[0].items[id] !in visits[0].page
    requires Matches(q, visits[0].items[id]) && IsBelow(visits[0].items[id], cursor)
    ensures |visits| > 1 && id in visits[1].items
    ensures Walk(visits[1..], q, limit, visits[0].next)
    ensures Matches(q, visits[1].items[id]) && IsBelow(visits[1].items[id], visits[0].next)
  {
    ReturnedOrBelow(visits[0], q, limit, cursor, id);
    SamePlace(visits[0].items[id], visits[1].items[id], q, visits[0].next);
  }

  /** An action present from the start and still below the cursor is reached. */
  lemma {:induction false} Reached(visits: seq<Visit>, q: Query, limit: nat, cursor: Option<Cursor>, id: Text)
    returns (k: nat)
    requires visits != [] && Walk(visits, q, limit, cursor) && visits[|visits| - 1].next.None?
    requires q.status.None? && id in visits[0].items
    requires Matches(q, visits[0].items[id]) && IsBelow(visits[0].items[id], cursor)
    ensures k < |Returned(visits)| && Returned(visits)[k].actionId == id
    decreases |visits|
  {
    var v := visits[0];
    if v.items[id] in v.page {
      k := Position(v.page, v.items[id]);
      assert Returned(visits)[k] == v.page[k];
    } else {
      ReturnedOrNext(visits, q, limit, cursor, id);
      var rest := Reached(visits[1..], q, limit, v.next, id);
      k := |v.page| + rest;
      assert Returned(visits)[k] == Returned(visits[1..])[rest];
    }
  }

  /** Following cursors to null returns every matching action that was there
      throughout, exactly once, newest first. */
  lemma WalkReturnsEveryActionOnce(visits: seq<Visit>, q: Query, limit: nat, id: Text) returns (k: nat)
    requires visits != [] && Walk(visits, q, limit, None) && visits[|visits| - 1].next.None?
    requires q.status.None? && id in visits[0].items && Matches(q, visits[0].items[id])
    ensures Descending(Returned(visits))
    ensures k < |Returned(visits)| && Returned(visits)[k].actionId == id
    ensures forall j :: 0 <= j < |Returned(visits)| && Returned(visits)[j].actionId == id ==> j == k
  {
    PagesDescend(visits, q, limit, None);
    k := Reached(visits, q, limit, None, id);
    forall j | 0 <= j < |Returned(visits)| && j != k ensures Returned(visits)[j].actionId != id {
      ReturnedOnce(visits, q, limit, None, if j < k then j else k, if j < k then k else j);
    }
  }

  lemma OneMore(n: nat, limit: nat)
    ensures (n + 1) * limit == n * limit + limit
  {
  }

  /** Every page that has a next cursor is full. */
  predicate FullPages(visits: seq<Visit>, limit: nat) {
    forall k :: 0 <= k < |visits| ==> |visits[k].page| == limit
  }

  lemma {:induction false} CursorsMeanFullPages(visits: seq<Visit>, q: Query, limit: nat, cursor: Option<Cursor>, k: nat)
    requires Walk(visits, q, limit, cursor) && k < |visits| && visits[|visits| - 1].next.Some?
    ensures |visits[k].page| == limit
    decreases |visits|
  {
    if k > 0 {
      CursorsMeanFullPages(visits[1..], q, limit, visits[0].next, k - 1);
    }
  }

  lemma {:induction false} FullPagesReturned(visits: seq<Visit>, limit: nat)
    requires FullPages(visits, limit)
    ensures |Returned(visits)| == |visits| * limit
    decreases |visits|
  {
    if visits != [] {
      FullPagesReturned(visits[1..], limit);
      OneMore(|visits| - 1, limit);
    }
  }

  lemma {:induction false} DistinctFit(ids: seq<Text>, keys: set<Text>)
    requires forall i, j :: 0 <= i < j < |ids| ==> ids[i] != ids[j]
    requires forall i :: 0 <= i < |ids| ==> ids[i] in keys
    ensures |ids| <= |keys|
  {
    if ids != [] {
      DistinctFit(ids[1..], keys - {ids[0]});
    }
  }

  /** Full pages whose actions all come from `keys` use up `limit` of them each. */
  lemma FullPagesFit(visits: seq<Visit>, q: Query, limit: nat, keys: set<Text>)
    requires visits != [] && Walk(visits, q, limit, None) && visits[|visits| - 1].next.Some?
    requires forall a :: a in Returned(visits) ==> a.actionId in keys
    ensures |visits| * limit <= |keys|
  {
    forall k | 0 <= k < |visits| ensures |visits[k].page| == limit {
      CursorsMeanFullPages(visits, q, limit, None, k);
    }
    FullPagesReturned(visits, limit);
    var all := Returned(visits);
    var ids := seq(|all|, i requires 0 <= i < |all| => all[i].actionId);
    forall i, j | 0 <= i < j < |ids| ensures ids[i] != ids[j] {
      ReturnedOnce(visits, q, limit, None, i, j);
    }
    forall i | 0 <= i < |ids| ensures ids[i] in keys {
      assert all[i] in all;
    }
    DistinctFit(ids, keys);
  }

  // ---- Termination under inserts ----

  /** The actions added between two calls below the cursor then in force. */
  function LateAt(before: Actions, after: Actions, cursor: Option<Cursor>): set<Text> {
    set id | id in after && id !in before && IsBelow(after[id], cursor)
  }

  /** All late arrivals of a walk. */
  function Late(visits: seq<Visit>): set<Text> {
    if |visits| <= 1 then {}
    else LateAt(visits[0].items, visits[1].items, visits[0].next) + Late(visits[1..])
  }

  /** A walk returns only actions that were there at its start or arrived late. */
  lemma {:induction false} ReturnedWasThereOrLate(visits: seq<Visit>, q: Query, limit: nat, cursor: Option<Cursor>, a: Action)
    requires Walk(visits, q, limit, cursor) && a in Returned(visits)
    ensures a.actionId in visits[0].items || a.actionId in Late(visits)
    ensures a.actionId in visits[0].items ==> SameIdentity(a, visits[0].items[a.actionId])
    decreases |visits|
  {
    if a !in visits[0].page {
      var rest := visits[1..];
      assert a in Returned(rest);
      ReturnedWasThereOrLate(rest, q, limit, visits[0].next, a);
      PagesDescend(rest, q, limit, visits[0].next);
      assert rest[0] == visits[1];
      ReturnedIsStored(rest, q, limit, visits[0].next);
    }
  }

  /** For every walk: the full pages seen so far have used up `limit` actions each,
      taken from those there at the start and the late arrivals. */
  lemma PagesAreBounded(visits: seq<Visit>, q: Query, limit: nat)
    requires visits != [] && Walk(visits, q, limit, None) && visits[|visits| - 1].next.Some?
    ensures forall a :: a in Returned(visits) ==> a.actionId in visits[0].items || a.actionId in Late(visits)
    ensures |visits| * limit <= |visits[0].items| + |Late(visits)|
  {
    var first := visits[0].items.Keys;
    forall a | a in Returned(visits) ensures a.actionId in first + Late(visits) {
      ReturnedWasThereOrLate(visits, q, limit, None, a);
    }
    FullPagesFit(visits, q, limit, first + Late(visits));
    UnionFits(first, Late(visits));
    assert |first| == |visits[0].items|;
  }

  lemma UnionFits(a: set<Text>, b: set<Text>)
    ensures |a + b| <= |a| + |b|
  {
    assert a + b == a + (b - a);
    assert |a + (b - a)| == |a| + |b - a|;
    assert b == (b - a) + (b * a);
    assert |b| == |b - a| + |b * a|;
  }

  /** So following cursors ends unless actions keep arriving late. */
  lemma WalkTerminates(visits: seq<Visit>, q: Query, limit: nat)
    requires visits != [] && Walk(visits, q, limit, None) && visits[|visits| - 1].next.Some?
    requires Late(visits) == {}
    ensures forall a :: a in Returned(visits) ==> a.actionId in visits[0].items
    ensures |visits| * limit <= |visits[0].items|
  {
    PagesAreBounded(visits, q, limit);
  }

  predicate AddedBy(items: Actions, time: int) {
    forall id :: id in items ==> items[id].createdAt <= time
  }

  predicate AddedSince(before: Actions, after: Actions, time: int) {
    forall id :: id in after && id !in before ==> after[id].createdAt >= time
  }

  /** Actions carry the clock reading of their insertion, and the clock never goes back:
      `times[k]` is its reading at visit `k`. */
  predicate Clocked(visits: seq<Visit>, times: seq<int>) {
    && |times| == |visits|
    && (forall j, k :: 0 <= j < k < |times| ==> times[j] <= times[k])
    && (forall k :: 0 <= k < |visits| ==> AddedBy(visits[k].items, times[k]))
    && (forall k :: 0 <= k < |visits| - 1 ==> AddedSince(visits[k].items, visits[k + 1].items, times[k]))
  }

  /** Later cursors are no newer than earlier ones. */
  lemma {:induction false} CursorsFall(visits: seq<Visit>, q: Query, limit: nat, cursor: Option<Cursor>, k: nat)
    requires Walk(visits, q, limit, cursor) && k < |visits| && visits[k].next.Some?
    ensures visits[0].next.Some? && visits[k].next.value.createdAt <= visits[0].next.value.createdAt
    decreases |visits|
  {
    if k > 0 {
      CursorsFall(visits[1..], q, limit, visits[0].next, k - 1);
      var last := visits[1].page[limit - 1];
      assert last in visits[1].page;
    }
  }

  lemma {:induction false} WalkHasCursors(visits: seq<Visit>, q: Query, limit: nat, cursor: Option<Cursor>, k: nat)
    requires Walk(visits, q, limit, cursor) && k < |visits| - 1
    ensures visits[k].next.Some?
    decreases |visits|
  {
    if k > 0 {
      WalkHasCursors(visits[1..], q, limit, visits[0].next, k - 1);
    }
  }

  /** Ties: an arrival at or after the clock reading `now` lies below a cursor no newer
      than that reading exactly when all three times agree and its identifier sorts lower. */
  lemma ArrivalBelowOnlyInATie(a: Action, now: int, cursor: Cursor)
    requires a.createdAt >= now >= cursor.createdAt
    ensures IsBelow(a, Some(cursor)) <==> a.createdAt == now == cursor.createdAt && LexLess(a.actionId, cursor.actionId)
  {
  }

  lemma {:induction false} LateArrivedAt(visits: seq<Visit>, id: Text) returns (k: nat)
    requires id in Late(visits)
    ensures k < |visits| - 1 && id in LateAt(visits[k].items, visits[k + 1].items, visits[k].next)
    decreases |visits|
  {
    if id in LateAt(visits[0].items, visits[1].items, visits[0].next) {
      k := 0;
    } else {
      var j := LateArrivedAt(visits[1..], id);
      k := j + 1;
    }
  }

  /** The store a walk has met last holds what it met before. */
  lemma {:induction false} StoresGrow(visits: seq<Visit>, q: Query, limit: nat, cursor: Option<Cursor>, k: nat)
    requires Walk(visits, q, limit, cursor) && k < |visits|
    ensures Evolves(visits[k].items, visits[|visits| - 1].items)
    ensures Evolves(visits[0].items, visits[k].items)
    decreases |visits|
  {
    ReturnedIsStored(visits, q, limit, cursor);
    if k > 0 {
      StoresGrow(visits[1..], q, limit, visits[0].next, k - 1);
      assert visits[1..][k - 1] == visits[k] && visits[1..][|visits| - 2] == visits[|visits| - 1];
      assert visits[1..][0] == visits[1];
      assert Evolves(visits[0].items, visits[1].items) && Evolves(visits[1].items, visits[k].items);
    }
  }

  /** The actions added during a walk and stamped with the instant of its first call. */
  function StampedAt(visits: seq<Visit>, time: int): set<Text>
    requires visits != []
  {
    var last := visits[|visits| - 1].items;
    set id | id in last && id !in visits[0].items && last[id].createdAt == time
  }

  /** No cursor of a walk is newer than the instant of its first call. */
  lemma CursorsNotNewer(visits: seq<Visit>, times: seq<int>, q: Query, limit: nat, k: nat)
    requires Walk(visits, q, limit, None) && Clocked(visits, times) && k < |visits| && visits[k].next.Some?
    ensures visits[0].next.Some?
    ensures visits[k].next.value.createdAt <= visits[0].next.value.createdAt <= times[0]
  {
    CursorsFall(visits, q, limit, None, k);
    var boundary := visits[0].page[limit - 1];
    assert boundary in visits[0].page && AddedBy(visits[0].items, times[0]);
  }

  /** What arrives between calls is new to the walk, and kept. */
  lemma ArrivalIsStamped(visits: seq<Visit>, times: seq<int>, q: Query, limit: nat, k: nat, id: Text)
    requires Walk(visits, q, limit, None) && Clocked(visits, times) && k < |visits| - 1
    requires id in visits[k + 1].items && id !in visits[k].items
    ensures visits[k + 1].items[id].createdAt >= times[k] >= times[0]
    ensures visits[k + 1].items[id].createdAt == times[0] ==> id in StampedAt(visits, times[0])
  {
    StoresGrow(visits, q, limit, None, k + 1);
    StoresGrow(visits, q, limit, None, k);
    assert AddedSince(visits[k].items, visits[k + 1].items, times[k]);
  }

  /** With a clock that never goes back an arrival is late only if it, the first page's
      boundary and the first call all share one instant. */
  lemma LateOnlyInATie(visits: seq<Visit>, times: seq<int>, q: Query, limit: nat, id: Text)
    requires visits != [] && Walk(visits, q, limit, None) && Clocked(visits, times) && id in Late(visits)
    ensures id in StampedAt(visits, times[0])
    ensures visits[0].next.Some? && visits[0].next.value.createdAt == times[0]
  {
    var k := LateArrivedAt(visits, id);
    WalkHasCursors(visits, q, limit, None, k);
    CursorsNotNewer(visits, times, q, limit, k);
    ArrivalIsStamped(visits, times, q, limit, k, id);
    ArrivalBelowOnlyInATie(visits[k + 1].items[id], times[k], visits[k].next.value);
  }

  /** Termination from the clock alone: beyond what was there at the start, a walk can
      use up only actions stamped with the very instant of its first call, and none
      once the first page's boundary is older than that. */
  lemma ClockedWalkTerminates(visits: seq<Visit>, times: seq<int>, q: Query, limit: nat)
    requires visits != [] && Walk(visits, q, limit, None) && visits[|visits| - 1].next.Some?
    requires Clocked(visits, times)
    ensures |visits| * limit <= |visits[0].items| + |StampedAt(visits, times[0])|
    ensures visits[0].next.Some? && visits[0].next.value.createdAt <= times[0]
    ensures visits[0].next.value.createdAt < times[0] ==>
              |visits| * limit <= |visits[0].items|
              && forall a :: a in Returned(visits) ==> a.actionId in visits[0].items
  {
    CursorsNotNewer(visits, times, q, limit, |visits| - 1);
    forall id | id in Late(visits)
      ensures id in StampedAt(visits, times[0]) && visits[0].next.value.createdAt == times[0]
    {
      LateOnlyInATie(visits, times, q, limit, id);
    }
    SubsetFits(Late(visits), StampedAt(visits, times[0]));
    PagesAreBounded(visits, q, limit);
    if visits[0].next.value.createdAt < times[0] {
      assert Late(visits) == {};
      WalkTerminates(visits, q, limit);
    }
  }

  lemma SubsetFits(a: set<Text>, b: set<Text>)
    requires a <= b
    ensures |a| <= |b|
  {
    assert b == a + (b - a);
    assert |b| == |a| + |b - a|;
  }

  // ---- Why late arrivals count ----

  /** An identifier of length `k`. */
  function Marks(k: nat): (id: Text)
    ensures |id| == k
  {
    seq(k, i => ZERO)
  }

  /** The action `k` steps back in time. */
  function Aged(k: nat): Action {
    var before: int := 0 - k;
    Action(Marks(k), [], None, PauseCategory, Requested, Pause, None, None, None, 1, None, before, None, None, None, [])
  }

  function AgedStore(n: nat): Actions {
    map k: nat | 0 <= k < n :: Marks(k) := Aged(k)
  }

  function Everything(): Query {
    Query(None, None, None)
  }

  function AgedCursor(k: nat): Option<Cursor> {
    if k == 0 then None else Some(CursorOf(Aged(k - 1)))
  }

  function AgedVisit(k: nat): Visit {
    Visit(AgedStore(k + 2), [Aged(k)], AgedCursor(k + 1))
  }

  lemma AgedAt(n: nat, k: nat)
    requires k < n
    ensures Marks(k) in AgedStore(n) && AgedStore(n)[Marks(k)] == Aged(k)
  {
  }

  lemma AgedFrom(n: nat, id: Text) returns (k: nat)
    requires id in AgedStore(n)
    ensures k < n && id == Marks(k) && AgedStore(n)[id] == Aged(k)
  {
    k :| 0 <= k < n && id == Marks(k);
  }

  lemma AgedStoresEvolve(n: nat, m: nat)
    requires n <= m
    ensures Keyed(AgedStore(n)) && Evolves(AgedStore(n), AgedStore(m))
  {
    forall id | id in AgedStore(n)
      ensures AgedStore(n)[id].actionId == id && id in AgedStore(m) && SameIdentity(AgedStore(n)[id], AgedStore(m)[id])
    {
      var k := AgedFrom(n, id);
      AgedAt(m, k);
    }
  }

  lemma AgedPage(k: nat)
    ensures IsPage(AgedStore(k + 2), Everything(), AgedCursor(k), 1, [Aged(k)], AgedCursor(k + 1))
  {
    var items, next := AgedStore(k + 2), AgedCursor(k + 1);
    AgedAt(k + 2, k);
    AgedAt(k + 2, k + 1);
    forall id | id in items && IsBelow(items[id], AgedCursor(k)) && items[id] != Aged(k) ensures IsBelow(items[id], next) {
      var j := AgedFrom(k + 2, id);
      LexIrreflexive(id);
    }
    assert IsBelow(items[Marks(k + 1)], next);
  }

  /** Each visit is a page below the previous cursor, over a store that has evolved. */
  predicate Linked(visits: seq<Visit>, q: Query, limit: nat, cursor: Option<Cursor>, k: nat)
    requires k < |visits|
  {
    && Keyed(visits[k].items)
    && IsPage(visits[k].items, q, if k == 0 then cursor else visits[k - 1].next, limit, visits[k].page, visits[k].next)
    && (k + 1 < |visits| ==> visits[k].next.Some? && Evolves(visits[k].items, visits[k + 1].items))
  }

  lemma {:induction false} LinkedVisitsWalk(visits: seq<Visit>, q: Query, limit: nat, cursor: Option<Cursor>)
    requires forall k :: 0 <= k < |visits| ==> Linked(visits, q, limit, cursor, k)
    ensures Walk(visits, q, limit, cursor)
    decreases |visits|
  {
    if visits != [] {
      var rest := visits[1..];
      assert Linked(visits, q, limit, cursor, 0);
      forall k | 0 <= k < |rest| ensures Linked(rest, q, limit, visits[0].next, k) {
        assert Linked(visits, q, limit, cursor, k + 1);
      }
      LinkedVisitsWalk(rest, q, limit, visits[0].next);
    }
  }

  lemma AgedVisitLinks(visits: seq<Visit>, k: nat)
    requires k < |visits| && visits[k] == AgedVisit(k)
    requires k > 0 ==> visits[k - 1].next == AgedCursor(k)
    requires k + 1 < |visits| ==> visits[k + 1].items == AgedStore(k + 3)
    ensures Linked(visits, Everything(), 1, None, k)
  {
    AgedPage(k);
    AgedStoresEvolve(k + 2, k + 3);
  }

  /** Without counting late arrivals no bound holds: if older actions are inserted as
      the walk goes, then for every `n` there is a walk of `n` pages, all with a next
      cursor, that began on a store of two, with at least `n - 2` late arrivals. */
  lemma LateArrivalsAllowEveryLength(n: nat) returns (visits: seq<Visit>)
    requires n > 0
    ensures |visits| == n && Walk(visits, Everything(), 1, None) && visits[n - 1].next.Some?
    ensures |visits[0].items| == 2 && |Late(visits)| >= n - 2
  {
    visits := seq(n, k requires 0 <= k < n => AgedVisit(k));
    forall k | 0 <= k < n ensures Linked(visits, Everything(), 1, None, k) {
      AgedVisitLinks(visits, k);
    }
    LinkedVisitsWalk(visits, Everything(), 1, None);
    AgedStoreOfTwo();
    PagesAreBounded(visits, Everything(), 1);
  }

  lemma AgedStoreOfTwo()
    ensures |AgedStore(2)| == 2
  {
    AgedAt(2, 0);
    AgedAt(2, 1);
    forall id | id in AgedStore(2) ensures id in {Marks(0), Marks(1)} {
      var k := AgedFrom(2, id);
    }
    assert AgedStore(2).Keys == {Marks(0), Marks(1)};
    assert |AgedStore(2)| == |AgedStore(2).Keys|;
  }
}

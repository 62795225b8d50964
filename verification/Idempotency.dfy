/** HTTP idempotency keys: a key is reserved when a request starts its handler,
    completed by a response below 500 and released by one of 500 or above. */
module Idempotency {
  import opened Texts

  datatype Request = Request(key: Option<Text>, verb: Text, path: Text, rawBody: Text)

  datatype Response = Response(status: int, contentType: Option<Text>, body: Text)

  /** `response` is set once the reserved request has completed. */
  datatype Record = Record(verb: Text, path: Text, fingerprint: Text, response: Option<Response>)

  datatype Reply =
    | MissingKey
    | DifferentRequest
    | InProgress
    | Replayed(response: Response)
    | RunsHandler

  /** `trim` is whitespace trimming, `digest` the request fingerprint. */
  datatype Helpers = Helpers(trim: Text -> Text, digest: (Text, Text, Text) -> Text)

  type Records = map<Text, Record>

  function Key(h: Helpers, req: Request): Text {
    if req.key.None? then [] else h.trim(req.key.value)
  }

  function Fingerprint(h: Helpers, req: Request): Text {
    h.digest(req.verb, req.path, req.rawBody)
  }

  predicate SameRequest(h: Helpers, record: Record, req: Request) {
    record.fingerprint == Fingerprint(h, req) && record.verb == req.verb && record.path == req.path
  }

  function Reserved(h: Helpers, req: Request): Record {
    Record(req.verb, req.path, Fingerprint(h, req), None)
  }

  /** The records after a request and what it is answered. */
  function Arrived(records: Records, h: Helpers, req: Request): (Records, Reply) {
    var key := Key(h, req);
    if key == [] then (records, MissingKey)
    else if key !in records then (records[key := Reserved(h, req)], RunsHandler)
    else if !SameRequest(h, records[key], req) then (records, DifferentRequest)
    else if records[key].response.Some? then (records, Replayed(records[key].response.value))
    else (records, InProgress)
  }

  /** The records after a handler's response is finished. */
  function Finished(records: Records, key: Text, response: Response): Records {
    if response.status >= 500 then
      if key in records && records[key].response.None? then records - {key} else records
    else if key in records then records[key := records[key].(response := Some(response))]
    else records
  }

  /** The request a record was reserved by, as far as the record tells. */
  predicate IsOf(h: Helpers, record: Record, req: Request) {
    record.verb == req.verb && record.path == req.path && record.fingerprint == h.digest(req.verb, req.path, req.rawBody)
  }

  /** What a reply means for the records before and after. */
  predicate IsReply(before: Records, h: Helpers, req: Request, after: Records, reply: Reply) {
    if req.key.None? || h.trim(req.key.value) == [] then after == before && reply == MissingKey
    else
      var key := h.trim(req.key.value);
      if key in before then
        && after == before
        && (reply == DifferentRequest <==> !IsOf(h, before[key], req))
        && (reply == InProgress <==> IsOf(h, before[key], req) && before[key].response.None?)
        && (reply.Replayed? <==> IsOf(h, before[key], req) && before[key].response.Some?)
        && (reply.Replayed? ==> before[key].response == Some(reply.response))
      else
        && reply == RunsHandler && key in after && after == before[key := after[key]]
        && IsOf(h, after[key], req) && after[key].response.None?
  }

  class InMemoryIdempotencyStore {
    var store: Records

    constructor ()
      ensures store == map[]
    {
      store := map[];
    }

    method CreatePending(key: Text, entry: Record) returns (record: Record, created: bool)
      modifies this
      ensures created == (key !in old(store))
      ensures created ==> store == old(store)[key := entry.(response := None)] && record == store[key]
      ensures !created ==> store == old(store) && record == store[key]
    {
      if key in store {
        return store[key], false;
      }
      store := store[key := entry.(response := None)];
      return store[key], true;
    }

    /** `threw` where there is no record to complete. */
    method Complete(key: Text, response: Response) returns (threw: bool)
      modifies this
      ensures threw == (key !in old(store))
      ensures store == if threw then old(store) else old(store)[key := old(store)[key].(response := Some(response))]
    {
      if key !in store {
        return true;
      }
      store := store[key := store[key].(response := Some(response))];
      return false;
    }

    method ReleasePending(key: Text)
      modifies this
      ensures store == if key in old(store) && old(store)[key].response.None? then old(store) - {key} else old(store)
    {
      if key !in store || store[key].response.Some? {
        return;
      }
      store := store - {key};
    }

    /** Only the replay time would change. */
    method MarkReplay(key: Text)
      modifies this
      ensures store == old(store)
    {
      if key !in store {
        return;
      }
      store := store[key := store[key]];
    }
  }

  method HandleRequest(records: InMemoryIdempotencyStore, h: Helpers, req: Request) returns (reply: Reply)
    modifies records
    ensures (records.store, reply) == Arrived(old(records.store), h, req)
    ensures IsReply(old(records.store), h, req, records.store, reply)
  {
    var key := Key(h, req);
    if key == [] {
      return MissingKey;
    }
    var record, created := records.CreatePending(key, Reserved(h, req));
    if !created {
      if record.fingerprint != Fingerprint(h, req) || record.verb != req.verb || record.path != req.path {
        return DifferentRequest;
      }
      if record.response.Some? {
        records.MarkReplay(key);
        return Replayed(record.response.value);
      }
      return InProgress;
    }
    return RunsHandler;
  }

  method HandleFinish(records: InMemoryIdempotencyStore, key: Text, response: Response) returns (threw: bool)
    modifies records
    ensures records.store == Finished(old(records.store), key, response)
    ensures threw <==> response.status < 500 && key !in old(records.store)
  {
    if response.status >= 500 {
      records.ReleasePending(key);
      return false;
    }
    threw := records.Complete(key, response);
  }

  // ---- Runs ----

  /** The records and, for each key, the handler runs started, still unfinished,
      finished with 500 or above, and finished below 500. */
  datatype State = State(
    records: Records,
    started: multiset<Text>,
    running: multiset<Text>,
    failed: multiset<Text>,
    succeeded: multiset<Text>)

  datatype Event = Arrive(req: Request) | Finish(key: Text, response: Response)

  const EMPTY: State := State(map[], multiset{}, multiset{}, multiset{}, multiset{})

  /** Requests may arrive at any time; only a running handler finishes. */
  predicate Enabled(s: State, e: Event) {
    e.Finish? ==> e.key in s.running
  }

  function Next(s: State, h: Helpers, e: Event): State {
    match e
    case Arrive(req) =>
      var (records, reply) := Arrived(s.records, h, req);
      if reply.RunsHandler?
      then s.(records := records, started := s.started + multiset{Key(h, req)}, running := s.running + multiset{Key(h, req)})
      else s.(records := records)
    case Finish(key, response) =>
      var after := s.(records := Finished(s.records, key, response), running := s.running - multiset{key});
      if response.status >= 500 then after.(failed := s.failed + multiset{key})
      else after.(succeeded := s.succeeded + multiset{key})
  }

  predicate IsRun(states: seq<State>, events: seq<Event>, h: Helpers) {
    && |states| == |events| + 1
    && forall i :: 0 <= i < |events| ==> Enabled(states[i], events[i]) && states[i + 1] == Next(states[i], h, events[i])
  }

  /** What the handler runs of one key add up to. */
  predicate Balanced(s: State, key: Text) {
    && s.started[key] == s.failed[key] + (if key in s.records then 1 else 0)
    && s.running[key] == (if key in s.records && s.records[key].response.None? then 1 else 0)
    && s.succeeded[key] == (if key in s.records && s.records[key].response.Some? then 1 else 0)
  }

  lemma ArriveStaysBalanced(s: State, h: Helpers, req: Request, key: Text)
    requires Balanced(s, key)
    ensures Balanced(Next(s, h, Arrive(req)), key)
  {
  }

  lemma FinishStaysBalanced(s: State, h: Helpers, done: Text, response: Response, key: Text)
    requires done in s.running && Balanced(s, key)
    ensures Balanced(Next(s, h, Finish(done, response)), key)
  {
  }

  lemma StepStaysBalanced(s: State, h: Helpers, e: Event, key: Text)
    requires Enabled(s, e) && Balanced(s, key)
    ensures Balanced(Next(s, h, e), key)
  {
    match e {
      case Arrive(req) => ArriveStaysBalanced(s, h, req, key);
      case Finish(done, response) => FinishStaysBalanced(s, h, done, response, key);
    }
  }

  /** In every interleaving, a key's handler runs are its failed runs plus one if
      it has a record; runs never overlap; at most one succeeds, and then no other
      is running. */
  lemma {:induction false} RunsAreBalanced(states: seq<State>, events: seq<Event>, h: Helpers, k: nat, key: Text)
    requires IsRun(states, events, h) && states[0] == EMPTY && k <= |events|
    ensures states[k].started[key] == states[k].failed[key] + (if key in states[k].records then 1 else 0)
    ensures states[k].running[key] <= 1 && states[k].succeeded[key] <= 1
    ensures states[k].running[key] + states[k].succeeded[key] == (if key in states[k].records then 1 else 0)
    ensures Balanced(states[k], key)
  {
    if k > 0 {
      RunsAreBalanced(states, events, h, k - 1, key);
      StepStaysBalanced(states[k - 1], h, events[k - 1], key);
    }
  }

  /** A finished handler always finds its own pending record, so completing never throws. */
  lemma FinishFindsPendingRecord(states: seq<State>, events: seq<Event>, h: Helpers, k: nat)
    requires IsRun(states, events, h) && states[0] == EMPTY && k < |events| && events[k].Finish?
    ensures events[k].key in states[k].records && states[k].records[events[k].key].response.None?
  {
    RunsAreBalanced(states, events, h, k, events[k].key);
  }

  lemma StepKeepsCompleted(s: State, h: Helpers, e: Event, key: Text)
    requires Enabled(s, e) && Balanced(s, key) && key in s.records && s.records[key].response.Some?
    ensures key in Next(s, h, e).records && Next(s, h, e).records[key] == s.records[key]
    ensures Next(s, h, e).started[key] == s.started[key]
  {
  }

  /** A stored response is never changed, removed or recomputed. */
  lemma {:induction false} CompletedForGood(states: seq<State>, events: seq<Event>, h: Helpers, j: nat, k: nat, key: Text)
    requires IsRun(states, events, h) && states[0] == EMPTY && j <= k <= |events|
    requires key in states[j].records && states[j].records[key].response.Some?
    ensures key in states[k].records && states[k].records[key] == states[j].records[key]
    ensures states[k].started[key] == states[j].started[key]
  {
    if j < k {
      CompletedForGood(states, events, h, j, k - 1, key);
      RunsAreBalanced(states, events, h, k - 1, key);
      StepKeepsCompleted(states[k - 1], h, events[k - 1], key);
    }
  }

  // ---- Which requests count as the same ----

  predicate SameFields(a: Request, b: Request) {
    a.verb == b.verb && a.path == b.path && a.rawBody == b.rawBody
  }

  /** The digest does not collide on these two requests. */
  predicate TellsApart(h: Helpers, a: Request, b: Request) {
    h.digest(a.verb, a.path, a.rawBody) == h.digest(b.verb, b.path, b.rawBody) ==> SameFields(a, b)
  }

  /** Nor does it on any request that came before the `k`th and that one. */
  predicate DigestSeparates(events: seq<Event>, h: Helpers, k: nat)
    requires k < |events| && events[k].Arrive?
  {
    forall i :: 0 <= i < k && events[i].Arrive? ==> TellsApart(h, events[i].req, events[k].req)
  }

  predicate HasKey(h: Helpers, e: Event, key: Text) {
    e.Arrive? && e.req.key.Some? && h.trim(e.req.key.value) == key != []
  }

  /** The record of `key` at `k` was reserved by the `i`th event and has been there since. */
  ghost predicate ReservedSince(states: seq<State>, events: seq<Event>, h: Helpers, i: nat, k: nat, key: Text)
    requires IsRun(states, events, h) && i < k <= |events|
  {
    && HasKey(h, events[i], key) && key !in states[i].records
    && forall n :: i < n <= k ==>
         key in states[n].records && IsOf(h, states[n].records[key], events[i].req)
  }

  lemma ArrivalKeepsRecord(records: Records, h: Helpers, req: Request, key: Text)
    requires key in records
    ensures key in Arrived(records, h, req).0 && Arrived(records, h, req).0[key] == records[key]
  {
  }

  lemma FinishKeepsRequest(records: Records, done: Text, response: Response, key: Text)
    requires key in records && key in Finished(records, done, response)
    ensures Finished(records, done, response)[key] == records[key].(response := Finished(records, done, response)[key].response)
  {
  }

  lemma RecordStays(s: State, h: Helpers, e: Event, key: Text, req: Request)
    requires key in s.records && key in Next(s, h, e).records && IsOf(h, s.records[key], req)
    ensures IsOf(h, Next(s, h, e).records[key], req)
  {
    match e {
      case Arrive(r) => ArrivalKeepsRecord(s.records, h, r, key);
      case Finish(done, response) => FinishKeepsRequest(s.records, done, response, key);
    }
  }

  lemma RecordStarts(s: State, h: Helpers, e: Event, key: Text)
    requires Enabled(s, e) && key !in s.records && key in Next(s, h, e).records
    ensures HasKey(h, e, key)
    ensures IsOf(h, Next(s, h, e).records[key], e.req)
    ensures Next(s, h, e).records[key].response.None?
  {
  }

  /** Every record was reserved by some request of the run, and keeps that request's fields. */
  lemma {:induction false} ReservedByARequest(states: seq<State>, events: seq<Event>, h: Helpers, k: nat, key: Text) returns (i: nat)
    requires IsRun(states, events, h) && states[0] == EMPTY && k <= |events| && key in states[k].records
    ensures i < k && ReservedSince(states, events, h, i, k, key)
  {
    if key in states[k - 1].records {
      i := ReservedByARequest(states, events, h, k - 1, key);
      RecordStays(states[k - 1], h, events[k - 1], key, events[i].req);
    } else {
      i := k - 1;
      RecordStarts(states[k - 1], h, events[k - 1], key);
    }
  }

  /** A request's answer, from its own fields and those of the request that reserved its
      key: it runs the handler if nobody did, conflicts if verb, path or body differ, and
      otherwise waits or replays. */
  lemma RepliesCompareFields(states: seq<State>, events: seq<Event>, h: Helpers, k: nat, key: Text) returns (i: nat)
    requires IsRun(states, events, h) && states[0] == EMPTY && k < |events|
    requires HasKey(h, events[k], key) && DigestSeparates(events, h, k)
    ensures key !in states[k].records ==> Arrived(states[k].records, h, events[k].req).1 == RunsHandler
    ensures key in states[k].records ==>
              && i < k && ReservedSince(states, events, h, i, k, key)
              && var response := states[k].records[key].response;
                 Arrived(states[k].records, h, events[k].req).1
                 == if !SameFields(events[i].req, events[k].req) then DifferentRequest
                    else if response.Some? then Replayed(response.value) else InProgress
  {
    i := 0;
    if key in states[k].records {
      i := ReservedByARequest(states, events, h, k, key);
      assert TellsApart(h, events[i].req, events[k].req);
    }
  }

  /** A request is turned away for its key exactly when that is absent or blank. */
  lemma MissingKeyIffBlank(records: Records, h: Helpers, req: Request)
    ensures Arrived(records, h, req).1 == MissingKey <==> req.key.None? || h.trim(req.key.value) == []
    ensures Arrived(records, h, req).1 == MissingKey ==> Arrived(records, h, req).0 == records
  {
  }

  // ---- After the first success ----

  lemma FinishedIsStored(s: State, h: Helpers, e: Event)
    requires e.Finish? && e.response.status < 500 && e.key in s.records
    ensures e.key in Next(s, h, e).records && Next(s, h, e).records[e.key].response == Some(e.response)
  {
  }

  /** Once a handler has finished below 500, every later request with the key is
      answered from the record: if its verb, path and body are those of the request
      that reserved the key, with that very response, and otherwise with a conflict. */
  lemma LaterRequestsReplay(states: seq<State>, events: seq<Event>, h: Helpers, j: nat, k: nat) returns (i: nat)
    requires IsRun(states, events, h) && states[0] == EMPTY && j < k < |events|
    requires events[j].Finish? && events[j].response.status < 500
    requires HasKey(h, events[k], events[j].key) && DigestSeparates(events, h, k)
    ensures i < j && ReservedSince(states, events, h, i, k, events[j].key)
    ensures Arrived(states[k].records, h, events[k].req).1
            == if SameFields(events[i].req, events[k].req) then Replayed(events[j].response) else DifferentRequest
    ensures states[k + 1] == states[k]
  {
    var key := events[j].key;
    FinishFindsPendingRecord(states, events, h, j);
    FinishedIsStored(states[j], h, events[j]);
    CompletedForGood(states, events, h, j + 1, k, key);
    i := RepliesCompareFields(states, events, h, k, key);
    if i > j {
      CompletedForGood(states, events, h, j + 1, i, key);
    }
  }
}

/** The canonicalizer as it runs (sort the keys, define the properties one by
    one) and the preimage of a Ricardian hash. */
module Ricardian {
  import opened Texts
  import opened JsonText
  import opened Canonicalize

  // ---- Sorting keys ----

  function InsertKey(k: Text, ks: seq<Text>): seq<Text> {
    if ks == [] || LexLess(k, ks[0]) then [k] + ks else [ks[0]] + InsertKey(k, ks[1..])
  }

  /** `Object.keys(value).sort()`. */
  function SortedKeys(members: seq<Member>): seq<Text> {
    if members == [] then [] else InsertKey(members[0].key, SortedKeys(members[1..]))
  }

  predicate Ascending(ks: seq<Text>) {
    forall i, j :: 0 <= i < j < |ks| ==> LexLess(ks[i], ks[j])
  }

  lemma AscendingCons(k: Text, ks: seq<Text>)
    requires Ascending(ks) && forall l :: l in ks ==> LexLess(k, l)
    ensures Ascending([k] + ks)
  {
  }

  lemma AscendingTail(ks: seq<Text>)
    requires ks != [] && Ascending(ks)
    ensures Ascending(ks[1..]) && forall l :: l in ks[1..] ==> LexLess(ks[0], l)
  {
  }

  lemma {:induction false} InsertKeySorts(k: Text, ks: seq<Text>)
    ensures forall l :: l in InsertKey(k, ks) <==> l == k || l in ks
    ensures Ascending(ks) && k !in ks ==> Ascending(InsertKey(k, ks))
  {
    if ks != [] {
      assert ks == [ks[0]] + ks[1..];
      if Ascending(ks) {
        AscendingTail(ks);
      }
      if LexLess(k, ks[0]) {
        if Ascending(ks) {
          forall l | l in ks ensures LexLess(k, l) {
            if l in ks[1..] {
              LexTransitive(k, ks[0], l);
            }
          }
          AscendingCons(k, ks);
        }
      } else {
        InsertKeySorts(k, ks[1..]);
        LexTotal(k, ks[0]);
        if Ascending(ks) && k !in ks {
          AscendingCons(ks[0], InsertKey(k, ks[1..]));
        }
      }
    }
  }

  lemma {:induction false} SortedKeysSorts(members: seq<Member>)
    requires DistinctKeys(members)
    ensures Ascending(SortedKeys(members))
    ensures forall k :: k in SortedKeys(members) <==> exists i :: 0 <= i < |members| && members[i].key == k
  {
    if members != [] {
      var rest := members[1..];
      SortedKeysSorts(rest);
      assert forall i :: 0 <= i < |rest| ==> rest[i] == members[i + 1];
      assert forall i :: 0 < i < |members| ==> members[i] == rest[i - 1];
      InsertKeySorts(members[0].key, SortedKeys(rest));
    }
  }

  // ---- Defining properties ----

  /** Where a JavaScript object puts a new array index among its own keys. */
  function InsertIndex(xs: seq<CMember>, x: CMember): seq<CMember>
    requires IsArrayIndex(x.key)
  {
    if xs == [] || !IsArrayIndex(xs[0].key) || DecimalValue(x.key) < DecimalValue(xs[0].key) then [x] + xs
    else [xs[0]] + InsertIndex(xs[1..], x)
  }

  /** `Object.defineProperty` with a new key: other keys are appended. */
  function DefineProperty(xs: seq<CMember>, x: CMember): seq<CMember> {
    if IsArrayIndex(x.key) then InsertIndex(xs, x) else xs + [x]
  }

  lemma {:induction false} InsertIndexIsInsertOrdered(xs: seq<CMember>, x: CMember)
    requires IsArrayIndex(x.key)
    ensures InsertIndex(xs, x) == InsertOrdered(x, xs)
  {
    if xs != [] {
      InsertIndexIsInsertOrdered(xs[1..], x);
    }
  }

  lemma DefinePropertyKeeps(xs: seq<CMember>, x: CMember)
    requires Ordered(xs)
    requires forall y :: y in xs ==> LexLess(y.key, x.key)
    ensures Ordered(DefineProperty(xs, x))
    ensures SameElements(DefineProperty(xs, x), [x] + xs)
  {
    LexIrreflexive(x.key);
    if IsArrayIndex(x.key) {
      InsertIndexIsInsertOrdered(xs, x);
      InsertOrderedElements(x, xs);
      InsertOrderedKeeps(x, xs);
    } else {
      forall i | 0 <= i < |xs| ensures KeyBefore(xs[i].key, x.key) {
        assert xs[i] in xs;
      }
    }
  }

  // ---- The canonicalizer ----

  lemma {:induction false} AllMembersOk(members: seq<Member>)
    requires forall i :: 0 <= i < |members| && !members[i].value.Undefined? ==> Canonical(members[i].value).Ok?
    ensures CanonicalMembers(members).Ok?
  {
    if members != [] {
      AllMembersOk(members[1..]);
    }
  }

  predicate MembersWellFormed(members: seq<Member>) {
    DistinctKeys(members) && forall i :: 0 <= i < |members| ==> WellFormed(members[i].value)
  }

  function IndexOfKey(members: seq<Member>, key: Text): (i: nat)
    requires exists j :: 0 <= j < |members| && members[j].key == key
    ensures i < |members| && members[i].key == key
  {
    if members[0].key == key then 0
    else
      var j :| 0 <= j < |members| && members[j].key == key;
      assert members[1..][j - 1].key == key;
      1 + IndexOfKey(members[1..], key)
  }

  method CanonicalizeValue(v: Value) returns (r: Outcome<Canon>)
    requires WellFormed(v)
    ensures r == Canonical(v)
    decreases v, 1
  {
    match v {
      case Null => return Ok(CNull);
      case Bool(flag) => return Ok(CBool(flag));
      case String(text) => return Ok(CString(text));
      case Number(digits) => return Ok(CNumber(digits));
      case Array(items) => r := CanonicalizeArray(items);
      case Object(members) => r := CanonicalizeObject(members);
      case _ => return Throws;
    }
  }

  lemma {:induction false} ItemsThrow(items: seq<Value>, i: nat)
    requires i < |items| && Canonical(items[i]).Throws?
    ensures CanonicalItems(items).Throws?
  {
    if i > 0 {
      assert items[1..][i - 1] == items[i];
      ItemsThrow(items[1..], i - 1);
    }
  }

  lemma {:induction false} ItemsByIndex(items: seq<Value>, xs: seq<Canon>)
    requires |items| == |xs|
    requires forall i :: 0 <= i < |items| ==> Canonical(items[i]) == Ok(xs[i])
    ensures CanonicalItems(items) == Ok(xs)
  {
    if items != [] {
      ItemsByIndex(items[1..], xs[1..]);
      assert xs == [xs[0]] + xs[1..];
    }
  }

  method CanonicalizeArray(items: seq<Value>) returns (r: Outcome<Canon>)
    requires forall i :: 0 <= i < |items| ==> WellFormed(items[i])
    ensures r == Canonical(Array(items))
    decreases items, 0
  {
    var xs: seq<Canon> := [];
    for i := 0 to |items|
      invariant |xs| == i
      invariant forall j :: 0 <= j < i ==> Canonical(items[j]) == Ok(xs[j])
    {
      var x := CanonicalizeValue(items[i]);
      if x.Throws? {
        ItemsThrow(items, i);
        return Throws;
      }
      xs := xs + [x.value];
    }
    ItemsByIndex(items, xs);
    r := Ok(CArray(xs));
  }

  /** What the object being filled holds once the keys in `done` are handled. */
  ghost predicate Filled(members: seq<Member>, done: seq<Text>, xs: seq<CMember>) {
    && (forall x :: x in xs ==> x.key in done && exists j :: 0 <= j < |members| && Gives(members[j], x))
    && (forall j :: 0 <= j < |members| && members[j].key in done && !members[j].value.Undefined? ==>
                      Canonical(members[j].value).Ok?
                      && CMember(members[j].key, Canonical(members[j].value).value) in xs)
  }

  lemma FilledIsCanonical(members: seq<Member>, xs: seq<CMember>)
    requires DistinctKeys(members) && Ordered(xs) && Filled(members, SortedKeys(members), xs)
    ensures Canonical(Object(members)) == Ok(CObject(xs))
  {
    SortedKeysSorts(members);
    AllMembersOk(members);
    var ys := CanonicalMembers(members).value;
    CanonicalKeysDistinct(members);
    ArrangeOrders(ys);
    forall x ensures x in xs <==> x in ys {
      if x in xs {
        var j :| 0 <= j < |members| && Gives(members[j], x);
        CanonicalAt(members, j);
      } else if x in ys {
        var j := CanonicalFrom(members, x);
      }
    }
    OrderedUnique(xs, Arrange(ys));
  }

  lemma FilledStep(members: seq<Member>, done: seq<Text>, i: nat, xs: seq<CMember>, c: Canon, ys: seq<CMember>)
    requires DistinctKeys(members) && i < |members| && Filled(members, done, xs)
    requires Gives(members[i], CMember(members[i].key, c))
    requires SameElements(ys, [CMember(members[i].key, c)] + xs)
    ensures Filled(members, done + [members[i].key], ys)
  {
  }

  method CanonicalizeObject(members: seq<Member>) returns (r: Outcome<Canon>)
    requires MembersWellFormed(members)
    ensures r == Canonical(Object(members))
    decreases members, 0
  {
    SortedKeysSorts(members);
    var sortedKeys := SortedKeys(members);
    var result: seq<CMember> := [];
    for n := 0 to |sortedKeys|
      invariant Ordered(result) && Filled(members, sortedKeys[..n], result)
    {
      var key := sortedKeys[n];
      assert sortedKeys[..n + 1] == sortedKeys[..n] + [key];
      assert key in sortedKeys;
      var i := IndexOfKey(members, key);
      if members[i].value.Undefined? {
        continue;
      }
      var c := CanonicalizeValue(members[i].value);
      if c.Throws? {
        if CanonicalMembers(members).Ok? {
          CanonicalAt(members, i);
        }
        return Throws;
      }
      var x := CMember(key, c.value);
      DefinePropertyKeeps(result, x);
      FilledStep(members, sortedKeys[..n], i, result, c.value, DefineProperty(result, x));
      result := DefineProperty(result, x);
    }
    assert sortedKeys[..|sortedKeys|] == sortedKeys;
    FilledIsCanonical(members, result);
    r := Ok(CObject(result));
  }

  // ---- Hash preimage ----

  /** A hash request; absent and null metadata are one case. */
  datatype HashRequest = HashRequest(documentRef: Text, metadata: Option<seq<Member>>, terms: Value)

  const RULES_VERSION: Text :=
    [82, 73, 67, 65, 82, 68, 73, 65, 78, 95, 67, 65, 78, 79, 78, 73, 67, 65, 76, 95, 86, 49]
  const DOCUMENT_REF: Text := [100, 111, 99, 117, 109, 101, 110, 116, 82, 101, 102]
  const METADATA: Text := [109, 101, 116, 97, 100, 97, 116, 97]
  const TERMS: Text := [116, 101, 114, 109, 115]

  function RequestMetadata(request: HashRequest): Value {
    Object(if request.metadata.Some? then request.metadata.value else [])
  }

  function CanonicalPayload(request: HashRequest): Value {
    Object([
      Member(DOCUMENT_REF, String(request.documentRef)),
      Member(METADATA, RequestMetadata(request)),
      Member(TERMS, request.terms)])
  }

  /** The text that is hashed. */
  function Preimage(request: HashRequest): Outcome<Text> {
    if IsBlank(request.documentRef) then Throws
    else if !request.terms.Object? && !request.terms.Array? then Throws
    else
      match Stringify(CanonicalPayload(request))
      case Ok(json) => Ok(RULES_VERSION + [COLON] + json)
      case Throws => Throws
  }

  predicate RequestWellFormed(request: HashRequest) {
    WellFormed(RequestMetadata(request)) && WellFormed(request.terms)
  }

  lemma ThreeMembers(a: Member, b: Member, c: Member)
    requires a.key != b.key && a.key != c.key && b.key != c.key
    requires !a.value.Undefined? && !b.value.Undefined? && !c.value.Undefined?
    requires MembersMeaning([a, b, c]).Some?
    ensures Meaning(a.value).Some? && Meaning(b.value).Some? && Meaning(c.value).Some?
    ensures MembersMeaning([a, b, c]).value == map[
              a.key := Meaning(a.value).value, b.key := Meaning(b.value).value, c.key := Meaning(c.value).value]
  {
    assert [a, b, c][1..] == [b, c] && [b, c][1..] == [c] && [c][1..] == [];
    assert MembersMeaning([b, c]).Some? && MembersMeaning([c]).Some? && MembersMeaning([]) == Some(map[]);
    assert MembersMeaning([c]) == Some(map[c.key := Meaning(c.value).value]);
    assert MembersMeaning([b, c]) == Some(map[c.key := Meaning(c.value).value][b.key := Meaning(b.value).value]);
  }

  lemma PayloadMeaning(request: HashRequest)
    requires (request.terms.Object? || request.terms.Array?) && Meaning(CanonicalPayload(request)).Some?
    ensures Meaning(RequestMetadata(request)).Some? && Meaning(request.terms).Some?
    ensures Meaning(CanonicalPayload(request)) == Some(JObject(map[
              DOCUMENT_REF := JString(request.documentRef),
              METADATA := Meaning(RequestMetadata(request)).value,
              TERMS := Meaning(request.terms).value]))
  {
    var ms := CanonicalPayload(request).members;
    assert ms == [ms[0], ms[1], ms[2]];
    assert |DOCUMENT_REF| == 11 && |METADATA| == 8 && |TERMS| == 5;
    ThreeMembers(ms[0], ms[1], ms[2]);
  }

  lemma ThreeMeaningsNeeded(a: Member, b: Member, c: Member)
    requires !a.value.Undefined? && !b.value.Undefined? && !c.value.Undefined?
    ensures MembersMeaning([a, b, c]).Some? <==>
            Meaning(a.value).Some? && Meaning(b.value).Some? && Meaning(c.value).Some?
  {
    assert [a, b, c][1..] == [b, c] && [b, c][1..] == [c] && [c][1..] == [];
    assert MembersMeaning([]) == Some(map[]);
    assert MembersMeaning([c]).Some? <==> Meaning(c.value).Some?;
    assert MembersMeaning([b, c]).Some? <==> Meaning(b.value).Some? && Meaning(c.value).Some?;
  }

  /** A request is refused exactly when its document reference is blank, its terms are
      neither object nor array, or its metadata or terms denote no JSON value. */
  lemma PreimageThrowsIff(request: HashRequest)
    ensures Preimage(request).Throws? <==>
            || (forall u :: u in request.documentRef ==> IsWhiteSpace(u))
            || !(request.terms.Object? || request.terms.Array?)
            || Meaning(Object(if request.metadata.Some? then request.metadata.value else [])).None?
            || Meaning(request.terms).None?
  {
    var payload := CanonicalPayload(request);
    ThrowsIffMeaningless(payload);
    if request.terms.Object? || request.terms.Array? {
      assert payload.members == [payload.members[0], payload.members[1], payload.members[2]];
      ThreeMeaningsNeeded(payload.members[0], payload.members[1], payload.members[2]);
    }
  }

  /** Two accepted requests hash the same text exactly when they name the same
      document and carry the same metadata and terms as JSON values. */
  lemma SamePreimageIffSameRequest(a: HashRequest, b: HashRequest)
    requires RequestWellFormed(a) && RequestWellFormed(b)
    requires Preimage(a).Ok? && Preimage(b).Ok?
    ensures Preimage(a) == Preimage(b) <==>
            && a.documentRef == b.documentRef
            && Meaning(RequestMetadata(a)) == Meaning(RequestMetadata(b))
            && Meaning(a.terms) == Meaning(b.terms)
  {
    SameTextIffSameMeaning(CanonicalPayload(a), CanonicalPayload(b));
    SameTextIffSameMeaning(CanonicalPayload(b), CanonicalPayload(a));
    PayloadMeaning(a);
    PayloadMeaning(b);
    if Preimage(a) == Preimage(b) {
      var prefix := RULES_VERSION + [COLON];
      SplitEqual(prefix, Stringify(CanonicalPayload(a)).value, Stringify(CanonicalPayload(b)).value);
      var ma, mb := Meaning(CanonicalPayload(a)).value.members, Meaning(CanonicalPayload(b)).value.members;
      assert ma[DOCUMENT_REF] == mb[DOCUMENT_REF] && ma[METADATA] == mb[METADATA] && ma[TERMS] == mb[TERMS];
    }
  }
}

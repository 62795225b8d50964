/** Ricardian canonicalization: payloads, what they mean as JSON, and the
    canonical value and text computed for them. */
module Canonicalize {
  import opened Texts
  import opened JsonText

  /** A payload value; an object lists its own enumerable properties. */
  datatype Value =
    | Undefined
    | Null
    | Bool(flag: bool)
    | String(text: Text)
    | Number(digits: NumberText)
    | NonFinite
    | Array(items: seq<Value>)
    | Object(members: seq<Member>)
    | Unsupported

  datatype Member = Member(key: Text, value: Value)

  datatype Outcome<+T> = Ok(value: T) | Throws

  /** No object lists a key twice. */
  predicate WellFormed(v: Value)
    decreases v
  {
    match v
    case Array(items) => forall i :: 0 <= i < |items| ==> WellFormed(items[i])
    case Object(members) =>
      && DistinctKeys(members)
      && forall i :: 0 <= i < |members| ==> WellFormed(members[i].value)
    case _ => true
  }

  predicate DistinctKeys(members: seq<Member>) {
    forall i, j :: 0 <= i < j < |members| ==> members[i].key != members[j].key
  }

  // ---- Own-property order ----

  /** An array index: the decimal text of a natural up to 2^32 - 2. */
  predicate IsArrayIndex(key: Text) {
    && (forall u :: u in key ==> IsDigit(u))
    && DecimalValue(key) <= 4294967294
    && key == Decimal(DecimalValue(key))
  }

  /** Own keys come array indices first, by number; here the others follow in
      code-unit order. */
  predicate KeyBefore(a: Text, b: Text) {
    if IsArrayIndex(a) && IsArrayIndex(b) then DecimalValue(a) < DecimalValue(b)
    else if IsArrayIndex(a) != IsArrayIndex(b) then IsArrayIndex(a)
    else LexLess(a, b)
  }

  lemma KeyBeforeTransitive(a: Text, b: Text, c: Text)
    requires KeyBefore(a, b) && KeyBefore(b, c)
    ensures KeyBefore(a, c)
  {
    if !IsArrayIndex(a) {
      LexTransitive(a, b, c);
    }
  }

  lemma KeyBeforeStrict(a: Text, b: Text)
    ensures KeyBefore(a, b) ==> a != b && !KeyBefore(b, a)
    ensures a == b || KeyBefore(a, b) || KeyBefore(b, a)
  {
    LexTotal(a, b);
    LexIrreflexive(a);
    if LexLess(a, b) && LexLess(b, a) {
      LexTransitive(a, b, a);
    }
  }

  predicate Ordered(xs: seq<CMember>) {
    forall i, j :: 0 <= i < j < |xs| ==> KeyBefore(xs[i].key, xs[j].key)
  }

  ghost predicate SameElements(xs: seq<CMember>, ys: seq<CMember>) {
    forall x :: x in xs <==> x in ys
  }

  lemma OrderedTail(xs: seq<CMember>)
    requires xs != [] && Ordered(xs)
    ensures Ordered(xs[1..]) && forall x :: x in xs[1..] ==> KeyBefore(xs[0].key, x.key)
  {
  }

  /** The head is the only element no other precedes. */
  lemma OrderedHead(xs: seq<CMember>, ys: seq<CMember>)
    requires Ordered(xs) && Ordered(ys) && SameElements(xs, ys) && xs != []
    ensures ys != [] && xs[0] == ys[0]
  {
    assert xs[0] in xs;
    var i :| 0 <= i < |ys| && ys[i] == xs[0];
    assert ys[0] in ys;
    var j :| 0 <= j < |xs| && xs[j] == ys[0];
    KeyBeforeStrict(xs[0].key, ys[0].key);
  }

  /** Ordered members are determined by which members there are. */
  lemma {:induction false} OrderedUnique(xs: seq<CMember>, ys: seq<CMember>)
    requires Ordered(xs) && Ordered(ys) && SameElements(xs, ys)
    ensures xs == ys
  {
    if xs == [] {
      if ys != [] {
        OrderedHead(ys, xs);
      }
    } else {
      OrderedHead(xs, ys);
      OrderedTail(xs);
      OrderedTail(ys);
      assert xs == [xs[0]] + xs[1..] && ys == [ys[0]] + ys[1..];
      forall x ensures x in xs[1..] <==> x in ys[1..] {
        KeyBeforeStrict(xs[0].key, x.key);
        assert x in xs <==> x in ys;
      }
      OrderedUnique(xs[1..], ys[1..]);
    }
  }

  function InsertOrdered(x: CMember, xs: seq<CMember>): seq<CMember> {
    if xs == [] || KeyBefore(x.key, xs[0].key) then [x] + xs else [xs[0]] + InsertOrdered(x, xs[1..])
  }

  /** The members in own-property order. */
  function Arrange(xs: seq<CMember>): seq<CMember> {
    if xs == [] then [] else InsertOrdered(xs[0], Arrange(xs[1..]))
  }

  lemma {:induction false} InsertOrderedElements(x: CMember, xs: seq<CMember>)
    ensures SameElements(InsertOrdered(x, xs), [x] + xs)
  {
    if xs != [] && !KeyBefore(x.key, xs[0].key) {
      InsertOrderedElements(x, xs[1..]);
      assert xs == [xs[0]] + xs[1..];
    }
  }

  lemma OrderedCons(x: CMember, xs: seq<CMember>)
    requires Ordered(xs) && forall y :: y in xs ==> KeyBefore(x.key, y.key)
    ensures Ordered([x] + xs)
  {
  }

  lemma {:induction false} InsertOrderedKeeps(x: CMember, xs: seq<CMember>)
    requires Ordered(xs) && forall y :: y in xs ==> y.key != x.key
    ensures Ordered(InsertOrdered(x, xs))
  {
    if xs == [] {
    } else if KeyBefore(x.key, xs[0].key) {
      OrderedTail(xs);
      forall y | y in xs ensures KeyBefore(x.key, y.key) {
        if y in xs[1..] {
          KeyBeforeTransitive(x.key, xs[0].key, y.key);
        }
      }
      OrderedCons(x, xs);
    } else {
      OrderedTail(xs);
      InsertOrderedKeeps(x, xs[1..]);
      InsertOrderedElements(x, xs[1..]);
      KeyBeforeStrict(x.key, xs[0].key);
      OrderedCons(xs[0], InsertOrdered(x, xs[1..]));
    }
  }

  predicate DistinctCKeys(xs: seq<CMember>) {
    forall i, j :: 0 <= i < j < |xs| ==> xs[i].key != xs[j].key
  }

  lemma {:induction false} ArrangeOrders(xs: seq<CMember>)
    requires DistinctCKeys(xs)
    ensures Ordered(Arrange(xs)) && SameElements(Arrange(xs), xs)
  {
    if xs != [] {
      var rest := Arrange(xs[1..]);
      ArrangeOrders(xs[1..]);
      InsertOrderedKeeps(xs[0], rest);
      InsertOrderedElements(xs[0], rest);
      assert xs == [xs[0]] + xs[1..];
    }
  }

  // ---- Canonical values ----

  /** The canonical value of a payload: undefined members dropped, every object
      in own-property order; a value JSON cannot carry throws. */
  function Canonical(v: Value): Outcome<Canon>
    decreases v, 1
  {
    match v
    case Null => Ok(CNull)
    case Bool(flag) => Ok(CBool(flag))
    case String(text) => Ok(CString(text))
    case Number(digits) => Ok(CNumber(digits))
    case Array(items) =>
      (match CanonicalItems(items)
       case Ok(xs) => Ok(CArray(xs))
       case Throws => Throws)
    case Object(members) =>
      (match CanonicalMembers(members)
       case Ok(xs) => Ok(CObject(Arrange(xs)))
       case Throws => Throws)
    case _ => Throws
  }

  function CanonicalItems(items: seq<Value>): Outcome<seq<Canon>>
    decreases items, 0
  {
    if items == [] then Ok([])
    else
      match (Canonical(items[0]), CanonicalItems(items[1..]))
      case (Ok(x), Ok(xs)) => Ok([x] + xs)
      case _ => Throws
  }

  function CanonicalMembers(members: seq<Member>): Outcome<seq<CMember>>
    decreases members, 0
  {
    if members == [] then Ok([])
    else if members[0].value.Undefined? then CanonicalMembers(members[1..])
    else
      match (Canonical(members[0].value), CanonicalMembers(members[1..]))
      case (Ok(x), Ok(xs)) => Ok([CMember(members[0].key, x)] + xs)
      case _ => Throws
  }

  /** `x` is what member `m` contributes. */
  predicate Gives(m: Member, x: CMember) {
    m.key == x.key && !m.value.Undefined? && Canonical(m.value) == Ok(x.value)
  }

  lemma {:induction false} CanonicalAt(members: seq<Member>, i: nat)
    requires CanonicalMembers(members).Ok? && i < |members| && !members[i].value.Undefined?
    ensures Canonical(members[i].value).Ok?
    ensures CMember(members[i].key, Canonical(members[i].value).value) in CanonicalMembers(members).value
  {
    if i > 0 {
      assert members[1..][i - 1] == members[i];
      CanonicalAt(members[1..], i - 1);
    }
  }

  lemma {:induction false} CanonicalFrom(members: seq<Member>, x: CMember) returns (i: nat)
    requires CanonicalMembers(members).Ok? && x in CanonicalMembers(members).value
    ensures i < |members| && Gives(members[i], x)
  {
    if Gives(members[0], x) {
      i := 0;
    } else {
      var j := CanonicalFrom(members[1..], x);
      i := j + 1;
    }
  }

  lemma {:induction false} CanonicalKeysDistinct(members: seq<Member>)
    requires CanonicalMembers(members).Ok? && DistinctKeys(members)
    ensures DistinctCKeys(CanonicalMembers(members).value)
  {
    if members != [] {
      CanonicalKeysDistinct(members[1..]);
      var rest := CanonicalMembers(members[1..]).value;
      forall x | x in rest ensures x.key != members[0].key {
        var i := CanonicalFrom(members[1..], x);
      }
    }
  }

  // ---- Meaning ----

  /** A JSON value: objects are finite maps, with no order. */
  datatype Json =
    | JNull
    | JBool(flag: bool)
    | JString(text: Text)
    | JNumber(digits: NumberText)
    | JArray(items: seq<Json>)
    | JObject(members: map<Text, Json>)

  /** The JSON value a payload stands for, if it stands for one. */
  function Meaning(v: Value): Option<Json>
    decreases v, 1
  {
    match v
    case Null => Some(JNull)
    case Bool(flag) => Some(JBool(flag))
    case String(text) => Some(JString(text))
    case Number(digits) => Some(JNumber(digits))
    case Array(items) =>
      (match ItemsMeaning(items)
       case Some(js) => Some(JArray(js))
       case None => None)
    case Object(members) =>
      (match MembersMeaning(members)
       case Some(m) => Some(JObject(m))
       case None => None)
    case _ => None
  }

  function ItemsMeaning(items: seq<Value>): Option<seq<Json>>
    decreases items, 0
  {
    if items == [] then Some([])
    else
      match (Meaning(items[0]), ItemsMeaning(items[1..]))
      case (Some(j), Some(js)) => Some([j] + js)
      case _ => None
  }

  function MembersMeaning(members: seq<Member>): Option<map<Text, Json>>
    decreases members, 0
  {
    if members == [] then Some(map[])
    else if members[0].value.Undefined? then MembersMeaning(members[1..])
    else
      match (Meaning(members[0].value), MembersMeaning(members[1..]))
      case (Some(j), Some(m)) => Some(m[members[0].key := j])
      case _ => None
  }

  lemma {:induction false} MeaningAt(members: seq<Member>, i: nat)
    requires DistinctKeys(members) && MembersMeaning(members).Some?
    requires i < |members| && !members[i].value.Undefined?
    ensures members[i].key in MembersMeaning(members).value
    ensures Meaning(members[i].value) == Some(MembersMeaning(members).value[members[i].key])
  {
    if i > 0 {
      assert members[1..][i - 1] == members[i];
      MeaningAt(members[1..], i - 1);
    }
  }

  lemma {:induction false} MeaningFrom(members: seq<Member>, k: Text) returns (i: nat)
    requires MembersMeaning(members).Some? && k in MembersMeaning(members).value
    ensures i < |members| && members[i].key == k && !members[i].value.Undefined?
  {
    if members[0].key == k && !members[0].value.Undefined? {
      i := 0;
    } else {
      var j := MeaningFrom(members[1..], k);
      i := j + 1;
    }
  }

  /** Canonicalization throws exactly on what has no meaning. */
  lemma {:induction false} ThrowsIffMeaningless(v: Value)
    ensures Canonical(v).Throws? <==> Meaning(v).None?
    decreases v, 1
  {
    match v {
      case Array(items) => ItemsThrowIffMeaningless(items);
      case Object(members) => MembersThrowIffMeaningless(members);
      case _ =>
    }
  }

  lemma {:induction false} ItemsThrowIffMeaningless(items: seq<Value>)
    ensures CanonicalItems(items).Throws? <==> ItemsMeaning(items).None?
    decreases items, 0
  {
    if items != [] {
      ThrowsIffMeaningless(items[0]);
      ItemsThrowIffMeaningless(items[1..]);
    }
  }

  lemma {:induction false} MembersThrowIffMeaningless(members: seq<Member>)
    ensures CanonicalMembers(members).Throws? <==> MembersMeaning(members).None?
    decreases members, 0
  {
    if members != [] {
      ThrowsIffMeaningless(members[0].value);
      MembersThrowIffMeaningless(members[1..]);
    }
  }

  /** Two payloads have one canonical value exactly when they mean the same JSON. */
  lemma {:induction false} SameCanonicalIffSameMeaning(v: Value, w: Value)
    requires WellFormed(v) && WellFormed(w)
    requires Canonical(v).Ok? && Canonical(w).Ok?
    ensures Canonical(v) == Canonical(w) <==> Meaning(v) == Meaning(w)
    decreases v, 1
  {
    ThrowsIffMeaningless(v);
    ThrowsIffMeaningless(w);
    match (v, w) {
      case (Array(xs), Array(ys)) => SameItems(xs, ys);
      case (Object(xs), Object(ys)) => SameMembers(xs, ys);
      case _ =>
    }
  }

  lemma {:induction false} SameItems(xs: seq<Value>, ys: seq<Value>)
    requires forall i :: 0 <= i < |xs| ==> WellFormed(xs[i])
    requires forall i :: 0 <= i < |ys| ==> WellFormed(ys[i])
    requires CanonicalItems(xs).Ok? && CanonicalItems(ys).Ok?
    requires ItemsMeaning(xs).Some? && ItemsMeaning(ys).Some?
    ensures CanonicalItems(xs) == CanonicalItems(ys) <==> ItemsMeaning(xs) == ItemsMeaning(ys)
    decreases xs, 0
  {
    if xs != [] && ys != [] {
      SameCanonicalIffSameMeaning(xs[0], ys[0]);
      SameItems(xs[1..], ys[1..]);
      var cx, cy := CanonicalItems(xs).value, CanonicalItems(ys).value;
      assert cx == [cx[0]] + cx[1..] && cy == [cy[0]] + cy[1..];
      var jx, jy := ItemsMeaning(xs).value, ItemsMeaning(ys).value;
      assert jx == [jx[0]] + jx[1..] && jy == [jy[0]] + jy[1..];
    }
  }

  /** On any two retained members, same canonical value iff same meaning. */
  ghost predicate MembersAgree(xs: seq<Member>, ys: seq<Member>) {
    forall i, j :: 0 <= i < |xs| && 0 <= j < |ys| && !xs[i].value.Undefined? && !ys[j].value.Undefined? ==>
                     (Canonical(xs[i].value) == Canonical(ys[j].value) <==> Meaning(xs[i].value) == Meaning(ys[j].value))
  }

  lemma SameMeaningSameElement(xs: seq<Member>, ys: seq<Member>, x: CMember)
    requires DistinctKeys(xs) && DistinctKeys(ys) && MembersAgree(xs, ys)
    requires CanonicalMembers(xs).Ok? && CanonicalMembers(ys).Ok?
    requires MembersMeaning(xs).Some? && MembersMeaning(xs) == MembersMeaning(ys)
    requires x in CanonicalMembers(xs).value
    ensures x in CanonicalMembers(ys).value
  {
    var i := CanonicalFrom(xs, x);
    MeaningAt(xs, i);
    var j := MeaningFrom(ys, x.key);
    MeaningAt(ys, j);
    CanonicalAt(ys, j);
  }

  lemma SameElementsSameMeaning(xs: seq<Member>, ys: seq<Member>, k: Text)
    requires DistinctKeys(xs) && DistinctKeys(ys) && MembersAgree(xs, ys)
    requires CanonicalMembers(xs).Ok? && CanonicalMembers(ys).Ok?
    requires MembersMeaning(xs).Some? && MembersMeaning(ys).Some?
    requires SameElements(CanonicalMembers(xs).value, CanonicalMembers(ys).value)
    requires k in MembersMeaning(xs).value
    ensures k in MembersMeaning(ys).value && MembersMeaning(xs).value[k] == MembersMeaning(ys).value[k]
  {
    var i := MeaningFrom(xs, k);
    MeaningAt(xs, i);
    CanonicalAt(xs, i);
    var j := CanonicalFrom(ys, CMember(k, Canonical(xs[i].value).value));
    MeaningAt(ys, j);
  }

  lemma {:induction false} SameMembers(xs: seq<Member>, ys: seq<Member>)
    requires WellFormed(Object(xs)) && WellFormed(Object(ys))
    requires CanonicalMembers(xs).Ok? && CanonicalMembers(ys).Ok?
    requires MembersMeaning(xs).Some? && MembersMeaning(ys).Some?
    ensures Arrange(CanonicalMembers(xs).value) == Arrange(CanonicalMembers(ys).value)
            <==> MembersMeaning(xs) == MembersMeaning(ys)
    decreases xs, 0
  {
    var cx, cy := CanonicalMembers(xs).value, CanonicalMembers(ys).value;
    assert MembersAgree(xs, ys) && DistinctCKeys(cx) && DistinctCKeys(cy) by {
      CanonicalKeysDistinct(xs);
      CanonicalKeysDistinct(ys);
      forall i, j | 0 <= i < |xs| && 0 <= j < |ys| && !xs[i].value.Undefined? && !ys[j].value.Undefined?
        ensures Canonical(xs[i].value) == Canonical(ys[j].value) <==> Meaning(xs[i].value) == Meaning(ys[j].value)
      {
        CanonicalAt(xs, i);
        CanonicalAt(ys, j);
        SameCanonicalIffSameMeaning(xs[i].value, ys[j].value);
      }
    }
    assert MembersAgree(ys, xs);
    ArrangeOrders(cx);
    ArrangeOrders(cy);
    if MembersMeaning(xs) == MembersMeaning(ys) {
      forall x ensures x in cx <==> x in cy {
        if x in cx {
          SameMeaningSameElement(xs, ys, x);
        } else if x in cy {
          SameMeaningSameElement(ys, xs, x);
        }
      }
      OrderedUnique(Arrange(cx), Arrange(cy));
    }
    if Arrange(cx) == Arrange(cy) {
      assert SameElements(cx, cy);
      var mx, my := MembersMeaning(xs).value, MembersMeaning(ys).value;
      forall k | k in mx ensures k in my && mx[k] == my[k] {
        SameElementsSameMeaning(xs, ys, k);
      }
      forall k | k in my ensures k in mx {
        SameElementsSameMeaning(ys, xs, k);
      }
      assert mx == my;
    }
  }

  /** `canonicalJsonStringify`. */
  function Stringify(v: Value): Outcome<Text> {
    match Canonical(v)
    case Ok(c) => Ok(Print(c))
    case Throws => Throws
  }

  /** Same text exactly when same JSON value: key order and undefined members
      make no difference, everything else does. */
  lemma SameTextIffSameMeaning(v: Value, w: Value)
    requires WellFormed(v) && WellFormed(w)
    ensures Stringify(v).Throws? <==> Meaning(v).None?
    ensures Stringify(v).Ok? && Stringify(w).Ok? ==>
              (Stringify(v) == Stringify(w) <==> Meaning(v) == Meaning(w))
  {
    ThrowsIffMeaningless(v);
    if Stringify(v).Ok? && Stringify(w).Ok? {
      SameCanonicalIffSameMeaning(v, w);
      if Stringify(v) == Stringify(w) {
        assert Stringify(v).value == Stringify(v).value + [] && Stringify(w).value == Stringify(w).value + [];
        PrintUnique(Canonical(v).value, Canonical(w).value, [], []);
      }
    }
  }

  // ---- Idempotence ----

  /** A canonical value as a payload. */
  function Embed(c: Canon): Value
    decreases c, 1
  {
    match c
    case CNull => Null
    case CBool(flag) => Bool(flag)
    case CString(text) => String(text)
    case CNumber(digits) => Number(digits)
    case CArray(items) => Array(EmbedItems(items))
    case CObject(members) => Object(EmbedMembers(members))
  }

  function EmbedItems(items: seq<Canon>): seq<Value>
    decreases items, 0
  {
    if items == [] then [] else [Embed(items[0])] + EmbedItems(items[1..])
  }

  function EmbedMembers(members: seq<CMember>): seq<Member>
    decreases members, 0
  {
    if members == [] then [] else [Member(members[0].key, Embed(members[0].value))] + EmbedMembers(members[1..])
  }

  /** Every object inside is in own-property order. */
  predicate InOrder(c: Canon)
    decreases c
  {
    match c
    case CArray(items) => forall i :: 0 <= i < |items| ==> InOrder(items[i])
    case CObject(members) => Ordered(members) && forall i :: 0 <= i < |members| ==> InOrder(members[i].value)
    case _ => true
  }

  lemma {:induction false} CanonicalInOrder(v: Value)
    requires WellFormed(v) && Canonical(v).Ok?
    ensures InOrder(Canonical(v).value)
    decreases v, 1
  {
    match v {
      case Array(items) => ItemsInOrder(items);
      case Object(members) =>
        CanonicalKeysDistinct(members);
        var xs := CanonicalMembers(members).value;
        ArrangeOrders(xs);
        forall i | 0 <= i < |Arrange(xs)| ensures InOrder(Arrange(xs)[i].value) {
          var x := Arrange(xs)[i];
          assert x in Arrange(xs) && x in xs;
          var j := CanonicalFrom(members, x);
          CanonicalInOrder(members[j].value);
        }
      case _ =>
    }
  }

  predicate SpellsIndex(key: Text, n: nat) {
    n <= 4294967294 && key == Decimal(n)
  }

  /** The own keys of every canonical object: those that spell an array index come
      first, in the order of their numbers, and the rest follow in code-unit order. */
  lemma OwnKeysInOrder(members: seq<Member>, i: nat, j: nat)
    requires WellFormed(Object(members)) && Canonical(Object(members)).Ok?
    requires i < j < |Canonical(Object(members)).value.members|
    ensures var own := Canonical(Object(members)).value.members;
            && (forall m: nat :: SpellsIndex(own[j].key, m) ==> exists n: nat :: n < m && SpellsIndex(own[i].key, n))
            && ((forall n: nat :: !SpellsIndex(own[i].key, n)) ==> LexLess(own[i].key, own[j].key))
  {
    CanonicalInOrder(Object(members));
    var own := Canonical(Object(members)).value.members;
    var a, b := own[i].key, own[j].key;
    assert KeyBefore(a, b);
    forall m: nat | SpellsIndex(b, m) ensures exists n: nat :: n < m && SpellsIndex(a, n) {
      DecimalRoundTrip(m);
      assert SpellsIndex(a, DecimalValue(a));
    }
    if forall n: nat :: !SpellsIndex(a, n) {
      assert IsArrayIndex(a) ==> SpellsIndex(a, DecimalValue(a));
    }
  }

  lemma {:induction false} ItemsInOrder(items: seq<Value>)
    requires forall i :: 0 <= i < |items| ==> WellFormed(items[i])
    requires CanonicalItems(items).Ok?
    ensures forall x :: x in CanonicalItems(items).value ==> InOrder(x)
    decreases items, 0
  {
    if items != [] {
      CanonicalInOrder(items[0]);
      ItemsInOrder(items[1..]);
    }
  }

  lemma {:induction false} ArrangeFixed(xs: seq<CMember>)
    requires Ordered(xs)
    ensures Arrange(xs) == xs
  {
    if |xs| > 1 {
      OrderedTail(xs);
      ArrangeFixed(xs[1..]);
    }
  }

  lemma {:induction false} InOrderFixed(c: Canon)
    requires InOrder(c)
    ensures Canonical(Embed(c)) == Ok(c)
    decreases c, 1
  {
    match c {
      case CArray(items) => ItemsFixed(items);
      case CObject(members) =>
        MembersFixed(members);
        ArrangeFixed(members);
      case _ =>
    }
  }

  lemma {:induction false} ItemsFixed(items: seq<Canon>)
    requires forall i :: 0 <= i < |items| ==> InOrder(items[i])
    ensures CanonicalItems(EmbedItems(items)) == Ok(items)
    decreases items, 0
  {
    if items != [] {
      InOrderFixed(items[0]);
      ItemsFixed(items[1..]);
      assert EmbedItems(items)[1..] == EmbedItems(items[1..]);
      assert items == [items[0]] + items[1..];
    }
  }

  lemma {:induction false} MembersFixed(members: seq<CMember>)
    requires forall i :: 0 <= i < |members| ==> InOrder(members[i].value)
    ensures CanonicalMembers(EmbedMembers(members)) == Ok(members)
    decreases members, 0
  {
    if members != [] {
      InOrderFixed(members[0].value);
      MembersFixed(members[1..]);
      assert EmbedMembers(members)[1..] == EmbedMembers(members[1..]);
      assert members == [members[0]] + members[1..];
    }
  }

  /** Canonicalizing a canonical value changes nothing. */
  lemma CanonicalIdempotent(v: Value)
    requires WellFormed(v) && Canonical(v).Ok?
    ensures Canonical(Embed(Canonical(v).value)) == Canonical(v)
  {
    CanonicalInOrder(v);
    InOrderFixed(Canonical(v).value);
  }
}

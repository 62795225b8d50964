/** The drift classifier: how an indexed trade and the on-chain trade differ. */
module Classifier {
  import opened Texts
  import Indexer

  datatype IndexedTrade = IndexedTrade(
    tradeId: Text, buyer: Text, supplier: Text, status: Text, amounts: Amounts, ricardianHash: Text,
    arrivalTimestamp: Option<int>)

  datatype OnchainTrade = OnchainTrade(
    buyer: Text, supplier: Text, status: nat, amounts: Amounts, ricardianHash: Text, arrivalTimestamp: Option<int>)

  datatype Amounts = Amounts(
    totalAmountLocked: nat, logisticsAmount: nat, platformFeesAmount: nat,
    supplierFirstTranche: nat, supplierSecondTranche: nat)

  /** What reading a trade from the chain gives. */
  datatype Read = ReadError(message: Text) | NoTrade | Found(trade: OnchainTrade)

  datatype Severity = Critical | High | Medium | Low

  datatype Code =
    | OnchainReadError | OnchainTradeMissing | StatusMismatch | ParticipantMismatch | AmountMismatch
    | HashMismatch | ArrivalTimestampMismatch | IndexedInvalidAddress | OnchainInvalidAddress

  datatype Field =
    | TradeLookup | TradePresence | StatusField | Buyer | Supplier
    | TotalAmountLocked | LogisticsAmount | PlatformFeesAmount | SupplierFirstTranche | SupplierSecondTranche
    | RicardianHash | ArrivalTimestamp

  datatype Value = NoValue | TextValue(text: Text) | AmountValue(amount: nat) | TimeValue(time: Option<int>)

  datatype Finding = Finding(
    tradeId: Text, severity: Severity, code: Code, field: Field, onchainValue: Value, indexedValue: Value)

  /** Address parsing and lower-casing, as the libraries do them. */
  datatype Helpers = Helpers(isZero: Text -> bool, normalize: Text -> Option<Text>, lower: Text -> Text)

  function StatusLabel(status: nat): Text {
    match status
    case 0 => Ascii("LOCKED")
    case 1 => Ascii("IN_TRANSIT")
    case 2 => Ascii("ARRIVAL_CONFIRMED")
    case 3 => Ascii("FROZEN")
    case 4 => Ascii("CLOSED")
    case _ => Ascii("UNKNOWN_") + Decimal(status)
  }

  /** All compared fields agree. */
  predicate Agrees(h: Helpers, i: IndexedTrade, read: Read) {
    && read.Found? && !h.isZero(read.trade.buyer)
    && StatusLabel(read.trade.status) == i.status
    && h.normalize(i.buyer).Some? && h.normalize(read.trade.buyer) == h.normalize(i.buyer)
    && h.normalize(i.supplier).Some? && h.normalize(read.trade.supplier) == h.normalize(i.supplier)
    && read.trade.amounts == i.amounts
    && h.lower(read.trade.ricardianHash) == h.lower(i.ricardianHash)
    && read.trade.arrivalTimestamp == i.arrivalTimestamp
  }

  /** One comparison: whether it fails, and what is then reported. */
  datatype Check = Check(fails: bool, finding: Finding)

  function InvalidAddress(tradeId: Text, indexed: bool, field: Field, value: Text): Finding {
    if indexed then Finding(tradeId, Critical, IndexedInvalidAddress, field, NoValue, TextValue(value))
    else Finding(tradeId, Critical, OnchainInvalidAddress, field, TextValue(value), NoValue)
  }

  function AmountCheck(tradeId: Text, field: Field, onchain: nat, indexed: nat): Check {
    Check(onchain != indexed,
          Finding(tradeId, Critical, AmountMismatch, field, AmountValue(onchain), AmountValue(indexed)))
  }

  function AmountChecks(tradeId: Text, onchain: Amounts, indexed: Amounts): seq<Check> {
    [AmountCheck(tradeId, TotalAmountLocked, onchain.totalAmountLocked, indexed.totalAmountLocked),
     AmountCheck(tradeId, LogisticsAmount, onchain.logisticsAmount, indexed.logisticsAmount),
     AmountCheck(tradeId, PlatformFeesAmount, onchain.platformFeesAmount, indexed.platformFeesAmount),
     AmountCheck(tradeId, SupplierFirstTranche, onchain.supplierFirstTranche, indexed.supplierFirstTranche),
     AmountCheck(tradeId, SupplierSecondTranche, onchain.supplierSecondTranche, indexed.supplierSecondTranche)]
  }

  function ParticipantDiffers(indexed: Option<Text>, onchain: Option<Text>): bool {
    indexed.Some? && onchain.Some? && onchain != indexed
  }

  function ParticipantChecks(h: Helpers, i: IndexedTrade, o: OnchainTrade): seq<Check> {
    [Check(StatusLabel(o.status) != i.status,
           Finding(i.tradeId, High, StatusMismatch, StatusField, TextValue(StatusLabel(o.status)), TextValue(i.status))),
     Check(h.normalize(i.buyer).None?, InvalidAddress(i.tradeId, true, Buyer, i.buyer)),
     Check(h.normalize(i.supplier).None?, InvalidAddress(i.tradeId, true, Supplier, i.supplier)),
     Check(h.normalize(o.buyer).None?, InvalidAddress(i.tradeId, false, Buyer, o.buyer)),
     Check(h.normalize(o.supplier).None?, InvalidAddress(i.tradeId, false, Supplier, o.supplier)),
     Check(ParticipantDiffers(h.normalize(i.buyer), h.normalize(o.buyer)),
           Finding(i.tradeId, Critical, ParticipantMismatch, Buyer, TextValue(o.buyer), TextValue(i.buyer))),
     Check(ParticipantDiffers(h.normalize(i.supplier), h.normalize(o.supplier)),
           Finding(i.tradeId, Critical, ParticipantMismatch, Supplier, TextValue(o.supplier), TextValue(i.supplier)))]
  }

  function FinalChecks(h: Helpers, i: IndexedTrade, o: OnchainTrade): seq<Check> {
    [Check(h.lower(o.ricardianHash) != h.lower(i.ricardianHash),
           Finding(i.tradeId, Critical, HashMismatch, RicardianHash, TextValue(o.ricardianHash), TextValue(i.ricardianHash))),
     Check(o.arrivalTimestamp != i.arrivalTimestamp,
           Finding(i.tradeId, Medium, ArrivalTimestampMismatch, ArrivalTimestamp,
                   TimeValue(o.arrivalTimestamp), TimeValue(i.arrivalTimestamp)))]
  }

  /** The comparisons made, in reporting order. */
  function Checks(h: Helpers, i: IndexedTrade, read: Read): seq<Check> {
    match read
    case ReadError(message) =>
      [Check(true, Finding(i.tradeId, Critical, OnchainReadError, TradeLookup, NoValue, TextValue(i.status)))]
    case NoTrade =>
      [Check(true, Finding(i.tradeId, Critical, OnchainTradeMissing, TradePresence, NoValue, TextValue(i.tradeId)))]
    case Found(o) =>
      if h.isZero(o.buyer) then
        [Check(true, Finding(i.tradeId, Critical, OnchainTradeMissing, TradePresence, NoValue, TextValue(i.tradeId)))]
      else ParticipantChecks(h, i, o) + AmountChecks(i.tradeId, o.amounts, i.amounts) + FinalChecks(h, i, o)
  }

  /** The findings of the failing checks. */
  function Failing(checks: seq<Check>): (fs: seq<Finding>)
    ensures forall f :: f in fs ==> exists k :: 0 <= k < |checks| && checks[k].fails && checks[k].finding == f
    ensures fs == [] <==> forall k :: 0 <= k < |checks| ==> !checks[k].fails
  {
    if checks == [] then []
    else Failing(checks[..|checks| - 1]) + if checks[|checks| - 1].fails then [checks[|checks| - 1].finding] else []
  }

  lemma {:induction false} FailingConcat(a: seq<Check>, b: seq<Check>)
    ensures Failing(a + b) == Failing(a) + Failing(b)
    decreases |b|
  {
    if b == [] {
      assert a + b == a;
    } else {
      assert (a + b)[..|a + b| - 1] == a + b[..|b| - 1];
      FailingConcat(a, b[..|b| - 1]);
    }
  }

  lemma FailingPush(a: seq<Check>, c: Check)
    ensures Failing(a + [c]) == Failing(a) + if c.fails then [c.finding] else []
  {
    assert (a + [c])[..|a|] == a;
  }

  /** Makes check `k`: pushes its finding if it fails. */
  method Push(findings: seq<Finding>, c: Check, ghost checks: seq<Check>, ghost k: nat) returns (pushed: seq<Finding>)
    requires k < |checks| && c == checks[k] && findings == Failing(checks[..k])
    ensures pushed == Failing(checks[..k + 1])
  {
    FailingPush(checks[..k], checks[k]);
    assert checks[..k + 1] == checks[..k] + [checks[k]];
    pushed := if c.fails then findings + [c.finding] else findings;
  }

  method CompareAmounts(tradeId: Text, onchain: Amounts, indexed: Amounts) returns (mismatches: seq<Finding>)
    ensures mismatches == Failing(AmountChecks(tradeId, onchain, indexed))
  {
    var amountFields := AmountChecks(tradeId, onchain, indexed);
    mismatches := [];
    var k := 0;
    while k < |amountFields|
      invariant 0 <= k <= |amountFields|
      invariant mismatches == Failing(amountFields[..k])
    {
      mismatches := Push(mismatches, amountFields[k], amountFields, k);
      k := k + 1;
    }
    assert amountFields[..k] == amountFields;
  }

  /** The status and the four addresses, each on its own. */
  method CompareAddresses(h: Helpers, i: IndexedTrade, o: OnchainTrade) returns (findings: seq<Finding>)
    ensures findings == Failing(ParticipantChecks(h, i, o)[..5])
  {
    ghost var checks := ParticipantChecks(h, i, o);
    var onchainStatus := StatusLabel(o.status);
    findings := Push([], Check(onchainStatus != i.status, Finding(i.tradeId, High, StatusMismatch, StatusField,
                                                                  TextValue(onchainStatus), TextValue(i.status))), checks, 0);
    findings := Push(findings, Check(h.normalize(i.buyer).None?, InvalidAddress(i.tradeId, true, Buyer, i.buyer)), checks, 1);
    findings := Push(findings, Check(h.normalize(i.supplier).None?, InvalidAddress(i.tradeId, true, Supplier, i.supplier)), checks, 2);
    findings := Push(findings, Check(h.normalize(o.buyer).None?, InvalidAddress(i.tradeId, false, Buyer, o.buyer)), checks, 3);
    findings := Push(findings, Check(h.normalize(o.supplier).None?, InvalidAddress(i.tradeId, false, Supplier, o.supplier)), checks, 4);
  }

  method CompareParticipants(h: Helpers, i: IndexedTrade, o: OnchainTrade) returns (findings: seq<Finding>)
    ensures findings == Failing(ParticipantChecks(h, i, o))
  {
    ghost var checks := ParticipantChecks(h, i, o);
    findings := CompareAddresses(h, i, o);
    var indexedBuyer, onchainBuyer := h.normalize(i.buyer), h.normalize(o.buyer);
    var indexedSupplier, onchainSupplier := h.normalize(i.supplier), h.normalize(o.supplier);
    findings := Push(findings, Check(ParticipantDiffers(indexedBuyer, onchainBuyer),
                                     Finding(i.tradeId, Critical, ParticipantMismatch, Buyer,
                                             TextValue(o.buyer), TextValue(i.buyer))), checks, 5);
    findings := Push(findings, Check(ParticipantDiffers(indexedSupplier, onchainSupplier),
                                     Finding(i.tradeId, Critical, ParticipantMismatch, Supplier,
                                             TextValue(o.supplier), TextValue(i.supplier))), checks, 6);
    assert checks[..7] == checks;
  }

  method CompareRest(h: Helpers, i: IndexedTrade, o: OnchainTrade) returns (findings: seq<Finding>)
    ensures findings == Failing(FinalChecks(h, i, o))
  {
    ghost var checks := FinalChecks(h, i, o);
    findings := Push([], Check(h.lower(o.ricardianHash) != h.lower(i.ricardianHash),
                               Finding(i.tradeId, Critical, HashMismatch, RicardianHash,
                                       TextValue(o.ricardianHash), TextValue(i.ricardianHash))), checks, 0);
    findings := Push(findings, Check(o.arrivalTimestamp != i.arrivalTimestamp,
                                     Finding(i.tradeId, Medium, ArrivalTimestampMismatch, ArrivalTimestamp,
                                             TimeValue(o.arrivalTimestamp), TimeValue(i.arrivalTimestamp))), checks, 1);
    assert checks[..2] == checks;
  }

  method ClassifyDrifts(h: Helpers, i: IndexedTrade, read: Read) returns (findings: seq<Finding>)
    ensures findings == Drifts(h, i, read)
    ensures forall f :: f in findings <==> IsDrift(h, i, read, f)
  {
    forall f ensures f in Drifts(h, i, read) <==> IsDrift(h, i, read, f) {
      FindingsAreTheDrifts(h, i, read, f);
    }
    if read.ReadError? {
      findings := Push([], Check(true, Finding(i.tradeId, Critical, OnchainReadError, TradeLookup, NoValue,
                                               TextValue(i.status))), Checks(h, i, read), 0);
      assert Checks(h, i, read)[..1] == Checks(h, i, read);
      return;
    }
    if read.NoTrade? || h.isZero(read.trade.buyer) {
      findings := Push([], Check(true, Finding(i.tradeId, Critical, OnchainTradeMissing, TradePresence, NoValue,
                                               TextValue(i.tradeId))), Checks(h, i, read), 0);
      assert Checks(h, i, read)[..1] == Checks(h, i, read);
      return;
    }
    var o := read.trade;
    findings := CompareParticipants(h, i, o);
    var amounts := CompareAmounts(i.tradeId, o.amounts, i.amounts);
    var rest := CompareRest(h, i, o);
    FoundDrifts(h, i, o);
    findings := findings + amounts + rest;
  }

  lemma FoundDrifts(h: Helpers, i: IndexedTrade, o: OnchainTrade)
    requires !h.isZero(o.buyer)
    ensures Drifts(h, i, Found(o)) == Failing(ParticipantChecks(h, i, o)) + Failing(AmountChecks(i.tradeId, o.amounts, i.amounts))
                                      + Failing(FinalChecks(h, i, o))
  {
    FailingConcat(ParticipantChecks(h, i, o), AmountChecks(i.tradeId, o.amounts, i.amounts));
    FailingConcat(ParticipantChecks(h, i, o) + AmountChecks(i.tradeId, o.amounts, i.amounts), FinalChecks(h, i, o));
  }

  // ---- What the findings mean ----

  function Drifts(h: Helpers, i: IndexedTrade, read: Read): seq<Finding> {
    Failing(Checks(h, i, read))
  }

  lemma ParticipantsAgree(h: Helpers, i: IndexedTrade, o: OnchainTrade)
    ensures Failing(ParticipantChecks(h, i, o)) == [] <==>
            && StatusLabel(o.status) == i.status
            && h.normalize(i.buyer).Some? && h.normalize(o.buyer) == h.normalize(i.buyer)
            && h.normalize(i.supplier).Some? && h.normalize(o.supplier) == h.normalize(i.supplier)
  {
    var p := ParticipantChecks(h, i, o);
    assert Failing(p) == [] <==> !p[0].fails && !p[1].fails && !p[2].fails && !p[3].fails && !p[4].fails
                                 && !p[5].fails && !p[6].fails;
  }

  /** No finding is reported exactly when every compared field agrees. */
  lemma NoDriftIffAgreement(h: Helpers, i: IndexedTrade, read: Read)
    ensures Drifts(h, i, read) == [] <==> Agrees(h, i, read)
  {
    if read.Found? && !h.isZero(read.trade.buyer) {
      var o := read.trade;
      FoundDrifts(h, i, o);
      ParticipantsAgree(h, i, o);
      var a, f := AmountChecks(i.tradeId, o.amounts, i.amounts), FinalChecks(h, i, o);
      assert Failing(a) == [] <==> !a[0].fails && !a[1].fails && !a[2].fails && !a[3].fails && !a[4].fails;
      assert Failing(f) == [] <==> !f[0].fails && !f[1].fails;
    } else {
      assert Checks(h, i, read)[0].fails;
    }
  }

  /** The place of a finding's code and field in the reporting order. */
  function Place(code: Code, field: Field): nat {
    match code
    case OnchainReadError => 0
    case OnchainTradeMissing => 0
    case StatusMismatch => 0
    case IndexedInvalidAddress => if field == Buyer then 1 else 2
    case OnchainInvalidAddress => if field == Buyer then 3 else 4
    case ParticipantMismatch => if field == Buyer then 5 else 6
    case AmountMismatch =>
      (match field
       case TotalAmountLocked => 7
       case LogisticsAmount => 8
       case PlatformFeesAmount => 9
       case SupplierFirstTranche => 10
       case _ => 11)
    case HashMismatch => 12
    case ArrivalTimestampMismatch => 13
  }

  predicate Placed(checks: seq<Check>, tradeId: Text) {
    forall k :: 0 <= k < |checks| ==>
      Place(checks[k].finding.code, checks[k].finding.field) == k && checks[k].finding.tradeId == tradeId
  }

  lemma ChecksArePlaced(h: Helpers, i: IndexedTrade, read: Read)
    ensures Placed(Checks(h, i, read), i.tradeId)
  {
  }

  predicate Ascends(fs: seq<Finding>) {
    forall j, k :: 0 <= j < k < |fs| ==> Place(fs[j].code, fs[j].field) < Place(fs[k].code, fs[k].field)
  }

  lemma {:induction false} FailingAscends(checks: seq<Check>, tradeId: Text)
    requires Placed(checks, tradeId)
    ensures Ascends(Failing(checks))
    ensures forall f :: f in Failing(checks) ==> f.tradeId == tradeId && Place(f.code, f.field) < |checks|
  {
    if checks != [] {
      var front := checks[..|checks| - 1];
      FailingAscends(front, tradeId);
      assert forall k :: 0 <= k < |Failing(front)| ==> Failing(front)[k] in Failing(front);
    }
  }

  /** No finding is about another trade, and no (code, field) pair is reported twice. */
  lemma FindingsAreDistinct(h: Helpers, i: IndexedTrade, read: Read, j: nat, k: nat)
    requires j < k < |Drifts(h, i, read)|
    ensures var fs := Drifts(h, i, read);
            && (fs[j].code != fs[k].code || fs[j].field != fs[k].field)
            && fs[j].tradeId == fs[k].tradeId == i.tradeId
  {
    ChecksArePlaced(h, i, read);
    FailingAscends(Checks(h, i, read), i.tradeId);
    assert Drifts(h, i, read)[j] in Drifts(h, i, read) && Drifts(h, i, read)[k] in Drifts(h, i, read);
  }

  // ---- Each finding, from the two records ----

  /** The trade exists on chain. */
  predicate Exists(h: Helpers, read: Read) {
    read.Found? && !h.isZero(read.trade.buyer)
  }

  function AmountIn(amounts: Amounts, field: Field): Option<nat> {
    match field
    case TotalAmountLocked => Some(amounts.totalAmountLocked)
    case LogisticsAmount => Some(amounts.logisticsAmount)
    case PlatformFeesAmount => Some(amounts.platformFeesAmount)
    case SupplierFirstTranche => Some(amounts.supplierFirstTranche)
    case SupplierSecondTranche => Some(amounts.supplierSecondTranche)
    case _ => None
  }

  /** The addresses a party field names on each side. */
  function PartyIn(field: Field, i: IndexedTrade, o: OnchainTrade): Option<(Text, Text)> {
    match field
    case Buyer => Some((i.buyer, o.buyer))
    case Supplier => Some((i.supplier, o.supplier))
    case _ => None
  }

  /** The finding is one of this trade's, with the severity and the two values it must carry. */
  predicate IsDrift(h: Helpers, i: IndexedTrade, read: Read, f: Finding) {
    && f.tradeId == i.tradeId
    && match f.code
       case OnchainReadError =>
         && read.ReadError? && f.field == TradeLookup && f.severity == Critical
         && f.onchainValue == NoValue && f.indexedValue == TextValue(i.status)
       case OnchainTradeMissing =>
         && !read.ReadError? && !Exists(h, read) && f.field == TradePresence && f.severity == Critical
         && f.onchainValue == NoValue && f.indexedValue == TextValue(i.tradeId)
       case StatusMismatch =>
         && Exists(h, read) && f.field == StatusField && f.severity == High && StatusLabel(read.trade.status) != i.status
         && f.onchainValue == TextValue(StatusLabel(read.trade.status)) && f.indexedValue == TextValue(i.status)
       case IndexedInvalidAddress =>
         && Exists(h, read) && PartyIn(f.field, i, read.trade).Some? && f.severity == Critical
         && h.normalize(PartyIn(f.field, i, read.trade).value.0).None?
         && f.onchainValue == NoValue && f.indexedValue == TextValue(PartyIn(f.field, i, read.trade).value.0)
       case OnchainInvalidAddress =>
         && Exists(h, read) && PartyIn(f.field, i, read.trade).Some? && f.severity == Critical
         && h.normalize(PartyIn(f.field, i, read.trade).value.1).None?
         && f.onchainValue == TextValue(PartyIn(f.field, i, read.trade).value.1) && f.indexedValue == NoValue
       case ParticipantMismatch =>
         && Exists(h, read) && PartyIn(f.field, i, read.trade).Some? && f.severity == Critical
         && var (indexed, onchain) := PartyIn(f.field, i, read.trade).value;
            && h.normalize(indexed).Some? && h.normalize(onchain).Some? && h.normalize(indexed) != h.normalize(onchain)
            && f.onchainValue == TextValue(onchain) && f.indexedValue == TextValue(indexed)
       case AmountMismatch =>
         && Exists(h, read) && AmountIn(i.amounts, f.field).Some? && f.severity == Critical
         && AmountIn(read.trade.amounts, f.field) != AmountIn(i.amounts, f.field)
         && f.onchainValue == AmountValue(AmountIn(read.trade.amounts, f.field).value)
         && f.indexedValue == AmountValue(AmountIn(i.amounts, f.field).value)
       case HashMismatch =>
         && Exists(h, read) && f.field == RicardianHash && f.severity == Critical
         && h.lower(read.trade.ricardianHash) != h.lower(i.ricardianHash)
         && f.onchainValue == TextValue(read.trade.ricardianHash) && f.indexedValue == TextValue(i.ricardianHash)
       case ArrivalTimestampMismatch =>
         && Exists(h, read) && f.field == ArrivalTimestamp && f.severity == Medium
         && read.trade.arrivalTimestamp != i.arrivalTimestamp
         && f.onchainValue == TimeValue(read.trade.arrivalTimestamp) && f.indexedValue == TimeValue(i.arrivalTimestamp)
  }

  lemma {:induction false} FailingIff(checks: seq<Check>, f: Finding)
    ensures f in Failing(checks) <==> exists k :: 0 <= k < |checks| && checks[k].fails && checks[k].finding == f
  {
    if checks != [] {
      var front := checks[..|checks| - 1];
      FailingIff(front, f);
      if k :| 0 <= k < |checks| && checks[k].fails && checks[k].finding == f {
        assert k < |front| ==> front[k] == checks[k];
      }
    }
  }

  lemma AddressFindings(h: Helpers, i: IndexedTrade, o: OnchainTrade, f: Finding)
    requires !h.isZero(o.buyer)
    ensures (exists k :: 0 <= k < 5 && ParticipantChecks(h, i, o)[k].fails && ParticipantChecks(h, i, o)[k].finding == f) <==>
            IsDrift(h, i, Found(o), f) && f.code in {StatusMismatch, IndexedInvalidAddress, OnchainInvalidAddress}
  {
    var p := ParticipantChecks(h, i, o);
    assert (exists k :: 0 <= k < 5 && p[k].fails && p[k].finding == f) <==>
      (p[0].fails && p[0].finding == f) || (p[1].fails && p[1].finding == f) || (p[2].fails && p[2].finding == f)
      || (p[3].fails && p[3].finding == f) || (p[4].fails && p[4].finding == f);
  }

  lemma ParticipantFindings(h: Helpers, i: IndexedTrade, o: OnchainTrade, f: Finding)
    requires !h.isZero(o.buyer)
    ensures f in Failing(ParticipantChecks(h, i, o)) <==>
            IsDrift(h, i, Found(o), f)
            && f.code in {StatusMismatch, IndexedInvalidAddress, OnchainInvalidAddress, ParticipantMismatch}
  {
    var p := ParticipantChecks(h, i, o);
    FailingIff(p, f);
    AddressFindings(h, i, o, f);
    assert f in Failing(p) <==>
      (exists k :: 0 <= k < 5 && p[k].fails && p[k].finding == f)
      || (p[5].fails && p[5].finding == f) || (p[6].fails && p[6].finding == f);
  }

  lemma AmountFindings(h: Helpers, i: IndexedTrade, o: OnchainTrade, f: Finding)
    requires !h.isZero(o.buyer)
    ensures f in Failing(AmountChecks(i.tradeId, o.amounts, i.amounts)) <==>
            IsDrift(h, i, Found(o), f) && f.code == AmountMismatch
  {
    var a := AmountChecks(i.tradeId, o.amounts, i.amounts);
    FailingIff(a, f);
    assert f in Failing(a) <==>
      (a[0].fails && a[0].finding == f) || (a[1].fails && a[1].finding == f) || (a[2].fails && a[2].finding == f)
      || (a[3].fails && a[3].finding == f) || (a[4].fails && a[4].finding == f);
  }

  lemma FinalFindings(h: Helpers, i: IndexedTrade, o: OnchainTrade, f: Finding)
    requires !h.isZero(o.buyer)
    ensures f in Failing(FinalChecks(h, i, o)) <==>
            IsDrift(h, i, Found(o), f) && f.code in {HashMismatch, ArrivalTimestampMismatch}
  {
    var c := FinalChecks(h, i, o);
    FailingIff(c, f);
    assert f in Failing(c) <==> (c[0].fails && c[0].finding == f) || (c[1].fails && c[1].finding == f);
  }

  /** Exactly the drifts between the two records are reported, each with its severity
      and the value of both sides. */
  lemma FindingsAreTheDrifts(h: Helpers, i: IndexedTrade, read: Read, f: Finding)
    ensures f in Drifts(h, i, read) <==> IsDrift(h, i, read, f)
  {
    if Exists(h, read) {
      var o := read.trade;
      FoundDrifts(h, i, o);
      ParticipantFindings(h, i, o, f);
      AmountFindings(h, i, o, f);
      FinalFindings(h, i, o, f);
    } else {
      FailingIff(Checks(h, i, read), f);
      assert |Checks(h, i, read)| == 1 && Checks(h, i, read)[0].fails;
    }
  }

  // ---- Status labels ----

  /** The name under which the indexer stores a status. */
  function IndexedName(status: Indexer.TradeStatus): Text {
    match status
    case Locked => Ascii("LOCKED")
    case InTransit => Ascii("IN_TRANSIT")
    case ArrivalConfirmedStatus => Ascii("ARRIVAL_CONFIRMED")
    case Frozen => Ascii("FROZEN")
    case Closed => Ascii("CLOSED")
  }

  /** The number by which the contract knows it. */
  function ContractNumber(status: Indexer.TradeStatus): nat {
    match status
    case Locked => 0
    case InTransit => 1
    case ArrivalConfirmedStatus => 2
    case Frozen => 3
    case Closed => 4
  }

  /** A status read from the chain agrees with one the indexer stored exactly when it is
      the contract's number for it. */
  lemma LabelsAgreeIffSameStatus(onchain: nat, indexed: Indexer.TradeStatus)
    ensures StatusLabel(onchain) == IndexedName(indexed) <==> onchain == ContractNumber(indexed)
  {
    var shown, name := StatusLabel(onchain), IndexedName(indexed);
    if onchain > 4 {
      assert shown[0] == 85 && (name[0] == 76 || name[0] == 73 || name[0] == 65 || name[0] == 70 || name[0] == 67);
    } else if shown == name {
      assert shown[0] == name[0];
    }
  }
}

/** The service-auth middleware: ordered checks, then one nonce consume; and
    the arithmetic by which skew window and nonce ttl exclude replays. */
module ServiceAuth {
  import opened Texts
  import opened NonceStore

  datatype Scheme = ApiKeyScheme | SharedSecretScheme

  datatype Principal = Principal(id: Text, secret: Text, active: bool, scheme: Scheme)

  datatype ApiKeyRecord = ApiKeyRecord(id: Text, secret: Text, active: bool)

  /** `sharedSecret` is the trimmed secret, absent when blank. */
  datatype Options = Options(
    enabled: bool,
    apiKeys: map<Text, ApiKeyRecord>,
    sharedSecret: Option<Text>,
    maxSkewSeconds: nat,
    nonceTtlSeconds: int)

  /** Headers are trimmed and absent when blank; `bodySha256` is the body hash. */
  datatype Request = Request(
    apiKey: Option<Text>,
    timestamp: Option<Text>,
    nonce: Option<Text>,
    signature: Option<Text>,
    verb: Text,
    path: Text,
    query: Text,
    bodySha256: Text)

  datatype Crypto = Crypto(sha256Hex: Text -> Text, hmacHex: (Text, Text) -> Text)

  datatype Code =
    | MissingHeaders
    | InvalidTimestamp
    | TimestampSkew
    | UnknownApiKey
    | Forbidden
    | InvalidNonce
    | InvalidSignature
    | NonceReplay
    | Unavailable

  datatype Checked = Refuse(code: Code) | Proceed(principal: Principal, timestampSeconds: nat, nonce: Text)

  datatype Outcome = Bypass | Denied(code: Code) | Authenticated(principal: Principal, timestampSeconds: nat, nonce: Text)

  const API_KEY_MAX_LENGTH := 128
  const NONCE_MAX_LENGTH := 255
  const MAX_SAFE_INTEGER := 9007199254740991
  const SHARED_HMAC_KEY_ID: Text := [95, 95, 115, 104, 97, 114, 101, 100, 95, 104, 109, 97, 99, 95, 95]
  const NEWLINE: CodeUnit := 10

  function ResolvePrincipal(apiKey: Option<Text>, options: Options): Option<Principal> {
    if apiKey.Some? then
      if |apiKey.value| > API_KEY_MAX_LENGTH || apiKey.value !in options.apiKeys then None
      else
        var r := options.apiKeys[apiKey.value];
        Some(Principal(r.id, r.secret, r.active, ApiKeyScheme))
    else if options.sharedSecret.Some? then
      Some(Principal(SHARED_HMAC_KEY_ID, options.sharedSecret.value, true, SharedSecretScheme))
    else None
  }

  /** `parts.join("\n")`. */
  function JoinLines(parts: seq<Text>): Text {
    if parts == [] then [] else if |parts| == 1 then parts[0] else parts[0] + [NEWLINE] + JoinLines(parts[1..])
  }

  function LowerHex(t: Text): Text {
    seq(|t|, i requires 0 <= i < |t| => if 65 <= t[i] <= 70 then t[i] + 32 else t[i])
  }

  predicate IsHex64(t: Text) {
    |t| == 64 && forall u :: u in t ==> IsDigit(u) || 97 <= u <= 102
  }

  predicate HexEquals(a: Text, b: Text) {
    IsHex64(LowerHex(a)) && IsHex64(LowerHex(b)) && LowerHex(a) == LowerHex(b)
  }

  function TimestampOf(t: Text): Option<nat> {
    if (forall u :: u in t ==> IsDigit(u)) && 0 < DecimalValue(t) <= MAX_SAFE_INTEGER then Some(DecimalValue(t)) else None
  }

  function Distance(a: int, b: int): nat {
    if a < b then b - a else a - b
  }

  function EffectiveNonce(req: Request, timestamp: Text, crypto: Crypto): Text {
    if req.nonce.Some? then req.nonce.value
    else
      var derived := crypto.sha256Hex(JoinLines([req.verb, req.path, req.query, req.bodySha256, timestamp]));
      if |derived| > NONCE_MAX_LENGTH then derived[..NONCE_MAX_LENGTH] else derived
  }

  /** Every check before the nonce is consumed, in order. */
  function Check(options: Options, crypto: Crypto, req: Request, nowSeconds: int): Checked {
    if req.timestamp.None? || req.signature.None? then Refuse(MissingHeaders)
    else if TimestampOf(req.timestamp.value).None? then Refuse(InvalidTimestamp)
    else
      var seconds := TimestampOf(req.timestamp.value).value;
      if Distance(nowSeconds, seconds) > options.maxSkewSeconds then Refuse(TimestampSkew)
      else
        var principal := ResolvePrincipal(req.apiKey, options);
        if principal.None? then Refuse(UnknownApiKey)
        else if !principal.value.active then Refuse(Forbidden)
        else
          var nonce := EffectiveNonce(req, req.timestamp.value, crypto);
          if IsBlank(nonce) || |nonce| > NONCE_MAX_LENGTH then Refuse(InvalidNonce)
          else
            var signed := JoinLines([req.verb, req.path, req.query, req.bodySha256, req.timestamp.value, nonce]);
            if HexEquals(req.signature.value, crypto.hmacHex(principal.value.secret, signed))
            then Proceed(principal.value, seconds, nonce)
            else Refuse(InvalidSignature)
  }

  /** What follows the checks: the store's entries and the outcome. */
  function Settle(entries: seq<Entry>, maxEntries: int, ttlSeconds: int, checked: Checked, nowMs: nat)
    : (seq<Entry>, Outcome)
  {
    match checked
    case Refuse(code) => (entries, Denied(code))
    case Proceed(principal, seconds, nonce) =>
      if IsBlank(principal.id) || IsBlank(nonce) || ttlSeconds <= 0 then (entries, Denied(Unavailable))
      else
        var (after, isNew) := Consumed(entries, maxEntries, NonceKey(principal.id, nonce), nowMs, ttlSeconds);
        (after, if isNew then Authenticated(principal, seconds, nonce) else Denied(NonceReplay))
  }

  /** One request at clock reading `nowMs`. */
  function Step(entries: seq<Entry>, maxEntries: int, options: Options, crypto: Crypto, req: Request, nowMs: nat)
    : (seq<Entry>, Outcome)
  {
    if !options.enabled then (entries, Bypass)
    else Settle(entries, maxEntries, options.nonceTtlSeconds, Check(options, crypto, req, nowMs / 1000), nowMs)
  }

  // ---- What an answer means, from the request's own fields ----

  predicate HasHeaders(req: Request) {
    req.timestamp.Some? && req.signature.Some?
  }

  predicate TimestampReads(req: Request) {
    && HasHeaders(req) && (forall u :: u in req.timestamp.value ==> IsDigit(u))
    && 0 < DecimalValue(req.timestamp.value) <= MAX_SAFE_INTEGER
  }

  predicate InTime(options: Options, req: Request, nowMs: nat) {
    && TimestampReads(req)
    && DecimalValue(req.timestamp.value) - options.maxSkewSeconds
       <= nowMs / 1000 <= DecimalValue(req.timestamp.value) + options.maxSkewSeconds
  }

  /** The principal is the key's record, or the shared secret's where there is no key. */
  predicate IsCaller(options: Options, req: Request, p: Principal) {
    if req.apiKey.Some? then
      && |req.apiKey.value| <= API_KEY_MAX_LENGTH && req.apiKey.value in options.apiKeys
      && var known := options.apiKeys[req.apiKey.value];
         p == Principal(known.id, known.secret, known.active, ApiKeyScheme)
    else options.sharedSecret.Some? && p == Principal(SHARED_HMAC_KEY_ID, options.sharedSecret.value, true, SharedSecretScheme)
  }

  /** The nonce is the header's, or the start of a hash over the other parts. */
  predicate IsNonceOf(crypto: Crypto, req: Request, nonce: Text) {
    && HasHeaders(req)
    && if req.nonce.Some? then nonce == req.nonce.value
       else
         var parts := [req.verb, req.path, req.query, req.bodySha256, req.timestamp.value];
         var derived := crypto.sha256Hex(JoinLines(parts));
         nonce <= derived && |nonce| == if |derived| < NONCE_MAX_LENGTH then |derived| else NONCE_MAX_LENGTH
  }

  predicate IsSound(nonce: Text) {
    !IsBlank(nonce) && |nonce| <= NONCE_MAX_LENGTH
  }

  /** The text that is signed. */
  function SignedText(req: Request, timestamp: Text, nonce: Text): Text {
    JoinLines([req.verb, req.path, req.query, req.bodySha256, timestamp, nonce])
  }

  /** The signature is the caller's over every part of the request and the nonce. */
  predicate IsSigned(crypto: Crypto, req: Request, p: Principal, nonce: Text) {
    && HasHeaders(req)
    && HexEquals(req.signature.value,
                 crypto.hmacHex(p.secret, SignedText(req, req.timestamp.value, nonce)))
  }

  /** The caller may act: it is known and active, with a sound nonce. */
  predicate MayAct(options: Options, crypto: Crypto, req: Request, p: Principal, nonce: Text) {
    IsCaller(options, req, p) && p.active && IsNonceOf(crypto, req, nonce) && IsSound(nonce)
  }

  predicate IsLive(entries: seq<Entry>, key: Text, nowMs: nat) {
    exists i :: 0 <= i < |entries| && entries[i].key == key && entries[i].expiresAt > nowMs
  }

  /** What each answer says of the request, the clock and the nonces recorded before. */
  ghost predicate IsAnswer(entries: seq<Entry>, options: Options, crypto: Crypto, req: Request, nowMs: nat, outcome: Outcome) {
    match outcome
    case Bypass => !options.enabled
    case Authenticated(p, seconds, nonce) =>
      && options.enabled && InTime(options, req, nowMs) && seconds == DecimalValue(req.timestamp.value)
      && MayAct(options, crypto, req, p, nonce) && IsSigned(crypto, req, p, nonce)
      && !IsBlank(p.id) && options.nonceTtlSeconds > 0 && !IsLive(entries, NonceKey(p.id, nonce), nowMs)
    case Denied(code) =>
      && options.enabled
      && match code
         case MissingHeaders => !HasHeaders(req)
         case InvalidTimestamp => HasHeaders(req) && !TimestampReads(req)
         case TimestampSkew => TimestampReads(req) && !InTime(options, req, nowMs)
         case UnknownApiKey => InTime(options, req, nowMs) && forall p :: !IsCaller(options, req, p)
         case Forbidden => InTime(options, req, nowMs) && exists p :: IsCaller(options, req, p) && !p.active
         case InvalidNonce =>
           && InTime(options, req, nowMs)
           && exists p, nonce :: IsCaller(options, req, p) && p.active && IsNonceOf(crypto, req, nonce) && !IsSound(nonce)
         case InvalidSignature =>
           && InTime(options, req, nowMs)
           && exists p, nonce :: MayAct(options, crypto, req, p, nonce) && !IsSigned(crypto, req, p, nonce)
         case Unavailable =>
           && InTime(options, req, nowMs)
           && exists p, nonce :: MayAct(options, crypto, req, p, nonce) && IsSigned(crypto, req, p, nonce)
                                 && (IsBlank(p.id) || options.nonceTtlSeconds <= 0)
         case NonceReplay =>
           && InTime(options, req, nowMs)
           && exists p, nonce :: MayAct(options, crypto, req, p, nonce) && IsSigned(crypto, req, p, nonce)
                                 && !IsBlank(p.id) && options.nonceTtlSeconds > 0
                                 && IsLive(entries, NonceKey(p.id, nonce), nowMs)
  }

  lemma CallerIsResolved(options: Options, req: Request)
    ensures var p := ResolvePrincipal(req.apiKey, options);
            if p.Some? then IsCaller(options, req, p.value) && forall q :: IsCaller(options, req, q) ==> q == p.value
            else forall q :: !IsCaller(options, req, q)
  {
  }

  lemma NonceIsEffective(crypto: Crypto, req: Request, nonce: Text)
    requires HasHeaders(req)
    ensures IsNonceOf(crypto, req, nonce) <==> nonce == EffectiveNonce(req, req.timestamp.value, crypto)
  {
    if req.nonce.None? {
      var derived := crypto.sha256Hex(JoinLines([req.verb, req.path, req.query, req.bodySha256, req.timestamp.value]));
      assert derived[..|derived|] == derived;
      if nonce <= derived {
        assert nonce == derived[..|nonce|];
      }
    }
  }

  /** The checks' half of the answer. */
  lemma ChecksMean(options: Options, crypto: Crypto, req: Request, nowMs: nat)
    ensures match Check(options, crypto, req, nowMs / 1000)
            case Refuse(code) => !code.Unavailable? && !code.NonceReplay?
                                 && (options.enabled ==> IsAnswer([], options, crypto, req, nowMs, Denied(code)))
            case Proceed(p, seconds, nonce) =>
              && InTime(options, req, nowMs) && seconds == DecimalValue(req.timestamp.value)
              && MayAct(options, crypto, req, p, nonce) && IsSigned(crypto, req, p, nonce)
  {
    if TimestampReads(req) && InTime(options, req, nowMs) {
      CallerIsResolved(options, req);
      var p := ResolvePrincipal(req.apiKey, options);
      var nonce := EffectiveNonce(req, req.timestamp.value, crypto);
      NonceIsEffective(crypto, req, nonce);
      if p.Some? {
        assert IsCaller(options, req, p.value) && IsNonceOf(crypto, req, nonce);
        assert IsSound(nonce) && p.value.active ==> MayAct(options, crypto, req, p.value, nonce);
      }
    }
  }

  lemma {:induction false} LiveKeyIsLive(entries: seq<Entry>, key: Text, nowMs: nat)
    ensures HasKey(Live(entries, nowMs), key) <==> IsLive(entries, key, nowMs)
  {
    LiveElements(entries, nowMs);
    if HasKey(Live(entries, nowMs), key) {
      var live := Live(entries, nowMs);
      var e :| e in live && e.key == key;
      assert e in entries;
    }
    if IsLive(entries, key, nowMs) {
      var i :| 0 <= i < |entries| && entries[i].key == key && entries[i].expiresAt > nowMs;
      assert entries[i] in Live(entries, nowMs);
    }
  }

  /** Every answer means what it says. */
  lemma AnswerIsRight(entries: seq<Entry>, maxEntries: int, options: Options, crypto: Crypto, req: Request, nowMs: nat)
    ensures IsAnswer(entries, options, crypto, req, nowMs, Step(entries, maxEntries, options, crypto, req, nowMs).1)
  {
    if options.enabled {
      var checked := Check(options, crypto, req, nowMs / 1000);
      ChecksMean(options, crypto, req, nowMs);
      match checked {
        case Refuse(code) =>
        case Proceed(p, seconds, nonce) =>
          LiveKeyIsLive(entries, NonceKey(p.id, nonce), nowMs);
          assert MayAct(options, crypto, req, p, nonce) && IsSigned(crypto, req, p, nonce);
      }
    }
  }

  lemma OneCaller(options: Options, crypto: Crypto, req: Request, p: Principal, q: Principal, nonce: Text, other: Text)
    requires IsCaller(options, req, p) && IsCaller(options, req, q)
    requires IsNonceOf(crypto, req, nonce) && IsNonceOf(crypto, req, other)
    ensures p == q && nonce == other
  {
    CallerIsResolved(options, req);
    NonceIsEffective(crypto, req, nonce);
    NonceIsEffective(crypto, req, other);
  }

  /** No two answers fit one request, so each answer is given exactly when it fits. */
  lemma OneAnswer(entries: seq<Entry>, options: Options, crypto: Crypto, req: Request, nowMs: nat, a: Outcome, b: Outcome)
    requires IsAnswer(entries, options, crypto, req, nowMs, a) && IsAnswer(entries, options, crypto, req, nowMs, b)
    ensures a == b
  {
    if a != b {
      DifferentAnswersClash(entries, options, crypto, req, nowMs, a, b);
    }
  }

  lemma DifferentAnswersClash(entries: seq<Entry>, options: Options, crypto: Crypto, req: Request, nowMs: nat, a: Outcome, b: Outcome)
    requires IsAnswer(entries, options, crypto, req, nowMs, a) && a != b
    ensures !IsAnswer(entries, options, crypto, req, nowMs, b)
  {
    forall p, q, nonce, other | IsCaller(options, req, p) && IsCaller(options, req, q)
                                && IsNonceOf(crypto, req, nonce) && IsNonceOf(crypto, req, other)
      ensures p == q && nonce == other
    {
      OneCaller(options, crypto, req, p, q, nonce, other);
    }
    forall p, q | IsCaller(options, req, p) && IsCaller(options, req, q) ensures p == q {
      CallerIsResolved(options, req);
    }
  }

  /** The value of a hexadecimal digit of either case. */
  function HexDigit(u: CodeUnit): Option<nat> {
    if IsDigit(u) then Some(u - ZERO)
    else if 97 <= u <= 102 then Some(u - 87)
    else if 65 <= u <= 70 then Some(u - 55)
    else None
  }

  /** Signatures agree exactly when both are 64 hexadecimal digits of the same values. */
  lemma HexEqualsIffSameDigits(a: Text, b: Text)
    ensures HexEquals(a, b) <==>
            |a| == |b| == 64 && forall i :: 0 <= i < 64 ==> HexDigit(a[i]).Some? && HexDigit(a[i]) == HexDigit(b[i])
  {
    HexTextIff(a);
    HexTextIff(b);
    var x, y := LowerHex(a), LowerHex(b);
    if IsHex64(x) && IsHex64(y) {
      forall i | 0 <= i < 64 ensures x[i] == y[i] <==> HexDigit(a[i]) == HexDigit(b[i]) {
        assert HexDigit(a[i]).Some? && HexDigit(b[i]).Some?;
      }
      assert x == y <==> forall i :: 0 <= i < 64 ==> x[i] == y[i];
    }
  }

  lemma HexTextIff(t: Text)
    ensures IsHex64(LowerHex(t)) <==> |t| == 64 && forall i :: 0 <= i < 64 ==> HexDigit(t[i]).Some?
  {
    var lower := LowerHex(t);
    assert forall i :: 0 <= i < |t| ==> (HexDigit(t[i]).Some? <==> IsDigit(lower[i]) || 97 <= lower[i] <= 102);
    if IsHex64(lower) {
      forall i | 0 <= i < 64 ensures HexDigit(t[i]).Some? {
        assert lower[i] in lower;
      }
    } else if |t| == 64 {
      var u :| u in lower && !(IsDigit(u) || 97 <= u <= 102);
      var i :| 0 <= i < |lower| && lower[i] == u;
      assert HexDigit(t[i]).None?;
    }
  }

  lemma {:induction false} LinesTellApart(a: seq<Text>, b: seq<Text>)
    requires |a| == |b| > 0 && JoinLines(a) == JoinLines(b)
    requires forall t :: t in a || t in b ==> NEWLINE !in t
    ensures a == b
  {
    assert a[0] in a && b[0] in b;
    if |a| > 1 {
      FirstLineTellsApart(a[0], b[0], JoinLines(a[1..]), JoinLines(b[1..]));
      assert forall t :: t in a[1..] ==> t in a;
      assert forall t :: t in b[1..] ==> t in b;
      LinesTellApart(a[1..], b[1..]);
      assert a == [a[0]] + a[1..] && b == [b[0]] + b[1..];
    }
  }

  lemma FirstLineTellsApart(a: Text, b: Text, x: Text, y: Text)
    requires a + [NEWLINE] + x == b + [NEWLINE] + y && NEWLINE !in a && NEWLINE !in b
    ensures a == b && x == y
  {
    var t := a + [NEWLINE] + x;
    assert t[|a|] == NEWLINE && t[|b|] == NEWLINE;
    assert forall i :: 0 <= i < |a| ==> t[i] == a[i];
    assert forall i :: 0 <= i < |b| ==> t[i] == b[i];
    assert |a| == |b|;
    assert a == t[..|a|] && b == t[..|b|];
    assert x == t[|a| + 1..] && y == t[|b| + 1..];
  }

  /** No part holds a line end; header values and request lines never do. */
  predicate OneLine(req: Request, timestamp: Text, nonce: Text) {
    forall t :: t in [req.verb, req.path, req.query, req.bodySha256, timestamp, nonce] ==> NEWLINE !in t
  }

  /** The signed text determines every part of the request, its timestamp and nonce. */
  lemma SignedTextTellsApart(a: Request, b: Request, s: Text, t: Text, nonce: Text, other: Text)
    requires SignedText(a, s, nonce) == SignedText(b, t, other) && OneLine(a, s, nonce) && OneLine(b, t, other)
    ensures a.verb == b.verb && a.path == b.path && a.query == b.query && a.bodySha256 == b.bodySha256
    ensures s == t && nonce == other
  {
    var x, y := [a.verb, a.path, a.query, a.bodySha256, s, nonce], [b.verb, b.path, b.query, b.bodySha256, t, other];
    LinesTellApart(x, y);
    assert x[0] == y[0] && x[1] == y[1] && x[2] == y[2] && x[3] == y[3] && x[4] == y[4] && x[5] == y[5];
  }

  method Authenticate(store: InMemoryNonceStore, options: Options, crypto: Crypto, req: Request, nowMs: nat)
    returns (outcome: Outcome)
    requires store.Valid()
    modifies store
    ensures store.Valid()
    ensures (store.store, outcome) == Step(old(store.store), store.maxEntries, options, crypto, req, nowMs)
    ensures IsAnswer(old(store.store), options, crypto, req, nowMs, outcome)
  {
    AnswerIsRight(store.store, store.maxEntries, options, crypto, req, nowMs);
    if !options.enabled {
      return Bypass;
    }
    var checked := Check(options, crypto, req, nowMs / 1000);
    if checked.Refuse? {
      return Denied(checked.code);
    }
    var answer := store.Consume(checked.principal.id, checked.nonce, options.nonceTtlSeconds, nowMs);
    match answer {
      case Throws => outcome := Denied(Unavailable);
      case Rejected => outcome := Denied(NonceReplay);
      case Accepted => outcome := Authenticated(checked.principal, checked.timestampSeconds, checked.nonce);
    }
  }

  // ---- Runs ----

  datatype Arrival = Arrival(req: Request, nowMs: nat)

  function Run(entries: seq<Entry>, maxEntries: int, options: Options, crypto: Crypto, arrivals: seq<Arrival>)
    : (outcomes: seq<Outcome>)
    ensures |outcomes| == |arrivals|
    decreases |arrivals|
  {
    if arrivals == [] then []
    else
      var (after, outcome) := Step(entries, maxEntries, options, crypto, arrivals[0].req, arrivals[0].nowMs);
      [outcome] + Run(after, maxEntries, options, crypto, arrivals[1..])
  }

  predicate ClockForward(last: int, arrivals: seq<Arrival>)
    decreases |arrivals|
  {
    arrivals == [] || (last <= arrivals[0].nowMs && ClockForward(arrivals[0].nowMs, arrivals[1..]))
  }

  /** The entry an acceptance leaves. */
  function EntryOf(outcome: Outcome, ttlSeconds: int, nowMs: nat): seq<Entry> {
    if outcome.Authenticated?
    then [Entry(NonceKey(outcome.principal.id, outcome.nonce), nowMs + ttlSeconds * 1000)]
    else []
  }

  function Acceptance(entries: seq<Entry>, maxEntries: int, options: Options, crypto: Crypto, a: Arrival): seq<Entry> {
    EntryOf(Step(entries, maxEntries, options, crypto, a.req, a.nowMs).1, options.nonceTtlSeconds, a.nowMs)
  }

  /** At every acceptance, fewer than `maxEntries` nonces were accepted within the last ttl. */
  predicate NeverFull(entries: seq<Entry>, history: seq<Entry>, maxEntries: int, options: Options, crypto: Crypto,
                      arrivals: seq<Arrival>)
    decreases |arrivals|
  {
    arrivals == []
    || var a := arrivals[0];
       var accepted := Acceptance(entries, maxEntries, options, crypto, a);
       && (accepted == [] || |Live(history, a.nowMs)| < maxEntries)
       && NeverFull(Step(entries, maxEntries, options, crypto, a.req, a.nowMs).0, history + accepted,
                    maxEntries, options, crypto, arrivals[1..])
  }

  /** The store holds at least every history entry that can still be live. */
  ghost predicate Remembers(entries: seq<Entry>, history: seq<Entry>, last: int) {
    Live(entries, last) == Live(history, last)
  }

  lemma ConsumeRemembers(entries: seq<Entry>, history: seq<Entry>, last: int, maxEntries: int,
                         key: Text, now: nat, ttlSeconds: nat)
    requires Remembers(entries, history, last) && last <= now && ttlSeconds > 0
    requires Consumed(entries, maxEntries, key, now, ttlSeconds).1 ==> |Live(history, now)| < maxEntries
    ensures var (after, accepted) := Consumed(entries, maxEntries, key, now, ttlSeconds);
            Remembers(after, if accepted then history + [Entry(key, now + ttlSeconds * 1000)] else history, now)
  {
    LiveTwice(entries, last, now);
    LiveTwice(history, last, now);
    LiveTwice(entries, now, now);
    var added := Entry(key, now + ttlSeconds * 1000);
    LivePush(Live(entries, now), added, now);
    LivePush(history, added, now);
  }

  lemma SettleRemembers(entries: seq<Entry>, history: seq<Entry>, last: int, maxEntries: int,
                        ttlSeconds: int, checked: Checked, nowMs: nat)
    requires Remembers(entries, history, last) && last <= nowMs
    requires EntryOf(Settle(entries, maxEntries, ttlSeconds, checked, nowMs).1, ttlSeconds, nowMs) == []
             || |Live(history, nowMs)| < maxEntries
    ensures var (after, outcome) := Settle(entries, maxEntries, ttlSeconds, checked, nowMs);
            Remembers(after, history + EntryOf(outcome, ttlSeconds, nowMs), nowMs)
  {
    assert history + [] == history;
    if checked.Proceed? && !IsBlank(checked.principal.id) && !IsBlank(checked.nonce) && ttlSeconds > 0 {
      ConsumeRemembers(entries, history, last, maxEntries, NonceKey(checked.principal.id, checked.nonce), nowMs, ttlSeconds);
    } else {
      LiveTwice(entries, last, nowMs);
      LiveTwice(history, last, nowMs);
    }
  }

  lemma StepRemembers(entries: seq<Entry>, history: seq<Entry>, last: int, maxEntries: int,
                      options: Options, crypto: Crypto, a: Arrival)
    requires Remembers(entries, history, last) && last <= a.nowMs
    requires Acceptance(entries, maxEntries, options, crypto, a) == [] || |Live(history, a.nowMs)| < maxEntries
    ensures Remembers(Step(entries, maxEntries, options, crypto, a.req, a.nowMs).0,
                      history + Acceptance(entries, maxEntries, options, crypto, a), a.nowMs)
  {
    if options.enabled {
      SettleRemembers(entries, history, last, maxEntries, options.nonceTtlSeconds,
                      Check(options, crypto, a.req, a.nowMs / 1000), a.nowMs);
    } else {
      assert history + [] == history;
      LiveTwice(entries, last, a.nowMs);
      LiveTwice(history, last, a.nowMs);
    }
  }

  /** A remembered nonce is not accepted before its entry expires. */
  lemma {:induction false} RememberedIsRefused(
    entries: seq<Entry>, history: seq<Entry>, last: int, maxEntries: int, options: Options, crypto: Crypto,
    arrivals: seq<Arrival>, e: Entry, j: nat)
    requires Remembers(entries, history, last) && ClockForward(last, arrivals)
    requires NeverFull(entries, history, maxEntries, options, crypto, arrivals)
    requires e in history && j < |arrivals|
    requires Run(entries, maxEntries, options, crypto, arrivals)[j].Authenticated?
    requires var o := Run(entries, maxEntries, options, crypto, arrivals)[j];
             NonceKey(o.principal.id, o.nonce) == e.key
    ensures arrivals[j].nowMs >= e.expiresAt
    decreases |arrivals|
  {
    var a := arrivals[0];
    if j > 0 {
      StepRemembers(entries, history, last, maxEntries, options, crypto, a);
      RememberedIsRefused(Step(entries, maxEntries, options, crypto, a.req, a.nowMs).0,
                          history + Acceptance(entries, maxEntries, options, crypto, a),
                          a.nowMs, maxEntries, options, crypto, arrivals[1..], e, j - 1);
    } else if a.nowMs < e.expiresAt {
      LiveTwice(entries, last, a.nowMs);
      LiveTwice(history, last, a.nowMs);
      LiveElements(history, a.nowMs);
    }
  }

  /** Two clock readings that both accept one timestamp are less than a ttl apart. */
  lemma SkewWindowWithinTtl(first: nat, second: nat, seconds: nat, maxSkewSeconds: nat, ttlSeconds: nat)
    requires Distance(first / 1000, seconds) <= maxSkewSeconds
    requires Distance(second / 1000, seconds) <= maxSkewSeconds
    requires ttlSeconds > 2 * maxSkewSeconds
    ensures second < first + ttlSeconds * 1000
  {
    assert second / 1000 - first / 1000 <= 2 * maxSkewSeconds;
  }

  predicate SameTriple(a: Outcome, b: Outcome) {
    a.Authenticated? && b.Authenticated?
    && a.principal.id == b.principal.id && a.timestampSeconds == b.timestampSeconds && a.nonce == b.nonce
  }

  lemma {:induction false} AcceptedWithinSkew(
    entries: seq<Entry>, maxEntries: int, options: Options, crypto: Crypto, arrivals: seq<Arrival>, i: nat)
    requires i < |arrivals| && Run(entries, maxEntries, options, crypto, arrivals)[i].Authenticated?
    ensures Distance(arrivals[i].nowMs / 1000, Run(entries, maxEntries, options, crypto, arrivals)[i].timestampSeconds)
            <= options.maxSkewSeconds
    ensures options.nonceTtlSeconds > 0
    decreases |arrivals|
  {
    var a := arrivals[0];
    if i > 0 {
      AcceptedWithinSkew(Step(entries, maxEntries, options, crypto, a.req, a.nowMs).0,
                         maxEntries, options, crypto, arrivals[1..], i - 1);
    }
  }

  /** The first request's triple is not accepted again. */
  lemma FirstIsNotRepeated(
    entries: seq<Entry>, history: seq<Entry>, last: int, maxEntries: int, options: Options, crypto: Crypto,
    arrivals: seq<Arrival>, j: nat)
    requires options.nonceTtlSeconds > 2 * options.maxSkewSeconds
    requires Remembers(entries, history, last) && ClockForward(last, arrivals)
    requires NeverFull(entries, history, maxEntries, options, crypto, arrivals)
    requires 0 < j < |arrivals|
    ensures var outcomes := Run(entries, maxEntries, options, crypto, arrivals);
            !SameTriple(outcomes[0], outcomes[j])
  {
    var a := arrivals[0];
    var (after, outcome) := Step(entries, maxEntries, options, crypto, a.req, a.nowMs);
    var outcomes := Run(entries, maxEntries, options, crypto, arrivals);
    assert outcomes[j] == Run(after, maxEntries, options, crypto, arrivals[1..])[j - 1];
    if SameTriple(outcomes[0], outcomes[j]) {
      var accepted := Acceptance(entries, maxEntries, options, crypto, a);
      StepRemembers(entries, history, last, maxEntries, options, crypto, a);
      AcceptedWithinSkew(entries, maxEntries, options, crypto, arrivals, 0);
      AcceptedWithinSkew(entries, maxEntries, options, crypto, arrivals, j);
      assert accepted[0] in history + accepted;
      SkewWindowWithinTtl(a.nowMs, arrivals[j].nowMs, outcomes[0].timestampSeconds,
                          options.maxSkewSeconds, options.nonceTtlSeconds);
      RememberedIsRefused(after, history + accepted, a.nowMs, maxEntries, options, crypto,
                          arrivals[1..], accepted[0], j - 1);
    }
  }

  lemma RunTail(entries: seq<Entry>, maxEntries: int, options: Options, crypto: Crypto, arrivals: seq<Arrival>, i: nat)
    requires 0 < i < |arrivals|
    ensures Run(entries, maxEntries, options, crypto, arrivals)[i]
            == Run(Step(entries, maxEntries, options, crypto, arrivals[0].req, arrivals[0].nowMs).0,
                   maxEntries, options, crypto, arrivals[1..])[i - 1]
  {
  }

  /** Over any run, no (principal, timestamp, nonce) triple is accepted twice. */
  lemma {:induction false} NoTripleAcceptedTwice(
    entries: seq<Entry>, history: seq<Entry>, last: int, maxEntries: int, options: Options, crypto: Crypto,
    arrivals: seq<Arrival>, i: nat, j: nat)
    requires options.nonceTtlSeconds > 2 * options.maxSkewSeconds
    requires Remembers(entries, history, last) && ClockForward(last, arrivals)
    requires NeverFull(entries, history, maxEntries, options, crypto, arrivals)
    requires i < j < |arrivals|
    ensures var outcomes := Run(entries, maxEntries, options, crypto, arrivals);
            !SameTriple(outcomes[i], outcomes[j])
    decreases |arrivals|
  {
    var a := arrivals[0];
    if i > 0 {
      StepRemembers(entries, history, last, maxEntries, options, crypto, a);
      RunTail(entries, maxEntries, options, crypto, arrivals, i);
      RunTail(entries, maxEntries, options, crypto, arrivals, j);
      NoTripleAcceptedTwice(Step(entries, maxEntries, options, crypto, a.req, a.nowMs).0,
                            history + Acceptance(entries, maxEntries, options, crypto, a), a.nowMs,
                            maxEntries, options, crypto, arrivals[1..], i - 1, j - 1);
    } else {
      FirstIsNotRepeated(entries, history, last, maxEntries, options, crypto, arrivals, j);
    }
  }

  // ---- The ttl bound is exact ----

  /** The checks look at the clock only to compare it with the request's timestamp. */
  lemma ProceedsWithinSkew(options: Options, crypto: Crypto, req: Request, earlier: int, later: int)
    requires Check(options, crypto, req, earlier).Proceed?
    requires Distance(later, Check(options, crypto, req, earlier).timestampSeconds) <= options.maxSkewSeconds
    ensures Check(options, crypto, req, later) == Check(options, crypto, req, earlier)
  {
  }

  lemma FirstUse(maxEntries: int, key: Text, now: nat, ttlSeconds: nat)
    requires maxEntries >= 1
    ensures Consumed([], maxEntries, key, now, ttlSeconds) == ([Entry(key, now + ttlSeconds * 1000)], true)
  {
    assert [] + [Entry(key, now + ttlSeconds * 1000)] == [Entry(key, now + ttlSeconds * 1000)];
  }

  lemma ExpiredIsGone(key: Text, now: nat)
    ensures Live([Entry(key, now)], now) == []
  {
    assert [Entry(key, now)][1..] == [];
  }

  lemma SecondUse(maxEntries: int, key: Text, now: nat, ttlSeconds: nat)
    requires maxEntries >= 1
    ensures Consumed([Entry(key, now)], maxEntries, key, now, ttlSeconds).1
  {
    ExpiredIsGone(key, now);
  }

  /** A run accepts one triple twice although the clock never goes back and the store
      is never full. */
  predicate Repeats(maxEntries: int, options: Options, crypto: Crypto, arrivals: seq<Arrival>, i: nat, j: nat) {
    && ClockForward(0, arrivals) && NeverFull([], [], maxEntries, options, crypto, arrivals)
    && i < j < |arrivals|
    && SameTriple(Run([], maxEntries, options, crypto, arrivals)[i], Run([], maxEntries, options, crypto, arrivals)[j])
  }

  ghost predicate CanRepeat(maxEntries: int, options: Options, crypto: Crypto) {
    exists arrivals, i, j :: Repeats(maxEntries, options, crypto, arrivals, i, j)
  }

  /** The request is authenticated at its own timestamp by a fresh store, and its
      skew window does not start before the clock's zero. */
  predicate IsAcceptable(options: Options, crypto: Crypto, req: Request, seconds: nat) {
    && options.enabled && options.nonceTtlSeconds > 0 && options.maxSkewSeconds <= seconds
    && var checked := Check(options, crypto, req, seconds);
       checked.Proceed? && checked.timestampSeconds == seconds && !IsBlank(checked.principal.id)
  }

  /** A request arriving first when its window opens and again when the ttl is over. */
  function Replayed(options: Options, req: Request, seconds: nat): seq<Arrival>
    requires options.maxSkewSeconds <= seconds && options.nonceTtlSeconds > 0
  {
    var first := seconds - options.maxSkewSeconds;
    [Arrival(req, first * 1000), Arrival(req, (first + options.nonceTtlSeconds) * 1000)]
  }

  /** Two acceptances of what passed the checks, the second when the first one's entry expires. */
  lemma SettledTwice(maxEntries: int, ttlSeconds: int, checked: Checked, first: nat, second: nat)
    requires maxEntries >= 1 && ttlSeconds > 0 && second == first + ttlSeconds * 1000
    requires checked.Proceed? && !IsBlank(checked.principal.id) && !IsBlank(checked.nonce)
    ensures var outcome := Authenticated(checked.principal, checked.timestampSeconds, checked.nonce);
            var left := [Entry(NonceKey(checked.principal.id, checked.nonce), second)];
            && Settle([], maxEntries, ttlSeconds, checked, first) == (left, outcome)
            && Settle(left, maxEntries, ttlSeconds, checked, second).1 == outcome
            && Live(left, second) == []
  {
    var key := NonceKey(checked.principal.id, checked.nonce);
    FirstUse(maxEntries, key, first, ttlSeconds);
    SecondUse(maxEntries, key, second, ttlSeconds);
    ExpiredIsGone(key, second);
  }

  lemma TwoStepRun(maxEntries: int, options: Options, crypto: Crypto, arrivals: seq<Arrival>, left: seq<Entry>, outcome: Outcome)
    requires maxEntries >= 1 && |arrivals| == 2 && arrivals[0].nowMs <= arrivals[1].nowMs
    requires outcome.Authenticated? && Live(left, arrivals[1].nowMs) == []
    requires left == EntryOf(outcome, options.nonceTtlSeconds, arrivals[0].nowMs)
    requires Step([], maxEntries, options, crypto, arrivals[0].req, arrivals[0].nowMs) == (left, outcome)
    requires Step(left, maxEntries, options, crypto, arrivals[1].req, arrivals[1].nowMs).1 == outcome
    ensures Repeats(maxEntries, options, crypto, arrivals, 0, 1)
  {
    var rest := arrivals[1..];
    assert rest == [arrivals[1]] && rest[1..] == [];
    assert [] + left == left;
    assert NeverFull(left, left, maxEntries, options, crypto, rest);
    assert Run(left, maxEntries, options, crypto, rest) == [outcome];
  }

  lemma ReplayIsAccepted(maxEntries: int, options: Options, crypto: Crypto, req: Request, seconds: nat)
    requires maxEntries >= 1 && IsAcceptable(options, crypto, req, seconds)
    requires options.nonceTtlSeconds <= 2 * options.maxSkewSeconds
    ensures Repeats(maxEntries, options, crypto, Replayed(options, req, seconds), 0, 1)
  {
    var arrivals := Replayed(options, req, seconds);
    var first, second := arrivals[0].nowMs, arrivals[1].nowMs;
    var checked := Check(options, crypto, req, seconds);
    ProceedsWithinSkew(options, crypto, req, seconds, first / 1000);
    ProceedsWithinSkew(options, crypto, req, seconds, second / 1000);
    ProceedIsNotBlank(options, crypto, req, seconds);
    SettledTwice(maxEntries, options.nonceTtlSeconds, checked, first, second);
    TwoStepRun(maxEntries, options, crypto, arrivals, [Entry(NonceKey(checked.principal.id, checked.nonce), second)],
               Authenticated(checked.principal, seconds, checked.nonce));
  }

  lemma ProceedIsNotBlank(options: Options, crypto: Crypto, req: Request, seconds: nat)
    requires Check(options, crypto, req, seconds).Proceed?
    ensures !IsBlank(Check(options, crypto, req, seconds).nonce)
  {
  }

  /** For any policy under which some request is authenticated: a run can accept one
      triple twice if and only if the nonce ttl is at most twice the clock skew. */
  lemma RepeatsIffTtlTooShort(maxEntries: int, options: Options, crypto: Crypto, req: Request, seconds: nat)
    requires maxEntries >= 1 && IsAcceptable(options, crypto, req, seconds)
    ensures CanRepeat(maxEntries, options, crypto) <==> options.nonceTtlSeconds <= 2 * options.maxSkewSeconds
  {
    if options.nonceTtlSeconds <= 2 * options.maxSkewSeconds {
      ReplayIsAccepted(maxEntries, options, crypto, req, seconds);
    } else if CanRepeat(maxEntries, options, crypto) {
      var arrivals, i, j :| Repeats(maxEntries, options, crypto, arrivals, i, j);
      NoTripleAcceptedTwice([], [], 0, maxEntries, options, crypto, arrivals, i, j);
    }
  }
}

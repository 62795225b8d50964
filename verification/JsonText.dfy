/** The text `JSON.stringify` prints for canonical values (sections 2 and 7 of
    RFC 8259, without white space), and its unique decodability. */
module JsonText {
  import opened Texts

  /** A finite number, given by the digits JavaScript prints for it; -0 and 0
      print alike and are one value here. */
  type NumberText = t: Text | IsNumberText(t) witness [ZERO]

  predicate IsNumberText(t: Text) {
    t != [] && (t[0] == MINUS || IsDigit(t[0])) && forall u :: u in t ==> IsNumberUnit(u)
  }

  predicate IsNumberUnit(u: CodeUnit) {
    IsDigit(u) || u == MINUS || u == 43 || u == 46 || u == 101
  }

  datatype Canon =
    | CNull
    | CBool(flag: bool)
    | CString(text: Text)
    | CNumber(digits: NumberText)
    | CArray(items: seq<Canon>)
    | CObject(members: seq<CMember>)

  /** Members in own-property order. */
  datatype CMember = CMember(key: Text, value: Canon)

  const QUOTE: CodeUnit := 34
  const COMMA: CodeUnit := 44
  const MINUS: CodeUnit := 45
  const COLON: CodeUnit := 58
  const OPEN_BRACKET: CodeUnit := 91
  const BACKSLASH: CodeUnit := 92
  const CLOSE_BRACKET: CodeUnit := 93
  const OPEN_BRACE: CodeUnit := 123
  const CLOSE_BRACE: CodeUnit := 125
  const NULL_TEXT: Text := [110, 117, 108, 108]
  const TRUE_TEXT: Text := [116, 114, 117, 101]
  const FALSE_TEXT: Text := [102, 97, 108, 115, 101]

  // ---- Strings ----

  predicate IsHighSurrogate(u: CodeUnit) { 0xD800 <= u <= 0xDBFF }

  predicate IsLowSurrogate(u: CodeUnit) { 0xDC00 <= u <= 0xDFFF }

  function HexDigit(n: int): CodeUnit
    requires 0 <= n < 16
  {
    if n < 10 then ZERO + n else 87 + n
  }

  /** Four lower-case hexadecimal digits after `\u`. */
  function UnicodeEscape(u: CodeUnit): Text {
    [BACKSLASH, 117, HexDigit(u / 4096), HexDigit(u / 256 % 16), HexDigit(u / 16 % 16), HexDigit(u % 16)]
  }

  /** The letter of a two-character escape, for the units that have one. */
  function ShortEscape(u: CodeUnit): (letter: Option<CodeUnit>)
    ensures letter.Some? ==> letter.value != 117
  {
    if u == QUOTE || u == BACKSLASH then Some(u)
    else if u == 8 then Some(98)
    else if u == 9 then Some(116)
    else if u == 10 then Some(110)
    else if u == 12 then Some(102)
    else if u == 13 then Some(114)
    else None
  }

  function ShortUnescape(letter: CodeUnit): CodeUnit {
    if letter == 98 then 8
    else if letter == 116 then 9
    else if letter == 110 then 10
    else if letter == 102 then 12
    else if letter == 114 then 13
    else letter
  }

  function EscapeUnit(u: CodeUnit): Text {
    if ShortEscape(u).Some? then [BACKSLASH, ShortEscape(u).value]
    else if u < 0x20 || IsHighSurrogate(u) || IsLowSurrogate(u) then UnicodeEscape(u)
    else [u]
  }

  /** Surrogate pairs stay as they are; a lone surrogate is escaped. */
  function Escape(t: Text): Text {
    if t == [] then []
    else if |t| > 1 && IsHighSurrogate(t[0]) && IsLowSurrogate(t[1]) then [t[0], t[1]] + Escape(t[2..])
    else EscapeUnit(t[0]) + Escape(t[1..])
  }

  function Quoted(t: Text): Text {
    [QUOTE] + Escape(t) + [QUOTE]
  }

  function HexValue(u: CodeUnit): int {
    if u <= 57 then u - ZERO else u - 87
  }

  /** Reads an escaped string up to its closing quote: its value and what follows. */
  function Unquote(t: Text): Option<(Text, Text)> {
    if t == [] then None
    else if t[0] == QUOTE then Some(([], t[1..]))
    else if t[0] != BACKSLASH then Prepend(t[0], Unquote(t[1..]))
    else if |t| >= 6 && t[1] == 117 then
      var u := 4096 * HexValue(t[2]) + 256 * HexValue(t[3]) + 16 * HexValue(t[4]) + HexValue(t[5]);
      if 0 <= u < 0x1_0000 then Prepend(u, Unquote(t[6..])) else None
    else if |t| >= 2 then Prepend(ShortUnescape(t[1]), Unquote(t[2..]))
    else None
  }

  predicate IsLowerHex(u: CodeUnit) {
    IsDigit(u) || 97 <= u <= 102
  }

  /** What may stand between the quotes of a JSON string (section 7 of RFC 8259), in the
      form that is also well-formed UTF-16: no control character, quote or backslash but
      escaped, and no surrogate but in a pair. */
  predicate IsStringBody(t: Text) {
    if t == [] then true
    else if t[0] == BACKSLASH then
      if |t| >= 6 && t[1] == 117 then
        IsLowerHex(t[2]) && IsLowerHex(t[3]) && IsLowerHex(t[4]) && IsLowerHex(t[5]) && IsStringBody(t[6..])
      else |t| >= 2 && t[1] in {34, 92, 47, 98, 102, 110, 114, 116} && IsStringBody(t[2..])
    else if 0xD800 <= t[0] <= 0xDBFF then |t| >= 2 && 0xDC00 <= t[1] <= 0xDFFF && IsStringBody(t[2..])
    else t[0] >= 0x20 && t[0] != QUOTE && !(0xDC00 <= t[0] <= 0xDFFF) && IsStringBody(t[1..])
  }

  lemma UnitIsBody(u: CodeUnit, rest: Text)
    requires IsStringBody(rest)
    ensures IsStringBody(EscapeUnit(u) + rest)
  {
    var t := EscapeUnit(u) + rest;
    if ShortEscape(u).Some? {
      assert t[2..] == rest;
    } else if u < 0x20 || IsHighSurrogate(u) || IsLowSurrogate(u) {
      assert t[6..] == rest;
    } else {
      assert t[1..] == rest;
    }
  }

  /** Every quoted text is a JSON string. */
  lemma {:induction false} EscapeIsStringBody(t: Text)
    ensures IsStringBody(Escape(t))
  {
    if t != [] {
      if |t| > 1 && IsHighSurrogate(t[0]) && IsLowSurrogate(t[1]) {
        EscapeIsStringBody(t[2..]);
        assert Escape(t)[2..] == Escape(t[2..]);
      } else {
        EscapeIsStringBody(t[1..]);
        UnitIsBody(t[0], Escape(t[1..]));
      }
    }
  }

  function Prepend(u: CodeUnit, rest: Option<(Text, Text)>): Option<(Text, Text)> {
    match rest
    case None => None
    case Some((text, after)) => Some(([u] + text, after))
  }

  lemma UnicodeEscapeValue(u: CodeUnit)
    ensures var e := UnicodeEscape(u);
            4096 * HexValue(e[2]) + 256 * HexValue(e[3]) + 16 * HexValue(e[4]) + HexValue(e[5]) == u
  {
    assert u == 16 * (u / 16) + u % 16;
    assert u / 16 == 16 * (u / 256) + u / 16 % 16;
    assert u / 256 == 16 * (u / 4096) + u / 256 % 16;
  }

  lemma UnquoteUnit(u: CodeUnit, rest: Text)
    ensures Unquote(EscapeUnit(u) + rest) == Prepend(u, Unquote(rest))
  {
    var t := EscapeUnit(u) + rest;
    if ShortEscape(u).Some? {
      assert t[2..] == rest;
    } else if u < 0x20 || IsHighSurrogate(u) || IsLowSurrogate(u) {
      UnicodeEscapeValue(u);
      assert t[6..] == rest;
    } else {
      assert t[1..] == rest;
    }
  }

  lemma UnquotePair(high: CodeUnit, low: CodeUnit, rest: Text)
    requires IsHighSurrogate(high) && IsLowSurrogate(low)
    ensures Unquote([high, low] + rest) == Prepend(high, Prepend(low, Unquote(rest)))
  {
    var t := [high, low] + rest;
    assert t[1..] == [low] + rest;
    assert t[1..][1..] == rest;
  }

  lemma {:induction false} UnquoteEscape(t: Text, after: Text)
    ensures Unquote(Escape(t) + [QUOTE] + after) == Some((t, after))
  {
    var whole := Escape(t) + [QUOTE] + after;
    if t == [] {
      assert whole[1..] == after;
    } else if |t| > 1 && IsHighSurrogate(t[0]) && IsLowSurrogate(t[1]) {
      var rest := Escape(t[2..]) + [QUOTE] + after;
      assert whole == [t[0], t[1]] + rest;
      UnquotePair(t[0], t[1], rest);
      UnquoteEscape(t[2..], after);
      assert t == [t[0]] + ([t[1]] + t[2..]);
    } else {
      var rest := Escape(t[1..]) + [QUOTE] + after;
      assert whole == EscapeUnit(t[0]) + rest;
      UnquoteUnit(t[0], rest);
      UnquoteEscape(t[1..], after);
      assert t == [t[0]] + t[1..];
    }
  }

  /** A quoted string says where it ends and which string it is. */
  lemma QuotedUnique(a: Text, b: Text, s: Text, t: Text)
    requires Quoted(a) + s == Quoted(b) + t
    ensures a == b && s == t
  {
    var left, right := Escape(a) + [QUOTE] + s, Escape(b) + [QUOTE] + t;
    assert (Quoted(a) + s)[1..] == left;
    assert (Quoted(b) + t)[1..] == right;
    UnquoteEscape(a, s);
    UnquoteEscape(b, t);
  }

  // ---- Values ----

  function Print(c: Canon): Text
    decreases c
  {
    match c
    case CNull => NULL_TEXT
    case CBool(flag) => if flag then TRUE_TEXT else FALSE_TEXT
    case CString(text) => Quoted(text)
    case CNumber(digits) => digits
    case CArray(items) => [OPEN_BRACKET] + PrintItems(items, true)
    case CObject(members) => [OPEN_BRACE] + PrintMembers(members, true)
  }

  function Separator(first: bool): Text {
    if first then [] else [COMMA]
  }

  /** The remaining items with the closing bracket. */
  function PrintItems(items: seq<Canon>, first: bool): Text
    decreases items
  {
    if items == [] then [CLOSE_BRACKET]
    else Separator(first) + (Print(items[0]) + PrintItems(items[1..], false))
  }

  function PrintMember(m: CMember): Text
    decreases m
  {
    Quoted(m.key) + ([COLON] + Print(m.value))
  }

  /** The remaining members with the closing brace. */
  function PrintMembers(members: seq<CMember>, first: bool): Text
    decreases members
  {
    if members == [] then [CLOSE_BRACE]
    else Separator(first) + (PrintMember(members[0]) + PrintMembers(members[1..], false))
  }

  /** What may follow a value: nothing, or a delimiter. */
  predicate Delimited(t: Text) {
    t == [] || t[0] == COMMA || t[0] == CLOSE_BRACKET || t[0] == CLOSE_BRACE
  }

  /** The first unit of a value tells its kind. */
  predicate Starts(c: Canon, u: CodeUnit) {
    match c
    case CNull => u == 110
    case CBool(flag) => u == if flag then 116 else 102
    case CString(_) => u == QUOTE
    case CNumber(_) => u == MINUS || IsDigit(u)
    case CArray(_) => u == OPEN_BRACKET
    case CObject(_) => u == OPEN_BRACE
  }

  lemma PrintStarts(c: Canon, s: Text)
    ensures Print(c) != [] && Starts(c, (Print(c) + s)[0])
  {
  }

  lemma SplitEqual(head: Text, s: Text, t: Text)
    requires head + s == head + t
    ensures s == t
  {
    assert s == (head + s)[|head|..];
    assert t == (head + t)[|head|..];
  }

  lemma Regroup(a: Text, b: Text, c: Text)
    ensures (a + b) + c == a + (b + c)
  {
  }

  lemma NumberContinues(a: Text, b: Text, s: Text, t: Text, i: int)
    requires forall u :: u in b ==> IsNumberUnit(u)
    requires Delimited(s)
    requires a + s == b + t
    requires 0 <= i < |b|
    ensures i != |a|
  {
    assert b[i] in b;
    assert (b + t)[i] == b[i];
  }

  lemma NumberUnique(a: Text, b: Text, s: Text, t: Text)
    requires forall u :: u in a + b ==> IsNumberUnit(u)
    requires Delimited(s) && Delimited(t)
    requires a + s == b + t
    ensures a == b && s == t
  {
    if |a| < |b| {
      NumberContinues(a, b, s, t, |a|);
    } else if |b| < |a| {
      NumberContinues(b, a, t, s, |b|);
    } else {
      assert a == (a + s)[..|a|] && b == (b + t)[..|b|];
      SplitEqual(a, s, t);
    }
  }

  /** Unique decodability: a printed value determines the value, and where it
      ends, from the text alone. */
  lemma {:induction false} PrintUnique(a: Canon, b: Canon, s: Text, t: Text)
    requires Delimited(s) && Delimited(t)
    requires Print(a) + s == Print(b) + t
    ensures a == b && s == t
    decreases a
  {
    PrintStarts(a, s);
    PrintStarts(b, t);
    match a {
      case CNull => SplitEqual(NULL_TEXT, s, t);
      case CBool(flag) => SplitEqual(Print(a), s, t);
      case CString(text) => QuotedUnique(text, b.text, s, t);
      case CNumber(digits) => NumberUnique(digits, b.digits, s, t);
      case CArray(items) =>
        Regroup([OPEN_BRACKET], PrintItems(items, true), s);
        Regroup([OPEN_BRACKET], PrintItems(b.items, true), t);
        SplitEqual([OPEN_BRACKET], PrintItems(items, true) + s, PrintItems(b.items, true) + t);
        ItemsUnique(items, b.items, true, s, t);
      case CObject(members) =>
        Regroup([OPEN_BRACE], PrintMembers(members, true), s);
        Regroup([OPEN_BRACE], PrintMembers(b.members, true), t);
        SplitEqual([OPEN_BRACE], PrintMembers(members, true) + s, PrintMembers(b.members, true) + t);
        MembersUnique(members, b.members, true, s, t);
    }
  }

  lemma ItemsShape(items: seq<Canon>, first: bool, s: Text)
    ensures var t := PrintItems(items, first) + s;
            t != [] && (t[0] == CLOSE_BRACKET <==> items == [])
    ensures Delimited(PrintItems(items, false) + s)
    ensures items != [] ==>
              PrintItems(items, first) + s == Separator(first) + (Print(items[0]) + (PrintItems(items[1..], false) + s))
  {
    if items != [] {
      var rest := PrintItems(items[1..], false);
      Regroup(Separator(first), Print(items[0]) + rest, s);
      Regroup(Print(items[0]), rest, s);
      PrintStarts(items[0], rest + s);
    }
  }

  lemma {:induction false} ItemsUnique(xs: seq<Canon>, ys: seq<Canon>, first: bool, s: Text, t: Text)
    requires PrintItems(xs, first) + s == PrintItems(ys, first) + t
    ensures xs == ys && s == t
    decreases xs
  {
    ItemsShape(xs, first, s);
    ItemsShape(ys, first, t);
    if xs == [] {
      SplitEqual([CLOSE_BRACKET], s, t);
    } else {
      var left, right := PrintItems(xs[1..], false) + s, PrintItems(ys[1..], false) + t;
      SplitEqual(Separator(first), Print(xs[0]) + left, Print(ys[0]) + right);
      ItemsShape(xs[1..], false, s);
      ItemsShape(ys[1..], false, t);
      PrintUnique(xs[0], ys[0], left, right);
      ItemsUnique(xs[1..], ys[1..], false, s, t);
      assert xs == [xs[0]] + xs[1..] && ys == [ys[0]] + ys[1..];
    }
  }

  lemma {:induction false} MemberUnique(x: CMember, y: CMember, s: Text, t: Text)
    requires Delimited(s) && Delimited(t)
    requires PrintMember(x) + s == PrintMember(y) + t
    ensures x == y && s == t
    decreases x
  {
    var left, right := [COLON] + Print(x.value), [COLON] + Print(y.value);
    Regroup(Quoted(x.key), left, s);
    Regroup(Quoted(y.key), right, t);
    QuotedUnique(x.key, y.key, left + s, right + t);
    Regroup([COLON], Print(x.value), s);
    Regroup([COLON], Print(y.value), t);
    SplitEqual([COLON], Print(x.value) + s, Print(y.value) + t);
    PrintUnique(x.value, y.value, s, t);
  }

  lemma MembersShape(members: seq<CMember>, first: bool, s: Text)
    ensures var t := PrintMembers(members, first) + s;
            t != [] && (t[0] == CLOSE_BRACE <==> members == [])
    ensures Delimited(PrintMembers(members, false) + s)
    ensures members != [] ==>
              PrintMembers(members, first) + s
              == Separator(first) + (PrintMember(members[0]) + (PrintMembers(members[1..], false) + s))
  {
    if members != [] {
      var rest := PrintMembers(members[1..], false);
      Regroup(Separator(first), PrintMember(members[0]) + rest, s);
      Regroup(PrintMember(members[0]), rest, s);
    }
  }

  lemma {:induction false} MembersUnique(xs: seq<CMember>, ys: seq<CMember>, first: bool, s: Text, t: Text)
    requires PrintMembers(xs, first) + s == PrintMembers(ys, first) + t
    ensures xs == ys && s == t
    decreases xs
  {
    MembersShape(xs, first, s);
    MembersShape(ys, first, t);
    if xs == [] {
      SplitEqual([CLOSE_BRACE], s, t);
    } else {
      var left, right := PrintMembers(xs[1..], false) + s, PrintMembers(ys[1..], false) + t;
      SplitEqual(Separator(first), PrintMember(xs[0]) + left, PrintMember(ys[0]) + right);
      MembersShape(xs[1..], false, s);
      MembersShape(ys[1..], false, t);
      MemberUnique(xs[0], ys[0], left, right);
      MembersUnique(xs[1..], ys[1..], false, s, t);
      assert xs == [xs[0]] + xs[1..] && ys == [ys[0]] + ys[1..];
    }
  }
}

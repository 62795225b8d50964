/** JavaScript strings as sequences of UTF-16 code units, their code-unit order
    (`<` and the default `sort()`), and decimal rendering of naturals. */
module Texts {

  datatype Option<+T> = None | Some(value: T)

  type CodeUnit = u: int | 0 <= u < 0x1_0000

  type Text = seq<CodeUnit>

  /** A literal as a text; code points beyond the basic plane do not occur in one. */
  function Unit(c: char): CodeUnit {
    if c as int < 0x1_0000 then c as int else 0xFFFD
  }

  function Ascii(s: string): Text {
    seq(|s|, i requires 0 <= i < |s| => Unit(s[i]))
  }

  /** `a < b` on JavaScript strings. */
  predicate LexLess(a: Text, b: Text) {
    b != [] && (a == [] || a[0] < b[0] || (a[0] == b[0] && LexLess(a[1..], b[1..])))
  }

  lemma {:induction false} LexIrreflexive(a: Text)
    ensures !LexLess(a, a)
  {
    if a != [] {
      LexIrreflexive(a[1..]);
    }
  }

  lemma {:induction false} LexTransitive(a: Text, b: Text, c: Text)
    requires LexLess(a, b) && LexLess(b, c)
    ensures LexLess(a, c)
  {
    if a != [] && a[0] == b[0] == c[0] {
      LexTransitive(a[1..], b[1..], c[1..]);
    }
  }

  lemma {:induction false} LexTotal(a: Text, b: Text)
    ensures a == b || LexLess(a, b) || LexLess(b, a)
  {
    if a != [] && b != [] && a[0] == b[0] {
      LexTotal(a[1..], b[1..]);
      assert a == [a[0]] + a[1..] && b == [b[0]] + b[1..];
    }
  }

  /** The white space and line ends that `trim()` removes. */
  predicate IsWhiteSpace(u: CodeUnit) {
    9 <= u <= 13 || u == 32 || u == 0xA0 || u == 0x1680 || 0x2000 <= u <= 0x200A
    || u == 0x2028 || u == 0x2029 || u == 0x202F || u == 0x205F || u == 0x3000 || u == 0xFEFF
  }

  /** `t.trim()` is empty. */
  predicate IsBlank(t: Text) {
    forall u :: u in t ==> IsWhiteSpace(u)
  }

  const ZERO: CodeUnit := 48

  predicate IsDigit(u: CodeUnit) {
    ZERO <= u <= ZERO + 9
  }

  /** `String(n)` for a natural number. */
  function Decimal(n: nat): (t: Text)
    ensures t != [] && forall u :: u in t ==> IsDigit(u)
  {
    if n < 10 then [ZERO + n] else Decimal(n / 10) + [ZERO + n % 10]
  }

  function DecimalValue(t: Text): nat
    requires forall u :: u in t ==> IsDigit(u)
  {
    if t == [] then 0 else
      assert IsDigit(t[|t| - 1]);
      10 * DecimalValue(t[..|t| - 1]) + (t[|t| - 1] - ZERO)
  }

  lemma {:induction false} DecimalRoundTrip(n: nat)
    ensures DecimalValue(Decimal(n)) == n
  {
    if n < 10 {
      assert Decimal(n)[..0] == [];
    } else {
      var t := Decimal(n);
      assert t[..|t| - 1] == Decimal(n / 10);
      DecimalRoundTrip(n / 10);
    }
  }
}

/** Text as the program sees it: scalar values, their UTF-16 and UTF-8 sizes, decimal numerals. */
module Text {

  datatype Option<+T> = None | Some(value: T)

  predicate Distinct(xs: seq<string>) { forall i, j | 0 <= i < j < |xs| :: xs[i] != xs[j] }

  // ---- UTF-16 code units (section 2.1 of RFC 2781) ----

  function Units(c: char): (r: seq<nat>)
    ensures 0 < |r|
  {
    var v := c as int;
    if v < 0x1_0000 then [v]
    else [0xD800 + (v - 0x1_0000) / 0x400, 0xDC00 + (v - 0x1_0000) % 0x400]
  }

  function EncodeUtf16(s: string): seq<nat> {
    if s == "" then [] else Units(s[0]) + EncodeUtf16(s[1..])
  }

  function DecodeUtf16(u: seq<nat>): Option<string> {
    if u == [] then Some("")
    else if u[0] < 0xD800 || 0xE000 <= u[0] < 0x1_0000 then
      (match DecodeUtf16(u[1..])
       case Some(rest) => Some([u[0] as char] + rest)
       case None => None)
    else if |u| >= 2 && 0xD800 <= u[0] < 0xDC00 && 0xDC00 <= u[1] < 0xE000 then
      (match DecodeUtf16(u[2..])
       case Some(rest) => Some([(0x1_0000 + (u[0] - 0xD800) * 0x400 + (u[1] - 0xDC00)) as char] + rest)
       case None => None)
    else None
  }

  lemma {:induction false} Utf16RoundTrip(s: string)
    ensures DecodeUtf16(EncodeUtf16(s)) == Some(s)
  {
    if s != "" {
      Utf16RoundTrip(s[1..]);
      var u := Units(s[0]);
      assert (u + EncodeUtf16(s[1..]))[|u|..] == EncodeUtf16(s[1..]);
      assert s == [s[0]] + s[1..];
    }
  }

  /** Lexicographic order, the `cmp` of two iterators. */
  predicate Before(a: seq<nat>, b: seq<nat>) {
    b != [] && (a == [] || a[0] < b[0] || (a[0] == b[0] && Before(a[1..], b[1..])))
  }

  lemma {:induction false} BeforeTransitive(a: seq<nat>, b: seq<nat>, c: seq<nat>)
    requires Before(a, b) && Before(b, c)
    ensures Before(a, c)
  {
    if a != [] && a[0] == b[0] == c[0] {
      BeforeTransitive(a[1..], b[1..], c[1..]);
    }
  }

  lemma {:induction false} BeforeTrichotomy(a: seq<nat>, b: seq<nat>)
    ensures !(Before(a, b) && Before(b, a))
    ensures !Before(a, b) && !Before(b, a) ==> a == b
    ensures a == b ==> !Before(a, b)
  {
    if a != [] && b != [] {
      BeforeTrichotomy(a[1..], b[1..]);
      assert a == [a[0]] + a[1..] && b == [b[0]] + b[1..];
    }
  }

  lemma {:induction false} BeforeCommonPrefix(p: seq<nat>, a: seq<nat>, b: seq<nat>)
    ensures Before(p + a, p + b) <==> Before(a, b)
  {
    if p == [] {
      assert p + a == a && p + b == b;
    } else {
      assert (p + a)[1..] == p[1..] + a && (p + b)[1..] == p[1..] + b;
      BeforeCommonPrefix(p[1..], a, b);
    }
  }

  lemma BeforeAtDifference(p: seq<nat>, a: seq<nat>, q: seq<nat>, b: seq<nat>)
    requires p != [] && q != []
    requires p[0] < q[0] || (|p| == |q| == 2 && p[0] == q[0] && p[1] < q[1])
    ensures Before(p + a, q + b) && !Before(q + b, p + a)
  {
    if p[0] == q[0] {
      assert (p + a)[1..] == [p[1]] + a && (q + b)[1..] == [q[1]] + b;
    }
  }

  /** Strict order of strings by UTF-16 code units, as `Array.prototype.sort` compares them. */
  predicate Less16(a: string, b: string) { Before(EncodeUtf16(a), EncodeUtf16(b)) }

  /** The comparator is a strict total order on strings: distinct strings never compare equal. */
  lemma Less16StrictTotalOrder(a: string, b: string, c: string)
    ensures !Less16(a, a)
    ensures Less16(a, b) && Less16(b, c) ==> Less16(a, c)
    ensures a == b || Less16(a, b) || Less16(b, a)
    ensures !(Less16(a, b) && Less16(b, a))
  {
    BeforeTrichotomy(EncodeUtf16(a), EncodeUtf16(a));
    BeforeTrichotomy(EncodeUtf16(a), EncodeUtf16(b));
    if Less16(a, b) && Less16(b, c) {
      BeforeTransitive(EncodeUtf16(a), EncodeUtf16(b), EncodeUtf16(c));
    }
    Utf16RoundTrip(a);
    Utf16RoundTrip(b);
  }

  /** Order by scalar value, which is also UTF-8 byte order. */
  predicate LessScalar(a: string, b: string) {
    b != "" && (a == "" || a[0] < b[0] || (a[0] == b[0] && LessScalar(a[1..], b[1..])))
  }

  /** A supplementary character faces one of U+E000..U+FFFF. */
  predicate Straddle(x: char, y: char) {
    || (x as int >= 0x1_0000 && 0xE000 <= y as int < 0x1_0000)
    || (y as int >= 0x1_0000 && 0xE000 <= x as int < 0x1_0000)
  }

  /** Where the two strings first differ, at `i`, their characters straddle. */
  predicate StraddleAt(a: string, b: string, i: int) {
    0 <= i < |a| && i < |b| && Straddle(a[i], b[i]) && forall k | 0 <= k < i :: a[k] == b[k]
  }

  ghost predicate StraddleFirst(a: string, b: string) { exists i :: StraddleAt(a, b, i) }

  lemma StraddleShift(a: string, b: string, i: int)
    requires a != "" && b != "" && a[0] == b[0]
    ensures StraddleAt(a, b, i + 1) <==> StraddleAt(a[1..], b[1..], i)
  {
    if StraddleAt(a[1..], b[1..], i) {
      forall k | 0 <= k < i + 1 ensures a[k] == b[k] { assert k > 0 ==> a[k] == a[1..][k - 1] && b[k] == b[1..][k - 1]; }
    }
  }

  lemma StraddleRest(a: string, b: string)
    requires a != "" && b != ""
    ensures StraddleFirst(a, b) <==> if a[0] == b[0] then StraddleFirst(a[1..], b[1..]) else Straddle(a[0], b[0])
  {
    if a[0] != b[0] {
      assert StraddleAt(a, b, 0) <==> Straddle(a[0], b[0]);
    } else if StraddleFirst(a, b) {
      var i :| StraddleAt(a, b, i);
      StraddleShift(a, b, i - 1);
    } else if StraddleFirst(a[1..], b[1..]) {
      var i :| StraddleAt(a[1..], b[1..], i);
      StraddleShift(a, b, i);
    }
  }

  /** Code-unit order and scalar order agree on two strings exactly when they do not first differ in a straddle. */
  lemma {:induction false} OrdersAgreeExactly(a: string, b: string)
    ensures (Less16(a, b) <==> LessScalar(a, b)) <==> !StraddleFirst(a, b)
  {
    if a != "" && b != "" {
      StraddleRest(a, b);
      var ua, ub := Units(a[0]), Units(b[0]);
      var ra, rb := EncodeUtf16(a[1..]), EncodeUtf16(b[1..]);
      if a[0] == b[0] {
        OrdersAgreeExactly(a[1..], b[1..]);
        BeforeCommonPrefix(ua, ra, rb);
      } else if (a[0] < b[0]) != Straddle(a[0], b[0]) {
        UnitsOrder(a[0], b[0]);
        BeforeAtDifference(ua, ra, ub, rb);
      } else {
        UnitsOrder(b[0], a[0]);
        BeforeAtDifference(ub, rb, ua, ra);
      }
    }
  }

  /** Code units order two characters by scalar value, and the other way round when they straddle. */
  lemma UnitsOrder(a: char, b: char)
    requires a != b && ((a < b) != Straddle(a, b))
    ensures var ua, ub := Units(a), Units(b);
            ua[0] < ub[0] || (|ua| == |ub| == 2 && ua[0] == ub[0] && ua[1] < ub[1])
  {
    if a as int >= 0x1_0000 && b as int >= 0x1_0000 {
      var x, y := a as int - 0x1_0000, b as int - 0x1_0000;
      assert x == x / 0x400 * 0x400 + x % 0x400 && y == y / 0x400 * 0x400 + y % 0x400;
    }
  }

  /** U+10000 sorts before U+FF01 by code units and after it by scalar value. */
  lemma SupplementarySortsFirst()
    ensures Less16("\U{10000}", "\U{FF01}") && LessScalar("\U{FF01}", "\U{10000}")
  {
    assert Units('\U{10000}') == [0xD800, 0xDC00] && Units('\U{FF01}') == [0xFF01];
    assert EncodeUtf16("\U{10000}") == [0xD800, 0xDC00] + EncodeUtf16("\U{10000}"[1..]);
    assert EncodeUtf16("\U{FF01}") == [0xFF01] + EncodeUtf16("\U{FF01}"[1..]);
  }

  // ---- UTF-8 length, which is what `str::len` counts ----

  function Utf8Len(s: string): (n: nat)
    ensures |s| <= n
  {
    if s == "" then 0
    else
      var v := s[0] as int;
      (if v < 0x80 then 1 else if v < 0x800 then 2 else if v < 0x1_0000 then 3 else 4) + Utf8Len(s[1..])
  }

  lemma {:induction false} Utf8LenConcat(a: string, b: string)
    ensures Utf8Len(a + b) == Utf8Len(a) + Utf8Len(b)
  {
    if a == "" {
      assert a + b == b;
    } else {
      assert (a + b)[1..] == a[1..] + b;
      Utf8LenConcat(a[1..], b);
    }
  }

  // ---- decimal numerals ----

  predicate IsDigit(c: char) { '0' <= c <= '9' }

  function NatText(n: nat): (s: string)
    ensures s != "" && forall c | c in s :: IsDigit(c)
  {
    var d := [((n % 10) + 48) as char];
    if n < 10 then d else NatText(n / 10) + d
  }

  function IntText(i: int): string {
    if i < 0 then "-" + NatText(-i) else NatText(i)
  }

  function ParseNat(s: string): nat
    requires forall c | c in s :: IsDigit(c)
  {
    if s == "" then 0
    else
      var d := s[|s| - 1];
      assert IsDigit(d);
      ParseNat(s[..|s| - 1]) * 10 + (d as int - 48)
  }

  lemma {:induction false} NatTextRoundTrip(n: nat)
    ensures ParseNat(NatText(n)) == n
  {
    var s := NatText(n);
    if n < 10 {
      assert s[..0] == "";
    } else {
      NatTextRoundTrip(n / 10);
      assert s[..|s| - 1] == NatText(n / 10);
    }
  }

  /** `s` is the decimal numeral of `n`: digits, no leading zero, and that value. */
  predicate IsNumeral(s: string, n: nat) {
    && s != "" && (forall c | c in s :: IsDigit(c)) && (|s| > 1 ==> s[0] != '0')
    && ParseNat(s) == n
  }

  predicate IsDecimal(s: string, i: int) {
    if i >= 0 then IsNumeral(s, i) else s != "" && s[0] == '-' && IsNumeral(s[1..], -i)
  }

  lemma {:induction false} NatTextIsNumeral(n: nat)
    ensures IsNumeral(NatText(n), n)
    ensures n > 0 ==> NatText(n)[0] != '0'
  {
    NatTextRoundTrip(n);
    if n >= 10 {
      NatTextIsNumeral(n / 10);
    }
  }

  /** Dropping the last digit divides by ten. */
  lemma ParseNatFront(s: string)
    requires s != "" && forall c | c in s :: IsDigit(c)
    ensures forall c | c in s[..|s| - 1] :: IsDigit(c)
    ensures ParseNat(s[..|s| - 1]) == ParseNat(s) / 10 && s[|s| - 1] as int == ParseNat(s) % 10 + 48
  {
    assert IsDigit(s[|s| - 1]);
  }

  lemma {:induction false} LeadingDigitCounts(s: string)
    requires s != "" && (forall c | c in s :: IsDigit(c)) && s[0] != '0'
    ensures ParseNat(s) > 0
  {
    assert IsDigit(s[0]);
    ParseNatFront(s);
    if |s| > 1 {
      LeadingDigitCounts(s[..|s| - 1]);
    }
  }

  /** A number has one numeral. */
  lemma {:induction false} NumeralUnique(s: string, t: string, n: nat)
    requires IsNumeral(s, n) && IsNumeral(t, n)
    ensures s == t
    decreases |s|
  {
    ParseNatFront(s);
    ParseNatFront(t);
    var fs, ft := s[..|s| - 1], t[..|t| - 1];
    assert s == fs + [s[|s| - 1]] && t == ft + [t[|t| - 1]];
    if |s| > 1 {
      LeadingDigitCounts(fs);
    }
    if |t| > 1 {
      LeadingDigitCounts(ft);
    }
    if |s| > 1 && |t| > 1 {
      NumeralUnique(fs, ft, n / 10);
    }
  }

  lemma DecimalUnique(s: string, t: string, i: int)
    requires IsDecimal(s, i) && IsDecimal(t, i)
    ensures s == t
  {
    if i >= 0 {
      NumeralUnique(s, t, i);
    } else {
      NumeralUnique(s[1..], t[1..], -i);
      assert s == [s[0]] + s[1..] && t == [t[0]] + t[1..];
    }
  }

  lemma IntTextIsDecimal(i: int)
    ensures IsDecimal(IntText(i), i)
  {
    NatTextIsNumeral(if i >= 0 then i else -i);
    assert i < 0 ==> IntText(i)[1..] == NatText(-i);
  }

  // ---- `str::trim` ----

  /** Unicode White_Space. */
  predicate IsWhitespace(c: char) {
    var v := c as int;
    0x9 <= v <= 0xD || v == 0x20 || v == 0x85 || v == 0xA0 || v == 0x1680 || 0x2000 <= v <= 0x200A
    || v == 0x2028 || v == 0x2029 || v == 0x202F || v == 0x205F || v == 0x3000
  }

  /** `text.trim().is_empty()`. */
  predicate Blank(s: string) { forall i | 0 <= i < |s| :: IsWhitespace(s[i]) }
}

/** Strings as the Rust standard library splits, renders, parses and orders them. */
module Text {
  import opened Common

  // ---- digits -------------------------------------------------------------------------------------

  predicate IsDigit(c: char) { '0' <= c <= '9' }

  predicate Digits(s: string) { forall i | 0 <= i < |s| :: IsDigit(s[i]) }

  function Digit(d: nat): (c: char)
    requires d < 10
    ensures IsDigit(c)
  {
    (d + 48) as char
  }

  function Value(c: char): (d: nat)
    requires IsDigit(c)
    ensures d < 10 && Digit(d) == c
  {
    c as nat - 48
  }

  /** The number a run of digits denotes. */
  function Num(s: string): nat
    requires Digits(s)
  {
    if s == [] then 0 else 10 * Num(s[..|s| - 1]) + Value(s[|s| - 1])
  }

  /** `{}` of an unsigned number. */
  function Decimal(n: nat): (s: string)
    ensures |s| >= 1 && Digits(s)
  {
    if n < 10 then [Digit(n)] else Decimal(n / 10) + [Digit(n % 10)]
  }

  /** The lowest `w` digits of a number. */
  function Fixed(n: nat, w: nat): (s: string)
    ensures |s| == w && Digits(s)
  {
    if w == 0 then "" else Fixed(n / 10, w - 1) + [Digit(n % 10)]
  }

  function Pow10(w: nat): (p: nat)
    ensures p >= 1
  {
    if w == 0 then 1 else 10 * Pow10(w - 1)
  }

  function Zeros(w: nat): string { if w == 0 then "" else "0" + Zeros(w - 1) }

  /** `{:0w}` of an unsigned number. */
  function Padded(n: nat, w: nat): string {
    var s := Decimal(n);
    if |s| >= w then s else Zeros(w - |s|) + s
  }

  /** `{:0w}` of a signed number: the sign counts towards the width. */
  function PaddedSigned(n: int, w: nat): string
    requires w >= 1
  {
    if n >= 0 then Padded(n, w) else "-" + Padded(-n, w - 1)
  }

  lemma NumAppend(s: string, c: char)
    requires Digits(s) && IsDigit(c)
    ensures Digits(s + [c]) && Num(s + [c]) == 10 * Num(s) + Value(c)
  {
    assert (s + [c])[..|s|] == s;
  }

  lemma {:induction false} NumOfDecimal(n: nat)
    ensures Num(Decimal(n)) == n
  {
    if n < 10 {
      assert [Digit(n)] == [] + [Digit(n)];
      NumAppend("", Digit(n));
    } else {
      NumOfDecimal(n / 10);
      NumAppend(Decimal(n / 10), Digit(n % 10));
    }
  }

  lemma {:induction false} NumOfFixed(n: nat, w: nat)
    requires n < Pow10(w)
    ensures Num(Fixed(n, w)) == n
  {
    if w > 0 {
      NumOfFixed(n / 10, w - 1);
      NumAppend(Fixed(n / 10, w - 1), Digit(n % 10));
    }
  }

  lemma {:induction false} FixedOfNum(s: string)
    requires Digits(s)
    ensures Num(s) < Pow10(|s|) && Fixed(Num(s), |s|) == s
  {
    if s != [] {
      var rest := s[..|s| - 1];
      FixedOfNum(rest);
      assert s == rest + [s[|s| - 1]];
    }
  }

  lemma {:induction false} LeadingZeros(k: nat, n: nat, w: nat)
    requires n < Pow10(w)
    ensures Fixed(n, k + w) == Zeros(k) + Fixed(n, w)
    decreases w
  {
    if w == 0 {
      AllZeros(k);
    } else {
      LeadingZeros(k, n / 10, w - 1);
      assert k + w - 1 == k + (w - 1);
    }
  }

  lemma {:induction false} AllZeros(k: nat)
    ensures Fixed(0, k) == Zeros(k) && (k > 0 ==> Zeros(k) == Zeros(k - 1) + "0")
  {
    if k > 0 {
      AllZeros(k - 1);
      if k > 1 { assert "0" + (Zeros(k - 2) + "0") == "0" + Zeros(k - 2) + "0"; }
    }
  }

  lemma {:induction false} DecimalIsFixed(n: nat)
    ensures n < Pow10(|Decimal(n)|) && Decimal(n) == Fixed(n, |Decimal(n)|)
    ensures |Decimal(n)| > 1 ==> Pow10(|Decimal(n)| - 1) <= n
  {
    if n < 10 {
      assert Fixed(n, 1) == Fixed(n / 10, 0) + [Digit(n % 10)];
    } else {
      DecimalIsFixed(n / 10);
    }
  }

  lemma {:induction false} PowersGrow(v: nat, w: nat)
    requires v <= w
    ensures Pow10(v) <= Pow10(w)
  {
    if v < w { PowersGrow(v, w - 1); }
  }

  /** Padding writes exactly `w` digits as long as the number has no more. */
  lemma PaddedIsFixed(n: nat, w: nat)
    requires w >= 1 && n < Pow10(w)
    ensures Padded(n, w) == Fixed(n, w)
  {
    var k := |Decimal(n)|;
    DecimalIsFixed(n);
    if k > w {
      PowersGrow(w, k - 1);
    } else {
      LeadingZeros(w - k, n, k);
      assert w == w - k + k;
      assert k == w ==> Zeros(w - k) + Decimal(n) == Decimal(n);
    }
  }

  // ---- order --------------------------------------------------------------------------------------

  /** `<` on strings: the order of code points is the order of UTF-8 bytes. */
  predicate Before(a: string, b: string) {
    b != [] && (a == [] || a[0] < b[0] || (a[0] == b[0] && Before(a[1..], b[1..])))
  }

  lemma {:induction false} BeforeAppend(a: string, b: string, c: string, d: string)
    requires |a| == |b|
    ensures Before(a + c, b + d) <==> Before(a, b) || (a == b && Before(c, d))
  {
    if a == [] {
      assert a + c == c && b + d == d;
    } else {
      assert (a + c)[1..] == a[1..] + c && (b + d)[1..] == b[1..] + d;
      BeforeAppend(a[1..], b[1..], c, d);
      assert a == [a[0]] + a[1..] && b == [b[0]] + b[1..];
    }
  }

  lemma {:induction false} NeverBeforeItself(a: string)
    ensures !Before(a, a)
  {
    if a != [] { NeverBeforeItself(a[1..]); }
  }

  lemma {:induction false} BeforeIsTotal(a: string, b: string)
    ensures a == b || Before(a, b) || Before(b, a)
  {
    if a != [] && b != [] {
      BeforeIsTotal(a[1..], b[1..]);
      assert a == [a[0]] + a[1..] && b == [b[0]] + b[1..];
    }
  }

  lemma {:induction false} BeforeIsTransitive(a: string, b: string, c: string)
    requires Before(a, b) && Before(b, c)
    ensures Before(a, c)
  {
    if a != [] && a[0] == b[0] && b[0] == c[0] { BeforeIsTransitive(a[1..], b[1..], c[1..]); }
  }

  lemma LastLetter(a: string, b: string, c: char, d: char)
    requires |a| == |b|
    ensures Before(a + [c], b + [d]) <==> Before(a, b) || (a == b && c < d)
    ensures a + [c] == b + [d] <==> a == b && c == d
  {
    BeforeAppend(a, b, [c], [d]);
    assert (a + [c])[..|a|] == a && (b + [d])[..|b|] == b;
    assert (a + [c])[|a|] == c && (b + [d])[|b|] == d;
  }

  /** Digits of one width sort as the numbers they write. */
  lemma {:induction false} FixedOrder(m: nat, n: nat, w: nat)
    requires m < Pow10(w) && n < Pow10(w)
    ensures Before(Fixed(m, w), Fixed(n, w)) <==> m < n
    ensures Fixed(m, w) == Fixed(n, w) <==> m == n
  {
    if w > 0 {
      FixedOrder(m / 10, n / 10, w - 1);
      LastLetter(Fixed(m / 10, w - 1), Fixed(n / 10, w - 1), Digit(m % 10), Digit(n % 10));
    }
  }

  // ---- splitting ----------------------------------------------------------------------------------

  /** `split_once`: at the first `c`. */
  function SplitOnce(s: string, c: char): (r: Option<(string, string)>)
    ensures r.None? <==> c !in s
    ensures r.Some? ==> s == r.value.0 + [c] + r.value.1 && c !in r.value.0
  {
    if s == [] then None
    else if s[0] == c then Some(([], s[1..]))
    else match SplitOnce(s[1..], c)
      case None => None
      case Some(p) => Some(([s[0]] + p.0, p.1))
  }

  lemma {:induction false} SplitOnceAt(a: string, c: char, b: string)
    requires c !in a
    ensures SplitOnce(a + [c] + b, c) == Some((a, b))
  {
    var s := a + [c] + b;
    if a == [] {
      assert s[1..] == b;
    } else {
      assert s[1..] == a[1..] + [c] + b;
      SplitOnceAt(a[1..], c, b);
      assert s[0] == a[0] && [a[0]] + a[1..] == a;
    }
  }

  /** `split`: at every `c`. */
  function Split(s: string, c: char): (r: seq<string>)
    ensures |r| >= 1 && forall i | 0 <= i < |r| :: c !in r[i]
  {
    if s == [] then [[]]
    else
      var r := Split(s[1..], c);
      if s[0] == c then [[]] + r else [[s[0]] + r[0]] + r[1..]
  }

  function Join(parts: seq<string>, c: char): string
    requires |parts| >= 1
  {
    if |parts| == 1 then parts[0] else parts[0] + [c] + Join(parts[1..], c)
  }

  lemma {:induction false} JoinOfSplit(s: string, c: char)
    ensures Join(Split(s, c), c) == s
  {
    if s != [] {
      var r := Split(s[1..], c);
      JoinOfSplit(s[1..], c);
      if s[0] == c {
        assert ([[]] + r)[1..] == r;
      } else {
        var q := [[s[0]] + r[0]] + r[1..];
        assert q[1..] == r[1..];
        assert Join(q, c) == [s[0]] + Join(r, c);
      }
    }
  }

  lemma {:induction false} SplitPlain(s: string, c: char)
    requires c !in s
    ensures Split(s, c) == [s]
  {
    if s != [] {
      SplitPlain(s[1..], c);
      assert [s[0]] + s[1..] == s;
    }
  }

  lemma {:induction false} SplitAt(a: string, c: char, b: string)
    requires c !in a
    ensures Split(a + [c] + b, c) == [a] + Split(b, c)
  {
    var s := a + [c] + b;
    if a == [] {
      assert s[1..] == b;
    } else {
      assert s[1..] == a[1..] + [c] + b;
      SplitAt(a[1..], c, b);
      assert s[0] == a[0] && [a[0]] + a[1..] == a;
    }
  }

  lemma {:induction false} SplitOfJoin(parts: seq<string>, c: char)
    requires |parts| >= 1 && forall i | 0 <= i < |parts| :: c !in parts[i]
    ensures Split(Join(parts, c), c) == parts
  {
    if |parts| == 1 {
      SplitPlain(parts[0], c);
    } else {
      SplitOfJoin(parts[1..], c);
      SplitAt(parts[0], c, Join(parts[1..], c));
      assert parts == [parts[0]] + parts[1..];
    }
  }

  lemma {:induction false} JoinLast(parts: seq<string>, last: string, c: char)
    requires |parts| >= 1
    ensures Join(parts + [last], c) == Join(parts, c) + [c] + last
  {
    var all := parts + [last];
    if |parts| == 1 {
      assert all[1..] == [last];
    } else {
      assert all[1..] == parts[1..] + [last];
      JoinLast(parts[1..], last, c);
    }
  }

  // ---- trimming -----------------------------------------------------------------------------------

  /** Unicode `White_Space`. */
  predicate IsSpace(c: char) {
    '\t' <= c <= '\r' || c == ' ' || c == '\U{85}' || c == '\U{a0}' || c == '\U{1680}'
    || '\U{2000}' <= c <= '\U{200a}' || c == '\U{2028}' || c == '\U{2029}' || c == '\U{202f}'
    || c == '\U{205f}' || c == '\U{3000}'
  }

  function TrimStart(s: string): string {
    if s != "" && IsSpace(s[0]) then TrimStart(s[1..]) else s
  }

  function TrimEnd(s: string): string {
    if s != "" && IsSpace(s[|s| - 1]) then TrimEnd(s[..|s| - 1]) else s
  }

  function Trim(s: string): string { TrimEnd(TrimStart(s)) }

  predicate Spaces(s: string) { forall i | 0 <= i < |s| :: IsSpace(s[i]) }

  lemma {:induction false} TrimSpaces(s: string)
    requires Spaces(s)
    ensures TrimStart(s) == "" && TrimEnd(s) == "" && Trim(s) == ""
  {
    if s != "" { TrimStartSpaces(s); TrimEndSpaces(s); }
  }

  lemma {:induction false} TrimStartSpaces(s: string)
    requires Spaces(s)
    ensures TrimStart(s) == ""
  {
    if s != "" { TrimStartSpaces(s[1..]); }
  }

  lemma {:induction false} TrimEndSpaces(s: string)
    requires Spaces(s)
    ensures TrimEnd(s) == ""
  {
    if s != "" { TrimEndSpaces(s[..|s| - 1]); }
  }

  lemma {:induction false} TrimEndAppend(s: string, w: string)
    requires Spaces(w)
    ensures TrimEnd(s + w) == TrimEnd(s)
    decreases |w|
  {
    if w == "" {
      assert s + w == s;
    } else {
      assert (s + w)[..|s + w| - 1] == s + w[..|w| - 1];
      TrimEndAppend(s, w[..|w| - 1]);
    }
  }

  lemma {:induction false} TrimStartAppend(s: string, w: string)
    requires Spaces(w)
    ensures Spaces(s) ==> TrimStart(s + w) == ""
    ensures !Spaces(s) ==> TrimStart(s + w) == TrimStart(s) + w
  {
    if Spaces(s) {
      TrimStartSpaces(s + w);
    } else if IsSpace(s[0]) {
      assert (s + w)[1..] == s[1..] + w;
      TrimStartAppend(s[1..], w);
    }
  }

  /** Space behind a text is trimmed with it. */
  lemma TrimAppend(s: string, w: string)
    requires Spaces(w)
    ensures Trim(s + w) == Trim(s)
  {
    TrimStartAppend(s, w);
    if Spaces(s) { TrimSpaces(s); } else { TrimEndAppend(TrimStart(s), w); }
  }

  // ---- ASCII case ---------------------------------------------------------------------------------

  function LowerAscii(c: char): char { if 'A' <= c <= 'Z' then (c as int + 32) as char else c }

  /** `eq_ignore_ascii_case`. */
  predicate SameIgnoringCase(a: string, b: string) {
    |a| == |b| && forall i | 0 <= i < |a| :: LowerAscii(a[i]) == LowerAscii(b[i])
  }

  // ---- unsigned numbers ---------------------------------------------------------------------------

  /** `parse` of an unsigned type with `bound` values: one `+` is allowed, leading zeros are, overflow
      is not. */
  function ParseUnsigned(s: string, bound: nat): (r: Option<nat>)
    ensures r.Some? ==> r.value < bound
  {
    var d := if s != "" && s[0] == '+' then s[1..] else s;
    if d == "" || !Digits(d) || Num(d) >= bound then None else Some(Num(d))
  }

  lemma ParseOfDecimal(n: nat, bound: nat)
    ensures ParseUnsigned(Decimal(n), bound) == if n < bound then Some(n) else None
  {
    NumOfDecimal(n);
    assert IsDigit(Decimal(n)[0]);
  }
}

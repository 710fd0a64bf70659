/** Strings as the source handles them: decimal printing and reading, zero padding,
    trimming, and the code-unit order of `<` on strings. */
module Text {

  predicate IsDigit(c: char) {
    '0' <= c <= '9'
  }

  predicate AllDigits(s: string) {
    forall i :: 0 <= i < |s| ==> IsDigit(s[i])
  }

  function DigitChar(d: nat): (c: char)
    requires d < 10
    ensures IsDigit(c) && c as int - '0' as int == d
  {
    (d + '0' as int) as char
  }

  function DigitValue(c: char): nat
    requires IsDigit(c)
  {
    c as int - '0' as int
  }

  /** `String(n)` for a natural number. */
  function Decimal(n: nat): (s: string)
    ensures AllDigits(s) && |s| >= 1
    ensures |s| > 1 ==> s[0] != '0'
  {
    if n < 10 then [DigitChar(n)] else Decimal(n / 10) + [DigitChar(n % 10)]
  }

  /** `Number(s)`, or a SQL cast to integer, of a run of digits. */
  function ReadNat(s: string): nat
    requires AllDigits(s)
  {
    if s == "" then 0 else 10 * ReadNat(s[..|s| - 1]) + DigitValue(s[|s| - 1])
  }

  function Zeros(k: nat): (s: string)
    ensures |s| == k && AllDigits(s) && forall i :: 0 <= i < k ==> s[i] == '0'
  {
    if k == 0 then "" else Zeros(k - 1) + "0"
  }

  /** `s.padStart(width, '0')`. */
  function PadStart(s: string, width: nat): (p: string)
    ensures |p| == if |s| < width then width else |s|
    ensures AllDigits(s) ==> AllDigits(p)
  {
    if |s| >= width then s else Zeros(width - |s|) + s
  }

  lemma {:induction false} ReadDecimal(n: nat)
    ensures ReadNat(Decimal(n)) == n
  {
    if n >= 10 {
      ReadDecimal(n / 10);
      assert Decimal(n)[..|Decimal(n)| - 1] == Decimal(n / 10);
    }
  }

  lemma {:induction false} ReadZeros(k: nat, s: string)
    requires AllDigits(s)
    ensures ReadNat(Zeros(k) + s) == ReadNat(s)
    decreases |s|, k
  {
    var z := Zeros(k) + s;
    if s != "" {
      ReadZeros(k, s[..|s| - 1]);
      assert z[..|z| - 1] == Zeros(k) + s[..|s| - 1];
    } else if k > 0 {
      assert z == Zeros(k - 1) + "0";
      assert z[..|z| - 1] == Zeros(k - 1) == Zeros(k - 1) + "";
      ReadZeros(k - 1, "");
    }
  }

  /** Padding with zeros does not change the number read back, so no two numbers print alike. */
  lemma {:induction false} ReadPadded(n: nat, width: nat)
    ensures ReadNat(PadStart(Decimal(n), width)) == n
  {
    ReadDecimal(n);
    var s := Decimal(n);
    if |s| < width {
      ReadZeros(width - |s|, s);
    }
  }

  /** A number below ten to the `k` prints in at most `k` digits. */
  lemma {:induction false} DecimalLength(n: nat, k: nat)
    requires 1 <= k && n < PowerOfTen(k)
    ensures |Decimal(n)| <= k
  {
    if n >= 10 {
      DecimalLength(n / 10, k - 1);
    }
  }

  lemma {:induction false} LongDecimal(n: nat, k: nat)
    requires n >= PowerOfTen(k)
    ensures |Decimal(n)| > k
  {
    if k > 0 {
      LongDecimal(n / 10, k - 1);
    }
  }

  function PowerOfTen(k: nat): nat {
    if k == 0 then 1 else 10 * PowerOfTen(k - 1)
  }

  /** What `substring(s FROM '[0-9]+$')` finds: the longest run of digits ending `s`. */
  function TrailingDigits(s: string): (t: string)
    ensures AllDigits(t) && |t| <= |s| && s[|s| - |t|..] == t
    ensures |t| < |s| ==> !IsDigit(s[|s| - |t| - 1])
  {
    if s == "" || !IsDigit(s[|s| - 1]) then ""
    else
      var n := |s| - 1;
      var t := TrailingDigits(s[..n]);
      assert s[n - |t|..] == s[..n][n - |t|..] + [s[n]];
      t + [s[n]]
  }

  lemma {:induction false} TrailingDigitsAfter(prefix: string, digits: string)
    requires AllDigits(digits)
    requires prefix == "" || !IsDigit(prefix[|prefix| - 1])
    ensures TrailingDigits(prefix + digits) == digits
  {
    var s, t := prefix + digits, TrailingDigits(prefix + digits);
    assert s[|prefix|..] == digits;
    if |t| < |digits| {
      assert false;
    }
    assert s[|s| - |t|..] == t;
  }

  /** `a < b` on strings: the first differing character decides, and a prefix comes first. */
  predicate Less(a: string, b: string) {
    b != "" && (a == "" || a[0] < b[0] || (a[0] == b[0] && Less(a[1..], b[1..])))
  }

  predicate AtMost(a: string, b: string) {
    a == b || Less(a, b)
  }

  lemma {:induction false} LessTotal(a: string, b: string)
    ensures Less(a, b) || a == b || Less(b, a)
  {
    if a != "" && b != "" && a[0] == b[0] {
      LessTotal(a[1..], b[1..]);
      assert a == [a[0]] + a[1..] && b == [b[0]] + b[1..];
    }
  }

  lemma {:induction false} LessAsymmetric(a: string, b: string)
    requires Less(a, b)
    ensures !Less(b, a) && a != b
  {
    if a != "" && a[0] == b[0] {
      LessAsymmetric(a[1..], b[1..]);
    }
  }

  lemma {:induction false} LessTransitive(a: string, b: string, c: string)
    requires Less(a, b) && Less(b, c)
    ensures Less(a, c)
  {
    if a != "" && a[0] == b[0] == c[0] {
      LessTransitive(a[1..], b[1..], c[1..]);
    }
  }

  /** Equal heads are skipped by the comparison. */
  lemma {:induction false} LessSamePrefix(p: string, a: string, b: string)
    ensures Less(p + a, p + b) <==> Less(a, b)
  {
    if p == "" {
      assert p + a == a && p + b == b;
    } else {
      LessSamePrefix(p[1..], a, b);
      assert (p + a)[1..] == p[1..] + a && (p + b)[1..] == p[1..] + b;
    }
  }

  /** Different heads of the same length decide the comparison alone. */
  lemma {:induction false} LessByHead(p: string, q: string, a: string, b: string)
    requires |p| == |q| && p != q
    ensures Less(p + a, q + b) <==> Less(p, q)
  {
    if p[0] == q[0] {
      assert p == [p[0]] + p[1..] && q == [q[0]] + q[1..];
      LessByHead(p[1..], q[1..], a, b);
      assert (p + a)[1..] == p[1..] + a && (q + b)[1..] == q[1..] + b;
    }
  }

  /** Digit strings of one length are ordered as the numbers they spell. */
  lemma {:induction false} LessIsNumeric(a: string, b: string)
    requires AllDigits(a) && AllDigits(b) && |a| == |b|
    ensures Less(a, b) <==> ReadNat(a) < ReadNat(b)
    ensures a == b <==> ReadNat(a) == ReadNat(b)
  {
    if a != "" {
      var n := |a| - 1;
      var p, q, x, y := a[..n], b[..n], [a[n]], [b[n]];
      assert a == p + x && b == q + y;
      LessIsNumeric(p, q);
      if p == q {
        LessSamePrefix(p, x, y);
        assert x[1..] == "" && y[1..] == "";
      } else {
        LessByHead(p, q, x, y);
      }
    }
  }

  /** The characters `trim()` removes. */
  predicate IsSpace(c: char) {
    '\U{0009}' <= c <= '\U{000d}' || c == ' ' || c == '\U{00a0}' || c == '\U{1680}'
    || '\U{2000}' <= c <= '\U{200a}' || c == '\U{2028}' || c == '\U{2029}' || c == '\U{202f}'
    || c == '\U{205f}' || c == '\U{3000}' || c == '\U{feff}'
  }

  function TrimStart(s: string): string {
    if s != "" && IsSpace(s[0]) then TrimStart(s[1..]) else s
  }

  function TrimEnd(s: string): string {
    if s != "" && IsSpace(s[|s| - 1]) then TrimEnd(s[..|s| - 1]) else s
  }

  /** `s.trim()`. */
  function Trim(s: string): string {
    TrimEnd(TrimStart(s))
  }

  predicate Trimmed(s: string) {
    s == "" || (!IsSpace(s[0]) && !IsSpace(s[|s| - 1]))
  }

  predicate Blank(s: string) {
    forall i :: 0 <= i < |s| ==> IsSpace(s[i])
  }

  lemma {:induction false} TrimStartShape(s: string)
    ensures var t := TrimStart(s);
            && |t| <= |s| && s[|s| - |t|..] == t && Blank(s[..|s| - |t|])
            && (t == "" || !IsSpace(t[0]))
  {
    if s != "" && IsSpace(s[0]) {
      TrimStartShape(s[1..]);
      var t := TrimStart(s);
      assert s[..|s| - |t|] == [s[0]] + s[1..][..|s| - 1 - |t|];
    } else {
      assert s[..0] == "";
    }
  }

  lemma {:induction false} TrimEndShape(s: string)
    ensures var t := TrimEnd(s);
            && |t| <= |s| && s[..|t|] == t && Blank(s[|t|..])
            && (t == "" || !IsSpace(t[|t| - 1]))
  {
    if s != "" && IsSpace(s[|s| - 1]) {
      TrimEndShape(s[..|s| - 1]);
      var t := TrimEnd(s);
      assert s[|t|..] == s[..|s| - 1][|t|..] + [s[|s| - 1]];
    }
  }

  /** Trimming takes only white space off the two ends, and takes all of it. */
  lemma {:induction false} TrimShape(s: string) returns (left: string, right: string)
    ensures s == left + Trim(s) + right
    ensures Blank(left) && Blank(right) && Trimmed(Trim(s))
  {
    TrimStartShape(s);
    var m := TrimStart(s);
    TrimEndShape(m);
    left, right := s[..|s| - |m|], m[|Trim(s)|..];
  }

  lemma {:induction false} TrimOfTrimmed(s: string)
    requires Trimmed(s)
    ensures Trim(s) == s
  {}

  lemma {:induction false} TrimIdempotent(s: string)
    ensures Trim(Trim(s)) == Trim(s)
  {
    var left, right := TrimShape(s);
    TrimOfTrimmed(Trim(s));
  }

  /** White space added around a string is trimmed away again. */
  lemma {:induction false} TrimAround(left: string, s: string, right: string)
    requires Blank(left) && Blank(right)
    ensures Trim(left + s + right) == Trim(s)
  {
    TrimStartSkips(left, s + right);
    assert left + s + right == left + (s + right);
    if Blank(s) {
      TrimBlank(s + right);
      TrimBlank(s);
    } else {
      TrimStartStops(s, right);
      TrimEndSkips(TrimStart(s), right);
    }
  }

  lemma {:induction false} TrimStartSkips(left: string, s: string)
    requires Blank(left)
    ensures TrimStart(left + s) == TrimStart(s)
  {
    if left == "" {
      assert left + s == s;
    } else {
      TrimStartSkips(left[1..], s);
      assert (left + s)[1..] == left[1..] + s;
    }
  }

  lemma {:induction false} TrimEndSkips(s: string, right: string)
    requires Blank(right)
    ensures TrimEnd(s + right) == TrimEnd(s)
  {
    if right == "" {
      assert s + right == s;
    } else {
      TrimEndSkips(s, right[..|right| - 1]);
      assert (s + right)[..|s + right| - 1] == s + right[..|right| - 1];
    }
  }

  lemma {:induction false} TrimStartStops(s: string, right: string)
    requires !Blank(s)
    ensures TrimStart(s + right) == TrimStart(s) + right
  {
    if IsSpace(s[0]) {
      assert s == [s[0]] + s[1..];
      TrimStartStops(s[1..], right);
      assert (s + right)[1..] == s[1..] + right;
    }
  }

  lemma {:induction false} TrimBlank(s: string)
    requires Blank(s)
    ensures Trim(s) == ""
  {
    if s != "" {
      TrimBlank(s[1..]);
    }
  }
}

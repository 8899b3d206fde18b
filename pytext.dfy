/** The Python conversions between integers and decimal text that the hour-bucket
  * derivation goes through: `str(n)`, `s.zfill(w)`, `int(s)` and `f"{n:02d}"`. */
module PyText {
  import opened Wrappers
  import opened Sorting

  predicate IsDigit(c: char) {
    '0' <= c <= '9'
  }

  predicate AllDigits(s: string) {
    forall i :: 0 <= i < |s| ==> IsDigit(s[i])
  }

  function Digit(d: nat): (c: char)
    requires d <= 9
    ensures IsDigit(c)
  {
    ('0' as int + d) as char
  }

  function DigitValue(c: char): (d: nat)
    requires IsDigit(c)
    ensures d <= 9 && Digit(d) == c
  {
    c as int - '0' as int
  }

  function Pow10(k: nat): (p: nat)
    ensures p >= 1
  {
    if k == 0 then 1 else 10 * Pow10(k - 1)
  }

  /** The decimal digits of `n`, most significant first, with no leading zero. */
  function DecimalText(n: nat): (r: string)
    ensures 1 <= |r| && AllDigits(r)
    ensures r[0] == '0' ==> n == 0
  {
    if n < 10 then [Digit(n)] else DecimalText(n / 10) + [Digit(n % 10)]
  }

  /** Python's `str(n)` for an integer `n`. */
  function Show(n: int): (s: string)
    ensures 1 <= |s| && (s[0] == '-' <==> n < 0)
    ensures n != 0 ==> s[0] != '0'
  {
    if n < 0 then "-" + DecimalText(-n) else DecimalText(n)
  }

  function Zeros(n: nat): (r: string)
    ensures |r| == n && forall i :: 0 <= i < n ==> r[i] == '0'
  {
    seq(n, _ => '0')
  }

  /** Python's `s.zfill(width)`: zeros on the left up to `width`, after a leading sign. */
  function ZFill(s: string, width: nat): (r: string)
    ensures |r| == if |s| >= width then |s| else width
  {
    if |s| >= width then s
    else if |s| > 0 && (s[0] == '-' || s[0] == '+') then [s[0]] + Zeros(width - |s|) + s[1..]
    else Zeros(width - |s|) + s
  }

  /** The value of a run of decimal digits. */
  function DigitsValue(s: string): nat
    requires AllDigits(s)
  {
    if s == [] then 0 else 10 * DigitsValue(s[..|s| - 1]) + DigitValue(s[|s| - 1])
  }

  /** Python's `int(s)` on an optionally signed run of decimal digits; `None` where
    * Python raises. */
  function ParseInt(s: string): (r: Option<int>)
    ensures r.Some? ==> 1 <= |s| && (IsDigit(s[0]) || s[0] == '-' || s[0] == '+')
    ensures r.Some? && r.value < 0 ==> s[0] == '-'
  {
    if 2 <= |s| && (s[0] == '-' || s[0] == '+') && AllDigits(s[1..]) then
      var magnitude: int := DigitsValue(s[1..]);
      Some(if s[0] == '-' then -magnitude else magnitude)
    else if 1 <= |s| && AllDigits(s) then Some(DigitsValue(s))
    else None
  }

  /** The last `k` decimal places of `n`, zero-padded: the digits of `n % 10^k`. */
  function PadDigits(n: nat, k: nat): (r: string)
    ensures |r| == k && AllDigits(r)
  {
    if k == 0 then [] else PadDigits(n / 10, k - 1) + [Digit(n % 10)]
  }

  /** `n` with its last `j` decimal places removed. */
  function DropDigits(n: nat, j: nat): nat {
    if j == 0 then n else DropDigits(n / 10, j - 1)
  }

  lemma {:induction false} ValueOfDecimalText(n: nat)
    ensures DigitsValue(DecimalText(n)) == n
  {
    if n >= 10 {
      ValueOfDecimalText(n / 10);
      var t := DecimalText(n / 10);
      assert (t + [Digit(n % 10)])[..|t|] == t;
    }
  }

  /** `int(str(n)) == n` for every integer. */
  lemma ParseShow(n: int)
    ensures ParseInt(Show(n)) == Some(n)
  {
    if n < 0 {
      var t := DecimalText(-n);
      ValueOfDecimalText(-n);
      assert Show(n) == ['-'] + t;
      assert Show(n)[1..] == t;
    } else {
      var t := DecimalText(n);
      ValueOfDecimalText(n);
      assert IsDigit(t[0]);
      assert ParseInt(t) == Some(DigitsValue(t));
    }
  }

  lemma {:induction false} DecimalTextLength(n: nat, k: nat)
    requires 1 <= k && n < Pow10(k)
    ensures |DecimalText(n)| <= k
  {
    if n >= 10 {
      assert k >= 2;
      DecimalTextLength(n / 10, k - 1);
    }
  }

  /** A number of at least `10^k` has more than `k` digits. */
  lemma {:induction false} DecimalTextLong(n: nat, k: nat)
    requires n >= Pow10(k)
    ensures |DecimalText(n)| >= k + 1
  {
    if k > 0 {
      DecimalTextLong(n / 10, k - 1);
    }
  }

  lemma {:induction false} PadZero(k: nat)
    ensures PadDigits(0, k) == Zeros(k)
  {
    if k > 0 {
      PadZero(k - 1);
    }
  }

  /** Zero-filling the decimal text of a number below `10^k` to `k` places gives its
    * last `k` digits. */
  lemma {:induction false} ZFillDecimalText(n: nat, k: nat)
    requires 1 <= k && n < Pow10(k)
    ensures ZFill(DecimalText(n), k) == PadDigits(n, k)
  {
    if n < 10 {
      PadZero(k - 1);
    } else {
      var t := DecimalText(n / 10);
      DecimalTextLength(n / 10, k - 1);
      ZFillDecimalText(n / 10, k - 1);
      assert t[0] != '-' && t[0] != '+';
      assert (t + [Digit(n % 10)])[0] == t[0];
    }
  }

  /** The first two of the `k` padded places are the last two digits of `n / 10^(k-2)`. */
  lemma {:induction false} PadPrefix(n: nat, k: nat)
    requires 2 <= k
    ensures PadDigits(n, k)[..2] == PadDigits(DropDigits(n, k - 2), 2)
  {
    if k > 2 {
      PadPrefix(n / 10, k - 1);
      assert PadDigits(n, k)[..2] == PadDigits(n / 10, k - 1)[..2];
    }
  }

  /** `f"{h:02d}"` reproduces a two-character run of digits read by `int(...)`. */
  lemma TwoDigitsRoundTrip(a: char, b: char)
    requires IsDigit(a) && IsDigit(b)
    ensures ParseInt([a, b]) == Some(10 * DigitValue(a) + DigitValue(b))
    ensures ZFill(Show(10 * DigitValue(a) + DigitValue(b)), 2) == [a, b]
  {
    var s := [a, b];
    assert s[..|s| - 1] == [a] && [a][..|[a]| - 1] == [];
    assert DigitsValue([a]) == DigitValue(a);
    assert DigitsValue(s) == 10 * DigitsValue([a]) + DigitValue(b);
    var h := 10 * DigitValue(a) + DigitValue(b);
    assert h / 10 == DigitValue(a) && h % 10 == DigitValue(b);
    if DigitValue(a) == 0 {
      assert Show(h) == [Digit(DigitValue(b))] == [b];
      assert a == Digit(0) == '0';
      assert ZFill([b], 2) == Zeros(1) + [b];
    } else {
      assert DecimalText(h / 10) == [a];
      assert Show(h) == [a] + [b];
    }
  }

  /** The first two of six zero-padded places of `n` are the two zero-padded places
    * of `n div 10000`. */
  lemma LeadingPairOfSix(n: nat)
    requires n <= 999999
    ensures ZFill(DecimalText(n), 6)[..2] == ZFill(DecimalText(n / 10000), 2)
  {
    assert Pow10(6) == 1000000 && Pow10(2) == 100;
    ZFillDecimalText(n, 6);
    PadPrefix(n, 6);
    assert DropDigits(n, 4) == DropDigits(n / 10, 3);
    assert DropDigits(n / 10, 3) == DropDigits(n / 10 / 10, 2);
    assert DropDigits(n / 10 / 10, 2) == DropDigits(n / 10 / 10 / 10, 1);
    assert DropDigits(n / 10 / 10 / 10, 1) == n / 10 / 10 / 10 / 10;
    assert n / 10 / 10 / 10 / 10 == n / 10000;
    ZFillDecimalText(n / 10000, 2);
  }

  /** Two zero-padded places of a number below 100: its tens and units digits. */
  lemma TwoPlaces(m: nat)
    requires m <= 99
    ensures ZFill(DecimalText(m), 2) == [Digit(m / 10), Digit(m % 10)]
  {
    assert Pow10(2) == 100;
    ZFillDecimalText(m, 2);
    assert PadDigits(m / 10 / 10, 0) == [];
  }

  /** `f"{h:02d}"` of a value `int()` can read from two characters is two characters:
    * two digits, or a minus sign and a digit. */
  lemma TwoPlaceFormat(h: int)
    requires -9 <= h <= 99
    ensures |ZFill(Show(h), 2)| == 2
    ensures AllDigits(ZFill(Show(h), 2)) || (ZFill(Show(h), 2)[0] == '-' && IsDigit(ZFill(Show(h), 2)[1]))
  {
    if h >= 0 {
      TwoPlaces(h);
    } else {
      assert DecimalText(-h) == [Digit(-h)];
      assert Show(h) == ['-', Digit(-h)];
    }
  }

  /** Python's `a < b` on `str`: lexicographic by code point, a proper prefix first. */
  predicate StringLt(a: string, b: string) {
    if a == [] then b != []
    else if b == [] then false
    else if a[0] != b[0] then a[0] < b[0]
    else StringLt(a[1..], b[1..])
  }

  lemma {:induction false} StringLtIrreflexive(a: string)
    ensures !StringLt(a, a)
  {
    if a != [] {
      StringLtIrreflexive(a[1..]);
    }
  }

  lemma {:induction false} StringLtTransitive(a: string, b: string, c: string)
    requires StringLt(a, b) && StringLt(b, c)
    ensures StringLt(a, c)
  {
    if a != [] && a[0] == b[0] && b[0] == c[0] {
      StringLtTransitive(a[1..], b[1..], c[1..]);
    }
  }

  lemma {:induction false} StringLtConnected(a: string, b: string)
    requires a != b
    ensures StringLt(a, b) || StringLt(b, a)
  {
    if a != [] && b != [] && a[0] == b[0] {
      assert a == [a[0]] + a[1..] && b == [b[0]] + b[1..];
      StringLtConnected(a[1..], b[1..]);
    }
  }

  /** Python orders strings totally, so `sorted` on a text column is well defined. */
  lemma StringLtIsStrictTotalOrder()
    ensures StrictTotalOrder(StringLt)
  {
    forall a: string ensures !StringLt(a, a) {
      StringLtIrreflexive(a);
    }
    forall a: string, b: string, c: string | StringLt(a, b) && StringLt(b, c) ensures StringLt(a, c) {
      StringLtTransitive(a, b, c);
    }
    forall a: string, b: string | a != b ensures StringLt(a, b) || StringLt(b, a) {
      StringLtConnected(a, b);
    }
  }
}

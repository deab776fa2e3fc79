/** Decimal rendering and parsing of natural numbers, as Python's `str`/`%d`
    formatting with a zero-padded width (`{n:03d}`, `strftime("%H")`) produces
    them, and the suffix test of `str.endswith`. */
module Text {

  datatype Option<T> = None | Some(value: T)

  /** Appending to a trace in steps is appending the steps' concatenation. */
  lemma Assoc<T>(a: seq<T>, b: seq<T>, c: seq<T>)
    ensures (a + b) + c == a + (b + c)
  {
  }

  /** The first `k + 1` elements are the first `k` and then element `k`. */
  lemma TakeSnoc<T>(s: seq<T>, k: nat)
    requires k < |s|
    ensures s[..k + 1] == s[..k] + [s[k]]
  {
  }

  predicate IsDigit(c: char) { '0' <= c <= '9' }

  predicate AllDigits(s: string) { forall i :: 0 <= i < |s| ==> IsDigit(s[i]) }

  function DigitChar(d: nat): (c: char)
    requires d < 10
    ensures IsDigit(c) && c as int - '0' as int == d
  {
    ('0' as int + d) as char
  }

  function DigitValue(c: char): (d: nat)
    requires IsDigit(c)
    ensures d < 10 && DigitChar(d) == c
  {
    c as int - '0' as int
  }

  function Pow10(k: nat): (p: nat)
    ensures p >= 1
  {
    if k == 0 then 1 else 10 * Pow10(k - 1)
  }

  /** The shortest decimal numeral of `n`, most significant digit first. */
  function Decimal(n: nat): (s: string)
    ensures 1 <= |s| && AllDigits(s)
    ensures s[0] == '0' ==> n == 0
  {
    if n < 10 then [DigitChar(n)] else Decimal(n / 10) + [DigitChar(n % 10)]
  }

  /** The value of a string of decimal digits (the empty string has value 0). */
  function DigitsValue(s: string): nat
    requires AllDigits(s)
  {
    if |s| == 0 then 0 else DigitsValue(s[..|s| - 1]) * 10 + DigitValue(s[|s| - 1])
  }

  function Zeros(k: nat): (s: string)
    ensures |s| == k && AllDigits(s)
    ensures forall i :: 0 <= i < k ==> s[i] == '0'
  {
    if k == 0 then [] else ['0'] + Zeros(k - 1)
  }

  /** `n` rendered with at least `w` digits, zero padded on the left: Python's `f"{n:0{w}d}"`. */
  function Pad(n: nat, w: nat): (s: string)
    ensures AllDigits(s)
    ensures |s| == if |Decimal(n)| < w then w else |Decimal(n)|
  {
    var d := Decimal(n);
    (if |d| < w then Zeros(w - |d|) else []) + d
  }

  predicate StartsWith(s: string, prefix: string) {
    |prefix| <= |s| && s[..|prefix|] == prefix
  }

  /** Python's `s.endswith(suffix)`. */
  predicate EndsWith(s: string, suffix: string) {
    |suffix| <= |s| && s[|s| - |suffix|..] == suffix
  }

  lemma {:induction false} DecimalRoundTrip(n: nat)
    ensures DigitsValue(Decimal(n)) == n
  {
    var s := Decimal(n);
    if n < 10 {
      assert s[..|s| - 1] == [];
    } else {
      assert s[..|s| - 1] == Decimal(n / 10);
      DecimalRoundTrip(n / 10);
    }
  }

  lemma {:induction false} ZeroPrefix(t: string)
    requires AllDigits(t)
    ensures DigitsValue(['0'] + t) == DigitsValue(t)
  {
    var s := ['0'] + t;
    if |t| == 0 {
      assert s[..|s| - 1] == [];
    } else {
      assert s[..|s| - 1] == ['0'] + t[..|t| - 1];
      assert s[|s| - 1] == t[|t| - 1];
      ZeroPrefix(t[..|t| - 1]);
    }
  }

  lemma {:induction false} LeadingZeros(k: nat, t: string)
    requires AllDigits(t)
    ensures DigitsValue(Zeros(k) + t) == DigitsValue(t)
  {
    if k == 0 {
      assert Zeros(k) + t == t;
    } else {
      assert Zeros(k) + t == ['0'] + (Zeros(k - 1) + t);
      ZeroPrefix(Zeros(k - 1) + t);
      LeadingZeros(k - 1, t);
    }
  }

  /** Zero padding never changes the value: parsing `f"{n:0{w}d}"` gives back `n`. */
  lemma PadRoundTrip(n: nat, w: nat)
    ensures DigitsValue(Pad(n, w)) == n
  {
    var d := Decimal(n);
    DecimalRoundTrip(n);
    if |d| < w {
      LeadingZeros(w - |d|, d);
    } else {
      assert Pad(n, w) == d;
    }
  }

  lemma {:induction false} DecimalWidth(n: nat, w: nat)
    requires 1 <= w && n < Pow10(w)
    ensures |Decimal(n)| <= w
  {
    if n >= 10 {
      DecimalWidth(n / 10, w - 1);
    }
  }

  /** Below `10^w` the padded numeral is exactly `w` characters wide. */
  lemma PadWidth(n: nat, w: nat)
    requires 1 <= w && n < Pow10(w)
    ensures |Pad(n, w)| == w
  {
    DecimalWidth(n, w);
  }
}

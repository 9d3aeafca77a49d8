/** Decimal text as the duration printer and parser use it: digit strings, integers, and fractions. */
module Decimals {

  type Text = seq<char>

  /** Digits, an optional point, and digits behind it. */
  datatype Number = Number(whole: Text, dot: bool, frac: Text)

  predicate IsDigit(c: char) { '0' <= c <= '9' }

  predicate Digits(s: Text) { forall i :: 0 <= i < |s| ==> IsDigit(s[i]) }

  function DigitOf(c: char): (d: nat)
    requires IsDigit(c)
    ensures d < 10
  {
    c as int - '0' as int
  }

  function CharOf(d: nat): (c: char)
    requires d < 10
    ensures IsDigit(c) && DigitOf(c) == d
  {
    (d + '0' as int) as char
  }

  function Pow10(p: nat): (r: nat)
    ensures r > 0
  {
    if p == 0 then 1 else 10 * Pow10(p - 1)
  }

  function Value(s: Text): nat
    requires Digits(s)
  {
    if s == [] then 0 else 10 * Value(s[..|s| - 1]) + DigitOf(s[|s| - 1])
  }

  /** strconv.FormatInt in base 10 of a number that is not negative. */
  function Decimal(n: nat): (s: Text)
    ensures s != [] && Digits(s)
  {
    if n < 10 then [CharOf(n)] else Decimal(n / 10) + [CharOf(n % 10)]
  }

  function Zeros(k: nat): (s: Text)
    ensures |s| == k && Digits(s)
  {
    seq(k, _ => '0')
  }

  lemma {:induction false} DecimalValue(n: nat)
    ensures Value(Decimal(n)) == n
  {
    if n >= 10 {
      DecimalValue(n / 10);
      assert Decimal(n)[..|Decimal(n)| - 1] == Decimal(n / 10);
    }
  }

  lemma {:induction false} DecimalLength(n: nat, p: nat)
    requires p > 0 && n < Pow10(p)
    ensures |Decimal(n)| <= p
  {
    if n >= 10 { DecimalLength(n / 10, p - 1); }
  }

  lemma TimesTen(x: nat, p: nat)
    ensures x * Pow10(p + 1) == 10 * (x * Pow10(p))
  {
    Regroup(x, 10, Pow10(p));
  }

  lemma Regroup(x: nat, y: nat, z: nat)
    ensures x * (y * z) == y * (x * z)
  {
  }

  lemma {:induction false} PowSum(a: nat, b: nat)
    ensures Pow10(a + b) == Pow10(a) * Pow10(b)
  {
    if b > 0 {
      PowSum(a, b - 1);
      TimesTen(Pow10(a), b - 1);
    }
  }

  lemma {:induction false} ValueJoin(a: Text, b: Text)
    requires Digits(a) && Digits(b)
    ensures Digits(a + b) && Value(a + b) == Value(a) * Pow10(|b|) + Value(b)
  {
    if b == [] {
      assert a + b == a;
    } else {
      var n := |b| - 1;
      ValueJoin(a, b[..n]);
      assert (a + b)[..|a| + n] == a + b[..n];
      TimesTen(Value(a), n);
    }
  }

  lemma {:induction false} ValueBound(s: Text)
    requires Digits(s)
    ensures Value(s) < Pow10(|s|)
  {
    if s != [] { ValueBound(s[..|s| - 1]); }
  }

  /** Leading zeros change nothing. */
  lemma {:induction false} LeadingZeros(k: nat, s: Text)
    requires Digits(s)
    ensures Digits(Zeros(k) + s) && Value(Zeros(k) + s) == Value(s)
  {
    if s == [] {
      ZerosValue(k);
      assert Zeros(k) + s == Zeros(k);
    } else {
      var n := |s| - 1;
      LeadingZeros(k, s[..n]);
      assert (Zeros(k) + s)[..k + n] == Zeros(k) + s[..n];
    }
  }

  lemma {:induction false} ZerosValue(k: nat)
    ensures Value(Zeros(k)) == 0
  {
    if k > 0 {
      assert Zeros(k)[..k - 1] == Zeros(k - 1);
      ZerosValue(k - 1);
    }
  }

  // ---- numbers in text ---------------------------------------------------------------------

  predicate WellFormed(n: Number) {
    && Digits(n.whole) && Digits(n.frac)
    && (n.frac != [] ==> n.dot)
    && (n.whole != [] || n.frac != [])
  }

  function NumberText(n: Number): Text { n.whole + (if n.dot then ['.'] + n.frac else []) }

  /** The digits of a number without its point: its value is this over Pow10(|frac|). */
  function Scaled(n: Number): nat
    requires Digits(n.whole) && Digits(n.frac)
  {
    Value(n.whole + n.frac)
  }

  function DigitRun(s: Text): (k: nat)
    ensures k <= |s| && Digits(s[..k])
  {
    if s != [] && IsDigit(s[0]) then
      assert forall i :: 0 < i < 1 + DigitRun(s[1..]) ==>
        s[i] == s[1..][i - 1] && s[1..][..DigitRun(s[1..])][i - 1] == s[i];
      1 + DigitRun(s[1..])
    else 0
  }

  /** The longest [0-9]*(\.[0-9]*)? at the front. */
  function ScanNumber(s: Text): (n: Number)
    ensures Digits(n.whole) && Digits(n.frac) && (n.frac != [] ==> n.dot)
    ensures |NumberText(n)| <= |s|
  {
    var j := DigitRun(s);
    if j < |s| && s[j] == '.' then
      var k := DigitRun(s[j + 1..]);
      Number(s[..j], true, s[j + 1..][..k])
    else
      Number(s[..j], false, [])
  }

  /** No digit or point continues a number that is followed by this text. */
  predicate Stops(rest: Text) { rest != [] && rest[0] != '.' && !IsDigit(rest[0]) }

  lemma {:induction false} DigitRunExact(ds: Text, rest: Text)
    requires Digits(ds) && (rest != [] ==> !IsDigit(rest[0]))
    ensures DigitRun(ds + rest) == |ds|
  {
    if ds == [] {
      assert ds + rest == rest;
    } else {
      assert (ds + rest)[1..] == ds[1..] + rest;
      DigitRunExact(ds[1..], rest);
    }
  }

  lemma ScanText(n: Number, rest: Text)
    requires Digits(n.whole) && Digits(n.frac) && (n.frac != [] ==> n.dot) && Stops(rest)
    ensures ScanNumber(NumberText(n) + rest) == n
  {
    var s := NumberText(n) + rest;
    if n.dot {
      assert s == n.whole + (['.'] + n.frac + rest);
      DigitRunExact(n.whole, ['.'] + n.frac + rest);
      assert s[|n.whole| + 1..] == n.frac + rest;
      DigitRunExact(n.frac, rest);
    } else {
      assert s == n.whole + rest;
      DigitRunExact(n.whole, rest);
    }
  }

  // ---- rational numbers as decimals -----------------------------------------------------------

  /** The remainder r of a division by den as a fraction of p parts, rounded half up. */
  function Parts(r: nat, den: nat, p: nat): (t: nat)
    requires den > 0
  {
    var t, r2 := Div(r * p, den), r * p - Div(r * p, den) * den;
    if den <= r2 + r2 then t + 1 else t
  }

  function Div(a: nat, b: nat): (q: nat)
    requires b > 0
    ensures q * b <= a < q * b + b
  {
    a / b
  }

  /** A fraction part of exactly prec digits. */
  function Padded(t: nat, prec: nat): (s: Text)
    ensures Digits(s)
  {
    var digits := Decimal(t);
    if prec == 0 then [] else if |digits| < prec then Zeros(prec - |digits|) + digits else digits
  }

  /** big.Rat's FloatString(prec) of num/den: rounded half up to prec digits behind the point. */
  function FloatString(num: nat, den: nat, prec: nat): (n: Number)
    requires den > 0
    ensures WellFormed(n)
  {
    var q := Div(num, den);
    var r := num - q * den;
    if r == 0 then Number(Decimal(q), prec > 0, Zeros(prec))
    else
      var t, p := Parts(r, den, Pow10(prec)), Pow10(prec);
      if t >= p then Number(Decimal(q + 1), prec > 0, Padded(t - p, prec))
      else Number(Decimal(q), prec > 0, Padded(t, prec))
  }

  /** A value that has prec decimals is printed exactly. */
  lemma FloatStringExact(num: nat, prec: nat)
    ensures var n := FloatString(num, Pow10(prec), prec); |n.frac| == prec && Scaled(n) == num
  {
    var den := Pow10(prec);
    var q := Div(num, den);
    var r := num - q * den;
    if r == 0 {
      ZerosValue(prec);
      DecimalJoin(q, Zeros(prec));
    } else {
      Cancel(r, den);
      PaddedExact(r, prec);
      DecimalJoin(q, Padded(r, prec));
    }
  }

  lemma DecimalJoin(q: nat, frac: Text)
    requires Digits(frac)
    ensures Digits(Decimal(q) + frac) && Value(Decimal(q) + frac) == q * Pow10(|frac|) + Value(frac)
  {
    DecimalValue(q);
    ValueJoin(Decimal(q), frac);
  }

  lemma PaddedExact(t: nat, prec: nat)
    requires t < Pow10(prec) && prec > 0
    ensures |Padded(t, prec)| == prec && Value(Padded(t, prec)) == t
  {
    var digits := Decimal(t);
    DecimalLength(t, prec);
    DecimalValue(t);
    LeadingZeros(prec - |digits|, digits);
  }

  /** Nothing is left to round when den is the number of parts. */
  lemma Cancel(r: nat, den: nat)
    requires den > 0
    ensures Parts(r, den, den) == r
  {
    DivUnique(r * den, den, r, 0);
  }

  lemma DivUnique(a: nat, b: nat, q: nat, r: nat)
    requires b > 0 && a == q * b + r && r < b
    ensures Div(a, b) == q
  {
    var d := Div(a, b);
    if d < q { Above(d, q, b); }
    if q < d { Above(q, d, b); }
  }

  lemma Above(a: nat, c: nat, b: nat)
    requires a < c
    ensures a * b + b <= c * b
  {
    var k: nat := c - a - 1;
    assert c * b == a * b + b + k * b;
  }
}

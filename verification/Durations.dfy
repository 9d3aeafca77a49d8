/**
 * Durations with days: the printer and the parser (utils/fmt.go), and the configuration value that uses them
 * (config/types/types.go). A duration is a signed 64-bit number of nanoseconds.
 */
module Durations {
  import opened Common
  import opened Decimals

  const BOUND: int := 0x8000_0000_0000_0000  // 2^63
  const WORD: int := 0x1_0000_0000_0000_0000  // 2^64

  const MICROSECOND: nat := 1_000
  const MILLISECOND: nat := 1_000_000
  const SECOND: nat := 1_000_000_000
  const MINUTE: nat := 60_000_000_000
  const HOUR: nat := 3600_000_000_000
  const DAY: nat := 86400_000_000_000

  // ---- time.ParseDuration -----------------------------------------------------------------

  /** The units of the time package, in nanoseconds: ns, us, µs (two spellings), ms, s, m, h; 0 for any other. */
  function UnitOf(u: Text): nat {
    if |u| == 1 then
      if u[0] == 's' then SECOND else if u[0] == 'm' then MINUTE else if u[0] == 'h' then HOUR else 0
    else if |u| == 2 && u[1] == 's' then
      if u[0] == 'n' then 1
      else if u[0] == 'u' || u[0] == '\U{b5}' || u[0] == '\U{3bc}' then MICROSECOND
      else if u[0] == 'm' then MILLISECOND
      else 0
    else 0
  }

  predicate IsDay(u: Text) { |u| == 1 && u[0] == 'd' }

  /** The leading integer of a token; it fails above 2^63. */
  function LeadingInt(ds: Text): Result<nat>
    requires Digits(ds)
  {
    if ds == [] then Ok(0)
    else
      var x := LeadingInt(ds[..|ds| - 1]);
      if x.Err? || x.value > BOUND / 10 then Err
      else
        var y := 10 * x.value + DigitOf(ds[|ds| - 1]);
        if y > BOUND then Err else Ok(y)
  }

  /** The digits behind the point, as a number and how many of them it holds; digits that overflow are dropped. */
  function LeadingFraction(ds: Text): (r: (nat, nat))
    requires Digits(ds)
  {
    if ds == [] then (0, 0)
    else
      var (x, k) := LeadingFraction(ds[..|ds| - 1]);
      if k < |ds| - 1 || x > (BOUND - 1) / 10 then (x, k)
      else
        var y := 10 * x + DigitOf(ds[|ds| - 1]);
        if y > BOUND then (x, k) else (y, k + 1)
  }

  predicate IsUnitChar(c: char) { c != '.' && !IsDigit(c) }

  function UnitRun(s: Text): (k: nat)
    ensures k <= |s|
  {
    if s != [] && IsUnitChar(s[0]) then 1 + UnitRun(s[1..]) else 0
  }

  /** v units and f parts of p of a unit, with the parser's overflow checks. */
  function Combine(v: nat, f: nat, p: nat, unit: nat): Result<nat>
    requires unit > 0 && p > 0
  {
    if v > Div(BOUND, unit) then Err
    else if f == 0 then Ok(v * unit)
    else if v * unit + Div(f * unit, p) > BOUND then Err
    else Ok(v * unit + Div(f * unit, p))
  }

  /** One token's nanoseconds as the parser computes them. */
  function TokenNanos(n: Number, unit: nat): Result<nat>
    requires Digits(n.whole) && Digits(n.frac) && unit > 0
  {
    var v := LeadingInt(n.whole);
    var (f, k) := LeadingFraction(n.frac);
    if v.Err? then Err else Combine(v.value, f, Pow10(k), unit)
  }

  /** What the parser finds at the front of its text: a token's nanoseconds and the text behind it. */
  datatype Lexed = Bad | Good(nanos: nat, rest: Text)

  function Lex(s: Text): (r: Lexed)
    ensures r.Good? ==> |r.rest| < |s|
  {
    var n := ScanNumber(s);
    var rest := s[|NumberText(n)|..];
    var i := UnitRun(rest);
    if (n.whole == [] && n.frac == []) || i == 0 || UnitOf(rest[..i]) == 0 then Bad
    else
      var v := TokenNanos(n, UnitOf(rest[..i]));
      if v.Err? then Bad else Good(v.value, rest[i..])
  }

  /** The loop over tokens; d is an unsigned 64-bit sum. A lexer takes at least one character. */
  function AddUp(lex: Text -> Lexed, s: Text, d: nat): Result<nat>
    decreases |s|
  {
    if s == [] then Ok(d)
    else
      var r := lex(s);
      if r.Bad? || |r.rest| >= |s| || Wrap(d + r.nanos) > BOUND then Err else AddUp(lex, r.rest, Wrap(d + r.nanos))
  }

  /** Unsigned 64-bit addition. */
  function Wrap(x: nat): (r: nat)
    ensures x < WORD ==> r == x
  {
    x % WORD
  }

  function ParseSigned(lex: Text -> Lexed, value: Text): Result<int> {
    var neg := value != [] && value[0] == '-';
    var s := if value != [] && (value[0] == '-' || value[0] == '+') then value[1..] else value;
    if |s| == 1 && s[0] == '0' then Ok(0)
    else if s == [] then Err
    else
      var d := AddUp(lex, s, 0);
      if d.Err? then Err
      else if neg then Ok(0 - d.value)
      else if d.value > BOUND - 1 then Err
      else Ok(d.value)
  }

  // ---- days ------------------------------------------------------------------------------

  /** Every leftmost match replaced; a pattern gives the length of its match at the front of a text, 0 for none. */
  function ReplaceAll(pattern: Text -> nat, replace: Text -> Text, s: Text): Text
    decreases |s|
  {
    var m := pattern(s);
    if s == [] then []
    else if 0 < m <= |s| then replace(s[..m]) + ReplaceAll(pattern, replace, s[m..])
    else [s[0]] + ReplaceAll(pattern, replace, s[1..])
  }

  /** The day pattern: a number with a digit in it, then "d". */
  function DayMatch(s: Text): (m: nat)
    ensures m <= |s|
  {
    var n := ScanNumber(s);
    var k := |NumberText(n)|;
    if (n.whole != [] || n.frac != []) && k < |s| && s[k] == 'd' then k + 1 else 0
  }

  /** Days as hours, with as many digits behind the point as the days have. */
  function DaysToHours(n: Number): (h: Number)
    requires WellFormed(n)
    ensures WellFormed(h)
  {
    FloatString(Scaled(n) * 24, Pow10(|n.frac|), |n.frac|)
  }

  function HoursText(day: Text): Text {
    var n := ScanNumber(day);
    if WellFormed(n) then NumberText(DaysToHours(n)) + "h" else day
  }

  /** utils.ParseDuration: days rewritten to hours, then the time package's parser. */
  function ParseDuration(value: Text): Result<int> { ParseSigned(Lex, ReplaceAll(DayMatch, HoursText, value)) }

  // ---- tokens -----------------------------------------------------------------------------

  /** A number with a unit of the time package, or with "d". */
  datatype Token = Token(number: Number, unit: Text)

  function NanosPer(unit: Text): nat { if IsDay(unit) then DAY else UnitOf(unit) }

  /** The parser keeps 18 digits behind the point for certain. */
  predicate IsToken(t: Token) { WellFormed(t.number) && |t.number.frac| <= 18 && NanosPer(t.unit) > 0 }

  function TokenText(t: Token): Text { NumberText(t.number) + t.unit }

  /** What a token means: its exact value, rounded down to whole nanoseconds. */
  function Nanos(t: Token): nat
    requires WellFormed(t.number)
  {
    Div(Scaled(t.number) * NanosPer(t.unit), Pow10(|t.number.frac|))
  }

  function Render(ts: seq<Token>): Text { if ts == [] then [] else TokenText(ts[0]) + Render(ts[1..]) }

  predicate AreTokens(ts: seq<Token>) { forall i :: 0 <= i < |ts| ==> IsToken(ts[i]) }

  function Total(ts: seq<Token>): nat
    requires AreTokens(ts)
  {
    if ts == [] then 0 else Nanos(ts[0]) + Total(ts[1..])
  }

  function InHours(t: Token): Token
    requires IsToken(t)
  {
    if IsDay(t.unit) then Token(DaysToHours(t.number), "h") else t
  }

  /** Days become hours exactly, whatever the number of digits behind the point. */
  lemma DayRewriteExact(n: Number)
    requires WellFormed(n)
    ensures |DaysToHours(n).frac| == |n.frac| && Scaled(DaysToHours(n)) == 24 * Scaled(n)
  {
    FloatStringExact(Scaled(n) * 24, |n.frac|);
  }

  lemma InHoursSame(t: Token)
    requires IsToken(t)
    ensures IsToken(InHours(t)) && !IsDay(InHours(t).unit) && Nanos(InHours(t)) == Nanos(t)
  {
    if IsDay(t.unit) {
      DayRewriteExact(t.number);
      var v := Scaled(t.number);
      assert 24 * v * HOUR == v * DAY;
    }
  }

  // ---- the parser on tokens ------------------------------------------------------------------

  lemma {:induction false} LeadingIntExact(ds: Text)
    requires Digits(ds)
    ensures LeadingInt(ds) == if Value(ds) <= BOUND then Ok(Value(ds)) else Err
  {
    if ds != [] { LeadingIntExact(ds[..|ds| - 1]); }
  }

  lemma {:induction false} LeadingFractionExact(ds: Text)
    requires Digits(ds) && |ds| <= 18
    ensures LeadingFraction(ds) == (Value(ds), |ds|)
  {
    if ds != [] {
      var n := |ds| - 1;
      LeadingFractionExact(ds[..n]);
      ValueBound(ds[..n]);
      PowUpTo17(n);
    }
  }

  lemma {:induction false} PowUpTo17(n: nat)
    requires n <= 17
    ensures Pow10(n) <= 100_000_000_000_000_000
  {
    PowMonotone(n, 17);
    assert Pow10(5) == 100_000;
    assert Pow10(9) == 10_000 * Pow10(5);
    assert Pow10(13) == 10_000 * Pow10(9);
    assert Pow10(17) == 10_000 * Pow10(13);
  }

  lemma {:induction false} PowMonotone(a: nat, b: nat)
    requires a <= b
    ensures Pow10(a) <= Pow10(b)
  {
    if a < b { PowMonotone(a, b - 1); }
  }

  /** Whole and fraction of a number times its unit, added up separately, lose nothing. */
  lemma SplitNanos(v: nat, f: nat, p: nat, unit: nat)
    requires p > 0
    ensures v * unit + Div(f * unit, p) == Div((v * p + f) * unit, p)
  {
    var q := Div(f * unit, p);
    assert (v * p + f) * unit == (v * unit) * p + f * unit;
    assert (v * unit + q) * p == (v * unit) * p + q * p;
    DivUnique((v * p + f) * unit, p, v * unit + q, f * unit - q * p);
  }

  lemma CombineExact(v: nat, f: nat, p: nat, unit: nat)
    requires p > 0 && unit > 0
    ensures var x := Div((v * p + f) * unit, p); v <= x && Combine(v, f, p, unit) == if x <= BOUND then Ok(x) else Err
  {
    SplitNanos(v, f, p, unit);
    Fits(v, unit);
    if f == 0 { DivUnique(0, p, 0, 0); }
  }

  /** The parser computes a token's meaning, and refuses it exactly above 2^63. */
  lemma TokenNanosExact(t: Token)
    requires IsToken(t) && !IsDay(t.unit)
    ensures TokenNanos(t.number, UnitOf(t.unit)) == if Nanos(t) <= BOUND then Ok(Nanos(t)) else Err
  {
    var n, p := t.number, Pow10(|t.number.frac|);
    LeadingIntExact(n.whole);
    LeadingFractionExact(n.frac);
    ValueJoin(n.whole, n.frac);
    CombineExact(Value(n.whole), Value(n.frac), p, UnitOf(t.unit));
  }

  /** The overflow check divides, so that it cannot overflow itself. */
  lemma Fits(v: nat, unit: nat)
    requires unit > 0
    ensures v > Div(BOUND, unit) <==> v * unit > BOUND
    ensures v <= v * unit
  {
    var q := Div(BOUND, unit);
    if v > q { Above(q, v, unit); } else { Up(v, q, unit); }
    Up(1, unit, v);
  }

  lemma Up(a: nat, b: nat, c: nat)
    requires a <= b
    ensures a * c <= b * c && c * a <= c * b
  {
    var k: nat := b - a;
    assert b * c == a * c + k * c;
  }

  lemma UnitChars(u: Text)
    requires UnitOf(u) > 0
    ensures u != [] && u[0] != 'd' && forall i :: 0 <= i < |u| ==> IsUnitChar(u[i]) && u[i] != 'd'
  {
  }

  /** A token ends where its unit does: at the end or before a digit or a point. */
  predicate Continues(rest: Text) { rest != [] ==> !IsUnitChar(rest[0]) }

  lemma {:induction false} UnitRunExact(u: Text, rest: Text)
    requires Continues(rest) && forall i :: 0 <= i < |u| ==> IsUnitChar(u[i])
    ensures UnitRun(u + rest) == |u|
  {
    if u == [] {
      assert u + rest == rest;
    } else {
      assert (u + rest)[1..] == u[1..] + rest;
      UnitRunExact(u[1..], rest);
    }
  }

  lemma LexToken(t: Token, rest: Text)
    requires IsToken(t) && !IsDay(t.unit) && Continues(rest)
    ensures Lex(TokenText(t) + rest) == if Nanos(t) > BOUND then Bad else Good(Nanos(t), rest)
  {
    var n, s := t.number, TokenText(t) + rest;
    UnitChars(t.unit);
    assert s == NumberText(n) + (t.unit + rest);
    ScanText(n, t.unit + rest);
    assert s[|NumberText(n)|..] == t.unit + rest;
    UnitRunExact(t.unit, rest);
    assert (t.unit + rest)[..|t.unit|] == t.unit && (t.unit + rest)[|t.unit|..] == rest;
    TokenNanosExact(t);
  }

  /** A token's text and its value. */
  datatype Piece = Piece(text: Text, nanos: nat)

  /** The lexer takes this piece off the front with its value. */
  ghost predicate Lexes(lex: Text -> Lexed, p: Piece, rest: Text)
  {
    lex(p.text + rest) == if p.nanos > BOUND then Bad else Good(p.nanos, rest)
  }

  /** The piece can stand anywhere in a duration. */
  ghost predicate IsPiece(lex: Text -> Lexed, p: Piece)
  {
    |p.text| >= 2 && !IsUnitChar(p.text[0]) && forall rest :: Continues(rest) ==> Lexes(lex, p, rest)
  }

  ghost predicate ArePieces(lex: Text -> Lexed, ps: seq<Piece>) { forall i :: 0 <= i < |ps| ==> IsPiece(lex, ps[i]) }

  function PieceOf(t: Token): Piece
    requires IsToken(t)
  {
    Piece(TokenText(t), Nanos(t))
  }

  function Pieces(ts: seq<Token>): (ps: seq<Piece>)
    requires AreTokens(ts)
    ensures |ps| == |ts|
  {
    if ts == [] then [] else [PieceOf(ts[0])] + Pieces(ts[1..])
  }

  function Joined(ps: seq<Piece>): Text { if ps == [] then [] else ps[0].text + Joined(ps[1..]) }

  function Sum(ps: seq<Piece>): nat { if ps == [] then 0 else ps[0].nanos + Sum(ps[1..]) }

  lemma TokenIsPiece(t: Token)
    requires IsToken(t) && !IsDay(t.unit)
    ensures IsPiece(Lex, PieceOf(t))
  {
    TokenLong(t);
    assert NumberText(t.number) != [] && !IsUnitChar(NumberText(t.number)[0]);
    assert TokenText(t)[0] == NumberText(t.number)[0];
    forall rest | Continues(rest) ensures Lexes(Lex, PieceOf(t), rest) { LexToken(t, rest); }
  }

  lemma {:induction false} TokensArePieces(ts: seq<Token>)
    requires AreTokens(ts) && forall i :: 0 <= i < |ts| ==> !IsDay(ts[i].unit)
    ensures ArePieces(Lex, Pieces(ts)) && Joined(Pieces(ts)) == Render(ts) && Sum(Pieces(ts)) == Total(ts)
  {
    if ts != [] {
      TokenIsPiece(ts[0]);
      TokensArePieces(ts[1..]);
      assert Pieces(ts)[1..] == Pieces(ts[1..]);
    }
  }

  lemma JoinedContinues(lex: Text -> Lexed, ps: seq<Piece>)
    requires ArePieces(lex, ps)
    ensures Continues(Joined(ps))
  {
  }

  lemma AddUpStep(lex: Text -> Lexed, s: Text, d: nat, v: nat, rest: Text)
    requires lex(s) == (if v > BOUND then Bad else Good(v, rest)) && |rest| < |s| && d + v < WORD
    ensures AddUp(lex, s, d) == if d + v > BOUND then Err else AddUp(lex, rest, d + v)
  {
  }

  /** On pieces that do not overflow 64 bits, the loop adds up exactly and fails exactly above 2^63. */
  lemma {:induction false} AddUpJoined(lex: Text -> Lexed, ps: seq<Piece>, d: nat)
    requires ArePieces(lex, ps) && d <= BOUND && d + Sum(ps) < WORD
    ensures AddUp(lex, Joined(ps), d) == if d + Sum(ps) <= BOUND then Ok(d + Sum(ps)) else Err
  {
    if ps != [] {
      var p, rest := ps[0], ps[1..];
      assert IsPiece(lex, p);
      JoinedContinues(lex, rest);
      assert Lexes(lex, p, Joined(rest));
      AddUpStep(lex, p.text + Joined(rest), d, p.nanos, Joined(rest));
      if d + p.nanos <= BOUND { AddUpJoined(lex, rest, d + p.nanos); }
    }
  }

  lemma TokenLong(t: Token)
    requires IsToken(t)
    ensures |TokenText(t)| >= 2
  {
    assert NumberText(t.number) != [] && t.unit != [];
  }

  lemma ParseSignedExact(lex: Text -> Lexed, s: Text)
    requires |s| >= 2 && !IsUnitChar(s[0])
    ensures var d := AddUp(lex, s, 0);
      && ParseSigned(lex, s) == (if d.Err? || d.value > BOUND - 1 then Err else Ok(d.value))
      && ParseSigned(lex, "-" + s) == (if d.Err? then Err else Ok(0 - d.value))
  {
    assert ("-" + s)[1..] == s;
  }

  // ---- the rewriting on tokens ------------------------------------------------------------------

  /** Text that starts like a unit other than the day. */
  predicate Plain(s: Text) { s != [] && IsUnitChar(s[0]) && s[0] != 'd' }

  predicate IsNumber(n: Number) { Digits(n.whole) && Digits(n.frac) && (n.frac != [] ==> n.dot) }

  /** A number followed by "d" is a match, and becomes hours. */
  ghost predicate DayLaw(pattern: Text -> nat, replace: Text -> Text, n: Number, rest: Text)
    requires WellFormed(n)
  {
    && pattern(NumberText(n) + (['d'] + rest)) == |NumberText(n)| + 1
    && replace(NumberText(n) + ['d']) == NumberText(DaysToHours(n)) + ['h']
  }

  /** A number followed by another unit is not. */
  ghost predicate OtherLaw(pattern: Text -> nat, n: Number, rest: Text) {
    pattern(NumberText(n) + rest) == 0
  }

  ghost predicate FindsDays(pattern: Text -> nat, replace: Text -> Text) {
    && (forall n, rest :: WellFormed(n) ==> DayLaw(pattern, replace, n, rest))
    && (forall n, rest :: IsNumber(n) && Plain(rest) ==> OtherLaw(pattern, n, rest))
  }

  lemma DayPattern()
    ensures FindsDays(DayMatch, HoursText)
  {
    forall n, rest | WellFormed(n) ensures DayLaw(DayMatch, HoursText, n, rest) {
      ScanText(n, ['d'] + rest);
      ScanText(n, ['d']);
    }
    forall n, rest | IsNumber(n) && Plain(rest) ensures OtherLaw(DayMatch, n, rest) { ScanText(n, rest); }
  }

  lemma ReplaceDay(pattern: Text -> nat, replace: Text -> Text, n: Number, rest: Text)
    requires FindsDays(pattern, replace) && WellFormed(n)
    ensures ReplaceAll(pattern, replace, NumberText(n) + (['d'] + rest)) ==
      NumberText(DaysToHours(n)) + ['h'] + ReplaceAll(pattern, replace, rest)
  {
    var s, k := NumberText(n) + (['d'] + rest), |NumberText(n)|;
    assert DayLaw(pattern, replace, n, rest);
    assert s[..k + 1] == NumberText(n) + ['d'] && s[k + 1..] == rest;
  }

  lemma ReplaceCopies(pattern: Text -> nat, replace: Text -> Text, s: Text)
    requires s != [] && pattern(s) == 0
    ensures ReplaceAll(pattern, replace, s) == [s[0]] + ReplaceAll(pattern, replace, s[1..])
  {
  }

  lemma {:induction false} ReplaceUnit(pattern: Text -> nat, replace: Text -> Text, u: Text, rest: Text)
    requires FindsDays(pattern, replace) && forall i :: 0 <= i < |u| ==> IsUnitChar(u[i]) && u[i] != 'd'
    ensures ReplaceAll(pattern, replace, u + rest) == u + ReplaceAll(pattern, replace, rest)
  {
    var s := u + rest;
    if u == [] {
      assert s == rest;
    } else {
      var none := Number([], false, []);
      assert OtherLaw(pattern, none, s);
      assert NumberText(none) + s == s;
      ReplaceCopies(pattern, replace, s);
      assert s[1..] == u[1..] + rest;
      ReplaceUnit(pattern, replace, u[1..], rest);
      Cons(u, ReplaceAll(pattern, replace, rest));
    }
  }

  lemma Cons(a: Text, b: Text)
    requires a != []
    ensures [a[0]] + (a[1..] + b) == a + b
  {
  }

  /** A number before another unit is copied character by character. */
  lemma {:induction false} ReplaceNumber(pattern: Text -> nat, replace: Text -> Text, n: Number, rest: Text)
    requires FindsDays(pattern, replace) && IsNumber(n) && Plain(rest)
    ensures ReplaceAll(pattern, replace, NumberText(n) + rest) == NumberText(n) + ReplaceAll(pattern, replace, rest)
    decreases |NumberText(n)|
  {
    var text := NumberText(n);
    var s := text + rest;
    if text == [] {
      assert s == rest;
    } else {
      assert OtherLaw(pattern, n, rest);
      ReplaceCopies(pattern, replace, s);
      var tail := if n.whole != [] then n.(whole := n.whole[1..]) else Number(n.frac, false, []);
      assert NumberText(tail) == text[1..];
      assert s[1..] == text[1..] + rest;
      ReplaceNumber(pattern, replace, tail, rest);
      Cons(text, ReplaceAll(pattern, replace, rest));
    }
  }

  function AllInHours(ts: seq<Token>): seq<Token>
    requires AreTokens(ts)
  {
    if ts == [] then [] else [InHours(ts[0])] + AllInHours(ts[1..])
  }

  lemma ReplaceToken(pattern: Text -> nat, replace: Text -> Text, t: Token, rest: Text)
    requires FindsDays(pattern, replace) && IsToken(t)
    ensures ReplaceAll(pattern, replace, TokenText(t) + rest) ==
      TokenText(InHours(t)) + ReplaceAll(pattern, replace, rest)
  {
    assert TokenText(t) + rest == NumberText(t.number) + (t.unit + rest);
    if IsDay(t.unit) {
      assert t.unit == ['d'];
      ReplaceDay(pattern, replace, t.number, rest);
    } else {
      UnitChars(t.unit);
      ReplaceNumber(pattern, replace, t.number, t.unit + rest);
      ReplaceUnit(pattern, replace, t.unit, rest);
      Assoc(NumberText(t.number), t.unit, ReplaceAll(pattern, replace, rest));
    }
  }

  lemma Assoc(a: Text, b: Text, c: Text)
    ensures a + b + c == a + (b + c)
  {
  }

  /** One more token in front. */
  lemma InHoursFirst(t: Token, hs: seq<Token>)
    requires IsToken(t) && AreTokens(hs) && forall i :: 0 <= i < |hs| ==> !IsDay(hs[i].unit)
    ensures var all := [InHours(t)] + hs;
      && AreTokens(all) && (forall i :: 0 <= i < |all| ==> !IsDay(all[i].unit))
      && Total(all) == Nanos(t) + Total(hs)
  {
    InHoursSame(t);
    assert ([InHours(t)] + hs)[1..] == hs;
  }

  lemma {:induction false} AllInHoursSame(ts: seq<Token>)
    requires AreTokens(ts)
    ensures var hs := AllInHours(ts);
      && AreTokens(hs) && (forall i :: 0 <= i < |hs| ==> !IsDay(hs[i].unit))
      && Total(hs) == Total(ts)
  {
    if ts != [] {
      AllInHoursSame(ts[1..]);
      InHoursFirst(ts[0], AllInHours(ts[1..]));
    }
  }

  /** Rewriting replaces the day tokens of a token list and nothing else. */
  lemma {:induction false} ReplaceRendered(pattern: Text -> nat, replace: Text -> Text, ts: seq<Token>)
    requires FindsDays(pattern, replace) && AreTokens(ts)
    ensures ReplaceAll(pattern, replace, Render(ts)) == Render(AllInHours(ts))
  {
    if ts != [] {
      ReplaceRendered(pattern, replace, ts[1..]);
      ReplaceToken(pattern, replace, ts[0], Render(ts[1..]));
      assert AllInHours(ts)[1..] == AllInHours(ts[1..]);
    }
  }

  lemma ParsesPieces(lex: Text -> Lexed, ps: seq<Piece>)
    requires ps != [] && ArePieces(lex, ps) && Sum(ps) < WORD
    ensures ParseSigned(lex, Joined(ps)) == if Sum(ps) < BOUND then Ok(Sum(ps)) else Err
    ensures ParseSigned(lex, "-" + Joined(ps)) == if Sum(ps) <= BOUND then Ok(0 - Sum(ps)) else Err
  {
    AddUpJoined(lex, ps, 0);
    assert IsPiece(lex, ps[0]) && Joined(ps)[0] == ps[0].text[0];
    ParseSignedExact(lex, Joined(ps));
  }

  lemma ReplaceSigned(pattern: Text -> nat, replace: Text -> Text, ts: seq<Token>)
    requires FindsDays(pattern, replace) && AreTokens(ts)
    ensures ReplaceAll(pattern, replace, Render(ts)) == Render(AllInHours(ts))
    ensures ReplaceAll(pattern, replace, "-" + Render(ts)) == "-" + Render(AllInHours(ts))
  {
    ReplaceRendered(pattern, replace, ts);
    ReplaceUnit(pattern, replace, "-", Render(ts));
  }

  /**
   * Any list of tokens, with or without a minus sign, parses to the sum of their values; it is refused
   * exactly when the sum is not a 64-bit duration.
   */
  lemma ParseDurationExact(ts: seq<Token>)
    requires ts != [] && AreTokens(ts) && Total(ts) < WORD
    ensures ParseDuration(Render(ts)) == if Total(ts) < BOUND then Ok(Total(ts)) else Err
    ensures ParseDuration("-" + Render(ts)) == if Total(ts) <= BOUND then Ok(0 - Total(ts)) else Err
  {
    var hs := AllInHours(ts);
    AllInHoursSame(ts);
    TokensArePieces(hs);
    DayPattern();
    ReplaceSigned(DayMatch, HoursText, ts);
    ParsesPieces(Lex, Pieces(hs));
  }

  // ---- the printers --------------------------------------------------------------------------

  /** A signed 64-bit number of nanoseconds. */
  predicate IsDuration(d: int) { -BOUND <= d < BOUND }

  /** The last prec digits of v without trailing zeros; `shown` says that a later digit was printed. */
  function FracDigits(v: nat, prec: nat, shown: bool): (f: Text)
    ensures Digits(f) && |f| <= prec
  {
    if prec == 0 then []
    else
      var show := shown || v % 10 != 0;
      FracDigits(v / 10, prec - 1, show) + if show then [CharOf(v % 10)] else []
  }

  /** A token of w units and the fraction that the last prec digits of v make. */
  function FracToken(w: nat, v: nat, prec: nat, unit: Text): Token {
    var f := FracDigits(v, prec, false);
    Token(Number(Decimal(w), f != [], f), unit)
  }

  function IntToken(n: nat, unit: Text): Token { Token(Number(Decimal(n), false, []), unit) }

  /** Less than a second, as the time package prints it. */
  function SubSecond(u: nat): Token {
    if u < MICROSECOND then FracToken(u, u, 0, "ns")
    else if u < MILLISECOND then FracToken(u / MICROSECOND, u, 3, "\U{b5}s")
    else FracToken(u / MILLISECOND, u, 6, "ms")
  }

  /** The time package's own form, without days: 1h0m0.5s. */
  function GoTokens(u: nat): seq<Token> {
    if u < SECOND then [SubSecond(u)]
    else
      var seconds := FracToken(u / SECOND % 60, u, 9, "s");
      if u < MINUTE then [seconds]
      else if u < HOUR then [IntToken(u / MINUTE, "m"), seconds]
      else [IntToken(u / HOUR, "h"), IntToken(u / MINUTE % 60, "m"), seconds]
  }

  function Part(n: nat, unit: Text): seq<Token> { if n > 0 then [IntToken(n, unit)] else [] }

  /** The form with days, which leaves out every part that is zero. */
  function FormatTokens(d: nat): seq<Token> {
    var h := d % DAY;
    var m := h % HOUR;
    var s := m % MINUTE;
    var u := s % SECOND;
    Part(d / DAY, "d") + Part(h / HOUR, "h") + Part(m / MINUTE, "m") + Part(s / SECOND, "s") +
    if u > 0 then [SubSecond(u)] else []
  }

  function FormatOf(d: nat): Text { if d == 0 then "0" else Render(FormatTokens(d)) }

  /** Duration.String of the configuration type. */
  function StringOf(d: int): Text { if d < 0 then "-" + Render(GoTokens(-d)) else FormatOf(d) }

  lemma {:induction false} RenderJoin(a: seq<Token>, b: seq<Token>)
    ensures Render(a + b) == Render(a) + Render(b)
    ensures AreTokens(a) && AreTokens(b) ==> AreTokens(a + b) && Total(a + b) == Total(a) + Total(b)
  {
    if a == [] {
      assert a + b == b;
    } else {
      assert (a + b)[1..] == a[1..] + b;
      RenderJoin(a[1..], b);
    }
  }

  lemma PartText(done: seq<Token>, n: nat, unit: Text)
    ensures Render(done + Part(n, unit)) == Render(done) + if n > 0 then Decimal(n) + unit else []
  {
    RenderJoin(done, Part(n, unit));
    assert Render([IntToken(n, unit)]) == Decimal(n) + unit;
  }

  /** Prints the units of one size that fit into d, and returns what is left of it. */
  method WriteUnit(text: Text, d: nat, size: nat, unit: Text, ghost done: seq<Token>) returns (longer: Text, left: nat)
    requires size > 0 && text == Render(done)
    ensures left == d % size && longer == Render(done + Part(d / size, unit))
  {
    longer, left := text, d;
    PartText(done, d / size, unit);
    if d >= size {
      longer := longer + (Decimal(d / size) + unit);
      left := left % size;
    }
  }

  /** Days, hours, minutes and seconds, each taken off what the one before left, then the rest. */
  method FormatDuration(duration: int) returns (text: Text)
    requires IsDuration(duration)
    ensures text == FormatOf(if duration == -BOUND then BOUND - 1 else if duration < 0 then -duration else duration)
  {
    if duration == 0 {
      return "0";
    }
    var d: nat := if duration == -BOUND then BOUND - 1 else if duration < 0 then -duration else duration;
    ghost var start := d;
    ghost var done := Part(d / DAY, "d");
    assert [] + done == done;
    text, d := WriteUnit([], d, DAY, "d", []);
    ghost var n := d / HOUR;
    text, d := WriteUnit(text, d, HOUR, "h", done);
    done := done + Part(n, "h");
    n := d / MINUTE;
    text, d := WriteUnit(text, d, MINUTE, "m", done);
    done := done + Part(n, "m");
    n := d / SECOND;
    text, d := WriteUnit(text, d, SECOND, "s", done);
    done := done + Part(n, "s");
    RenderJoin(done, if d > 0 then [SubSecond(d)] else []);
    if d > 0 {
      assert Render([SubSecond(d)]) == TokenText(SubSecond(d));
      text := text + TokenText(SubSecond(d));
    }
    assert FormatTokens(start) == done + if d > 0 then [SubSecond(d)] else [];
  }

  // ---- what the printers write ------------------------------------------------------------------

  lemma {:induction false} ShownDigitsValue(v: nat, prec: nat)
    ensures var f := FracDigits(v, prec, true); |f| == prec && Value(f) == v % Pow10(prec)
  {
    if prec > 0 {
      var f := FracDigits(v / 10, prec - 1, true);
      ShownDigitsValue(v / 10, prec - 1);
      SplitMod(v, Pow10(prec - 1));
      assert (f + [CharOf(v % 10)])[..|f|] == f;
    }
  }

  lemma {:induction false} FracDigitsValue(v: nat, prec: nat)
    ensures var f := FracDigits(v, prec, false); Value(f) * Pow10(prec - |f|) == v % Pow10(prec)
  {
    if prec > 0 {
      if v % 10 != 0 {
        ShownDigitsValue(v, prec);
        assert FracDigits(v, prec, false) == FracDigits(v, prec, true);
        assert Pow10(0) == 1;
      } else {
        FracDigitsValue(v / 10, prec - 1);
        SplitMod(v, Pow10(prec - 1));
        var f := FracDigits(v / 10, prec - 1, false);
        assert FracDigits(v, prec, false) == f;
        TimesTen(Value(f), prec - 1 - |f|);
      }
    }
  }

  /** The lowest digit of a remainder. */
  lemma SplitMod(v: nat, m: nat)
    requires m > 0
    ensures v % (10 * m) == 10 * (v / 10 % m) + v % 10
  {
    var q, r := v / 10 / m, v / 10 % m;
    assert v / 10 == q * m + r;
    assert v == q * (10 * m) + (10 * r + v % 10);
    ModUnique(v, 10 * m, q, 10 * r + v % 10);
  }

  lemma ModUnique(a: nat, b: nat, q: nat, r: nat)
    requires b > 0 && a == q * b + r && r < b
    ensures a % b == r
  {
    DivUnique(a, b, q, r);
    assert Div(a, b) == a / b;
    assert a == a / b * b + a % b;
  }

  lemma FracTokenScaled(w: nat, v: nat, prec: nat, unit: Text)
    ensures var n := FracToken(w, v, prec, unit).number;
      && WellFormed(n) && |n.frac| <= prec
      && Scaled(n) == w * Pow10(|n.frac|) + Value(n.frac)
      && Value(n.frac) * Pow10(prec - |n.frac|) == v % Pow10(prec)
  {
    var n := FracToken(w, v, prec, unit).number;
    FracDigitsValue(v, prec);
    DecimalValue(w);
    ValueJoin(n.whole, n.frac);
  }

  lemma FracTokenNanos(w: nat, v: nat, prec: nat, unit: Text)
    requires NanosPer(unit) == Pow10(prec) && prec <= 18
    ensures var t := FracToken(w, v, prec, unit);
      IsToken(t) && Nanos(t) == w * Pow10(prec) + v % Pow10(prec)
  {
    var f := FracToken(w, v, prec, unit).number.frac;
    FracTokenScaled(w, v, prec, unit);
    PowSum(prec - |f|, |f|);
    var p, q := Pow10(|f|), Pow10(prec - |f|);
    Rescale(Scaled(FracToken(w, v, prec, unit).number), NanosPer(unit), w, Value(f), p, q);
  }

  lemma Rescale(x: nat, unit: nat, w: nat, f: nat, p: nat, q: nat)
    requires p > 0 && x == w * p + f && unit == q * p
    ensures Div(x * unit, p) == w * unit + f * q
  {
    assert (w * p + f) * (q * p) == (w * (q * p) + f * q) * p;
    DivUnique(x * unit, p, w * unit + f * q, 0);
  }

  lemma IntTokenNanos(n: nat, unit: Text)
    requires NanosPer(unit) > 0
    ensures IsToken(IntToken(n, unit)) && Nanos(IntToken(n, unit)) == n * NanosPer(unit)
  {
    DecimalValue(n);
    assert Decimal(n) + [] == Decimal(n);
    DivUnique(n * NanosPer(unit), 1, n * NanosPer(unit), 0);
  }

  lemma PowUnits()
    ensures Pow10(0) == 1 && Pow10(3) == MICROSECOND && Pow10(6) == MILLISECOND && Pow10(9) == SECOND
  {
    assert Pow10(6) == 1000 * Pow10(3);
    assert Pow10(9) == 1000 * Pow10(6);
  }

  lemma SubSecondNanos(u: nat)
    ensures IsToken(SubSecond(u)) && Nanos(SubSecond(u)) == u
  {
    PowUnits();
    if u < MICROSECOND {
      FracTokenNanos(u, u, 0, "ns");
    } else if u < MILLISECOND {
      FracTokenNanos(u / MICROSECOND, u, 3, "\U{b5}s");
    } else {
      FracTokenNanos(u / MILLISECOND, u, 6, "ms");
    }
  }

  lemma UnitSizes()
    ensures NanosPer("d") == DAY && NanosPer("h") == HOUR && NanosPer("m") == MINUTE && NanosPer("s") == SECOND
  {
  }

  lemma PartNanos(n: nat, unit: Text, size: nat)
    requires NanosPer(unit) == size > 0
    ensures AreTokens(Part(n, unit)) && Total(Part(n, unit)) == n * size
  {
    IntTokenNanos(n, unit);
    assert n > 0 ==> Part(n, unit)[1..] == [];
  }

  lemma JoinFive(a: seq<Token>, b: seq<Token>, c: seq<Token>, d: seq<Token>, e: seq<Token>)
    requires AreTokens(a) && AreTokens(b) && AreTokens(c) && AreTokens(d) && AreTokens(e)
    ensures AreTokens(a + b + c + d + e)
    ensures Total(a + b + c + d + e) == Total(a) + Total(b) + Total(c) + Total(d) + Total(e)
  {
    RenderJoin(a, b);
    RenderJoin(a + b, c);
    RenderJoin(a + b + c, d);
    RenderJoin(a + b + c + d, e);
  }

  lemma RestTotal(u: nat)
    ensures var f := if u > 0 then [SubSecond(u)] else []; AreTokens(f) && Total(f) == u
  {
    if u > 0 {
      SubSecondNanos(u);
      One(SubSecond(u));
    }
  }

  lemma FormatTotal(d: nat)
    ensures AreTokens(FormatTokens(d)) && Total(FormatTokens(d)) == d
  {
    var h := d % DAY;
    var m := h % HOUR;
    var s := m % MINUTE;
    FormatPieces(d / DAY, h / HOUR, m / MINUTE, s / SECOND, s % SECOND);
    assert d == d / DAY * DAY + h && h == h / HOUR * HOUR + m && m == m / MINUTE * MINUTE + s;
  }

  lemma FormatPieces(d: nat, h: nat, m: nat, s: nat, u: nat)
    ensures var ts := Part(d, "d") + Part(h, "h") + Part(m, "m") + Part(s, "s") + if u > 0 then [SubSecond(u)] else [];
      AreTokens(ts) && Total(ts) == d * DAY + h * HOUR + m * MINUTE + s * SECOND + u
  {
    UnitSizes();
    PartNanos(d, "d", DAY);
    PartNanos(h, "h", HOUR);
    PartNanos(m, "m", MINUTE);
    PartNanos(s, "s", SECOND);
    RestTotal(u);
    JoinFive(Part(d, "d"), Part(h, "h"), Part(m, "m"), Part(s, "s"), if u > 0 then [SubSecond(u)] else []);
  }

  lemma Clock(u: nat)
    ensures u / HOUR * HOUR + u / MINUTE % 60 * MINUTE + u / SECOND % 60 * SECOND + u % SECOND == u
    ensures u < HOUR ==> u / MINUTE * MINUTE + u / SECOND % 60 * SECOND + u % SECOND == u
    ensures u < MINUTE ==> u / SECOND % 60 * SECOND + u % SECOND == u
  {
    assert u == u / SECOND * SECOND + u % SECOND;
    assert u / SECOND == u / MINUTE * 60 + u / SECOND % 60;
    assert u / MINUTE == u / HOUR * 60 + u / MINUTE % 60;
  }

  lemma GoTotal(u: nat)
    ensures AreTokens(GoTokens(u)) && Total(GoTokens(u)) == u
  {
    Clock(u);
    if u < SECOND {
      SubSecondNanos(u);
      One(SubSecond(u));
    } else if u < MINUTE {
      var s := u / SECOND % 60;
      GoSeconds(s, u);
      One(FracToken(s, u, 9, "s"));
      assert GoTokens(u) == [FracToken(s, u, 9, "s")];
    } else if u < HOUR {
      GoMinutes(u / MINUTE, u / SECOND % 60, u);
    } else {
      GoHours(u / HOUR, u / MINUTE % 60, u / SECOND % 60, u);
    }
  }

  lemma GoSeconds(s: nat, u: nat)
    ensures var t := FracToken(s, u, 9, "s"); IsToken(t) && Nanos(t) == s * SECOND + u % SECOND
  {
    PowUnits();
    UnitSizes();
    FracTokenNanos(s, u, 9, "s");
  }

  lemma GoMinutes(m: nat, s: nat, u: nat)
    ensures var ts := [IntToken(m, "m"), FracToken(s, u, 9, "s")];
      AreTokens(ts) && Total(ts) == m * MINUTE + s * SECOND + u % SECOND
  {
    var minutes, seconds := IntToken(m, "m"), FracToken(s, u, 9, "s");
    UnitSizes();
    GoSeconds(s, u);
    IntTokenNanos(m, "m");
    One(seconds);
    assert [minutes, seconds][1..] == [seconds];
  }

  lemma GoHours(h: nat, m: nat, s: nat, u: nat)
    ensures var ts := [IntToken(h, "h"), IntToken(m, "m"), FracToken(s, u, 9, "s")];
      AreTokens(ts) && Total(ts) == h * HOUR + m * MINUTE + s * SECOND + u % SECOND
  {
    var hours, minutes, seconds := IntToken(h, "h"), IntToken(m, "m"), FracToken(s, u, 9, "s");
    UnitSizes();
    GoMinutes(m, s, u);
    IntTokenNanos(h, "h");
    assert [hours, minutes, seconds][1..] == [minutes, seconds];
  }

  lemma One(t: Token)
    requires IsToken(t)
    ensures AreTokens([t]) && Total([t]) == Nanos(t)
  {
    assert [t][1..] == [];
  }

  // ---- the printed parts are canonical --------------------------------------------------------

  /** A part of a printed duration is positive and stays below the next larger unit. */
  ghost predicate IsPart(t: Token)
  {
    && Digits(t.number.whole)
    && var n := Value(t.number.whole);
       && n >= 1
       && (t.unit == "h" ==> n < 24)
       && (t.unit == "m" || t.unit == "s" ==> n < 60)
       && (t.unit == "ms" || t.unit == "\U{b5}s" || t.unit == "ns" ==> n < 1000)
  }

  function Rank(unit: Text): nat
  {
    if unit == "d" then 5 else if unit == "h" then 4 else if unit == "m" then 3 else if unit == "s" then 2 else 1
  }

  /** Larger units come first, and only a last part below a second has a fraction. */
  ghost predicate Canonical(ts: seq<Token>, least: nat)
  {
    && (forall t :: t in ts ==> IsPart(t) && Rank(t.unit) >= least && (Rank(t.unit) > 1 ==> t.number.frac == []))
    && (forall i, j :: 0 <= i < j < |ts| ==> Rank(ts[i].unit) > Rank(ts[j].unit))
  }

  lemma SubSecondPart(u: nat)
    requires 0 < u < SECOND
    ensures IsPart(SubSecond(u)) && Rank(SubSecond(u).unit) == 1
  {
    DecimalValue(u);
    DecimalValue(u / MICROSECOND);
    DecimalValue(u / MILLISECOND);
  }

  lemma CanonicalMore(ts: seq<Token>, t: Token, least: nat)
    requires Canonical(ts, least) && IsPart(t) && Rank(t.unit) < least && (Rank(t.unit) > 1 ==> t.number.frac == [])
    ensures Canonical(ts + [t], Rank(t.unit))
  {
    assert forall x :: x in ts + [t] <==> x in ts || x == t;
    assert forall i :: 0 <= i < |ts| ==> ts[i] in ts;
  }

  lemma CanonicalPart(ts: seq<Token>, n: nat, unit: Text, least: nat)
    requires Canonical(ts, least) && Rank(unit) == least - 1 > 1
    requires (unit == "h" ==> n < 24) && (unit == "m" || unit == "s" ==> n < 60)
    ensures Canonical(ts + Part(n, unit), least - 1)
  {
    DecimalValue(n);
    if n > 0 { CanonicalMore(ts, IntToken(n, unit), least); } else { assert ts + [] == ts; }
  }

  lemma PartSizes(d: nat)
    ensures d % DAY / HOUR < 24 && d % DAY % HOUR / MINUTE < 60 && d % DAY % HOUR % MINUTE / SECOND < 60
  {
  }

  /** A printed duration has days, hours below 24, minutes and seconds below 60 and a rest below a second. */
  lemma FormatCanonical(d: nat)
    ensures Canonical(FormatTokens(d), 1)
  {
    var h := d % DAY;
    var m := h % HOUR;
    var s := m % MINUTE;
    var u := s % SECOND;
    PartSizes(d);
    var days := Part(d / DAY, "d");
    CanonicalPart([], d / DAY, "d", 6);
    assert [] + days == days;
    CanonicalPart(days, h / HOUR, "h", 5);
    CanonicalPart(days + Part(h / HOUR, "h"), m / MINUTE, "m", 4);
    var ts := days + Part(h / HOUR, "h") + Part(m / MINUTE, "m");
    CanonicalPart(ts, s / SECOND, "s", 3);
    if u > 0 {
      SubSecondPart(u);
      CanonicalMore(ts + Part(s / SECOND, "s"), SubSecond(u), 2);
    } else {
      assert FormatTokens(d) == ts + Part(s / SECOND, "s");
    }
  }

  /** The whole part of a token, a number of its unit. */
  ghost predicate Counts(t: Token, n: nat, unit: Text)
  {
    t.unit == unit && Digits(t.number.whole) && Value(t.number.whole) == n
  }

  lemma TokenCounts(n: nat, v: nat, unit: Text)
    ensures Counts(IntToken(n, unit), n, unit) && Counts(FracToken(n, v, 9, unit), n, unit)
  {
    DecimalValue(n);
  }

  /** Seconds, minutes when there are any or hours, and hours when there are any. */
  ghost predicate IsClock(ts: seq<Token>, h: nat, m: nat, s: nat)
  {
    && m < 60 && s < 60 && |ts| == (if h > 0 then 3 else if m > 0 then 2 else 1)
    && Counts(ts[|ts| - 1], s, "s")
    && (|ts| > 1 ==> Counts(ts[|ts| - 2], m, "m"))
    && (|ts| > 2 ==> Counts(ts[0], h, "h"))
  }

  lemma ClockParts(u: nat)
    ensures var h, m, s := u / HOUR, u / MINUTE % 60, u / SECOND % 60;
      && u / SECOND == 3600 * h + 60 * m + s
      && (u < HOUR ==> h == 0 && u / MINUTE == m) && (u < MINUTE ==> m == 0)
      && (u >= HOUR ==> h > 0) && (HOUR > u >= MINUTE ==> m > 0)
  {
    assert u / MINUTE == u / SECOND / 60 && u / HOUR == u / MINUTE / 60;
  }

  /** The time package's form has minutes and seconds below 60, and minutes or hours only when there are any. */
  lemma GoCanonical(u: nat)
    requires u >= SECOND
    ensures exists h: nat, m: nat, s: nat ::
      u / 1_000_000_000 == 3600 * h + 60 * m + s && IsClock(GoTokens(u), h, m, s)
  {
    var h, m, s := u / HOUR, u / MINUTE % 60, u / SECOND % 60;
    ClockParts(u);
    TokenCounts(h, u, "h");
    TokenCounts(m, u, "m");
    TokenCounts(s, u, "s");
    assert IsClock(GoTokens(u), h, m, s) by {
      if u < MINUTE {
        assert GoTokens(u) == [FracToken(s, u, 9, "s")];
      } else if u < HOUR {
        assert GoTokens(u) == [IntToken(m, "m"), FracToken(s, u, 9, "s")];
      } else {
        assert GoTokens(u) == [IntToken(h, "h"), IntToken(m, "m"), FracToken(s, u, 9, "s")];
      }
    }
  }

  /** Decode(String(d)) gives d back, without overflow, for every 64-bit duration. */
  lemma RoundTrip(d: int)
    requires IsDuration(d)
    ensures ParseDuration(StringOf(d)) == Ok(d)
  {
    if d < 0 {
      RoundTripNegative(-d);
    } else if d == 0 {
      ParseZero();
    } else {
      RoundTripPositive(d);
    }
  }

  lemma RoundTripNegative(u: int)
    requires 0 < u <= BOUND
    ensures ParseDuration(StringOf(-u)) == Ok(-u)
  {
    GoTotal(u);
    ParseDurationExact(GoTokens(u));
  }

  lemma RoundTripPositive(d: nat)
    requires 0 < d < BOUND
    ensures ParseDuration(StringOf(d)) == Ok(d)
  {
    FormatTotal(d);
    ParseDurationExact(FormatTokens(d));
  }

  lemma ParseZero()
    ensures ParseDuration(StringOf(0)) == Ok(0)
  {
    DigitRunExact("0", []);
    assert "0" + [] == "0";
    assert DayMatch("0") == 0;
    ReplaceCopies(DayMatch, HoursText, "0");
    assert ReplaceAll(DayMatch, HoursText, []) == [];
    assert ReplaceAll(DayMatch, HoursText, "0") == ['0'];
  }

  // ---- the configuration value -----------------------------------------------------------------

  class Duration {
    var nanos: int

    constructor (nanos: int)
      ensures this.nanos == nanos
    {
      this.nanos := nanos;
    }

    method String() returns (text: Text)
      requires IsDuration(nanos)
      ensures text == StringOf(nanos)
    {
      if nanos < 0 {
        return "-" + Render(GoTokens(-nanos));
      }
      text := FormatDuration(nanos);
    }

    /** Stores the parsed value; a text that does not parse leaves the receiver alone. */
    method Decode(value: Text) returns (ok: bool)
      modifies this
      ensures ok <==> ParseDuration(value).Ok?
      ensures nanos == if ok then ParseDuration(value).value else old(nanos)
    {
      var parsed := ParseDuration(value);
      if parsed.Err? {
        return false;
      }
      nanos := parsed.value;
      return true;
    }
  }

  /** Printing one value and decoding the text into another copies it. */
  method CopyThroughText(from: Duration, into: Duration) returns (ok: bool)
    requires IsDuration(from.nanos)
    modifies into
    ensures ok && into.nanos == old(from.nanos)
  {
    var text := from.String();
    RoundTrip(from.nanos);
    ok := into.Decode(text);
  }
}

/** State of charge in thousandths of a percent (internal/store/v1.go), against its positional value over the reals. */
module SoCPercent {
  import opened Base

  const SCALE: int := 1000

  // ----- decimal text and its value -----

  predicate IsDigit(c: char) {
    '0' <= c <= '9'
  }

  function DigitOf(c: char): (d: nat)
    requires IsDigit(c)
    ensures d <= 9
  {
    c as int - '0' as int
  }

  predicate AllDigits(s: string) {
    forall i :: 0 <= i < |s| ==> IsDigit(s[i])
  }

  function Whole(s: string): nat
    requires AllDigits(s)
  {
    if s == [] then 0 else 10 * Whole(s[..|s| - 1]) + DigitOf(s[|s| - 1])
  }

  /** The value of the digits behind the point. */
  function Fraction(s: string): real
    requires AllDigits(s)
  {
    if s == [] then 0.0 else (DigitOf(s[0]) as real + Fraction(s[1..])) / 10.0
  }

  /** A sign, digits before and, behind a point, after; at least one digit in all. */
  datatype Numeral = Numeral(sign: string, whole: string, point: bool, fraction: string) {
    predicate WellFormed() {
      && sign in {"", "+", "-"} && AllDigits(whole) && AllDigits(fraction)
      && (!point ==> fraction == "") && whole + fraction != ""
    }

    function Text(): string {
      sign + whole + if point then "." + fraction else ""
    }

    function Value(): real
      requires WellFormed()
    {
      var size := Whole(whole) as real + Fraction(fraction);
      if sign == "-" then -size else size
    }
  }

  ghost predicate Denotes(text: string, x: real) {
    exists n: Numeral :: n.WellFormed() && n.Text() == text && n.Value() == x
  }

  // ----- the parser -----

  predicate IsSpace(c: char) {
    || '\t' <= c <= '\r' || c == ' ' || c == '\U{0085}' || c == '\U{00A0}' || c == '\U{1680}'
    || '\U{2000}' <= c <= '\U{200A}' || c == '\U{2028}' || c == '\U{2029}' || c == '\U{202F}' || c == '\U{205F}' || c == '\U{3000}'
  }

  function Trim(s: string): string {
    if s == [] then s
    else if IsSpace(s[0]) then Trim(s[1..])
    else if IsSpace(s[|s| - 1]) then Trim(s[..|s| - 1])
    else s
  }

  /** Digits read so far, as one integer, and how many of them lie behind the point, if it was seen. */
  datatype Scanned = Scanned(mantissa: nat, digits: nat, decimals: Option<nat>)

  function Scan(text: string, st: Scanned): Option<Scanned> {
    if text == [] then Some(st)
    else if text[0] == '.' then
      if st.decimals.None? then Scan(text[1..], st.(decimals := Some(0))) else None
    else if IsDigit(text[0]) then
      Scan(text[1..], Scanned(10 * st.mantissa + DigitOf(text[0]), st.digits + 1,
                              if st.decimals.Some? then Some(st.decimals.value + 1) else None))
    else None
  }

  function PowTen(k: nat): (p: nat)
    ensures p >= 1
  {
    if k == 0 then 1 else 10 * PowTen(k - 1)
  }

  /** No character of the fraction, exponent, radix-prefix or digit-separator notations. */
  predicate Plain(text: string) {
    forall i :: 0 <= i < |text| ==> text[i] !in "/eEpPxXoObB_"
  }

  const START: Scanned := Scanned(0, 0, None)

  function Unsigned(text: string): string {
    if text != [] && text[0] in "+-" then text[1..] else text
  }

  datatype Quotient = Quotient(num: int, den: nat)
  type Ratio = q: Quotient | q.den >= 1 witness Quotient(0, 1)

  /** What the rational library makes of the notations beyond plain decimals. */
  type Notations = string -> Option<Ratio>

  /** big.Rat.SetString: plain decimals are read here, every other notation by the library. */
  function SetString(text: string, others: Notations): Option<Ratio> {
    if !Plain(text) then others(text)
    else
      var negative := text != [] && text[0] == '-';
      var scanned := Scan(Unsigned(text), START);
      if scanned.None? || scanned.value.digits == 0 then None
      else
        var m, k := scanned.value.mantissa, scanned.value.decimals;
        Some(Quotient(if negative then 0 - m else m, PowTen(if k.Some? then k.value else 0)))
  }

  function Parse(raw: string, others: Notations): Option<int> {
    match SetString(Trim(raw), others)
    case None => None
    case Some(q) =>
      if q.num < 0 || q.num > 100 * q.den then None
      else if (q.num * SCALE) % q.den != 0 then None
      else Some(q.num * SCALE / q.den)
  }

  // ----- scanning computes the mantissa of the digits -----

  function After(st: Scanned, s: string): Scanned
    requires AllDigits(s)
  {
    Scanned(st.mantissa * PowTen(|s|) + Whole(s), st.digits + |s|,
            if st.decimals.Some? then Some(st.decimals.value + |s|) else None)
  }

  lemma {:induction false} WholeSplits(c: char, s: string)
    requires IsDigit(c) && AllDigits(s)
    ensures AllDigits([c] + s) && Whole([c] + s) == DigitOf(c) * PowTen(|s|) + Whole(s)
    decreases |s|
  {
    var t := [c] + s;
    if s != [] {
      var front, last := s[..|s| - 1], s[|s| - 1];
      WholeSplits(c, front);
      assert t[..|t| - 1] == [c] + front;
      assert DigitOf(c) * PowTen(|s|) == 10 * (DigitOf(c) * PowTen(|front|));
    } else {
      assert t[..0] == [];
    }
  }

  lemma ShiftedMantissa(m: nat, d: nat, p: nat, w: nat)
    ensures m * (10 * p) + (d * p + w) == (10 * m + d) * p + w
  {}

  lemma {:induction false} ScanDigits(s: string, rest: string, st: Scanned)
    requires AllDigits(s)
    ensures Scan(s + rest, st) == Scan(rest, After(st, s))
    decreases |s|
  {
    if s == [] {
      assert s + rest == rest;
    } else {
      var c, tail := s[0], s[1..];
      assert (s + rest)[1..] == tail + rest;
      var next := Scanned(10 * st.mantissa + DigitOf(c), st.digits + 1,
                          if st.decimals.Some? then Some(st.decimals.value + 1) else None);
      ScanDigits(tail, rest, next);
      assert s == [c] + tail;
      WholeSplits(c, tail);
      ShiftedMantissa(st.mantissa, DigitOf(c), PowTen(|tail|), Whole(tail));
      assert After(st, s) == After(next, tail);
    }
  }

  function Mantissa(n: Numeral): nat
    requires n.WellFormed()
  {
    Whole(n.whole) * PowTen(|n.fraction|) + Whole(n.fraction)
  }

  lemma ScanNumeral(n: Numeral)
    requires n.WellFormed()
    ensures Scan(n.whole + (if n.point then "." + n.fraction else ""), START) ==
            Some(Scanned(Mantissa(n), |n.whole| + |n.fraction|, if n.point then Some(|n.fraction|) else None))
  {
    var behind := if n.point then "." + n.fraction else "";
    ScanDigits(n.whole, behind, START);
    var st := After(START, n.whole);
    if n.point {
      assert behind[1..] == n.fraction;
      ScanDigits(n.fraction, "", st.(decimals := Some(0)));
      assert n.fraction + "" == n.fraction;
    }
  }

  /** Whatever scans is digits with at most one point. */
  lemma {:induction false} ScannedIsNumeral(text: string, st: Scanned) returns (whole: string, point: bool, fraction: string)
    requires Scan(text, st).Some?
    ensures AllDigits(whole) && AllDigits(fraction) && (!point ==> fraction == "") && (st.decimals.Some? ==> !point)
    ensures text == whole + if point then "." + fraction else ""
    decreases |text|
  {
    whole, point, fraction := "", false, "";
    if text != [] {
      assert text == [text[0]] + text[1..];
      if text[0] == '.' {
        whole, point, fraction := ScannedIsNumeral(text[1..], st.(decimals := Some(0)));
        whole, point, fraction := "", true, whole;
      } else {
        whole, point, fraction := ScannedIsNumeral(text[1..],
          Scanned(10 * st.mantissa + DigitOf(text[0]), st.digits + 1,
                  if st.decimals.Some? then Some(st.decimals.value + 1) else None));
        whole := [text[0]] + whole;
      }
    }
  }

  // ----- the mantissa is the positional value without its point -----

  /** x moved k decimal places to the left. */
  function Shift(x: real, k: nat): real
    decreases k
  {
    if k == 0 then x else Shift(10.0 * x, k - 1)
  }

  lemma {:induction false} ShiftIsLinear(x: real, y: real, k: nat)
    ensures Shift(x + y, k) == Shift(x, k) + Shift(y, k)
    ensures Shift(-x, k) == -Shift(x, k)
    ensures Shift(1000.0 * x, k) == 1000.0 * Shift(x, k)
    ensures x > 0.0 ==> Shift(x, k) > 0.0
    ensures x == 0.0 ==> Shift(x, k) == 0.0
    decreases k
  {
    if k > 0 {
      ShiftIsLinear(10.0 * x, 10.0 * y, k - 1);
      assert 10.0 * (x + y) == 10.0 * x + 10.0 * y;
      assert 10.0 * (1000.0 * x) == 1000.0 * (10.0 * x);
    }
  }

  lemma {:induction false} ShiftOfInteger(n: int, k: nat)
    ensures Shift(n as real, k) == (n * PowTen(k)) as real
    decreases k
  {
    if k > 0 {
      assert 10.0 * n as real == (10 * n) as real;
      ShiftOfInteger(10 * n, k - 1);
      assert 10 * n * PowTen(k - 1) == n * PowTen(k);
    }
  }

  lemma {:induction false} ShiftedFraction(s: string)
    requires AllDigits(s)
    ensures Shift(Fraction(s), |s|) == Whole(s) as real
    decreases |s|
  {
    if s != [] {
      var tail, d := s[1..], DigitOf(s[0]);
      ShiftedFraction(tail);
      assert s == [s[0]] + tail;
      WholeSplits(s[0], tail);
      assert 10.0 * Fraction(s) == d as real + Fraction(tail);
      ShiftIsLinear(d as real, Fraction(tail), |tail|);
      ShiftOfInteger(d, |tail|);
    }
  }

  lemma ShiftedSum(w: nat, f: real, m: nat, k: nat)
    requires Shift(f, k) == m as real
    ensures Shift(w as real + f, k) == (w * PowTen(k) + m) as real
    ensures Shift(-(w as real + f), k) == -((w * PowTen(k) + m) as real)
  {
    ShiftIsLinear(w as real, f, k);
    ShiftIsLinear(w as real + f, 0.0, k);
    ShiftOfInteger(w, k);
  }

  /** Moved past its decimals, a numeral's value is its signed mantissa. */
  lemma ShiftedValue(n: Numeral)
    requires n.WellFormed()
    ensures Shift(n.Value(), |n.fraction|) == (if n.sign == "-" then -(Mantissa(n) as real) else Mantissa(n) as real)
  {
    ShiftedFraction(n.fraction);
    ShiftedSum(Whole(n.whole), Fraction(n.fraction), Whole(n.fraction), |n.fraction|);
  }

  // ----- integer guards decide the real equation -----

  lemma GuardsDecide(m: nat, p: nat, v: int)
    requires p >= 1
    ensures (m <= 100 * p && (m * SCALE) % p == 0 && v == m * SCALE / p) <==> (0 <= v <= 100 * SCALE && m * SCALE == v * p)
  {
    if m * SCALE == v * p {
      Division(m * SCALE, v, p);
      InRange(m, p, v);
    } else if (m * SCALE) % p == 0 {
      Divisible(m * SCALE, p);
    }
  }

  lemma InRange(m: nat, p: nat, v: int)
    requires p >= 1 && m * SCALE == v * p
    ensures v >= 0 && (m <= 100 * p <==> v <= 100 * SCALE)
  {
    assert v < 0 ==> v * p <= -(p as int);
    assert v > 100 * SCALE ==> (v - 100 * SCALE) * p >= p;
    assert v <= 100 * SCALE ==> (100 * SCALE - v) * p >= 0;
  }

  lemma Divisible(x: int, p: nat)
    requires p >= 1 && x % p == 0
    ensures x == (x / p) * p
  {}

  lemma Division(x: int, q: int, p: nat)
    requires p >= 1 && x == q * p
    ensures x % p == 0 && x / p == q
  {
    var d := x / p - q;
    assert d * p + x % p == 0;
    assert d >= 1 ==> d * p >= p;
    assert d <= -1 ==> d * p <= -(p as int);
  }

  lemma ThousandthsOf(x: real, m: int, k: nat, v: int)
    requires Shift(x, k) == m as real
    ensures m * SCALE == v * PowTen(k) <==> x == v as real / 1000.0
  {
    var d := 1000.0 * x - v as real;
    ShiftIsLinear(x, 0.0, k);
    ShiftIsLinear(1000.0 * x, -(v as real), k);
    ShiftIsLinear(v as real, 0.0, k);
    ShiftOfInteger(v, k);
    assert 1000.0 * x + -(v as real) == d;
    assert Shift(d, k) == (m * SCALE - v * PowTen(k)) as real;
    ShiftIsLinear(d, 0.0, k);
    ShiftIsLinear(-d, 0.0, k);
  }

  /** The quotient a numeral is read as. */
  function QuotientOf(n: Numeral): Ratio
    requires n.WellFormed()
  {
    Quotient(if n.sign == "-" then 0 - Mantissa(n) else Mantissa(n), PowTen(|n.fraction|))
  }

  /** Reading a numeral gives its signed mantissa over a power of ten. */
  lemma NumeralIsRead(n: Numeral, others: Notations)
    requires n.WellFormed()
    ensures SetString(n.Text(), others) == Some(QuotientOf(n))
  {
    var body := n.whole + if n.point then "." + n.fraction else "";
    NumeralIsPlain(n);
    SignIsRead(n, body);
    ScanNumeral(n);
  }

  /** That quotient is v thousandths exactly when the value of the numeral is. */
  lemma QuotientIsValue(n: Numeral, v: int)
    requires n.WellFormed()
    ensures QuotientOf(n).num * SCALE == v * QuotientOf(n).den <==> n.Value() == v as real / 1000.0
  {
    ShiftedValue(n);
    ThousandthsOf(n.Value(), QuotientOf(n).num, |n.fraction|, v);
  }

  lemma SignIsRead(n: Numeral, body: string)
    requires n.WellFormed() && body == n.whole + if n.point then "." + n.fraction else ""
    ensures n.Text() != [] && Unsigned(n.Text()) == body && (n.Text()[0] == '-' <==> n.sign == "-")
  {
    assert n.Text() == n.sign + body;
    assert body != [] && body[0] !in "+-";
    if n.sign != "" {
      assert n.Text()[1..] == body;
    }
  }

  /** The guards decide whether a quotient is v thousandths in range. */
  lemma ParseQuotient(raw: string, others: Notations, q: Ratio, v: int)
    requires SetString(Trim(raw), others) == Some(q)
    ensures Parse(raw, others) == Some(v) <==> 0 <= v <= 100 * SCALE && q.num * SCALE == v * q.den
  {
    if q.num >= 0 {
      GuardsDecide(q.num, q.den, v);
    } else {
      assert v >= 0 ==> v * q.den >= 0;
    }
  }

  /** On a numeral, the result is v exactly when its value is v thousandths in range. */
  lemma ParseNumeral(raw: string, others: Notations, n: Numeral, v: int)
    requires n.WellFormed() && n.Text() == Trim(raw)
    ensures Parse(raw, others) == Some(v) <==> 0 <= v <= 100 * SCALE && n.Value() == v as real / 1000.0
  {
    NumeralIsRead(n, others);
    ParseQuotient(raw, others, QuotientOf(n), v);
    QuotientIsValue(n, v);
  }

  /** Plain text that is read at all is a numeral. */
  lemma ReadIsNumeral(text: string, others: Notations) returns (n: Numeral)
    requires Plain(text) && SetString(text, others).Some?
    ensures n.WellFormed() && n.Text() == text
  {
    var whole, point, fraction := ScannedIsNumeral(Unsigned(text), START);
    var sign := if text != [] && text[0] in "+-" then [text[0]] else "";
    n := Numeral(sign, whole, point, fraction);
    assert n.Text() == text;
  }

  /** The text amounts to v thousandths: by its digits, or by what the library reads it as. */
  ghost predicate Amounts(text: string, others: Notations, v: int) {
    if Plain(text) then Denotes(text, v as real / 1000.0)
    else others(text).Some? && others(text).value.num * SCALE == v * others(text).value.den
  }

  /** The parser returns v exactly for text that amounts to v/1000 with 0 <= v <= 100000. */
  lemma ParseIff(raw: string, others: Notations, v: int)
    ensures Parse(raw, others) == Some(v) <==> 0 <= v <= 100 * SCALE && Amounts(Trim(raw), others, v)
  {
    var text := Trim(raw);
    if !Plain(text) {
      if others(text).Some? { ParseQuotient(raw, others, others(text).value, v); }
    } else {
      PlainIff(raw, others, v);
    }
  }

  lemma PlainIff(raw: string, others: Notations, v: int)
    requires Plain(Trim(raw))
    ensures Parse(raw, others) == Some(v) <==> 0 <= v <= 100 * SCALE && Denotes(Trim(raw), v as real / 1000.0)
  {
    var text := Trim(raw);
    if Parse(raw, others) == Some(v) {
      var n := ReadIsNumeral(text, others);
      ParseNumeral(raw, others, n, v);
    }
    if Denotes(text, v as real / 1000.0) {
      var n: Numeral :| n.WellFormed() && n.Text() == text && n.Value() == v as real / 1000.0;
      ParseNumeral(raw, others, n, v);
    }
  }

  // ----- the printer -----

  function DigitChar(d: nat): (c: char)
    requires d <= 9
    ensures IsDigit(c) && DigitOf(c) == d
  {
    '0' + d as char
  }

  function Digits(n: nat): (s: string)
    ensures AllDigits(s) && s != "" && Whole(s) == n
  {
    if n < 10 then [DigitChar(n)]
    else
      var s := Digits(n / 10) + [DigitChar(n % 10)];
      assert s[..|s| - 1] == Digits(n / 10);
      s
  }

  function FormatInteger(x: int): string {
    if x < 0 then "-" + Digits(-x) else Digits(x)
  }

  /** Integer division as Go does it, towards zero. */
  function TowardsZero(a: int): int {
    if a >= 0 then a / SCALE else -((-a) / SCALE)
  }

  /** At least three characters, the sign included, filled with zeros. */
  function Padded(x: int): string
    requires -1000 < x < 1000
  {
    if x >= 0 then [DigitChar(x / 100), DigitChar(x / 10 % 10), DigitChar(x % 10)]
    else if x > -10 then "-0" + Digits(-x) else "-" + Digits(-x)
  }

  function TrimZeros(s: string): string {
    if s != "" && s[|s| - 1] == '0' then TrimZeros(s[..|s| - 1]) else s
  }

  predicate Fits64(v: int) {
    -TWO_63 <= v < TWO_63
  }

  /** The magnitude is taken in 64 bits, where the least value is its own negation. */
  function Text(v: int): string
    requires Fits64(v)
  {
    var size := if v < 0 then Negated64(v) else v;
    var rest := size - SCALE * TowardsZero(size);
    var text := FormatInteger(TowardsZero(size)) + (if rest != 0 then "." + TrimZeros(Padded(rest)) else "");
    if v < 0 then "-" + text else text
  }

  // ----- zeros behind the point -----

  lemma {:induction false} FractionOfFront(s: string, zero: char)
    requires AllDigits(s) && zero == '0'
    ensures AllDigits(s + [zero]) && Fraction(s + [zero]) == Fraction(s)
    decreases |s|
  {
    var t := s + [zero];
    if s == "" {
      assert t[1..] == "";
    } else {
      assert t[1..] == s[1..] + [zero];
      FractionOfFront(s[1..], zero);
    }
  }

  lemma {:induction false} TrimmedFraction(s: string)
    requires AllDigits(s)
    ensures AllDigits(TrimZeros(s)) && Fraction(TrimZeros(s)) == Fraction(s)
    decreases |s|
  {
    if s != "" && s[|s| - 1] == '0' {
      var front := s[..|s| - 1];
      TrimmedFraction(front);
      assert s == front + [s[|s| - 1]];
      FractionOfFront(front, s[|s| - 1]);
    }
  }

  lemma {:induction false} ZerosAdded(s: string, zeros: string)
    requires AllDigits(s) && forall i :: 0 <= i < |zeros| ==> zeros[i] == '0'
    ensures AllDigits(s + zeros) && Fraction(s + zeros) == Fraction(s)
    decreases |zeros|
  {
    if zeros == "" {
      assert s + zeros == s;
    } else {
      var front, last := zeros[..|zeros| - 1], zeros[|zeros| - 1];
      ZerosAdded(s, front);
      assert s + zeros == (s + front) + [last];
      FractionOfFront(s + front, last);
    }
  }

  // ----- printing and parsing -----

  predicate Ordinary(c: char) {
    IsDigit(c) || c == '+' || c == '-' || c == '.'
  }

  predicate AllOrdinary(s: string) {
    forall i :: 0 <= i < |s| ==> Ordinary(s[i])
  }

  lemma OrdinaryIsPlain(text: string)
    requires AllOrdinary(text)
    ensures Plain(text) && Trim(text) == text
  {
    forall i | 0 <= i < |text| ensures text[i] !in "/eEpPxXoObB_" && !IsSpace(text[i]) {
      assert Ordinary(text[i]);
    }
  }

  lemma NumeralIsPlain(n: Numeral)
    requires n.WellFormed()
    ensures Plain(n.Text()) && Trim(n.Text()) == n.Text()
  {
    assert AllOrdinary(n.sign) && AllOrdinary(n.whole) && AllOrdinary(n.fraction);
    var front := n.sign + n.whole;
    assert AllOrdinary(front);
    assert AllOrdinary("." + n.fraction);
    assert AllOrdinary(n.Text());
    OrdinaryIsPlain(n.Text());
  }

  /** Further zeros behind the point do not change the result. */
  lemma TrailingZerosIgnored(n: Numeral, zeros: string, others: Notations)
    requires n.WellFormed() && n.point && forall i :: 0 <= i < |zeros| ==> zeros[i] == '0'
    ensures Parse(n.Text() + zeros, others) == Parse(n.Text(), others)
  {
    ZerosAdded(n.fraction, zeros);
    var longer := n.(fraction := n.fraction + zeros);
    assert longer.Text() == n.Text() + zeros;
    NumeralIsPlain(n);
    NumeralIsPlain(longer);
    var a, b := Parse(n.Text(), others), Parse(longer.Text(), others);
    if a.Some? {
      ParseNumeral(n.Text(), others, n, a.value);
      ParseNumeral(longer.Text(), others, longer, a.value);
    }
    if b.Some? {
      ParseNumeral(n.Text(), others, n, b.value);
      ParseNumeral(longer.Text(), others, longer, b.value);
    }
  }

  lemma PaddedFraction(rest: nat)
    requires rest < 1000
    ensures AllDigits(Padded(rest)) && Fraction(Padded(rest)) == rest as real / 1000.0
  {
    var s := Padded(rest);
    assert s[1..][1..][1..] == "";
    var a, b, c := rest / 100, rest / 10 % 10, rest % 10;
    assert rest == 100 * a + 10 * b + c;
    assert Fraction(s[1..][1..]) == c as real / 10.0;
    assert Fraction(s[1..]) == (b as real + c as real / 10.0) / 10.0;
  }

  /** The numeral behind the printed text, for every value that has a 64-bit magnitude. */
  function Printed(v: int): Numeral
    requires -TWO_63 < v < TWO_63
  {
    var size := if v < 0 then -v else v;
    var rest := size % SCALE;
    Numeral(if v < 0 then "-" else "", Digits(size / SCALE), rest != 0, if rest != 0 then TrimZeros(Padded(rest)) else "")
  }

  lemma PrintedValue(v: int)
    requires -TWO_63 < v < TWO_63
    ensures Printed(v).WellFormed() && Printed(v).Text() == Text(v) && Printed(v).Value() == v as real / 1000.0
  {
    var size := if v < 0 then -v else v;
    var rest := size % SCALE;
    if rest != 0 {
      PaddedFraction(rest);
      TrimmedFraction(Padded(rest));
    }
    var n := Printed(v);
    assert n.WellFormed();
    PrintedText(v);
    assert Fraction(n.fraction) == rest as real / 1000.0;
  }

  lemma PrintedText(v: int)
    requires -TWO_63 < v < TWO_63
    ensures Printed(v).Text() == Text(v)
  {}

  /** The printed text denotes the value exactly, for every 64-bit value but the least. */
  lemma TextIsExactIff(v: int)
    requires Fits64(v)
    ensures Denotes(Text(v), v as real / 1000.0) <==> v != -TWO_63
  {
    if v != -TWO_63 {
      PrintedValue(v);
    } else {
      var text := Text(v);
      assert text[0] == '-' && text[1] == '-';
      if Denotes(text, v as real / 1000.0) {
        var n: Numeral :| n.WellFormed() && n.Text() == text;
        SecondCharacter(n);
        assert false;
      }
    }
  }

  lemma SecondCharacter(n: Numeral)
    requires n.WellFormed()
    ensures |n.Text()| >= 2 ==> n.Text()[1] != '-'
  {
    var text, k := n.Text(), |n.sign| + |n.whole|;
    if |text| >= 2 {
      if 1 < k { assert text[1] == n.whole[1 - |n.sign|]; }
      else if 1 > k { assert text[1] == n.fraction[0]; }
    }
  }

  /** Parsing inverts printing on the whole range of percentages. */
  lemma ParseInvertsText(v: int, others: Notations)
    requires 0 <= v <= 100 * SCALE
    ensures Parse(Text(v), others) == Some(v)
  {
    PrintedValue(v);
    NumeralIsPlain(Printed(v));
    ParseNumeral(Text(v), others, Printed(v), v);
  }

  /** A NUMERIC(6,3) column answers with exactly three decimals. */
  function Column(v: int): string
    requires 0 <= v <= 100 * SCALE
  {
    Digits(v / SCALE) + "." + Padded(v % SCALE)
  }

  /** Reloading the column gives back the stored value. */
  lemma ColumnReload(v: int, others: Notations)
    requires 0 <= v <= 100 * SCALE
    ensures Parse(Column(v), others) == Some(v)
  {
    var n := Numeral("", Digits(v / SCALE), true, Padded(v % SCALE));
    PaddedFraction(v % SCALE);
    assert n.WellFormed() && n.Text() == Column(v);
    assert v == SCALE * (v / SCALE) + v % SCALE;
    assert n.Value() == v as real / 1000.0;
    NumeralIsPlain(n);
    ParseNumeral(Column(v), others, n, v);
  }

  predicate AllSpace(s: string) {
    forall i :: 0 <= i < |s| ==> IsSpace(s[i])
  }

  lemma {:induction false} TrimPadded(before: string, s: string, after: string)
    requires AllSpace(before) && AllSpace(after) && s != "" && !IsSpace(s[0]) && !IsSpace(s[|s| - 1])
    ensures Trim(before + s + after) == s
    decreases |before| + |after|
  {
    var text := before + s + after;
    if before != "" {
      assert text[0] == before[0];
      assert text[1..] == before[1..] + s + after;
      TrimPadded(before[1..], s, after);
    } else if after != "" {
      assert text[0] == s[0] && text[|text| - 1] == after[|after| - 1];
      assert text[..|text| - 1] == before + s + after[..|after| - 1];
      TrimPadded(before, s, after[..|after| - 1]);
    } else {
      assert text == s;
    }
  }

  /** White space around a numeral does not change the result. */
  lemma PaddingIgnored(before: string, n: Numeral, after: string, others: Notations)
    requires n.WellFormed() && AllSpace(before) && AllSpace(after)
    ensures Parse(before + n.Text() + after, others) == Parse(n.Text(), others)
  {
    NumeralIsPlain(n);
    TrimPadded(before, n.Text(), after);
  }
}

/** Decimal numerals: how the exposition prints them and how the scraper's `float` reads them. */
module Numbers {
  import opened Options

  /** A Python float without rounding; `NaN` is a value of its own. */
  datatype Number = Real(r: real) | NaN

  predicate IsDigit(c: char) {
    '0' <= c <= '9'
  }

  function DigitOf(d: nat): char
    requires d < 10
  {
    ('0' as int + d) as char
  }

  function Print(n: nat): string {
    if n < 10 then [DigitOf(n)] else Print(n / 10) + [DigitOf(n % 10)]
  }

  /** `%.3f` of a number of thousandths. */
  function PrintThousandths(m: nat): string {
    Print(m / 1000) + "." + Three(m % 1000)
  }

  function Three(m: nat): string
    requires m < 1000
  {
    [DigitOf(m / 100), DigitOf(m / 10 % 10), DigitOf(m % 10)]
  }

  predicate Digits(s: string) {
    forall i :: 0 <= i < |s| ==> IsDigit(s[i])
  }

  function Value(s: string): nat
    requires Digits(s)
  {
    if s == "" then 0 else Value(s[..|s| - 1]) * 10 + (s[|s| - 1] as int - '0' as int)
  }

  /** Length of the leading run of digits. */
  function Lead(s: string): (n: nat)
    ensures n <= |s| && Digits(s[..n]) && (n < |s| ==> !IsDigit(s[n]))
  {
    if s == "" || !IsDigit(s[0]) then 0 else
      var n := 1 + Lead(s[1..]);
      assert s[..n] == [s[0]] + s[1..][..n - 1];
      n
  }

  function Pow10(n: nat): (p: real)
    ensures p >= 1.0
  {
    if n == 0 then 1.0 else 10.0 * Pow10(n - 1)
  }

  function Signed(negative: bool, r: real): real {
    if negative then -r else r
  }

  predicate HasSign(s: string) {
    s != "" && (s[0] == '-' || s[0] == '+')
  }

  function Unsign(s: string): string {
    if HasSign(s) then s[1..] else s
  }

  /** Digits before and after an optional point, and where the mantissa ends. */
  function WholeLength(t: string): nat {
    Lead(t)
  }

  predicate HasPoint(t: string) {
    Lead(t) < |t| && t[Lead(t)] == '.'
  }

  function FractionLength(t: string): nat {
    if HasPoint(t) then Lead(t[Lead(t) + 1..]) else 0
  }

  function MantissaEnd(t: string): (n: nat)
    ensures n <= |t|
  {
    if HasPoint(t) then Lead(t) + 1 + FractionLength(t) else Lead(t)
  }

  function Mantissa(t: string): real {
    var whole := Value(t[..Lead(t)]) as real;
    if HasPoint(t) then
      var rest := t[Lead(t) + 1..];
      whole + Value(rest[..Lead(rest)]) as real / Pow10(Lead(rest))
    else whole
  }

  function Exponent(u: string): Option<real> {
    var d := Unsign(u);
    if d == "" || Lead(d) != |d| then None
    else
      var e := Pow10(Value(d[..Lead(d)]));
      Some(if u[0] == '-' then 1.0 / e else e)
  }

  function Scaled(m: real, power: real): (r: real)
    ensures power > 0.0 ==> r / power == m
  {
    m * power
  }

  /** Python's `float` on the characters the scraper lets through. */
  function ParseFloat(s: string): Option<Number> {
    if s == "NaN" then Some(NaN) else
      var negative, t := s != "" && s[0] == '-', Unsign(s);
      var m := MantissaEnd(t);
      if WholeLength(t) + FractionLength(t) == 0 then None
      else if m == |t| then Some(Real(Signed(negative, Mantissa(t))))
      else if t[m] == 'e' || t[m] == 'E' then
        match Exponent(t[m + 1..])
        case None => None
        case Some(e) => Some(Real(Signed(negative, Scaled(Mantissa(t), e))))
      else None
  }

  // ---------------------------------------------------------------- round trips

  lemma {:induction false} PrintedIsDigits(n: nat)
    ensures Print(n) != "" && Digits(Print(n)) && Value(Print(n)) == n
    decreases n
  {
    if n >= 10 {
      PrintedIsDigits(n / 10);
      var s := Print(n);
      assert s[..|s| - 1] == Print(n / 10);
    } else {
      assert Print(n)[..0] == "";
    }
  }

  lemma ThreeDigits(m: nat)
    requires m < 1000
    ensures Digits(Three(m)) && Value(Three(m)) == m
  {
    var s := Three(m);
    var a, b, c := m / 100, m / 10 % 10, m % 10;
    assert s == [DigitOf(a)] + [DigitOf(b)] + [DigitOf(c)];
    DigitValue("", a);
    DigitValue([DigitOf(a)], b);
    DigitValue([DigitOf(a)] + [DigitOf(b)], c);
    assert "" + [DigitOf(a)] == [DigitOf(a)];
    hide Value;
    assert a * 100 + b * 10 + c == m;
  }

  lemma {:induction false} DigitValue(s: string, d: nat)
    requires Digits(s) && d < 10
    ensures Digits(s + [DigitOf(d)]) && Value(s + [DigitOf(d)]) == Value(s) * 10 + d
  {
    assert (s + [DigitOf(d)])[..|s|] == s;
  }

  /** Digits without a point. */
  lemma {:induction false} WholeMantissa(w: string)
    requires w != "" && Digits(w)
    ensures WholeLength(w) == |w| && FractionLength(w) == 0 && MantissaEnd(w) == |w| && Mantissa(w) == Value(w) as real
  {
    hide Value, Lead;
    assert w[..|w|] == w;
  }

  /** Digits, a point, digits. */
  lemma {:induction false} PointMantissa(w: string, f: string)
    requires w != "" && Digits(w) && Digits(f)
    ensures var t := w + "." + f;
            WholeLength(t) == |w| && FractionLength(t) == |f| && MantissaEnd(t) == |t|
            && Mantissa(t) == Value(w) as real + Value(f) as real / Pow10(|f|)
  {
    hide Value, Lead, Pow10;
    var t := w + "." + f;
    assert t[..|w|] == w && t[|w|] == '.' && t[|w| + 1..] == f && f[..|f|] == f;
  }

  lemma Unsigned(t: string)
    requires t != "" && IsDigit(t[0])
    requires WholeLength(t) > 0 && MantissaEnd(t) == |t|
    ensures ParseFloat(t) == Some(Real(Mantissa(t)))
  {
  }

  /** Counters come back exactly. */
  lemma {:induction false} PrintedParses(n: nat)
    ensures ParseFloat(Print(n)) == Some(Real(n as real))
  {
    hide Value, Lead, Print, ParseFloat, Mantissa, MantissaEnd, WholeLength;
    PrintedIsDigits(n);
    WholeMantissa(Print(n));
    Unsigned(Print(n));
  }

  /** Durations come back at three decimals. */
  lemma ThousandthsParse(m: nat)
    ensures ParseFloat(PrintThousandths(m)) == Some(Real(m as real / 1000.0))
  {
    hide Value, Lead, Print, Three, Pow10, ParseFloat, Mantissa, MantissaEnd, WholeLength;
    PrintedIsDigits(m / 1000);
    ThreeDigits(m % 1000);
    PointMantissa(Print(m / 1000), Three(m % 1000));
    assert PrintThousandths(m)[0] == Print(m / 1000)[0];
    Unsigned(PrintThousandths(m));
    ThreeLong(m % 1000);
  }

  lemma ThreeLong(m: nat)
    requires m < 1000
    ensures |Three(m)| == 3 && Pow10(3) == 1000.0
  {
  }

  // ---------------------------------------------------------------- numbers that others may print

  function Sign(negative: bool): string {
    if negative then "-" else ""
  }

  lemma {:induction false} MarkedMantissa(w: string, f: string, mark: char, rest: string)
    requires w != "" && Digits(w) && Digits(f) && !IsDigit(mark)
    ensures var t := w + "." + f + ([mark] + rest);
            WholeLength(t) == |w| && FractionLength(t) == |f| && MantissaEnd(t) == |w| + 1 + |f|
            && Mantissa(t) == Value(w) as real + Value(f) as real / Pow10(|f|)
  {
    hide Value, Lead, Pow10, Digits;
    var tail := [mark] + rest;
    var after, t := f + tail, w + "." + f + tail;
    assert t == w + ("." + after);
    LeadIs(t, w, "." + after);
    LeadIs(after, f, tail);
    assert t[|w| + 1..] == after && t[|w|] == '.';
  }

  lemma MarkAt(w: string, f: string, mark: char, rest: string)
    ensures var t, n := w + "." + f + ([mark] + rest), |w| + 1 + |f|;
            t[n] == mark && t[n + 1..] == rest && (w != "" ==> t[0] == w[0])
  {
    var t := w + "." + f + ([mark] + rest);
    assert t == (w + "." + f) + [mark] + rest;
  }

  lemma WithExponent(negative: bool, t: string)
    requires t != "" && IsDigit(t[0]) && WholeLength(t) > 0 && MantissaEnd(t) < |t| && t[MantissaEnd(t)] in {'e', 'E'}
    requires Exponent(t[MantissaEnd(t) + 1..]).Some?
    ensures ParseFloat(Sign(negative) + t)
         == Some(Real(Signed(negative, Scaled(Mantissa(t), Exponent(t[MantissaEnd(t) + 1..]).value))))
  {
    hide Mantissa, MantissaEnd, WholeLength, FractionLength, Exponent, Scaled, Unsign, Sign, IsDigit, Signed;
    SignIsRead(negative, t);
  }

  lemma SignIsRead(negative: bool, t: string)
    requires t != "" && IsDigit(t[0])
    ensures var s := Sign(negative) + t;
            Unsign(s) == t && s != "NaN" && (s != "" && s[0] == '-' <==> negative)
  {
    var s := Sign(negative) + t;
    assert s[|Sign(negative)|..] == t && s[0] == if negative then '-' else t[0];
  }

  lemma {:induction false} LeadIs(s: string, d: string, rest: string)
    requires Digits(d) && s == d + rest && (rest != "" ==> !IsDigit(rest[0]))
    ensures Lead(s) == |d| && s[..Lead(s)] == d
  {
    hide Lead;
    assert forall i :: 0 <= i < |d| ==> s[i] == d[i];
    assert rest != "" ==> s[|d|] == rest[0];
  }

  lemma {:induction false} ExponentIs(negative: bool, d: string)
    requires d != "" && Digits(d)
    ensures Exponent(Sign(negative) + d) == Some(if negative then 1.0 / Pow10(Value(d)) else Pow10(Value(d)))
  {
    hide Value, Lead, Pow10;
    var u := Sign(negative) + d;
    assert Unsign(u) == d by { assert IsDigit(d[0]) && u[|Sign(negative)|..] == d; }
    assert d + "" == d && d[..|d|] == d;
    LeadIs(d, d, "");
  }

  /** Scientific notation: a sign, digits, a point, digits, and a signed power of ten. */
  lemma {:induction false} ScientificParses(negative: bool, w: string, f: string, capital: bool, below: bool, d: string)
    requires w != "" && d != "" && Digits(w) && Digits(f) && Digits(d)
    ensures var m, e := Value(w) as real + Value(f) as real / Pow10(|f|), Pow10(Value(d));
            var x := Scaled(m, if below then 1.0 / e else e);
            ParseFloat(Sign(negative) + (w + "." + f + ([if capital then 'E' else 'e'] + (Sign(below) + d))))
            == Some(Real(if negative then -x else x))
  {
    hide Value, Lead, Pow10, Mantissa, MantissaEnd, WholeLength, FractionLength, Exponent, ParseFloat, Scaled, Sign;
    var mark, rest := if capital then 'E' else 'e', Sign(below) + d;
    MarkedMantissa(w, f, mark, rest);
    MarkAt(w, f, mark, rest);
    ExponentIs(below, d);
    var t := w + "." + f + ([mark] + rest);
    assert MantissaEnd(t) == |w| + 1 + |f|;
    WithExponent(negative, t);
  }
}

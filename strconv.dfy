/**
 * The part of Go's `strconv` package the agent relies on: `Atoi`, which decodes the
 * `become` form field, and `Quote`, which renders the offending text inside Atoi's
 * error message. Integers are Go's 64-bit `int`.
 */
module GoStrconv {
  import opened Wrappers

  const MaxUint64: nat := 0xFFFF_FFFF_FFFF_FFFF
  const MaxInt64: int := 0x7FFF_FFFF_FFFF_FFFF
  const MinInt64: int := -0x8000_0000_0000_0000
  /** `ParseUint`'s overflow threshold for base 10: `MaxUint64/10 + 1`. */
  const Cutoff: nat := MaxUint64 / 10 + 1

  /** The two failures `Atoi` reports (`strconv.ErrSyntax`, `strconv.ErrRange`). */
  datatype NumError = InvalidSyntax | OutOfRange

  predicate IsDigit(c: char) { '0' <= c <= '9' }

  predicate AllDigits(s: string) { forall i :: 0 <= i < |s| ==> IsDigit(s[i]) }

  function DigitValue(c: char): (d: nat)
    requires IsDigit(c)
    ensures d < 10
  {
    (c as int) - ('0' as int)
  }

  function Pow10(k: nat): (p: nat)
    ensures p >= 1
  {
    if k == 0 then 1 else 10 * Pow10(k - 1)
  }

  /** The number a string of decimal digits denotes, most significant digit first. */
  function DecimalValue(s: string): nat
    requires AllDigits(s)
  {
    if s == [] then 0 else DigitValue(s[0]) * Pow10(|s| - 1) + DecimalValue(s[1..])
  }

  /** The digits of a string, after an optional leading `+` or `-`. */
  function Unsigned(s: string): string
  {
    if s != [] && (s[0] == '+' || s[0] == '-') then s[1..] else s
  }

  predicate Negative(s: string) { s != [] && s[0] == '-' }

  /** An optional sign followed by at least one decimal digit: the only shape `Atoi` accepts. */
  predicate WellFormed(s: string)
  {
    Unsigned(s) != [] && AllDigits(Unsigned(s))
  }

  /** The mathematical value of a well-formed decimal integer. */
  function SignedValue(s: string): int
    requires WellFormed(s)
  {
    if Negative(s) then -(DecimalValue(Unsigned(s)) as int) else DecimalValue(Unsigned(s))
  }

  /**
   * The digit loop of `ParseUint` for base 10: `n` is the value accumulated so far.
   * A non-digit is a syntax error; a product or sum past `MaxUint64` is a range error,
   * reported as soon as it happens.
   */
  function Accumulate(s: string, n: nat): Result<nat, NumError>
    requires n <= MaxUint64
  {
    if s == [] then Ok(n)
    else if !IsDigit(s[0]) then Err(InvalidSyntax)
    else if n >= Cutoff then Err(OutOfRange)
    else
      var n1 := n * 10 + DigitValue(s[0]);
      if n1 > MaxUint64 then Err(OutOfRange) else Accumulate(s[1..], n1)
  }

  /**
   * `strconv.ParseUint(s, 10, 64)`: accepts exactly a non-empty run of digits whose
   * value fits in 64 unsigned bits, and yields that value.
   */
  function ParseUint(s: string): (r: Result<nat, NumError>)
    ensures r.Ok? <==> s != [] && AllDigits(s) && DecimalValue(s) <= MaxUint64
    ensures r.Ok? ==> r.value == DecimalValue(s)
    ensures AllDigits(s) && s != [] && r.Err? ==> r.error == OutOfRange
  {
    if s == [] then Err(InvalidSyntax)
    else
      AccumulateMeaning(s, 0);
      Accumulate(s, 0)
  }

  /**
   * `strconv.ParseInt(s, 10, 64)`: an optional sign, then `ParseUint`, then the int64
   * range check. It accepts exactly the well-formed integers within 64 signed bits.
   */
  function ParseInt(s: string): (r: Result<int, NumError>)
    ensures r.Ok? <==> WellFormed(s) && MinInt64 <= SignedValue(s) <= MaxInt64
    ensures r.Ok? ==> r.value == SignedValue(s)
    ensures WellFormed(s) && r.Err? ==> r.error == OutOfRange
  {
    if s == [] then Err(InvalidSyntax)
    else
      var neg := Negative(s);
      match ParseUint(Unsigned(s))
      case Err(e) => Err(e)
      case Ok(un) =>
        if !neg && un >= -MinInt64 then Err(OutOfRange)
        else if neg && un > -MinInt64 then Err(OutOfRange)
        else Ok(if neg then -(un as int) else un)
  }

  /** `Atoi`'s fast path for inputs of 1 to 18 characters, which cannot overflow 64 bits. */
  function AtoiFast(s: string): Result<int, NumError>
    requires 0 < |s| < 19
  {
    var body := Unsigned(s);
    if body == [] || !AllDigits(body) then Err(InvalidSyntax)
    else Ok(if Negative(s) then -(DecimalValue(body) as int) else DecimalValue(body))
  }

  /**
   * `strconv.Atoi` on a 64-bit platform. It accepts exactly the well-formed decimal
   * integers whose value fits in 64 bits, and yields that value.
   */
  function Atoi(s: string): (r: Result<int, NumError>)
    ensures r.Ok? <==> WellFormed(s) && MinInt64 <= SignedValue(s) <= MaxInt64
    ensures r.Ok? ==> r.value == SignedValue(s)
    ensures WellFormed(s) && r.Err? ==> r.error == OutOfRange
    ensures |s| < 19 && r.Err? ==> r.error == InvalidSyntax
  {
    if 0 < |s| < 19 then
      FastPathAgrees(s);
      AtoiFast(s)
    else ParseInt(s)
  }

  lemma AllDigitsTail(s: string)
    requires s != [] && AllDigits(s)
    ensures IsDigit(s[0]) && AllDigits(s[1..])
  {
    forall i | 0 <= i < |s[1..]| ensures IsDigit(s[1..][i]) { assert s[1..][i] == s[i + 1]; }
  }

  lemma AllDigitsCons(s: string)
    requires s != [] && IsDigit(s[0]) && AllDigits(s[1..])
    ensures AllDigits(s)
  {
    forall i | 0 <= i < |s| ensures IsDigit(s[i]) {
      if i > 0 { assert s[i] == s[1..][i - 1]; }
    }
  }

  lemma {:induction false} DecimalValueBound(s: string)
    requires AllDigits(s)
    ensures DecimalValue(s) < Pow10(|s|)
  {
    if s != [] {
      AllDigitsTail(s);
      DecimalValueBound(s[1..]);
      var d := DigitValue(s[0]);
      var p := Pow10(|s| - 1);
      MulLe(d, 9, p);
      assert DecimalValue(s) == d * p + DecimalValue(s[1..]);
      assert Pow10(|s|) == 10 * p;
    }
  }

  lemma MulLe(a: nat, b: nat, p: nat)
    requires a <= b
    ensures a * p <= b * p
  {
  }

  /** One step of the digit loop, in closed form: `n` then digit `d` then a tail worth `v` over `p`. */
  lemma StepValue(n: nat, d: nat, p: nat, v: nat)
    ensures n * (10 * p) + (d * p + v) == (n * 10 + d) * p + v
  {
  }

  /** The accumulator loop succeeds exactly when all are digits and the final value fits. */
  lemma {:induction false} AccumulateMeaning(s: string, n: nat)
    requires n <= MaxUint64
    ensures Accumulate(s, n).Ok? <==> AllDigits(s) && n * Pow10(|s|) + DecimalValue(s) <= MaxUint64
    ensures Accumulate(s, n).Ok? ==> Accumulate(s, n).value == n * Pow10(|s|) + DecimalValue(s)
    ensures AllDigits(s) && Accumulate(s, n).Err? ==> Accumulate(s, n).error == OutOfRange
  {
    if s == [] {
      assert n * Pow10(0) == n;
    } else if !IsDigit(s[0]) {
      assert !AllDigits(s);
    } else {
      var d := DigitValue(s[0]);
      var p := Pow10(|s| - 1);
      var n1 := n * 10 + d;
      var tail := s[1..];
      assert AllDigits(s) <==> AllDigits(tail) by {
        if AllDigits(s) { AllDigitsTail(s); }
        if AllDigits(tail) { AllDigitsCons(s); }
      }
      if AllDigits(s) {
        assert DecimalValue(s) == d * p + DecimalValue(tail);
        assert Pow10(|s|) == 10 * p;
        StepValue(n, d, p, DecimalValue(tail));
        assert n * Pow10(|s|) + DecimalValue(s) == n1 * p + DecimalValue(tail);
        MulLe(1, p, n1);
      }
      if n >= Cutoff {
        MulLe(Cutoff, n, 10);
      } else if n1 <= MaxUint64 {
        AccumulateMeaning(tail, n1);
      }
    }
  }

  /** For short inputs the fast path returns what the general path returns. */
  lemma FastPathAgrees(s: string)
    requires 0 < |s| < 19
    ensures AtoiFast(s) == ParseInt(s)
    ensures AtoiFast(s).Err? ==> AtoiFast(s).error == InvalidSyntax
  {
    var body := Unsigned(s);
    if body != [] && AllDigits(body) {
      DecimalValueBound(body);
      Pow10Monotone(|body|, 18);
      Pow10Values();
      assert DecimalValue(body) <= MaxInt64;
      assert WellFormed(s) && MinInt64 <= SignedValue(s) <= MaxInt64;
      assert ParseInt(s) == Ok(SignedValue(s));
    } else {
      assert !WellFormed(s);
      if body != [] {
        Pow10Values();
        AccumulateShort(body, 0, 0);
        assert ParseUint(body) == Err(InvalidSyntax);
      }
    }
  }

  lemma Pow10Values()
    ensures Pow10(18) == 1_000_000_000_000_000_000
    ensures Pow10(19) == 10_000_000_000_000_000_000
  {
    assert Pow10(1) == 10;
    assert Pow10(2) == 100;
    assert Pow10(3) == 1_000;
    assert Pow10(4) == 10_000;
    assert Pow10(5) == 100_000;
    assert Pow10(6) == 1_000_000;
    assert Pow10(7) == 10_000_000;
    assert Pow10(8) == 100_000_000;
    assert Pow10(9) == 1_000_000_000;
    assert Pow10(10) == 10_000_000_000;
    assert Pow10(11) == 100_000_000_000;
    assert Pow10(12) == 1_000_000_000_000;
    assert Pow10(13) == 10_000_000_000_000;
    assert Pow10(14) == 100_000_000_000_000;
    assert Pow10(15) == 1_000_000_000_000_000;
    assert Pow10(16) == 10_000_000_000_000_000;
    assert Pow10(17) == 100_000_000_000_000_000;
  }

  /** Fewer than 20 digits in all never overflow `ParseUint`'s accumulator, so only syntax can fail. */
  lemma {:induction false} AccumulateShort(s: string, n: nat, j: nat)
    requires n < Pow10(j) && j + |s| <= 19
    ensures n <= MaxUint64
    ensures Accumulate(s, n).Err? ==> Accumulate(s, n).error == InvalidSyntax
    decreases |s|
  {
    Pow10Values();
    Pow10Monotone(j, 19);
    if s != [] && IsDigit(s[0]) {
      Pow10Monotone(j + 1, 19);
      Pow10Monotone(j, 18);
      Pow10Values();
      var n1 := n * 10 + DigitValue(s[0]);
      assert n1 < Pow10(j + 1);
      AccumulateShort(s[1..], n1, j + 1);
    }
  }

  lemma {:induction false} Pow10Monotone(j: nat, k: nat)
    requires j <= k
    ensures Pow10(j) <= Pow10(k)
    decreases k
  {
    if j < k { Pow10Monotone(j, k - 1); }
  }

  /** The decimal digits of `n`, without leading zeros (`strconv.Itoa` on naturals). */
  function Digits(n: nat): (s: string)
    ensures s != [] && AllDigits(s)
    decreases n
  {
    var last := ['0' + (n % 10) as char];
    if n < 10 then last
    else
      var s := Digits(n / 10) + last;
      assert forall i :: 0 <= i < |s| - 1 ==> s[i] == Digits(n / 10)[i];
      s
  }

  /** `strconv.Itoa`. */
  function Itoa(v: int): string
  {
    if v < 0 then "-" + Digits(-v) else Digits(v)
  }

  lemma {:induction false} DecimalValueSnoc(s: string, c: char)
    requires AllDigits(s) && IsDigit(c)
    ensures AllDigits(s + [c])
    ensures DecimalValue(s + [c]) == DecimalValue(s) * 10 + DigitValue(c)
  {
    var t := s + [c];
    assert AllDigits(t) by {
      forall i | 0 <= i < |t| ensures IsDigit(t[i]) { if i < |s| { assert t[i] == s[i]; } }
    }
    if s != [] {
      AllDigitsTail(s);
      assert t[0] == s[0] && t[1..] == s[1..] + [c];
      DecimalValueSnoc(s[1..], c);
      var d := DigitValue(s[0]);
      var p := Pow10(|s| - 1);
      assert DecimalValue(t) == d * Pow10(|s|) + DecimalValue(s[1..] + [c]);
      assert Pow10(|s|) == 10 * p;
      SnocStep(d, p, DecimalValue(s[1..]), DigitValue(c));
    }
  }

  lemma SnocStep(d: nat, p: nat, v: nat, e: nat)
    ensures d * (10 * p) + (v * 10 + e) == (d * p + v) * 10 + e
  {
  }

  lemma {:induction false} DigitsValue(n: nat)
    ensures DecimalValue(Digits(n)) == n
    decreases n
  {
    var c := '0' + (n % 10) as char;
    if n < 10 {
      assert DecimalValue([c]) == DigitValue(c) + DecimalValue([]);
    } else {
      DigitsValue(n / 10);
      DecimalValueSnoc(Digits(n / 10), c);
    }
  }

  /** Round trip: `Atoi` reads back every 64-bit integer `Itoa` writes. */
  lemma AtoiItoa(v: int)
    requires MinInt64 <= v <= MaxInt64
    ensures Atoi(Itoa(v)) == Ok(v)
  {
    var s := Itoa(v);
    if v < 0 {
      assert Unsigned(s) == Digits(-v);
      DigitsValue(-v);
    } else {
      DigitsValue(v);
      assert Digits(v)[0] != '+' && Digits(v)[0] != '-';
      assert Unsigned(s) == Digits(v);
    }
  }

  function HexDigit(n: nat): char
    requires n < 16
  {
    if n < 10 then '0' + n as char else 'a' + (n - 10) as char
  }

  /** How `Quote` writes one character: Go's escapes for ASCII, other characters verbatim. */
  function QuoteChar(c: char): string
  {
    if c == '"' then "\\\""
    else if c == '\\' then "\\\\"
    else if ' ' <= c <= '~' then [c]
    else if c == '\U{7}' then "\\a"
    else if c == '\U{8}' then "\\b"
    else if c == '\U{c}' then "\\f"
    else if c == '\n' then "\\n"
    else if c == '\r' then "\\r"
    else if c == '\t' then "\\t"
    else if c == '\U{b}' then "\\v"
    else if c < ' ' || c == '\U{7f}' then "\\x" + [HexDigit(c as int / 16), HexDigit(c as int % 16)]
    else [c]
  }

  function QuoteBody(s: string): string
  {
    if s == [] then "" else QuoteChar(s[0]) + QuoteBody(s[1..])
  }

  /** Printable ASCII other than `"` and `\`: the characters `Quote` copies unchanged. */
  predicate Plain(s: string)
  {
    forall i :: 0 <= i < |s| ==> ' ' <= s[i] <= '~' && s[i] != '"' && s[i] != '\\'
  }

  /** ASCII control characters (below space, and DEL) do not occur in `q`. */
  predicate NoControl(q: string)
  {
    forall i :: 0 <= i < |q| ==> ' ' <= q[i] && q[i] != '\U{7f}'
  }

  /** Every `"` in `q` comes right after a backslash. */
  predicate QuotesEscaped(q: string)
  {
    forall i :: 0 <= i < |q| && q[i] == '"' ==> 0 < i && q[i - 1] == '\\'
  }

  /**
   * `strconv.Quote`: a double-quoted Go string literal denoting `s`. Between the
   * quotes no control character is left raw and every `"` is escaped; plain text
   * appears verbatim; distinct inputs quote differently (`QuoteInjective`).
   */
  function Quote(s: string): (r: string)
    ensures |r| >= 2 && r[0] == '"' && r[|r| - 1] == '"'
    ensures NoControl(r)
    ensures forall i :: 0 < i < |r| - 1 && r[i] == '"' ==> r[i - 1] == '\\'
    ensures Plain(s) ==> r == "\"" + s + "\""
  {
    QuotePlainBody(s);
    QuoteBodyShape(s);
    var body := QuoteBody(s);
    var r := "\"" + body + "\"";
    assert forall i :: 0 < i < |r| - 1 ==> r[i] == body[i - 1];
    r
  }

  lemma {:induction false} QuotePlainBody(s: string)
    ensures Plain(s) ==> QuoteBody(s) == s
  {
    if s != [] && Plain(s) {
      assert Plain(s[1..]) by {
        forall i | 0 <= i < |s[1..]| ensures ' ' <= s[1..][i] <= '~' && s[1..][i] != '"' && s[1..][i] != '\\' {
          assert s[1..][i] == s[i + 1];
        }
      }
      QuotePlainBody(s[1..]);
      assert s == [s[0]] + s[1..];
    }
  }

  lemma QuoteCharShape(c: char)
    ensures QuoteChar(c) != []
    ensures NoControl(QuoteChar(c)) && QuotesEscaped(QuoteChar(c))
    ensures QuoteChar(c)[0] != '"'
  {
  }

  lemma ConcatShape(a: string, b: string)
    requires NoControl(a) && QuotesEscaped(a)
    requires NoControl(b) && QuotesEscaped(b)
    requires b != [] ==> b[0] != '"'
    ensures NoControl(a + b) && QuotesEscaped(a + b)
  {
    forall i | 0 <= i < |a + b| && (a + b)[i] == '"'
      ensures 0 < i && (a + b)[i - 1] == '\\'
    {
      if i >= |a| {
        assert b[i - |a|] == '"';
      }
    }
  }

  /** The escaped body of a quoted string has no raw control character and no unescaped `"`. */
  lemma {:induction false} QuoteBodyShape(s: string)
    ensures NoControl(QuoteBody(s)) && QuotesEscaped(QuoteBody(s))
    ensures QuoteBody(s) != [] ==> QuoteBody(s)[0] != '"'
  {
    if s != [] {
      QuoteCharShape(s[0]);
      QuoteBodyShape(s[1..]);
      ConcatShape(QuoteChar(s[0]), QuoteBody(s[1..]));
    }
  }

  function HexValue(c: char): (n: nat)
    ensures n < 16
  {
    if '0' <= c <= '9' then c as int - '0' as int
    else if 'a' <= c <= 'f' then c as int - 'a' as int + 10
    else 0
  }

  /** Reads back the character whose escape starts `q`, as a Go string literal would. */
  function UnquoteHead(q: string): char
    requires q != []
  {
    if q[0] != '\\' || |q| < 2 then q[0]
    else if q[1] == 'a' then '\U{7}'
    else if q[1] == 'b' then '\U{8}'
    else if q[1] == 'f' then '\U{c}'
    else if q[1] == 'n' then '\n'
    else if q[1] == 'r' then '\r'
    else if q[1] == 't' then '\t'
    else if q[1] == 'v' then '\U{b}'
    else if q[1] == 'x' && |q| >= 4 then (16 * HexValue(q[2]) + HexValue(q[3])) as char
    else q[1]
  }

  lemma HexRoundTrip(n: nat)
    requires n < 16
    ensures HexValue(HexDigit(n)) == n
  {
  }

  /** Whatever follows, the escape of `c` reads back as `c`. */
  lemma UnquoteQuoteChar(c: char, rest: string)
    ensures UnquoteHead(QuoteChar(c) + rest) == c
  {
    var q := QuoteChar(c) + rest;
    if !(c == '"' || c == '\\' || ' ' <= c <= '~' || c == '\U{7}' || c == '\U{8}' || c == '\U{c}'
         || c == '\n' || c == '\r' || c == '\t' || c == '\U{b}') && (c < ' ' || c == '\U{7f}') {
      var hi, lo := c as int / 16, c as int % 16;
      HexRoundTrip(hi);
      HexRoundTrip(lo);
      assert q[1] == 'x' && q[2] == HexDigit(hi) && q[3] == HexDigit(lo);
      assert 16 * hi + lo == c as int;
    }
  }

  /** Distinct texts have distinct escaped bodies. */
  lemma {:induction false} QuoteBodyInjective(s: string, t: string)
    requires QuoteBody(s) == QuoteBody(t)
    ensures s == t
  {
    if s == [] || t == [] {
      if s != [] {
        QuoteCharShape(s[0]);
      }
      if t != [] {
        QuoteCharShape(t[0]);
      }
    } else {
      UnquoteQuoteChar(s[0], QuoteBody(s[1..]));
      UnquoteQuoteChar(t[0], QuoteBody(t[1..]));
      assert s[0] == t[0];
      var k := |QuoteChar(s[0])|;
      assert QuoteBody(s[1..]) == QuoteBody(s)[k..];
      assert QuoteBody(t[1..]) == QuoteBody(t)[k..];
      QuoteBodyInjective(s[1..], t[1..]);
      assert s == [s[0]] + s[1..];
      assert t == [t[0]] + t[1..];
    }
  }

  /** `Quote` loses nothing: the quoted text determines the input. */
  lemma QuoteInjective(s: string, t: string)
    requires Quote(s) == Quote(t)
    ensures s == t
  {
    var qs, qt := Quote(s), Quote(t);
    assert QuoteBody(s) == qs[1..|qs| - 1];
    assert QuoteBody(t) == qt[1..|qt| - 1];
    QuoteBodyInjective(s, t);
  }

  /**
   * `NumError.Error()` for an error raised inside `Atoi`: the function, the quoted
   * input, and the reason.
   */
  function AtoiErrorText(s: string, e: NumError): (r: string)
    ensures e == InvalidSyntax ==> r == "strconv.Atoi: parsing " + Quote(s) + ": " + "invalid syntax"
    ensures e == OutOfRange ==> r == "strconv.Atoi: parsing " + Quote(s) + ": " + "value out of range"
    ensures Plain(s) && e == InvalidSyntax ==> r == "strconv.Atoi: parsing " + "\"" + s + "\"" + ": " + "invalid syntax"
    ensures Plain(s) && e == OutOfRange ==> r == "strconv.Atoi: parsing " + "\"" + s + "\"" + ": " + "value out of range"
  {
    "strconv.Atoi: parsing " + Quote(s) + ": " + (if e == InvalidSyntax then "invalid syntax" else "value out of range")
  }
}

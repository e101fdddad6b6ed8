/**
 Micro-dollar amounts as text: the printer of the quota snapshots and the parser of
 the configured cost limits.
 */
module Money {
  import opened Schedules

  const MAX_INT64: int := 0x7fff_ffff_ffff_ffff
  const MILLION: int := 1_000_000

  datatype Parsed = Amount(micro: int) | Rejected

  // ----- decimal digits -----

  predicate IsDigit(c: char) {
    '0' <= c <= '9'
  }

  predicate AllDigits(s: string) {
    forall i | 0 <= i < |s| :: IsDigit(s[i])
  }

  function DigitOf(n: nat): (c: char)
    requires n < 10
    ensures IsDigit(c)
  {
    '0' + n as char
  }

  function ValueOf(c: char): (n: nat)
    requires IsDigit(c)
    ensures n < 10
  {
    (c - '0') as nat
  }

  /** The number a digit string denotes. */
  function Value(s: string): nat
    requires AllDigits(s)
  {
    if s == "" then 0 else Value(s[..|s| - 1]) * 10 + ValueOf(s[|s| - 1])
  }

  /** `%d` of a natural number. */
  function Decimal(n: nat): (s: string)
    ensures s != "" && AllDigits(s)
    decreases n
  {
    if n < 10 then [DigitOf(n)] else Decimal(n / 10) + [DigitOf(n % 10)]
  }

  /** Left-padding with zeros, as `%06d` does. */
  function ZeroPad(s: string, width: nat): (r: string)
    requires AllDigits(s)
    ensures AllDigits(r) && |r| >= width
    decreases width - |s|
  {
    if |s| >= width then s else ZeroPad("0" + s, width)
  }

  /** `strings.TrimRight(s, "0")` */
  function TrimZeros(s: string): string {
    if s != "" && s[|s| - 1] == '0' then TrimZeros(s[..|s| - 1]) else s
  }

  function PadRight(s: string, width: nat): (r: string)
    ensures |s| <= width ==> |r| == width
    decreases width - |s|
  {
    if |s| >= width then s else PadRight(s + "0", width)
  }

  lemma {:induction false} DecimalDenotes(n: nat)
    ensures Value(Decimal(n)) == n
    decreases n
  {
    if n < 10 {
      assert [DigitOf(n)][..0] == "";
    } else {
      DecimalDenotes(n / 10);
      var front := Decimal(n / 10);
      assert (front + [DigitOf(n % 10)])[..|front|] == front;
    }
  }

  lemma {:induction false} LeadingZero(s: string)
    requires AllDigits(s)
    ensures AllDigits("0" + s) && Value("0" + s) == Value(s)
  {
    var z := "0" + s;
    if s == "" {
      assert z == "0" && z[..0] == "";
    } else {
      LeadingZero(s[..|s| - 1]);
      assert z[..|z| - 1] == "0" + s[..|s| - 1];
    }
  }

  lemma {:induction false} ZeroPadDenotes(s: string, width: nat)
    requires AllDigits(s)
    ensures Value(ZeroPad(s, width)) == Value(s)
    ensures |s| <= width ==> |ZeroPad(s, width)| == width
    decreases width - |s|
  {
    if |s| < width {
      LeadingZero(s);
      ZeroPadDenotes("0" + s, width);
    }
  }

  lemma {:induction false} DecimalWidth(n: nat, width: nat, bound: nat)
    requires width > 0 && bound == Power(width) && n < bound
    ensures |Decimal(n)| <= width
    decreases width
  {
    if n >= 10 {
      assert width > 1;
      DecimalWidth(n / 10, width - 1, Power(width - 1));
    }
  }

  function Power(n: nat): (p: nat)
    ensures p > 0
  {
    if n == 0 then 1 else 10 * Power(n - 1)
  }

  lemma {:induction false} TrimIsUndoneByPad(s: string)
    ensures |TrimZeros(s)| <= |s| && PadRight(TrimZeros(s), |s|) == s
  {
    var n := |s| - 1;
    if s != "" && s[n] == '0' {
      TrimIsUndoneByPad(s[..n]);
      var t := TrimZeros(s[..n]);
      PadOneMore(t, n);
      assert s[..n] + "0" == s;
    }
  }

  lemma {:induction false} PadOneMore(s: string, width: nat)
    requires |s| <= width
    ensures PadRight(s, width + 1) == PadRight(s, width) + "0"
    decreases width - |s|
  {
    if |s| < width {
      PadOneMore(s + "0", width);
    } else {
      assert PadRight(s + "0", width + 1) == s + "0";
    }
  }

  // ----- printing -----

  /** The text of a non-negative amount; zero has no text. */
  function Format(v: nat): string {
    if v == 0 then ""
    else
      var whole, fraction := v / MILLION, v % MILLION;
      if fraction == 0 then Decimal(whole)
      else TrimZeros(Decimal(whole) + "." + ZeroPad(Decimal(fraction), 6))
  }

  // ----- parsing -----

  function FirstDot(s: string, from: nat): (i: nat)
    requires from <= |s|
    ensures from <= i <= |s|
    ensures i < |s| ==> s[i] == '.'
    ensures forall j | from <= j < i :: s[j] != '.'
    decreases |s| - from
  {
    if from == |s| || s[from] == '.' then from else FirstDot(s, from + 1)
  }

  /** `strings.Split(s, ".")` */
  function SplitDots(s: string): (parts: seq<string>)
    ensures parts != []
    decreases |s|
  {
    var i := FirstDot(s, 0);
    if i == |s| then [s] else [s[..i]] + SplitDots(s[i + 1..])
  }

  /** `strconv.ParseInt(s, 10, 64)`: an optional sign, digits, and the range of int64. */
  function ParseInt(s: string): Parsed {
    var signed := s != "" && (s[0] == '+' || s[0] == '-');
    var digits := if signed then s[1..] else s;
    if digits == "" || !AllDigits(digits) then Rejected
    else
      var n: int := if signed && s[0] == '-' then -(Value(digits) as int) else Value(digits);
      if -MAX_INT64 - 1 <= n <= MAX_INT64 then Amount(n) else Rejected
  }

  /** Two's-complement wrap-around of int64. */
  function Wrap64(n: int): int {
    (n + MAX_INT64 + 1) % (2 * (MAX_INT64 + 1)) - MAX_INT64 - 1
  }

  method CostUsdMicro(text: string) returns (r: Parsed)
    ensures r == Parse(text)
  {
    if text == "" || text[0] == '+' || 'e' in text || 'E' in text {
      return Rejected;
    }
    var parts := SplitDots(text);
    if |parts| > 2 || parts[0] == "" || parts[0][0] == '-' {
      return Rejected;
    }
    if |parts| == 2 && |parts[1]| > 6 {
      return Rejected;
    }
    var whole := ParseInt(parts[0]);
    if whole.Rejected? {
      return Rejected;
    }
    var fraction := "";
    if |parts| == 2 {
      fraction := parts[1];
      if fraction == "" {
        return Rejected;
      }
    }
    ghost var unpadded := fraction;
    while |fraction| < 6
      invariant |fraction| <= 6 && PadRight(fraction, 6) == PadRight(unpadded, 6)
    {
      fraction := fraction + "0";
    }
    var micro := ParseInt(fraction);
    if micro.Rejected? || whole.micro > TruncDiv(Wrap64(MAX_INT64 - micro.micro), MILLION) {
      return Rejected;
    }
    var sum := Wrap64(whole.micro * MILLION + micro.micro);
    if sum <= 0 {
      return Rejected;
    }
    return Amount(sum);
  }

  /** What the parser computes, step for step. */
  function Parse(text: string): Parsed {
    if text == "" || text[0] == '+' || 'e' in text || 'E' in text then Rejected else ParseParts(SplitDots(text))
  }

  function ParseParts(parts: seq<string>): Parsed
    requires parts != []
  {
    if |parts| > 2 || parts[0] == "" || parts[0][0] == '-' then Rejected
    else if |parts| == 2 && (parts[1] == "" || |parts[1]| > 6) then Rejected
    else Combine(ParseInt(parts[0]), ParseInt(PadRight(if |parts| == 2 then parts[1] else "", 6)))
  }

  function Combine(whole: Parsed, fraction: Parsed): Parsed {
    if whole.Rejected? || fraction.Rejected? then Rejected
    else if whole.micro > TruncDiv(Wrap64(MAX_INT64 - fraction.micro), MILLION) then Rejected
    else
      var sum := Wrap64(whole.micro * MILLION + fraction.micro);
      if sum <= 0 then Rejected else Amount(sum)
  }

  // ----- meaning of a decimal text -----

  /** Digits with at most one dot, which has one to six digits after it. */
  predicate IsPlain(whole: string, fraction: string) {
    whole != "" && AllDigits(whole) && AllDigits(fraction) && |fraction| <= 6
  }

  function PlainText(whole: string, fraction: string): string {
    if fraction == "" then whole else whole + "." + fraction
  }

  /** The amount a plain decimal denotes, in millionths: its digits with the dot moved six places. */
  function Denoted(whole: string, fraction: string): nat
    requires IsPlain(whole, fraction)
  {
    PadDigits(fraction, 6);
    Value(whole + PadRight(fraction, 6))
  }

  lemma {:induction false} PadDigits(s: string, width: nat)
    requires AllDigits(s)
    ensures AllDigits(PadRight(s, width))
    decreases width - |s|
  {
    if |s| < width {
      PadDigits(s + "0", width);
    }
  }

  lemma {:induction false} ValueAppend(a: string, b: string)
    requires AllDigits(a) && AllDigits(b)
    ensures AllDigits(a + b) && Value(a + b) == Value(a) * Power(|b|) + Value(b)
  {
    if b == "" {
      assert a + b == a;
    } else {
      var n := |b| - 1;
      ValueAppend(a, b[..n]);
      assert (a + b)[..|a| + n] == a + b[..n];
      Shift(Value(a), Power(n), Value(b[..n]), ValueOf(b[n]));
    }
  }

  lemma {:induction false} Shift(a: nat, p: nat, b: nat, digit: nat)
    ensures (a * p + b) * 10 + digit == a * (10 * p) + (b * 10 + digit)
  {
  }

  lemma {:induction false} ValueBelow(s: string)
    requires AllDigits(s)
    ensures Value(s) < Power(|s|)
  {
    if s != "" {
      ValueBelow(s[..|s| - 1]);
    }
  }

  lemma {:induction false} SplitPlain(whole: string, fraction: string)
    requires IsPlain(whole, fraction)
    ensures SplitDots(PlainText(whole, fraction)) == if fraction == "" then [whole] else [whole, fraction]
    ensures var text := PlainText(whole, fraction);
            text != "" && text[0] != '+' && 'e' !in text && 'E' !in text
  {
    var text := PlainText(whole, fraction);
    var i := FirstDot(text, 0);
    if fraction != "" {
      assert text[|whole|] == '.';
      assert forall j | 0 <= j < |whole| :: text[j] == whole[j];
      assert i == |whole|;
      assert text[..i] == whole && text[i + 1..] == fraction;
      assert FirstDot(fraction, 0) == |fraction|;
    }
  }

  lemma {:induction false} SixDigits()
    ensures Power(6) == MILLION
  {
    assert Power(5) == 10 * Power(4);
    assert Power(3) == 10 * Power(2);
    assert Power(1) == 10 * Power(0);
  }

  /** Main result for the parser: a plain decimal is accepted exactly when the amount it denotes
      is positive and fits int64, and then with that amount; nothing wraps around on the way. */
  lemma {:induction false} ParsesExactly(whole: string, fraction: string)
    requires IsPlain(whole, fraction)
    ensures Parse(PlainText(whole, fraction)) ==
            if 0 < Denoted(whole, fraction) <= MAX_INT64 then Amount(Denoted(whole, fraction)) else Rejected
  {
    SplitPlain(whole, fraction);
    var padded := PadRight(fraction, 6);
    PadDigits(fraction, 6);
    ValueBelow(padded);
    SixDigits();
    ValueAppend(whole, padded);
    ParseDigits(whole);
    ParseDigits(padded);
    CombineIsExact(Value(whole), Value(padded));
  }

  lemma {:induction false} ParseDigits(s: string)
    requires s != "" && AllDigits(s)
    ensures ParseInt(s) == if Value(s) <= MAX_INT64 then Amount(Value(s)) else Rejected
  {
    assert IsDigit(s[0]);
  }

  lemma {:induction false} CombineIsExact(w: nat, f: nat)
    requires f < MILLION
    ensures Combine(if w <= MAX_INT64 then Amount(w) else Rejected, Amount(f)) ==
            if 0 < w * MILLION + f <= MAX_INT64 then Amount(w * MILLION + f) else Rejected
  {
    assert Wrap64(MAX_INT64 - f) == MAX_INT64 - f;
    assert w > (MAX_INT64 - f) / MILLION <==> w * MILLION + f > MAX_INT64;
  }

  /** The printed text is a plain decimal of the amount. */
  lemma {:induction false} FormatIsPlain(v: nat) returns (whole: string, fraction: string)
    requires v > 0
    ensures IsPlain(whole, fraction) && Format(v) == PlainText(whole, fraction) && Denoted(whole, fraction) == v
  {
    var w, f := v / MILLION, v % MILLION;
    whole := Decimal(w);
    DecimalDenotes(w);
    SixDigits();
    var padded := ZeroPad(Decimal(f), 6);
    DecimalWidth(f, 6, MILLION);
    ZeroPadDenotes(Decimal(f), 6);
    DecimalDenotes(f);
    if f == 0 {
      fraction := "";
      ZerosDenoteZero(6);
      PadDigits("", 6);
      ValueAppend(whole, PadRight("", 6));
    } else {
      fraction := TrimZeros(padded);
      TrimIsUndoneByPad(padded);
      TrimDigits(padded);
      TrimStopsInFraction(whole, padded);
      ValueAppend(whole, padded);
    }
  }

  lemma {:induction false} ZerosDenoteZero(width: nat)
    ensures AllDigits(PadRight("", width)) && Value(PadRight("", width)) == 0 && |PadRight("", width)| == width
  {
    if width > 0 {
      ZerosDenoteZero(width - 1);
      PadOneMore("", width - 1);
      var front := PadRight("", width - 1);
      assert (front + "0")[..|front|] == front;
    }
  }

  lemma {:induction false} TrimDigits(s: string)
    requires AllDigits(s)
    ensures AllDigits(TrimZeros(s)) && (TrimZeros(s) == "" ==> Value(s) == 0)
  {
    if s != "" && s[|s| - 1] == '0' {
      TrimDigits(s[..|s| - 1]);
    }
  }

  /** A fraction that is not zero shields the dot and the whole part from trimming. */
  lemma {:induction false} TrimStopsInFraction(whole: string, fraction: string)
    requires AllDigits(fraction) && Value(fraction) != 0
    ensures TrimZeros(whole + "." + fraction) == whole + "." + TrimZeros(fraction)
  {
    var text, n := whole + "." + fraction, |fraction| - 1;
    assert text[|text| - 1] == fraction[n];
    if fraction[n] == '0' {
      assert text[..|text| - 1] == whole + "." + fraction[..n];
      TrimStopsInFraction(whole, fraction[..n]);
    }
  }

  /** Main result: every positive int64 amount survives printing and parsing. */
  lemma {:induction false} MoneyRoundTrips(v: nat)
    requires 0 < v < 0x8000_0000_0000_0000
    ensures Parse(Format(v)) == Amount(v)
  {
    var whole, fraction := FormatIsPlain(v);
    ParsesExactly(whole, fraction);
  }
}

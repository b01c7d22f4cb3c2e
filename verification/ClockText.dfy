/** Numbers and clock times as text, spelled out: what a decimal is worth, and how the
    printed times look (src/subtitles.rs, src/dlna.rs). */
module ClockText {
  import opened Text
  import opened TimeText

  // ---- Numbers ---------------------------------------------------------------------------

  lemma TenToStep(e: int)
    ensures TenTo(e + 1) == 10.0 * TenTo(e) && TenTo(e) > 0.0
    decreases if e < 0 then -e else e
  {
    if e < 0 {
      TenToStep(e + 1);
    } else if e > 0 {
      TenToStep(e - 1);
    }
  }

  /** The digits after the point are worth as many places less as there are of them. */
  lemma {:induction false} FractionIsScaled(s: string)
    requires AllDigits(s)
    ensures Fraction(s) * TenTo(|s|) == DigitsValue(s) as real
  {
    hide TenTo, DigitsValue, Fraction;
    if s == "" {
      NoDigits();
    } else {
      var c, rest := s[0], s[1..];
      HeadTail(s);
      assert c in s && forall d :: d in rest ==> d in s;
      FractionIsScaled(rest);
      FractionStep(s);
      TenToStep(|rest|);
      LeadingDigit(c, rest);
      Scaled(DigitOf(c), Fraction(rest), TenTo(|rest|), DigitsValue(rest) as real);
    }
  }

  lemma NoDigits()
    ensures Fraction("") * TenTo(0) == DigitsValue("") as real == 0.0
  {
  }

  function DigitOf(c: char): real
    requires IsDigit(c)
  {
    (c as int - '0' as int) as real
  }

  lemma FractionStep(s: string)
    requires AllDigits(s) && s != "" && AllDigits(s[1..]) && IsDigit(s[0])
    ensures Fraction(s) == (DigitOf(s[0]) + Fraction(s[1..])) / 10.0
  {
  }

  lemma Scaled(d: real, f: real, p: real, v: real)
    requires f * p == v
    ensures (d + f) / 10.0 * (10.0 * p) == d * p + v
  {
    assert (d + f) / 10.0 * (10.0 * p) == (d + f) * p;
    assert (d + f) * p == d * p + f * p;
  }

  lemma {:induction false} LeadingDigit(c: char, s: string)
    requires IsDigit(c) && AllDigits(s)
    ensures AllDigits([c] + s)
    ensures DigitsValue([c] + s) as real == DigitOf(c) * TenTo(|s|) + DigitsValue(s) as real
  {
    hide TenTo, DigitsValue;
    NoDigits();
    LastDigit([c] + s);
    if s == "" {
      assert [c] + s == [c] && [c][..0] == "";
      One();
    } else {
      var front := s[..|s| - 1];
      Front([c], s);
      assert s[|s| - 1] in s && forall d :: d in front ==> d in s;
      LastDigit(s);
      LeadingDigit(c, front);
      TenToStep(|front|);
      MoreTens(DigitOf(c), TenTo(|front|));
    }
  }

  lemma LastDigit(s: string)
    requires s != ""
    ensures AllDigits(s) ==>
      AllDigits(s[..|s| - 1]) && IsDigit(s[|s| - 1])
      && DigitsValue(s) as real == 10.0 * DigitsValue(s[..|s| - 1]) as real + DigitOf(s[|s| - 1])
  {
    assert s[|s| - 1] in s;
  }

  lemma One()
    ensures TenTo(0) == 1.0
  {
  }

  lemma MoreTens(d: real, p: real)
    ensures 10.0 * (d * p) == d * (10.0 * p)
  {
  }

  /** Signs and decimals mean what they say. */
  lemma SignedMeans(whole: string, fraction: string)
    requires whole != "" && AllDigits(whole) && AllDigits(fraction)
    ensures ParseDecimal("+" + whole) == ParseDecimal(whole) == Some(DigitsValue(whole) as real)
    ensures ParseDecimal("-" + whole) == Some(-(DigitsValue(whole) as real))
    ensures ParseDecimal("-" + (whole + ("." + fraction))) == Some(-(DigitsValue(whole) as real + Fraction(fraction)))
  {
    hide ParseUnsigned, DigitsValue, Fraction, AllDigits;
    AllDigitsFirst(whole);
    ParseWhole(whole);
    UnsignedStart(whole);
    ParsePoint(whole, fraction);
    Signed("+", whole);
    Signed("-", whole);
    Signed("-", whole + ("." + fraction));
  }

  lemma AllDigitsFirst(s: string)
    requires s != "" && AllDigits(s)
    ensures IsDigit(s[0])
  {
    assert s[0] in s;
  }

  lemma Signed(sign: string, s: string)
    requires sign == "+" || sign == "-"
    ensures sign + s != "" && (sign + s)[0] == sign[0] && (sign + s)[1..] == s
  {
  }

  /** An exponent is a whole number of places, to the right with a minus sign. */
  lemma ExponentPlaces(places: string)
    requires places != "" && AllDigits(places)
    ensures ParseExponent(places) == Some(DigitsValue(places))
    ensures ParseExponent("-" + places) == Some(0 - DigitsValue(places))
  {
    hide DigitsValue;
    AllDigitsFirst(places);
    Signed("-", places);
  }

  /** Behind either mark it says how many places the point moves. */
  lemma ExponentMeans(whole: string, mark: char, e: string, x: int)
    requires whole != "" && AllDigits(whole) && (mark == 'e' || mark == 'E') && ParseExponent(e) == Some(x)
    ensures ParseDecimal(whole + ([mark] + e)) == Some(Moved(DigitsValue(whole) as real, x))
  {
    hide Moved, DigitsValue, ParseMantissa, ParseExponent, AllDigits, SplitExponent;
    AllDigitsFirst(whole);
    UnsignedStart(whole + ([mark] + e));
    ExponentAt(whole, mark, e);
    WholeMantissa(whole);
  }

  lemma MovedMeans(v: real, places: int)
    ensures Moved(v, 0) == v && Moved(v, places + 1) == 10.0 * Moved(v, places)
  {
    hide TenTo;
    One();
    TenToStep(places);
    MoreTens(v, TenTo(places));
  }

  lemma WholeMantissa(whole: string)
    requires whole != "" && AllDigits(whole)
    ensures ParseMantissa(whole) == Some(DigitsValue(whole) as real)
  {
    FindNone(whole, ".");
    NoHead(whole);
  }

  lemma {:induction false} ExponentAt(m: string, mark: char, e: string)
    requires AllDigits(m) && (mark == 'e' || mark == 'E')
    ensures SplitExponent(m + ([mark] + e)) == (m, Some(e))
  {
    if m == "" {
      NoHead([mark] + e);
    } else {
      Tail(m, [mark] + e);
      HeadTail(m);
      assert m[0] in m;
      ExponentAt(m[1..], mark, e);
    }
  }

  /** Digits are written from the highest place down. */
  lemma WrittenOut()
    ensures Digits(60020) == "60020" && Padded(7, 2) == "07" && Padded(45, 3) == "045" && Padded(123, 2) == "123"
  {
    assert Digits(6) == "6" && Digits(60) == "60" && Digits(600) == "600" && Digits(6002) == "6002";
    assert Digits(7) == "7" && Digits(4) == "4" && Digits(45) == "45" && Digits(1) == "1" && Digits(12) == "12";
    assert Zeros(1) == "0" + Zeros(0) && Zeros(0) == "" && Zeros(-1) == "";
  }

  // ---- Printed times ---------------------------------------------------------------------------

  /** Below `limit` a number takes no more places than asked for. */
  lemma TwoPlaces(n: nat)
    ensures |Padded(n, 2)| >= 2 && (|Padded(n, 2)| == 2 <==> n < 100)
  {
    if n >= 100 {
      assert |Digits(n / 10)| >= 2;
    } else if n >= 10 {
      assert |Digits(n / 10)| == 1;
    }
    if |Digits(n)| < 2 {
      ZerosLength(2 - |Digits(n)|);
    }
  }

  /** A subtitle time is hours, minutes, seconds and thousandths of the whole number of
      milliseconds, in two, two, two and three places; only the hours can take more. */
  lemma SubtitleTimeLooks(t: real) returns (h: nat, m: nat, s: nat, f: nat)
    ensures FormatTimestamp(t) == Padded(h, 2) + (":" + (Padded(m, 2) + (":" + (Padded(s, 2) + ("." + Padded(f, 3))))))
    ensures m < 60 && s < 60 && f < 1000 && ((h * 60 + m) * 60 + s) * 1000 + f == Millis(t)
    ensures |Padded(m, 2)| == 2 && |Padded(s, 2)| == 2 && |Padded(f, 3)| == 3
    ensures |Padded(h, 2)| >= 2 && (|Padded(h, 2)| == 2 <==> h < 100)
  {
    hide Padded, Millis;
    h, m, s, f := MillisFields(Millis(t));
    TwoPlaces(h);
    TwoPlaces(m);
    TwoPlaces(s);
    PaddedWidthThree(f);
  }

  /** A printed time is the nearest millisecond, the later one from halfway on; before
      the beginning there is none, and past 64 bits there are no more. */
  lemma PrintedIsNearest(t: real)
    ensures 0.0 <= t * 1000.0 <= U64_MAX as real ==> Quantized(t) - 0.0005 <= t < Quantized(t) + 0.0005
    ensures t < 0.0 ==> Quantized(t) == 0.0
    ensures t * 1000.0 > U64_MAX as real ==> Quantized(t) == U64_MAX as real / 1000.0
  {
    var n := (NonNegative(t) * 1000.0 + 0.5).Floor;
    assert n as real <= NonNegative(t) * 1000.0 + 0.5 < n as real + 1.0;
    assert Millis(t) == if n > U64_MAX then U64_MAX else n;
  }

  /** A renderer's time is hours, minutes and seconds of the whole second. */
  lemma RendererTimeLooks(t: real) returns (h: nat, m: nat, s: nat)
    requires t.Floor <= U64_MAX
    ensures FormatHms(t) == Padded(h, 2) + (":" + (Padded(m, 2) + (":" + Padded(s, 2))))
    ensures m < 60 && s < 60 && (h * 60 + m) * 60 + s == if t < 0.0 then 0 else t.Floor
    ensures |Padded(m, 2)| == 2 && |Padded(s, 2)| == 2 && |Padded(h, 2)| >= 2 && (|Padded(h, 2)| == 2 <==> h < 100)
  {
    hide Padded;
    var n := NonNegative(t).Floor;
    WholeSeconds(NonNegative(t));
    h, m, s := HourFields(n);
    TwoPlaces(h);
    TwoPlaces(m);
    TwoPlaces(s);
  }

  // ---- Times of one, two, three and more parts ----------------------------------------------------

  /** Seconds alone, minutes and seconds, or hours, minutes and seconds; a subtitle time
      needs two parts at least, and nothing has four. */
  lemma PartsMean(a: string, b: string, c: string, d: string, x: real, y: real, z: real)
    requires Solid(a) && Solid(b) && Solid(c) && Solid(d)
    requires ParseDecimal(a) == Some(x) && ParseDecimal(b) == Some(y) && ParseDecimal(c) == Some(z)
    ensures Timestamp(a) == None && HmsValue(a) == Plausible(x)
    ensures Timestamp(a + (":" + b)) == Some(x * 60.0 + y) && HmsValue(a + (":" + b)) == Plausible(x * 60.0 + y)
    ensures Timestamp(Colons(a, b, c)) == Some(x * 3600.0 + y * 60.0 + z)
    ensures HmsValue(Colons(a, b, c)) == Plausible(x * 3600.0 + y * 60.0 + z)
    ensures Timestamp(Colons(a, b, c + (":" + d))) == None && HmsValue(Colons(a, b, c + (":" + d))) == 0.0
  {
    hide ParseDecimal, Trim, SplitOn;
    OnePart(a);
    TwoParts(a, b);
    ReadColons(a, b, c, x, y, z);
    FourParts(a, b, c, d);
    ReadAll(a, b, x, y);
  }

  /** A position no media has counts for nothing. */
  function Plausible(v: real): real {
    if v < 0.0 || v > 1_000_000.0 then 0.0 else v
  }

  lemma ReadAll(a: string, b: string, x: real, y: real)
    requires ParseDecimal(a) == Some(x) && ParseDecimal(b) == Some(y)
    ensures Readings([a]) == [Some(x)] && Readings([a, b]) == [Some(x), Some(y)]
  {
  }

  lemma OnePart(a: string)
    requires Solid(a)
    ensures SplitOn(Trim(a), ':') == [a]
  {
    assert a[0] in a && a[|a| - 1] in a;
    TrimIdentity(a);
    SplitOnPart(a, ':');
  }

  lemma TwoParts(a: string, b: string)
    requires Solid(a) && Solid(b)
    ensures SplitOn(Trim(a + (":" + b)), ':') == [a, b]
  {
    SolidTrimmed(a, ":", b);
    TrimIdentity(a + (":" + b));
    SplitOnAt(a, ':', b);
    SplitOnPart(b, ':');
  }

  lemma FourParts(a: string, b: string, c: string, d: string)
    requires Solid(a) && Solid(b) && Solid(c) && Solid(d)
    ensures SplitOn(Trim(Colons(a, b, c + (":" + d))), ':') == [a, b, c, d]
  {
    hide SplitOn;
    var text := Colons(a, b, c + (":" + d));
    assert text == a + ((":" + (b + (":" + (c + ":")))) + d);
    SolidTrimmed(a, ":" + (b + (":" + (c + ":"))), d);
    TrimIdentity(text);
    SplitOnAt(a, ':', b + (":" + (c + (":" + d))));
    SplitOnAt(b, ':', c + (":" + d));
    SplitOnAt(c, ':', d);
    SplitOnPart(d, ':');
  }
}

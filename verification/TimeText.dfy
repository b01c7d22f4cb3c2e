/** Clock times as text: the `HH:MM:SS.mmm` of subtitle files (src/subtitles.rs)
    and the `HH:MM:SS` of DLNA (src/dlna.rs, src/util.rs). Seconds are reals. */
module TimeText {
  import opened Text

  const U64_MAX: nat := 0xFFFF_FFFF_FFFF_FFFF
  const MAX_MEDIA_SECONDS: real := 1_000_000.0

  // ---- Decimal numbers -------------------------------------------------

  predicate IsDigit(c: char) {
    '0' <= c <= '9'
  }

  predicate AllDigits(s: string) {
    forall c :: c in s ==> IsDigit(c)
  }

  function DigitChar(d: nat): (c: char)
    requires d < 10
    ensures IsDigit(c) && c as int - '0' as int == d
  {
    ('0' as int + d) as char
  }

  /** A number in decimal, without leading zeros. */
  function Digits(n: nat): (s: string)
    ensures s != ""
  {
    if n < 10 then [DigitChar(n)] else Digits(n / 10) + [DigitChar(n % 10)]
  }

  /** `{n:0width$}`. */
  function Padded(n: nat, width: nat): string {
    Zeros(width - |Digits(n)|) + Digits(n)
  }

  function Zeros(k: int): string {
    if k <= 0 then "" else "0" + Zeros(k - 1)
  }

  function DigitsValue(s: string): nat
    requires AllDigits(s)
  {
    if s == "" then 0
    else
      assert s[|s| - 1] in s;
      10 * DigitsValue(s[..|s| - 1]) + (s[|s| - 1] as int - '0' as int)
  }

  lemma {:induction false} DigitsRead(n: nat)
    ensures AllDigits(Digits(n)) && DigitsValue(Digits(n)) == n
  {
    if n >= 10 {
      DigitsRead(n / 10);
      assert Digits(n)[..|Digits(n)| - 1] == Digits(n / 10);
    }
  }

  lemma {:induction false} DigitsValueOf(c: char, s: string)
    requires IsDigit(c) && AllDigits(s)
    ensures AllDigits([c] + s)
    ensures c == '0' ==> DigitsValue([c] + s) == DigitsValue(s)
  {
    if s == "" {
      assert [c] + s == [c] && [c][..0] == "";
    } else {
      Front([c], s);
      assert s[|s| - 1] in s;
      DigitsValueOf(c, s[..|s| - 1]);
    }
  }

  lemma {:induction false} LeadingZeros(k: int, s: string)
    requires AllDigits(s)
    ensures AllDigits(Zeros(k) + s) && DigitsValue(Zeros(k) + s) == DigitsValue(s)
  {
    if k <= 0 {
      NoHead(s);
    } else {
      LeadingZeros(k - 1, s);
      Assoc("0", Zeros(k - 1), s);
      DigitsValueOf('0', Zeros(k - 1) + s);
    }
  }

  lemma PaddedRead(n: nat, width: nat)
    ensures Padded(n, width) != "" && AllDigits(Padded(n, width))
    ensures DigitsValue(Padded(n, width)) == n
  {
    DigitsRead(n);
    LeadingZeros(width - |Digits(n)|, Digits(n));
  }

  lemma ZerosLength(k: nat)
    ensures |Zeros(k)| == k
  {
  }

  lemma PaddedWidthThree(n: nat)
    requires n < 1000
    ensures |Padded(n, 3)| == 3
  {
    assert n >= 10 ==> |Digits(n / 10)| == if n / 10 < 10 then 1 else 2;
    ZerosLength(3 - |Digits(n)|);
  }

  /** `str::parse::<f64>`: an optional sign, digits, an optional fraction and an
      optional exponent. The `inf` and `nan` spellings are not part of this model. */
  function ParseDecimal(s: string): Option<real> {
    if s != "" && s[0] == '-' then
      match ParseUnsigned(s[1..]) case None => None case Some(v) => Some(-v)
    else if s != "" && s[0] == '+' then ParseUnsigned(s[1..])
    else ParseUnsigned(s)
  }

  /** The text before and after the first exponent mark. */
  function SplitExponent(s: string): (string, Option<string>) {
    if s == "" then ("", None)
    else if s[0] == 'e' || s[0] == 'E' then ("", Some(s[1..]))
    else var (m, e) := SplitExponent(s[1..]); ([s[0]] + m, e)
  }

  function ParseExponent(s: string): Option<int> {
    var digits := if s != "" && (s[0] == '-' || s[0] == '+') then s[1..] else s;
    if digits == "" || !AllDigits(digits) then None
    else
      var v: int := DigitsValue(digits);
      Some(if s[0] == '-' then -v else v)
  }

  function TenTo(e: int): real
    decreases if e < 0 then -e else e
  {
    if e == 0 then 1.0 else if e > 0 then 10.0 * TenTo(e - 1) else TenTo(e + 1) / 10.0
  }

  /** The number with its point moved so many places to the right. */
  function Moved(v: real, places: int): real {
    v * TenTo(places)
  }

  function ParseUnsigned(s: string): Option<real> {
    match SplitExponent(s)
    case (m, None) => ParseMantissa(m)
    case (m, Some(e)) =>
      match (ParseMantissa(m), ParseExponent(e))
      case (Some(v), Some(x)) => Some(Moved(v, x))
      case _ => None
  }

  lemma {:induction false} NoExponent(s: string)
    requires 'e' !in s && 'E' !in s
    ensures SplitExponent(s) == (s, None)
  {
    if s != "" {
      NoExponent(s[1..]);
      HeadTail(s);
    }
  }

  function ParseMantissa(s: string): Option<real> {
    var (whole, fraction) := match SplitOnce(s, ".") case None => (s, "") case Some(pair) => pair;
    if AllDigits(whole) && AllDigits(fraction) && whole + fraction != "" then
      Some(DigitsValue(whole) as real + Fraction(fraction))
    else None
  }

  /** The digits after the point. */
  function Fraction(s: string): real
    requires AllDigits(s)
  {
    if s == "" then 0.0
    else
      assert s[0] in s;
      ((s[0] as int - '0' as int) as real + Fraction(s[1..])) / 10.0
  }

  lemma UnsignedStart(s: string)
    requires s != "" && IsDigit(s[0])
    ensures ParseDecimal(s) == ParseUnsigned(s)
  {
  }

  lemma ParseWhole(s: string)
    requires s != "" && AllDigits(s)
    ensures ParseDecimal(s) == Some(DigitsValue(s) as real)
  {
    assert s[0] in s;
    UnsignedStart(s);
    NoExponent(s);
    FindNone(s, ".");
    NoHead(s);
  }

  lemma ThousandthsValue(s: string)
    requires AllDigits(s) && |s| == 3
    ensures Fraction(s) == DigitsValue(s) as real / 1000.0
  {
    assert s[0] in s && s[1] in s && s[2] in s;
    assert s[1..][1..] == [s[2]] && s[..2][..1] == [s[0]];
    assert Fraction(s[1..][1..][1..]) == 0.0 && DigitsValue([s[0]][..0]) == 0;
    assert DigitsValue(s[..2]) == 10 * DigitsValue([s[0]]) + (s[1] as int - '0' as int);
  }

  lemma ParsePoint(whole: string, fraction: string)
    requires whole != "" && AllDigits(whole) && AllDigits(fraction)
    ensures ParseUnsigned(whole + ("." + fraction))
         == Some(DigitsValue(whole) as real + Fraction(fraction))
  {
    hide SplitExponent, ParseMantissa, DigitsValue, Fraction;
    var s := whole + ("." + fraction);
    assert forall c :: c in s ==> IsDigit(c) || c == '.';
    NoExponent(s);
    MantissaPoint(whole, fraction);
  }

  lemma MantissaPoint(whole: string, fraction: string)
    requires whole != "" && AllDigits(whole) && AllDigits(fraction)
    ensures ParseMantissa(whole + ("." + fraction))
         == Some(DigitsValue(whole) as real + Fraction(fraction))
  {
    SplitOnceAt(whole, ".", fraction);
  }

  lemma ParseThousandths(whole: string, fraction: string)
    requires whole != "" && AllDigits(whole) && |fraction| == 3 && AllDigits(fraction)
    ensures ParseDecimal(whole + ("." + fraction))
         == Some(DigitsValue(whole) as real + DigitsValue(fraction) as real / 1000.0)
  {
    hide ParseUnsigned, DigitsValue, Fraction;
    assert whole[0] in whole;
    Tail(whole, "." + fraction);
    UnsignedStart(whole + ("." + fraction));
    ParsePoint(whole, fraction);
    ThousandthsValue(fraction);
  }

  /** `str::parse` of an unsigned integer: an optional plus sign, then digits. */
  function ParseUint(s: string, max: nat): Option<nat> {
    var digits := if s != "" && s[0] == '+' then s[1..] else s;
    if digits != "" && AllDigits(digits) && DigitsValue(digits) <= max then Some(DigitsValue(digits)) else None
  }

  lemma ParseUintDigits(n: nat, max: nat)
    requires n <= max
    ensures ParseUint(Digits(n), max) == Some(n)
  {
    DigitsRead(n);
    assert Digits(n)[0] in Digits(n);
  }

  // ---- Base-60 readings ------------------------------------------------

  function Readings(parts: seq<string>): seq<Option<real>> {
    seq(|parts|, i requires 0 <= i < |parts| => ParseDecimal(parts[i]))
  }

  /** The value of one to three base-60 places, the last one in seconds. */
  function Clock(v: seq<Option<real>>): Option<real> {
    if |v| == 1 then v[0]
    else if |v| == 2 && v[0].Some? && v[1].Some? then Some(v[0].value * 60.0 + v[1].value)
    else if |v| == 3 && v[0].Some? && v[1].Some? && v[2].Some? then
      Some(v[0].value * 3600.0 + v[1].value * 60.0 + v[2].value)
    else None
  }

  function Timestamp(text: string): Option<real> {
    var parts := SplitOn(Trim(text), ':');
    if |parts| < 2 then None else Clock(Readings(parts))
  }

  function MediaSeconds(v: real): real {
    if 0.0 <= v <= MAX_MEDIA_SECONDS then v else 0.0
  }

  function HmsValue(text: string): real {
    match Clock(Readings(SplitOn(Trim(text), ':'))) case None => 0.0 case Some(v) => MediaSeconds(v)
  }

  /** `parse_timestamp`: folds the parts from the left, sixty to one. */
  method ParseTimestamp(text: string) returns (r: Option<real>)
    ensures r == Timestamp(text)
  {
    var parts := SplitOn(Trim(text), ':');
    if |parts| < 2 || |parts| > 3 {
      return None;
    }
    r := FoldParts(parts);
  }

  /** The loop the two readers share: `seconds = seconds * 60 + value`. */
  method FoldParts(parts: seq<string>) returns (r: Option<real>)
    requires 1 <= |parts| <= 3
    ensures r == Clock(Readings(parts))
  {
    hide ParseDecimal;
    var seconds := 0.0;
    for i := 0 to |parts|
      invariant forall j :: 0 <= j < i ==> Readings(parts)[j].Some?
      invariant i == 0 ==> seconds == 0.0
      invariant i > 0 ==> Clock(Readings(parts)[..i]) == Some(seconds)
    {
      var value := ParseDecimal(parts[i]);
      assert Readings(parts)[i] == value;
      if value.None? {
        return None;
      }
      seconds := seconds * 60.0 + value.value;
    }
    assert Readings(parts)[..|parts|] == Readings(parts);
    r := Some(seconds);
  }

  /** `hms`: an unreadable or implausible time counts as zero. */
  method Hms(text: string) returns (r: real)
    ensures r == HmsValue(text)
  {
    var parts := SplitOn(Trim(text), ':');
    if |parts| > 3 {
      return 0.0;
    }
    var seconds := FoldParts(parts);
    r := if seconds.Some? then MediaSeconds(seconds.value) else 0.0;
  }

  // ---- Printing --------------------------------------------------------

  function Saturate(n: nat): nat {
    if n > U64_MAX then U64_MAX else n
  }

  function NonNegative(t: real): real {
    if t < 0.0 then 0.0 else t
  }

  /** Milliseconds, rounded half up, as the saturating `as u64` cast leaves them. */
  function Millis(t: real): nat {
    Saturate((NonNegative(t) * 1000.0 + 0.5).Floor)
  }

  /** What is left of a time once it has been printed. */
  function Quantized(t: real): real {
    Millis(t) as real / 1000.0
  }

  /** A time the three printed decimals hold exactly. */
  predicate MsExact(t: real) {
    Quantized(t) == t
  }

  function Colons(a: string, b: string, c: string): string {
    a + (":" + (b + (":" + c)))
  }

  function SecondsText(s: nat, f: nat): string {
    Padded(s, 2) + ("." + Padded(f, 3))
  }

  function FormatTimestamp(seconds: real): string {
    var ms := Millis(seconds);
    Colons(Padded(ms / 3_600_000, 2), Padded((ms % 3_600_000) / 60_000, 2),
           SecondsText((ms % 60_000) / 1000, ms % 1000))
  }

  /** `total % 3600.0` and `total % 60.0`, for the totals they are used with. */
  function HourRemainder(total: real): real {
    total - 3600.0 * (total / 3600.0).Floor as real
  }

  function MinuteRemainder(total: real): real {
    total - 60.0 * (total / 60.0).Floor as real
  }

  /** Hours, minutes and seconds as `format_hms` takes them from a real total. */
  function HmsFields(total: real): (int, int, int) {
    ((total / 3600.0).Floor, (HourRemainder(total) / 60.0).Floor, MinuteRemainder(total).Floor)
  }

  function FormatHms(seconds: real): string {
    var (hours, minutes, secs) := HmsFields(NonNegative(seconds));
    WholeSeconds(NonNegative(seconds));
    Colons(Padded(Saturate(hours), 2), Padded(minutes, 2), Padded(secs, 2))
  }

  // ---- Round trips -----------------------------------------------------

  /** A text that neither trimming nor splitting at colons disturbs. */
  predicate Solid(s: string) {
    s != "" && forall c :: c in s ==> !IsWhitespace(c) && c != ':'
  }

  lemma SolidTrimmed(a: string, mid: string, c: string)
    requires Solid(a) && Solid(c)
    ensures Trimmed(a + (mid + c))
  {
    var t := a + (mid + c);
    assert a[0] in a && c[|c| - 1] in c;
    assert t[0] == a[0] && t[|t| - 1] == c[|c| - 1];
  }

  lemma ColonsTrimmed(a: string, b: string, c: string)
    requires Solid(a) && Solid(c)
    ensures Trimmed(Colons(a, b, c))
  {
    Assoc(b, ":", c);
    Assoc(":", b + ":", c);
    SolidTrimmed(a, ":" + (b + ":"), c);
  }

  lemma SplitColons(a: string, b: string, c: string)
    requires Solid(a) && Solid(b) && Solid(c)
    ensures SplitOn(Trim(Colons(a, b, c)), ':') == [a, b, c]
  {
    ColonsTrimmed(a, b, c);
    TrimIdentity(Colons(a, b, c));
    SplitOnAt(a, ':', b + (":" + c));
    SplitOnAt(b, ':', c);
    SplitOnPart(c, ':');
  }

  lemma ReadColons(a: string, b: string, c: string, x: real, y: real, z: real)
    requires Solid(a) && Solid(b) && Solid(c)
    requires ParseDecimal(a) == Some(x) && ParseDecimal(b) == Some(y) && ParseDecimal(c) == Some(z)
    ensures Timestamp(Colons(a, b, c)) == Some(x * 3600.0 + y * 60.0 + z)
    ensures HmsValue(Colons(a, b, c)) == MediaSeconds(x * 3600.0 + y * 60.0 + z)
  {
    SplitColons(a, b, c);
    ReadingsOf(a, b, c, x, y, z);
    ClockOfThree(x, y, z);
  }

  lemma ReadingsOf(a: string, b: string, c: string, x: real, y: real, z: real)
    requires ParseDecimal(a) == Some(x) && ParseDecimal(b) == Some(y) && ParseDecimal(c) == Some(z)
    ensures Readings([a, b, c]) == [Some(x), Some(y), Some(z)]
  {
  }

  lemma ClockOfThree(x: real, y: real, z: real)
    ensures Clock([Some(x), Some(y), Some(z)]) == Some(x * 3600.0 + y * 60.0 + z)
  {
  }

  lemma ReadPadded(n: nat, width: nat)
    ensures ParseDecimal(Padded(n, width)) == Some(n as real) && Solid(Padded(n, width))
  {
    hide ParseDecimal, Padded;
    PaddedRead(n, width);
    ParseWhole(Padded(n, width));
  }

  lemma ReadSeconds(n: nat, f: nat, z: real)
    requires f < 1000 && z == n as real + f as real / 1000.0
    ensures ParseDecimal(SecondsText(n, f)) == Some(z) && Solid(SecondsText(n, f))
  {
    hide ParseDecimal, Padded;
    PaddedRead(n, 2);
    PaddedRead(f, 3);
    PaddedWidthThree(f);
    ParseThousandths(Padded(n, 2), Padded(f, 3));
  }

  lemma ReadFields(h: nat, m: nat, s: nat, f: nat, z: real)
    requires f < 1000 && z == s as real + f as real / 1000.0
    ensures Timestamp(Colons(Padded(h, 2), Padded(m, 2), SecondsText(s, f)))
         == Some(h as real * 3600.0 + m as real * 60.0 + z)
  {
    hide *;
    ReadPadded(h, 2);
    ReadPadded(m, 2);
    ReadSeconds(s, f, z);
    ReadColons(Padded(h, 2), Padded(m, 2), SecondsText(s, f), h as real, m as real, z);
  }

  /** The shape of a printed time: a digit first, no dash, no whitespace. */
  lemma TimestampShape(t: real)
    ensures var s := FormatTimestamp(t); s != "" && IsDigit(s[0]) && Trimmed(s)
    ensures forall c :: c in FormatTimestamp(t) ==> IsDigit(c) || c == ':' || c == '.'
  {
    var ms := Millis(t);
    var a, b := Padded(ms / 3_600_000, 2), Padded((ms % 3_600_000) / 60_000, 2);
    var s, f := Padded((ms % 60_000) / 1000, 2), Padded(ms % 1000, 3);
    PaddedRead(ms / 3_600_000, 2);
    PaddedRead((ms % 3_600_000) / 60_000, 2);
    PaddedRead((ms % 60_000) / 1000, 2);
    PaddedRead(ms % 1000, 3);
    ClockShape(a, b, s, f);
  }

  lemma ClockShape(a: string, b: string, s: string, f: string)
    requires a != "" && f != "" && AllDigits(a) && AllDigits(b) && AllDigits(s) && AllDigits(f)
    ensures var t := Colons(a, b, s + ("." + f));
      t != "" && IsDigit(t[0]) && Trimmed(t)
      && forall c :: c in t ==> IsDigit(c) || c == ':' || c == '.'
  {
    var c := s + ("." + f);
    assert a[0] in a;
    Tail(a, ":" + (b + (":" + c)));
    assert Solid(a) && Solid(c);
    ColonsTrimmed(a, b, c);
  }

  lemma DivModUnique(n: int, d: int, q: int, r: int)
    requires d > 0 && n == q * d + r && 0 <= r < d
    ensures n / d == q && n % d == r
  {
    var e := n / d - q;
    assert n == d * (n / d) + n % d;
    assert d * e == r - n % d;
    assert e > 0 ==> d * e >= d;
    assert e < 0 ==> d * e <= -d;
  }

  lemma DivMod(n: nat, d: nat) returns (q: nat, r: nat)
    requires d > 0
    ensures q == n / d && r == n % d && n == q * d + r && r < d
  {
    q, r := n / d, n % d;
  }

  /** The four printed fields are the mixed-radix digits of the millisecond count. */
  lemma MillisFields(ms: nat) returns (h: nat, m: nat, s: nat, f: nat)
    ensures h == ms / 3_600_000 && m == (ms % 3_600_000) / 60_000
    ensures s == (ms % 60_000) / 1000 && f == ms % 1000
    ensures m < 60 && s < 60 && f < 1000
    ensures ms == h * 3_600_000 + m * 60_000 + s * 1000 + f
  {
    var r, t;
    h, r := DivMod(ms, 3_600_000);
    m, t := DivMod(r, 60_000);
    s, f := DivMod(t, 1000);
    DivModUnique(ms, 60_000, 60 * h + m, t);
    DivModUnique(ms, 1000, 3600 * h + 60 * m + s, f);
  }

  /** Reading a printed time gives the time, rounded to the millisecond, for
      every real; minutes and seconds stay below sixty. */
  lemma TimestampRoundTrip(t: real)
    ensures Timestamp(FormatTimestamp(t)) == Some(Quantized(t))
    ensures (Millis(t) % 3_600_000) / 60_000 < 60 && (Millis(t) % 60_000) / 1000 < 60
  {
    hide Timestamp, Padded, Colons, SecondsText;
    var h, m, s, f := MillisFields(Millis(t));
    ReadFields(h, m, s, f, s as real + f as real / 1000.0);
  }

  lemma FloorIs(x: real, n: int)
    requires n as real <= x < n as real + 1.0
    ensures x.Floor == n
  {
  }

  /** Printing a whole number of milliseconds loses nothing. */
  lemma WholeMillis(ms: nat)
    requires ms <= U64_MAX
    ensures Millis(ms as real / 1000.0) == ms && MsExact(ms as real / 1000.0)
  {
    var t := ms as real / 1000.0;
    assert t >= 0.0 && t * 1000.0 == ms as real;
    FloorIs(t * 1000.0 + 0.5, ms);
  }

  /** Whole milliseconds stay whole under the subtraction a shift performs. */
  lemma ExactDifference(t: real, d: real)
    requires MsExact(t) && MsExact(d) && t >= d
    ensures MsExact(t - d)
  {
    var x, y := Millis(t), Millis(d);
    assert t == x as real / 1000.0 && d == y as real / 1000.0;
    assert x >= y;
    WholeMillis(x - y);
    assert t - d == (x - y) as real / 1000.0;
  }

  lemma FloorSixty(t: real, n: nat)
    requires n as real <= t < n as real + 1.0
    ensures (t / 60.0).Floor == n / 60
  {
    var q := n / 60;
    assert 60 * q <= n <= 60 * q + 59;
    assert q as real <= t / 60.0 < q as real + 1.0;
    FloorIs(t / 60.0, q);
  }

  lemma FloorHour(t: real, n: nat)
    requires n as real <= t < n as real + 1.0
    ensures (t / 3600.0).Floor == n / 3600
  {
    var q := n / 3600;
    assert 3600 * q <= n <= 3600 * q + 3599;
    assert q as real <= t / 3600.0 < q as real + 1.0;
    FloorIs(t / 3600.0, q);
  }

  /** The fields `format_hms` prints are those of the whole second. */
  lemma WholeSeconds(t: real)
    requires t >= 0.0
    ensures var n := t.Floor; HmsFields(t) == (n / 3600, (n % 3600) / 60, n % 60)
  {
    var n := t.Floor;
    FloorHour(t, n);
    FloorSixty(t, n);
    FloorSixty(HourRemainder(t), n % 3600);
    FloorIs(MinuteRemainder(t), n % 60);
  }

  lemma ReadWholeFields(h: nat, m: nat, s: nat)
    ensures HmsValue(Colons(Padded(h, 2), Padded(m, 2), Padded(s, 2)))
         == MediaSeconds(h as real * 3600.0 + m as real * 60.0 + s as real)
  {
    hide *;
    ReadPadded(h, 2);
    ReadPadded(m, 2);
    ReadPadded(s, 2);
    ReadColons(Padded(h, 2), Padded(m, 2), Padded(s, 2), h as real, m as real, s as real);
  }

  lemma HourFields(n: nat) returns (h: nat, m: nat, s: nat)
    ensures h == n / 3600 && m == (n % 3600) / 60 && s == n % 60
    ensures m < 60 && s < 60 && n == h * 3600 + m * 60 + s
  {
    var r;
    h, r := DivMod(n, 3600);
    m, s := DivMod(r, 60);
    DivModUnique(n, 60, 60 * h + m, s);
  }

  /** What a DLNA renderer is told and echoes back is the whole second asked for,
      exactly when that second is a plausible media position. */
  lemma HmsRoundTrip(t: real)
    ensures HmsValue(FormatHms(t)) == NonNegative(t).Floor as real
       <==> NonNegative(t).Floor as real <= MAX_MEDIA_SECONDS
  {
    hide HmsValue, Padded, Colons;
    var n := NonNegative(t).Floor;
    WholeSeconds(NonNegative(t));
    var h, m, s := HourFields(n);
    ReadWholeFields(Saturate(h), m, s);
  }

  /** A position past the longest plausible one is read back as 0. */
  lemma HmsTooLong()
    ensures HmsValue(FormatHms(1_000_001.0)) != 1_000_001.0
  {
    hide HmsValue, FormatHms;
    FloorIs(1_000_001.0, 1_000_001);
    HmsRoundTrip(1_000_001.0);
  }
}

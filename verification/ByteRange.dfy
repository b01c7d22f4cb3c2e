/** Serving a file, or one byte range of it (src/media_server.rs,
    `file_response`), against the meaning RFC 9110 gives a range. */
module ByteRange {
  import opened Text
  import opened TimeText

  type Byte = b: int | 0 <= b < 256

  // ---- What a range asks for (RFC 9110, section 14.1.2) -----------------------------

  datatype Spec = FromTo(first: nat, last: nat) | From(first: nat) | Suffix(count: nat)

  predicate Asks(spec: Spec, size: nat, k: nat) {
    k < size
    && match spec
       case FromTo(first, last) => first <= k <= last
       case From(first) => first <= k
       case Suffix(count) => size <= k + count
  }

  /** One range of whole numbers; a last position before the first is no range. */
  function ParseSpec(text: string): Option<Spec> {
    match SplitOnce(text, "-")
    case None => None
    case Some((first, second)) =>
      match (ParseUint(first, U64_MAX), ParseUint(second, U64_MAX))
      case (Some(low), Some(high)) => if low <= high then Some(FromTo(low, high)) else None
      case (Some(low), None) => if second == "" then Some(From(low)) else None
      case (None, Some(count)) => if first == "" then Some(Suffix(count)) else None
      case (None, None) => None
  }

  /** `HeaderValue::to_str` accepts visible characters, space and tab. */
  predicate Visible(value: string) {
    forall c :: c in value ==> ' ' <= c <= '~' || c == '\t'
  }

  /** A header that is not exactly one byte range is ignored. */
  function Requested(range: Option<string>): Option<Spec> {
    match range
    case Some(value) =>
      if Visible(value) && StartsWith(value, "bytes=") && ',' !in value[6..] then ParseSpec(value[6..]) else None
    case None => None
  }

  // ---- The server --------------------------------------------------------------------

  datatype Response = Response(status: nat, contentRange: Option<string>, contentLength: string, body: seq<Byte>)

  /** `u64::saturating_sub`. */
  function SaturatingSub(a: nat, b: nat): nat {
    if a < b then 0 else a - b
  }

  function ParseRange(spec: string, size: nat): Option<(nat, nat)> {
    match SplitOnce(spec, "-")
    case None => None
    case Some((first, second)) =>
      if first == "" then
        match ParseUint(second, U64_MAX)
        case Some(suffix) => Some((SaturatingSub(size, suffix), SaturatingSub(size, 1)))
        case None => None
      else match ParseUint(first, U64_MAX)
        case None => None
        case Some(low) =>
          if second == "" then Some((low, SaturatingSub(size, 1)))
          else match ParseUint(second, U64_MAX)
            case Some(high) => if low <= high then Some((low, high)) else None
            case None => None
  }

  function ContentRange(first: nat, last: nat, size: nat): string {
    "bytes " + (Digits(first) + ("-" + (Digits(last) + ("/" + Digits(size)))))
  }

  /** The bytes asked for are exactly those of `file[first..=last]`. */
  ghost predicate Exactly(spec: Spec, file: seq<Byte>, first: nat, last: nat) {
    first <= last < |file| && forall k: nat :: Asks(spec, |file|, k) <==> first <= k <= last
  }

  lemma ParsedRange(text: string, size: nat)
    ensures ParseSpec(text).None? <==> ParseRange(text, size).None?
    ensures ParseSpec(text).Some? ==>
      var (low, high) := ParseRange(text, size).value;
      forall k: nat :: Asks(ParseSpec(text).value, size, k) <==> k < size && low <= k <= high
  {
    hide SplitOnce, DigitsValue;
    NothingParses();
  }

  lemma NothingParses()
    ensures ParseUint("", U64_MAX) == None
  {
  }

  /** The right reply: the whole file for anything that is not one range; exactly the
      bytes asked for, with matching headers; or 416 when there are none. */
  ghost predicate Answers(file: seq<Byte>, range: Option<string>, r: Response) {
    r.contentLength == Digits(|r.body|)
    && match Requested(range)
       case None => r == Response(200, None, Digits(|file|), file)
       case Some(spec) =>
         if exists k: nat :: Asks(spec, |file|, k) then
           exists first: nat, last: nat :: Exactly(spec, file, first, last)
             && r == Response(206, Some(ContentRange(first, last, |file|)), Digits(last - first + 1), file[first..last + 1])
         else r == Response(416, Some("bytes */" + Digits(|file|)), "0", [])
  }

  method FileResponse(file: seq<Byte>, range: Option<string>) returns (r: Response)
    requires |file| <= U64_MAX
    ensures Answers(file, range, r)
  {
    hide ParseSpec, ParseRange, Digits, ContentRange, Visible;
    var size := |file|;
    var start, end, partial := 0, SaturatingSub(size, 1), false;
    if range.Some? && Visible(range.value) && StartsWith(range.value, "bytes=") && ',' !in range.value[6..] {
      var spec := range.value[6..];
      ParsedRange(spec, size);
      match ParseRange(spec, size) {
        case Some(pair) =>
          start := pair.0;
          end := if pair.1 < SaturatingSub(size, 1) then pair.1 else SaturatingSub(size, 1);
          partial := true;
        case None =>
      }
    }
    ZeroDigits();
    if size == 0 && !partial {
      return Response(200, None, "0", []);
    }
    if start > end || start >= size {
      return Response(416, Some("bytes */" + Digits(size)), "0", []);
    }
    var length := end - start + 1;
    assert 0 < length <= size;
    if !partial {
      assert file[start..start + length] == file;
      return Response(200, None, Digits(length), file[start..start + length]);
    }
    ghost var spec := Requested(range).value;
    assert Asks(spec, |file|, start) && Exactly(spec, file, start, end);
    r := Response(206, Some(ContentRange(start, end, size)), Digits(length), file[start..start + length]);
  }

  lemma ZeroDigits()
    ensures Digits(0) == "0"
  {
  }

  // ---- Reading a file in ranges ---------------------------------------------------------

  function RangeText(first: nat, last: nat): string {
    Digits(first) + ("-" + Digits(last))
  }

  /** What a client writes is what the server reads. */
  lemma RangeRoundTrip(first: nat, last: nat)
    requires first <= last <= U64_MAX
    ensures ParseSpec(RangeText(first, last)) == Some(FromTo(first, last))
    ensures ParseSpec(Digits(first) + "-") == Some(From(first))
    ensures ParseSpec("-" + Digits(last)) == Some(Suffix(last))
  {
    hide Digits, SplitOnce, DigitsValue;
    ParseUintDigits(first, U64_MAX);
    ParseUintDigits(last, U64_MAX);
    NothingParses();
    DigitsRead(first);
    DigitsRead(last);
    SplitOnceAt(Digits(first), "-", Digits(last));
    SplitOnceAt(Digits(first), "-", "");
    SplitOnceAt("", "-", Digits(last));
    NoHead("-");
    NoHead("-" + Digits(last));
  }

  /** A Content-Range header as RFC 9110, section 14.4, has it: unit, first and last
      position, size. */
  function ReadContentRange(value: string): Option<(nat, nat, nat)> {
    if !StartsWith(value, "bytes ") then None
    else match SplitOnce(value[6..], "/")
      case None => None
      case Some((range, size)) =>
        match SplitOnce(range, "-")
        case None => None
        case Some((first, last)) =>
          match (ParseUint(first, U64_MAX), ParseUint(last, U64_MAX), ParseUint(size, U64_MAX))
          case (Some(a), Some(b), Some(n)) => Some((a, b, n))
          case _ => None
  }

  /** A client reads back which bytes it got, and of how many. */
  lemma ContentRangeRead(first: nat, last: nat, size: nat)
    requires first <= U64_MAX && last <= U64_MAX && size <= U64_MAX
    ensures ReadContentRange(ContentRange(first, last, size)) == Some((first, last, size))
  {
    hide Digits, SplitOnce, ParseUint;
    ParseUintDigits(first, U64_MAX);
    ParseUintDigits(last, U64_MAX);
    ParseUintDigits(size, U64_MAX);
    DigitsRead(first);
    DigitsRead(last);
    var range, rest := RangeText(first, last), "/" + Digits(size);
    Assoc("-", Digits(last), rest);
    Assoc(Digits(first), "-" + Digits(last), rest);
    Cut("bytes ", range + rest);
    assert '/' !in range;
    SplitOnceAt(range, "/", Digits(size));
    SplitOnceAt(Digits(first), "-", Digits(last));
  }

  /** What is no single range of bytes is ignored: another unit, several ranges, a value
      with control characters or beyond ASCII, a text without a dash, no bound at all, or
      bounds the wrong way round. */
  lemma NoRange(value: string, first: nat, last: nat)
    ensures !StartsWith(value, "bytes=") || ',' in value ==> Requested(Some(value)) == None
    ensures (exists c :: c in value && (c > '~' || (c < ' ' && c != '\t'))) ==> Requested(Some(value)) == None
    ensures '-' !in value ==> ParseSpec(value) == None
    ensures ParseSpec("-") == None
    ensures last < first <= U64_MAX ==> ParseSpec(RangeText(first, last)) == None
    ensures Requested(None) == None
  {
    hide Digits, SplitOnce, DigitsValue;
    if StartsWith(value, "bytes=") && ',' in value {
      Comma(value);
    }
    NothingParses();
    Dashes(value);
    if last < first <= U64_MAX {
      ParseUintDigits(first, U64_MAX);
      ParseUintDigits(last, U64_MAX);
      DigitsRead(first);
      SplitOnceAt(Digits(first), "-", Digits(last));
    }
  }

  lemma Comma(value: string)
    requires StartsWith(value, "bytes=") && ',' in value
    ensures ',' in value[6..]
  {
    assert value == "bytes=" + value[6..];
  }

  lemma Dashes(value: string)
    ensures '-' !in value ==> SplitOnce(value, "-") == None
    ensures SplitOnce("-", "-") == Some(("", ""))
  {
    if '-' !in value {
      FindNone(value, "-");
    }
    SplitOnceAt("", "-", "");
    NoHead("-");
    NoHead("-" + "");
  }

  /** The range two bounds determine is unique, so a 206 names one piece of the file. */
  lemma ExactlyOne(spec: Spec, file: seq<Byte>, a: nat, b: nat, c: nat, d: nat)
    requires Exactly(spec, file, a, b) && Exactly(spec, file, c, d)
    ensures a == c && b == d
  {
    assert Asks(spec, |file|, a) && Asks(spec, |file|, b) && Asks(spec, |file|, c) && Asks(spec, |file|, d);
  }

  predicate Cuts(cuts: seq<nat>, size: nat) {
    |cuts| >= 1 && cuts[0] == 0 && cuts[|cuts| - 1] == size
    && forall i :: 0 <= i < |cuts| - 1 ==> cuts[i] < cuts[i + 1]
  }

  function Bodies(replies: seq<Response>): seq<Byte> {
    if replies == [] then [] else Bodies(replies[..|replies| - 1]) + replies[|replies| - 1].body
  }

  ghost predicate Fetched(file: seq<Byte>, cuts: seq<nat>, replies: seq<Response>) {
    |replies| < |cuts|
    && forall i :: 0 <= i < |replies| ==>
         cuts[i] < cuts[i + 1] && Answers(file, Some("bytes=" + RangeText(cuts[i], cuts[i + 1] - 1)), replies[i])
  }

  /** The replies to consecutive ranges that cover the file join to the file. */
  lemma ConsecutiveRangesJoin(file: seq<Byte>, cuts: seq<nat>, replies: seq<Response>)
    requires |file| <= U64_MAX && Cuts(cuts, |file|)
    requires Fetched(file, cuts, replies) && |replies| == |cuts| - 1
    ensures Bodies(replies) == file
  {
    hide Answers, RangeText;
    FetchedSoFar(file, cuts, replies);
  }

  lemma {:induction false} FetchedSoFar(file: seq<Byte>, cuts: seq<nat>, replies: seq<Response>)
    requires |file| <= U64_MAX && Cuts(cuts, |file|) && Fetched(file, cuts, replies)
    ensures cuts[|replies|] <= |file| && Bodies(replies) == file[..cuts[|replies|]]
    decreases |replies|
  {
    hide Answers, RangeText;
    var n := |replies|;
    CutsGrow(cuts, n, |cuts| - 1);
    if n > 0 {
      FetchedSoFar(file, cuts, replies[..n - 1]);
      WholeRange(file, cuts[n - 1], cuts[n] - 1, replies[n - 1]);
    }
  }

  lemma {:induction false} CutsGrow(cuts: seq<nat>, i: nat, j: nat)
    requires i <= j < |cuts| && forall k :: 0 <= k < |cuts| - 1 ==> cuts[k] < cuts[k + 1]
    ensures cuts[i] <= cuts[j]
    decreases j - i
  {
    if i < j {
      CutsGrow(cuts, i + 1, j);
    }
  }

  lemma WholeRange(file: seq<Byte>, first: nat, last: nat, r: Response)
    requires first <= last < |file| <= U64_MAX
    requires Answers(file, Some("bytes=" + RangeText(first, last)), r)
    ensures r.body == file[first..last + 1]
  {
    hide Digits, ParseSpec, RangeText;
    var spec := FromTo(first, last);
    RangeIsRequested(first, last);
    assert Asks(spec, |file|, first);
    var a: nat, b: nat :| Exactly(spec, file, a, b)
      && r == Response(206, Some(ContentRange(a, b, |file|)), Digits(b - a + 1), file[a..b + 1]);
    ExactlyOne(spec, file, a, b, first, last);
  }

  lemma RangeIsRequested(first: nat, last: nat)
    requires first <= last <= U64_MAX
    ensures Requested(Some("bytes=" + RangeText(first, last))) == Some(FromTo(first, last))
  {
    hide Digits, ParseSpec;
    RangeRoundTrip(first, last);
    DigitsRead(first);
    DigitsRead(last);
    var text := RangeText(first, last);
    assert forall c :: c in text ==> IsDigit(c) || c == '-';
    Cut("bytes=", text);
    assert forall c :: c in "bytes=" ==> ' ' <= c <= '~';
  }
}

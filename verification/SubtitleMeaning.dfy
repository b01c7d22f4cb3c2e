/** What a viewer gets: when the cues of a re-timed document are on screen, and what
    the entries of a SubRip file show, line by line. */
module SubtitleMeaning {
  import opened Text
  import opened TimeText
  import opened SrtText
  import opened Subtitles
  import opened SubtitleLaws
  import opened SubtitleFiles

  // ---- Picking out some items in order ---------------------------------------------------

  /** Positions below `n`, in order. */
  predicate Picks(m: seq<nat>, n: nat) {
    (forall i :: 0 <= i < |m| ==> m[i] < n) && forall i, j :: 0 <= i < j < |m| ==> m[i] < m[j]
  }

  function Up(m: seq<nat>): (r: seq<nat>)
    ensures |r| == |m| && forall i :: 0 <= i < |m| ==> r[i] == m[i] + 1
  {
    seq(|m|, i requires 0 <= i < |m| => m[i] + 1)
  }

  /** The same positions one further on, with the first one picked or not. */
  function Picked(first: bool, m: seq<nat>): seq<nat> {
    (if first then [0] else []) + Up(m)
  }

  lemma PickedIn(first: bool, m: seq<nat>)
    ensures 0 in Picked(first, m) <==> first
    ensures forall i: nat :: i + 1 in Picked(first, m) <==> i in m
  {
    var r := Picked(first, m);
    forall i: nat ensures i + 1 in r <==> i in m {
      if i in m {
        var k :| 0 <= k < |m| && m[k] == i;
        assert r[k + |r| - |m|] == i + 1;
      }
    }
  }

  lemma PickedPicks(first: bool, m: seq<nat>, n: nat)
    requires Picks(m, n)
    ensures Picks(Picked(first, m), n + 1)
    ensures |Picked(first, m)| == |m| + (if first then 1 else 0) && (first ==> Picked(first, m)[0] == 0)
    ensures forall k :: 0 <= k < |m| ==> Picked(first, m)[k + (if first then 1 else 0)] == m[k] + 1
  {
  }

  /** `results` come, in order, from exactly those `items` that are kept; `m` says which
      from which. */
  ghost predicate Selected<S(!new), T(!new)>(m: seq<nat>, items: seq<S>, results: seq<T>, keeps: S -> bool,
                                             made: (S, T) -> bool)
  {
    Picks(m, |items|) && Made(m, items, results, made) && Kept(m, items, keeps)
  }

  ghost predicate Made<S(!new), T(!new)>(m: seq<nat>, items: seq<S>, results: seq<T>, made: (S, T) -> bool)
    requires Picks(m, |items|)
  {
    |m| == |results| && forall k :: 0 <= k < |m| ==> made(items[m[k]], results[k])
  }

  ghost predicate Kept<S(!new)>(m: seq<nat>, items: seq<S>, keeps: S -> bool) {
    forall i :: 0 <= i < |items| ==> (i in m <==> keeps(items[i]))
  }

  lemma SelectedNone<S(!new), T(!new)>(keeps: S -> bool, made: (S, T) -> bool)
    ensures Selected([], [], [], keeps, made)
  {
  }

  lemma SelectedMore<S(!new), T(!new)>(n: seq<nat>, items: seq<S>, head: seq<T>, results: seq<T>, keeps: S -> bool,
                                       made: (S, T) -> bool)
    requires items != [] && Selected(n, items[1..], results, keeps, made)
    requires if keeps(items[0]) then |head| == 1 && made(items[0], head[0]) else head == []
    ensures Selected(Picked(keeps(items[0]), n), items, head + results, keeps, made)
  {
    hide Picks, Picked, Made, Kept;
    var first := keeps(items[0]);
    PickedPicks(first, n, |items| - 1);
    MadeMore(n, items, head, results, first, made);
    KeptMore(n, items, first, keeps);
  }

  lemma MadeMore<S(!new), T(!new)>(n: seq<nat>, items: seq<S>, head: seq<T>, results: seq<T>, first: bool,
                                   made: (S, T) -> bool)
    requires items != [] && Picks(n, |items| - 1) && Made(n, items[1..], results, made)
    requires if first then |head| == 1 && made(items[0], head[0]) else head == []
    ensures Picks(Picked(first, n), |items|) && Made(Picked(first, n), items, head + results, made)
  {
    hide Picks, Picked, Up;
    PickedPicks(first, n, |items| - 1);
    var m, all := Picked(first, n), head + results;
    forall k | 0 <= k < |m| ensures made(items[m[k]], all[k]) {
      if k >= |head| {
        var j := k - |head|;
        assert m[k] == n[j] + 1 && all[k] == results[j] && items[1..][n[j]] == items[m[k]];
      }
    }
  }

  lemma KeptMore<S(!new)>(n: seq<nat>, items: seq<S>, first: bool, keeps: S -> bool)
    requires items != [] && first == keeps(items[0])
    requires Kept(n, items[1..], keeps)
    ensures Kept(Picked(first, n), items, keeps)
  {
    hide Picks, Picked, Up;
    PickedIn(first, n);
    forall i | 0 <= i < |items| ensures i in Picked(first, n) <==> keeps(items[i]) {
      if i > 0 {
        assert items[1..][i - 1] == items[i];
        assert i - 1 + 1 in Picked(first, n) <==> i - 1 in n;
      }
    }
  }

  // ---- Times on screen ------------------------------------------------------------------------

  /** What a cue puts on the screen, and how. */
  datatype Shown = Shown(id: seq<string>, settings: string, text: seq<string>)

  /** What is on the screen at the instant `x`, in order. */
  function Screen(cues: seq<Cue>, x: real): seq<Shown> {
    if cues == [] then []
    else (if cues[0].timing.start <= x < cues[0].timing.end
          then [Shown(cues[0].id, cues[0].timing.settings, cues[0].text)] else [])
         + Screen(cues[1..], x)
  }

  /** The printed times of the same cue, so much earlier, and not before the beginning. */
  predicate Earlier(before: Timing, start: real, end: real, seconds: real) {
    start == Quantized(if before.start > seconds then before.start - seconds else 0.0)
    && end == Quantized(before.end - seconds)
  }

  predicate CueEarlier(before: Cue, after: Cue, seconds: real) {
    after.id == before.id && after.text == before.text && after.timing.settings == before.timing.settings
    && Earlier(before.timing, after.timing.start, after.timing.end, seconds)
  }

  ghost function EndsLater(seconds: real): Cue -> bool {
    (c: Cue) => c.timing.end > seconds
  }

  ghost function MadeEarlier(seconds: real): (Cue, Cue) -> bool {
    (before: Cue, after: Cue) => CueEarlier(before, after, seconds)
  }

  lemma OneShifted(cue: Cue, seconds: real)
    ensures cue.timing.end > seconds ==> |ShiftCue(cue, seconds)| == 1 && CueEarlier(cue, ShiftCue(cue, seconds)[0], seconds)
    ensures cue.timing.end <= seconds ==> ShiftCue(cue, seconds) == []
  {
    hide Quantized;
  }

  lemma {:induction false} ShiftPicks(cues: seq<Cue>, seconds: real) returns (m: seq<nat>)
    ensures Selected(m, cues, ShiftCues(cues, seconds), EndsLater(seconds), MadeEarlier(seconds))
  {
    hide ShiftCue, CueEarlier, Selected;
    if cues == [] {
      m := [];
      SelectedNone<Cue, Cue>(EndsLater(seconds), MadeEarlier(seconds));
    } else {
      var n := ShiftPicks(cues[1..], seconds);
      OneShifted(cues[0], seconds);
      m := Picked(EndsLater(seconds)(cues[0]), n);
      SelectedMore(n, cues, ShiftCue(cues[0], seconds), ShiftCues(cues[1..], seconds), EndsLater(seconds), MadeEarlier(seconds));
    }
  }

  /** Re-timing a document keeps, in order, exactly the cues that end later; each is
      printed so much earlier, clamped to the beginning, and is otherwise unchanged. */
  lemma CuesEarlier(text: string, seconds: real) returns (m: seq<nat>)
    requires Retimable(text, seconds) && seconds > 0.0
    ensures Selected(m, Cues(text), Cues(ShiftedText(text, seconds)), EndsLater(seconds), MadeEarlier(seconds))
  {
    hide Retimable, Cues, ShiftedText, Selected, WellFormed;
    CuesOfShiftedText(text, seconds);
    m := ShiftPicks(Cues(text), seconds);
  }

  /** A block of the document, so much earlier: only the timing line of a cue changes. */
  predicate BlockEarlier(before: seq<string>, after: seq<string>, seconds: real) {
    match CueOf(before)
    case None => after == before
    case Some(cue) =>
      |after| == |before| && |cue.id| < |after|
      && (forall i :: 0 <= i < |after| && i != |cue.id| ==> after[i] == before[i])
      && TimingEarlier(cue.timing, after[|cue.id|], seconds)
  }

  predicate TimingEarlier(before: Timing, line: string, seconds: real) {
    match ParseCueTiming(line)
    case None => false
    case Some(t) => t.settings == before.settings && Earlier(before, t.start, t.end, seconds)
  }

  ghost function BlockEndsLater(seconds: real): seq<string> -> bool {
    (b: seq<string>) => match CueOf(b) case None => true case Some(cue) => cue.timing.end > seconds
  }

  ghost function MadeBlockEarlier(seconds: real): (seq<string>, seq<string>) -> bool {
    (before: seq<string>, after: seq<string>) => BlockEarlier(before, after, seconds)
  }

  lemma OneBlockShifted(block: seq<string>, seconds: real)
    ensures BlockEndsLater(seconds)(block) <==> ShiftBlock(block, seconds).Some?
    ensures ShiftBlock(block, seconds).Some? ==> BlockEarlier(block, ShiftBlock(block, seconds).value, seconds)
  {
    hide ParseCueTiming, TimingLine, Quantized, ArrowAt;
    match CueOf(block)
    case None =>
    case Some(cue) =>
      CuePosition(block);
      ParsedSettings(block[|cue.id|]);
      match ShiftTiming(cue.timing, seconds)
      case None =>
      case Some(t) => TimingRoundTrip(t);
  }

  lemma {:induction false} ShiftBlockPicks(blocks: seq<seq<string>>, seconds: real) returns (m: seq<nat>)
    ensures Selected(m, blocks, ShiftBlocks(blocks, seconds), BlockEndsLater(seconds), MadeBlockEarlier(seconds))
  {
    hide ShiftBlock, BlockEarlier, Selected, CueOf;
    if blocks == [] {
      m := [];
      SelectedNone<seq<string>, seq<string>>(BlockEndsLater(seconds), MadeBlockEarlier(seconds));
    } else {
      var n := ShiftBlockPicks(blocks[1..], seconds);
      OneBlockShifted(blocks[0], seconds);
      var head := match ShiftBlock(blocks[0], seconds) case None => [] case Some(b) => [b];
      m := Picked(BlockEndsLater(seconds)(blocks[0]), n);
      SelectedMore(n, blocks, head, ShiftBlocks(blocks[1..], seconds), BlockEndsLater(seconds), MadeBlockEarlier(seconds));
    }
  }

  /** The whole document, header and comments included: re-timing keeps its blocks, in
      order, but for the cues that are over, and changes nothing in them but the timings. */
  lemma BlocksEarlier(text: string, seconds: real) returns (m: seq<nat>)
    requires Retimable(text, seconds) && seconds > 0.0
    ensures Selected(m, Blocks([], DocLines(text)), Blocks([], DocLines(ShiftedText(text, seconds))),
                     BlockEndsLater(seconds), MadeBlockEarlier(seconds))
  {
    hide DocLines, ShiftedText, Selected, WellFormed, Blocks, ShiftDoc, HeaderOk, Clean, AllShiftWell, Unlines;
    ShiftedTextIs(text, seconds);
    BlocksOfShift(DocLines(text), seconds);
    m := ShiftBlockPicks(Blocks([], DocLines(text)), seconds);
  }

  predicate ExactCue(c: Cue) {
    MsExact(c.timing.start) && MsExact(c.timing.end)
  }

  lemma {:induction false} CuesAreExact(blocks: seq<seq<string>>)
    requires ExactCues(blocks)
    ensures forall c :: c in CuesOf(blocks) ==> ExactCue(c)
  {
    hide CueOf, MsExact;
    if blocks != [] {
      assert blocks[0] in blocks;
      assert forall b :: b in blocks[1..] ==> b in blocks;
      CuesAreExact(blocks[1..]);
    }
  }

  lemma ExactOf(text: string)
    requires ExactTimes(text)
    ensures forall c :: c in Cues(text) ==> ExactCue(c)
  {
    hide DocLines, Blocks, CuesOf, ExactCues;
    CuesAreExact(Blocks([], DocLines(text)));
  }

  lemma ScreenConcat(a: seq<Cue>, b: seq<Cue>, x: real)
    requires |a| <= 1
    ensures Screen(a + b, x) == Screen(a, x) + Screen(b, x)
  {
    if a == [] {
      NoHead(b);
      NoHead(Screen(b, x));
    } else {
      Cut(a, b);
      assert a[1..] == [] && Screen(a[1..], x) == [];
    }
  }

  lemma OneScreen(cue: Cue, seconds: real, x: real)
    requires ExactCue(cue) && MsExact(seconds) && seconds > 0.0 && x >= 0.0
    ensures |ShiftCue(cue, seconds)| <= 1 && Screen(ShiftCue(cue, seconds), x) == Screen([cue], x + seconds)
  {
    hide Quantized, MsExact;
    OneShifted(cue, seconds);
    var none: seq<Cue> := [];
    assert [cue][1..] == none && Screen(none, x) == [];
    if cue.timing.end > seconds {
      var after := ShiftCue(cue, seconds)[0];
      assert ShiftCue(cue, seconds) == [after] && [after][1..] == none;
      ZeroExact();
      ExactDifference(cue.timing.end, seconds);
      if cue.timing.start > seconds {
        ExactDifference(cue.timing.start, seconds);
      }
    }
  }

  lemma {:induction false} ScreenOfShifted(cues: seq<Cue>, seconds: real, x: real)
    requires (forall c :: c in cues ==> ExactCue(c)) && MsExact(seconds) && seconds > 0.0 && x >= 0.0
    ensures Screen(ShiftCues(cues, seconds), x) == Screen(cues, x + seconds)
  {
    hide ExactCue, MsExact, ShiftCue;
    if cues != [] {
      assert cues[0] in cues && forall c :: c in cues[1..] ==> c in cues;
      ScreenOfShifted(cues[1..], seconds, x);
      OneScreen(cues[0], seconds, x);
      ScreenConcat(ShiftCue(cues[0], seconds), ShiftCues(cues[1..], seconds), x);
      Cut([cues[0]], cues[1..]);
      ScreenConcat([cues[0]], cues[1..], x + seconds);
      assert cues == [cues[0]] + cues[1..];
    }
  }

  /** For whole milliseconds: at every instant of the stream, the re-timed document shows
      what the file shows at that instant of the film. */
  lemma SameScreen(text: string, seconds: real, x: real)
    requires Retimable(text, seconds) && seconds > 0.0 && ExactTimes(text) && MsExact(seconds) && x >= 0.0
    ensures Screen(Cues(ShiftedText(text, seconds)), x) == Screen(Cues(text), x + seconds)
  {
    hide Retimable, Cues, ShiftedText, WellFormed, MsExact, Screen;
    CuesOfShiftedText(text, seconds);
    ExactOf(text);
    ScreenOfShifted(Cues(text), seconds, x);
  }

  // ---- Timing lines as they are found ---------------------------------------------------------

  /** Any whitespace may stand around the arrow and between the parts. */
  lemma TimingFound(t: Timing, a: string, b: string, gap: char, c: string, d: string)
    requires AllSpace(a) && AllSpace(b) && IsWhitespace(gap) && AllSpace(c) && AllSpace(d) && Trimmed(t.settings)
    requires t.settings != ""
    ensures ParseCueTiming(FormatTimestamp(t.start) + (a + ("-->" + (b + (FormatTimestamp(t.end) + ([gap] + (c + (t.settings + d))))))))
         == Some(QuantizedTiming(t))
  {
    hide FormatTimestamp, Timestamp, Trim, TrimStart, TrimEnd, Find, Quantized;
    var start, end := FormatTimestamp(t.start), FormatTimestamp(t.end);
    var rest := [gap] + (c + (t.settings + d));
    TimestampShape(t.start);
    TimestampShape(t.end);
    TimestampRoundTrip(t.start);
    TimestampRoundTrip(t.end);
    Assoc(start, a, "-->" + (b + (end + rest)));
    assert '-' !in a by { NoDash(a); }
    SplitOnceAt(start + a, "-->", b + (end + rest));
    SpacedTimestamp(start, a);
    Tail(end, rest);
    SpaceBefore(b, end + rest);
    SplitSpaceAt(end, rest);
    Tail([gap], c + (t.settings + d));
    NoHead(c + (t.settings + d));
    TrimPadded(c, t.settings, d);
  }

  lemma NoDash(a: string)
    requires AllSpace(a)
    ensures '-' !in a
  {
  }

  lemma SpacedTimestamp(start: string, a: string)
    requires start != "" && Trimmed(start) && AllSpace(a)
    ensures Timestamp(start + a) == Timestamp(start)
  {
    hide Timestamp, Trim, TrimStart, TrimEnd;
    TrimPadded("", start, a);
    NoHead(start + a);
    TrimPadded("", start, "");
    NoHead(start);
    TimestampOfTrimmed(start + a, start);
  }

  lemma SpaceBefore(b: string, s: string)
    requires AllSpace(b) && s != "" && !IsWhitespace(s[0])
    ensures TrimStart(b + s) == s
  {
    TrimStartSkips(b, s);
  }

  // ---- The times of an entry ----------------------------------------------------------------------

  /** A SubRip time: a clock, a comma, and thousandths. */
  function ReadSrtTime(text: string): Option<real> {
    match SplitOnce(text, ",") case None => None case Some((clock, thousandths)) => Timestamp(clock + ("." + thousandths))
  }

  function ReadSrtTimes(line: string): Option<(real, real)> {
    match SplitOnce(line, " --> ")
    case None => None
    case Some((start, end)) =>
      match (ReadSrtTime(start), ReadSrtTime(end)) case (Some(a), Some(b)) => Some((a, b)) case _ => None
  }

  lemma PrintedParts(t: real) returns (clock: string, thousandths: string)
    ensures FormatTimestamp(t) == clock + ("." + thousandths)
    ensures '.' !in clock && ',' !in clock && ' ' !in clock
    ensures AllDigits(thousandths) && |thousandths| == 3
  {
    hide Padded, Millis;
    var ms := Millis(t);
    var h, m, s, f := MillisFields(ms);
    PaddedRead(h, 2);
    PaddedRead(m, 2);
    PaddedRead(s, 2);
    PaddedRead(f, 3);
    PaddedWidthThree(f);
    clock := Colons(Padded(h, 2), Padded(m, 2), Padded(s, 2));
    thousandths := Padded(f, 3);
    ColonsAppend(Padded(h, 2), Padded(m, 2), Padded(s, 2), "." + thousandths);
  }

  lemma ColonsAppend(a: string, b: string, c: string, d: string)
    ensures Colons(a, b, c + d) == Colons(a, b, c) + d
  {
    Assoc(":", c, d);
    Assoc(b, ":" + c, d);
    Assoc(":", b + (":" + c), d);
    Assoc(a, ":" + (b + (":" + c)), d);
  }

  lemma SrtTimeRead(t: real)
    ensures ReadSrtTime(SrtTimestamp(t)) == Some(Quantized(t))
    ensures '.' !in SrtTimestamp(t) && ' ' !in SrtTimestamp(t) && SrtTimestamp(t) != ""
  {
    hide FormatTimestamp, Timestamp, Find;
    var clock, thousandths := PrintedParts(t);
    FindAt(clock, ".", thousandths);
    Cut(clock, "." + thousandths);
    Assoc(clock, ".", thousandths);
    Cut(clock + ".", thousandths);
    assert SrtTimestamp(t) == clock + ("," + thousandths);
    SplitOnceAt(clock, ",", thousandths);
    TimestampRoundTrip(t);
  }

  /** The times line of an entry says when the cue is shown, to the millisecond and with
      commas. */
  lemma SrtTimesRead(e: Entry)
    ensures ReadSrtTimes(SrtTiming(e)) == Some((Quantized(e.start), Quantized(e.end))) && '.' !in SrtTiming(e)
  {
    hide SrtTimestamp, ReadSrtTime, Find;
    SrtTimeRead(e.start);
    SrtTimeRead(e.end);
    SplitOnceAt(SrtTimestamp(e.start), " --> ", SrtTimestamp(e.end));
  }

  // ---- The lines of an entry -----------------------------------------------------------------------

  predicate ShowsNothing(line: string) {
    Blank(SrtLine(line))
  }

  /** `body` is, in order, what is left of the lines of `text` that show something. */
  ghost predicate ShowsLines(body: seq<string>, text: seq<string>) {
    exists p: seq<nat> :: Selected(p, text, body, Shows(), MadeLine())
  }

  ghost function Shows(): string -> bool {
    (line: string) => !ShowsNothing(line)
  }

  ghost function MadeLine(): (string, string) -> bool {
    (line: string, shown: string) => shown == StripCr(SrtLine(line))
  }

  lemma {:induction false} BodyPicks(text: seq<string>) returns (p: seq<nat>)
    ensures Selected(p, text, StripCrs(Body(text)), Shows(), MadeLine())
  {
    hide SrtLine, Blank, StripCr, Selected;
    if text == [] {
      p := [];
      SelectedNone<string, string>(Shows(), MadeLine());
    } else {
      var q := BodyPicks(text[1..]);
      var line := SrtLine(text[0]);
      var head := if Blank(line) then [] else [line];
      StripCrsConcat(head, Body(text[1..]));
      OneStripped(line);
      p := Picked(Shows()(text[0]), q);
      SelectedMore(q, text, StripCrs(head), StripCrs(Body(text[1..])), Shows(), MadeLine());
    }
  }

  lemma OneStripped(line: string)
    ensures StripCrs([line]) == [StripCr(line)]
  {
    var none: seq<string> := [];
    assert [line][1..] == none && StripCrs(none) == none;
  }

  // ---- The entries of a file ------------------------------------------------------------------------

  predicate CueShowsNothing(c: Cue) {
    forall i :: 0 <= i < |c.text| ==> ShowsNothing(c.text[i])
  }

  /** An entry for a cue, at the printed times. */
  ghost predicate EntryFor(e: Entry, c: Cue) {
    e.start == c.timing.start && e.end == c.timing.end && e.body != [] && ShowsLines(e.body, c.text)
  }

  ghost function CueShows(): Cue -> bool {
    (c: Cue) => !CueShowsNothing(c)
  }

  ghost function MadeEntry(): (Cue, Entry) -> bool {
    (c: Cue, e: Entry) => EntryFor(e, c)
  }

  lemma OneEntry(c: Cue)
    ensures Body(c.text) == [] <==> CueShowsNothing(c)
    ensures Body(c.text) != [] ==> EntryFor(Entry(c.timing.start, c.timing.end, StripCrs(Body(c.text))), c)
  {
    hide Body, ShowsNothing, SrtLine, StripCrs;
    var p := BodyPicks(c.text);
    StripCrsLength(Body(c.text));
    assert forall i :: 0 <= i < |c.text| ==> (i in p <==> Shows()(c.text[i]));
    if Body(c.text) != [] {
      assert p[0] in p;
    }
  }

  lemma {:induction false} StripCrsLength(lines: seq<string>)
    ensures |StripCrs(lines)| == |lines|
  {
    if lines != [] {
      StripCrsLength(lines[1..]);
    }
  }

  lemma {:induction false} EntryPicks(cues: seq<Cue>) returns (m: seq<nat>)
    ensures Selected(m, cues, AsRead(Entries(cues)), CueShows(), MadeEntry())
  {
    hide EntryFor, CueShowsNothing, Body, StripCrs, Selected;
    if cues == [] {
      m := [];
      SelectedNone<Cue, Entry>(CueShows(), MadeEntry());
    } else {
      var n := EntryPicks(cues[1..]);
      OneEntry(cues[0]);
      var c, body := cues[0], Body(cues[0].text);
      var more := Entries(cues[1..]);
      var head := if body == [] then [] else [Entry(c.timing.start, c.timing.end, StripCrs(body))];
      if body == [] {
        NoHead(more);
        NoHead(AsRead(more));
      } else {
        Cut([Entry(c.timing.start, c.timing.end, body)], more);
      }
      m := Picked(CueShows()(c), n);
      SelectedMore(n, cues, head, AsRead(more), CueShows(), MadeEntry());
    }
  }

  /** A block of a SubRip file: its number, its times, and lines that show `text`. */
  ghost predicate BlockShows(block: seq<string>, number: nat, start: real, end: real, text: seq<string>) {
    |block| >= 3 && block[0] == Digits(number) && ReadSrtTimes(block[1]) == Some((start, end)) && ShowsLines(block[2..], text)
  }

  lemma EntryShows(number: nat, e: Entry, c: Cue)
    requires EntryFor(e, c)
    ensures BlockShows(EntryBlock(number, e), number, Quantized(c.timing.start), Quantized(c.timing.end), c.text)
  {
    hide Digits, SrtTiming, ReadSrtTimes, Quantized, ShowsLines;
    SrtTimesRead(e);
    assert EntryBlock(number, e)[2..] == e.body;
  }

  /** The blocks show, in order and numbered from one, exactly the cues that show something,
      at their printed times. */
  ghost predicate BlocksShow(m: seq<nat>, blocks: seq<seq<string>>, cues: seq<Cue>) {
    Picks(m, |cues|) && |m| == |blocks|
    && (forall k :: 0 <= k < |m| ==>
          BlockShows(blocks[k], k + 1, Quantized(cues[m[k]].timing.start), Quantized(cues[m[k]].timing.end), cues[m[k]].text))
    && (forall i :: 0 <= i < |cues| ==> (i in m <==> !CueShowsNothing(cues[i])))
  }

  /** For every text: read back block by block, the SubRip file shows in order exactly the
      cues that show something, numbered from one, at their times, each with exactly those
      of its lines that show something, in their order. */
  lemma SubRipShows(text: string) returns (m: seq<nat>)
    ensures BlocksShow(m, Blocks([], DocLines(SrtDoc(text))), Cues(text))
    ensures [BOM] <= SrtDoc(text)
  {
    hide Cues, Blocks, DocLines, SrtDoc, EntryBlock, EntryFor, BlockShows, CueShowsNothing, Entries, AsRead, Quantized;
    SubRipRead(text);
    BeginsWithBom(text);
    var cues := Cues(text);
    var entries := AsRead(Entries(cues));
    m := EntryPicks(cues);
    assert forall i :: 0 <= i < |cues| ==> (i in m <==> CueShows()(cues[i]));
    forall k | 0 <= k < |m|
      ensures BlockShows(EntryBlocks(0, entries)[k], k + 1, Quantized(cues[m[k]].timing.start), Quantized(cues[m[k]].timing.end), cues[m[k]].text)
    {
      EntryBlocksAt(0, entries, k);
      assert MadeEntry()(cues[m[k]], entries[k]);
      EntryShows(k + 1, entries[k], cues[m[k]]);
    }
  }

  lemma BeginsWithBom(text: string)
    ensures [BOM] <= SrtDoc(text)
  {
    hide Unlines, NumberedLines, Entries, Cues;
  }

  // ---- The whole path -----------------------------------------------------------------------------------

  /** A block for a cue of the file, so much earlier. */
  ghost predicate BlockServes(block: seq<string>, number: nat, c: Cue, seconds: real) {
    exists start: real, end: real :: BlockShows(block, number, start, end, c.text) && Earlier(c.timing, start, end, seconds)
  }

  /** The blocks show, in order and numbered from one, exactly the cues that end later and
      show something, so much earlier. */
  ghost predicate BlocksServe(m: seq<nat>, blocks: seq<seq<string>>, cues: seq<Cue>, seconds: real) {
    Picks(m, |cues|) && |m| == |blocks|
    && (forall k :: 0 <= k < |m| ==> BlockServes(blocks[k], k + 1, cues[m[k]], seconds))
    && (forall i :: 0 <= i < |cues| ==> (i in m <==> cues[i].timing.end > seconds && !CueShowsNothing(cues[i])))
  }

  /** The subtitles served for a stream that starts `seconds` into the file: in order
      exactly the cues that end later and show something, so much earlier. */
  lemma ServedShows(text: string, seconds: real) returns (m: seq<nat>)
    requires Retimable(text, seconds) && seconds > 0.0
    ensures BlocksServe(m, Blocks([], DocLines(SrtDoc(ShiftedText(text, seconds)))), Cues(text), seconds)
  {
    hide Retimable, Cues, Blocks, DocLines, SrtDoc, ShiftedText, BlockShows, CueShowsNothing, Earlier, Quantized;
    var cues, later := Cues(text), Cues(ShiftedText(text, seconds));
    var a := CuesEarlier(text, seconds);
    var b := SubRipShows(ShiftedText(text, seconds));
    var blocks := Blocks([], DocLines(SrtDoc(ShiftedText(text, seconds))));
    m := seq(|b|, k requires 0 <= k < |b| => a[b[k]]);
    forall k | 0 <= k < |m| ensures BlockServes(blocks[k], k + 1, cues[m[k]], seconds) {
      var after := later[b[k]];
      assert MadeEarlier(seconds)(cues[m[k]], after);
      EarlierTwice(cues[m[k]].timing, after.timing.start, after.timing.end, seconds);
    }
    forall i | 0 <= i < |cues| ensures i in m <==> cues[i].timing.end > seconds && !CueShowsNothing(cues[i]) {
      ThroughBoth(a, b, m, i);
      assert i in a <==> EndsLater(seconds)(cues[i]);
      if i in a {
        var j :| 0 <= j < |a| && a[j] == i;
        assert MadeEarlier(seconds)(cues[a[j]], later[j]);
        SameText(cues[i], later[j]);
        OneImage(a, j, i);
        assert j in b <==> !CueShowsNothing(later[j]);
      }
    }
  }

  lemma SameText(a: Cue, b: Cue)
    requires a.text == b.text
    ensures CueShowsNothing(a) <==> CueShowsNothing(b)
  {
  }

  lemma OneImage(a: seq<nat>, j: nat, i: nat)
    requires j < |a| && a[j] == i && forall x, y :: 0 <= x < y < |a| ==> a[x] < a[y]
    ensures forall k :: 0 <= k < |a| && a[k] == i ==> k == j
  {
  }

  lemma ThroughBoth(a: seq<nat>, b: seq<nat>, m: seq<nat>, i: nat)
    requires |m| == |b| && (forall k :: 0 <= k < |b| ==> b[k] < |a| && m[k] == a[b[k]])
    ensures i in m <==> exists j :: 0 <= j < |a| && a[j] == i && j in b
  {
    if i in m {
      var k :| 0 <= k < |m| && m[k] == i;
      assert a[b[k]] == i && b[k] in b;
    }
    if exists j :: 0 <= j < |a| && a[j] == i && j in b {
      var j :| 0 <= j < |a| && a[j] == i && j in b;
      var k :| 0 <= k < |b| && b[k] == j;
      assert m[k] == i;
    }
  }

  /** Printing printed times again changes nothing. */
  lemma EarlierTwice(before: Timing, start: real, end: real, seconds: real)
    requires Earlier(before, start, end, seconds)
    ensures Earlier(before, Quantized(start), Quantized(end), seconds)
  {
    hide Quantized;
    QuantizedTwice(if before.start > seconds then before.start - seconds else 0.0);
    QuantizedTwice(before.end - seconds);
  }

  lemma QuantizedTwice(t: real)
    ensures Quantized(Quantized(t)) == Quantized(t)
  {
    hide Millis;
    MillisBounded(t);
    WholeMillis(Millis(t));
  }

  lemma MillisBounded(t: real)
    ensures Millis(t) <= U64_MAX
  {
  }
}

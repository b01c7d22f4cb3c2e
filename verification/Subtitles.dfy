/** `shift_vtt` and `vtt_to_srt` (src/subtitles.rs): re-timing a WebVTT document
    for a stream that starts part-way, and turning it into SubRip. */
module Subtitles {
  import opened Text
  import opened TimeText
  import opened SrtText

  const BOM: char := '\U{FEFF}'

  // ---- Cue timings ---------------------------------------------------------

  datatype Timing = Timing(start: real, end: real, settings: string)

  /** `parse_cue_timing`. */
  function ParseCueTiming(line: string): Option<Timing> {
    match SplitOnce(line, "-->")
    case None => None
    case Some((start, rest)) =>
      var (end, settings) := EndAndSettings(TrimStart(rest));
      match (Timestamp(start), Timestamp(end))
      case (Some(a), Some(b)) => Some(Timing(a, b, settings))
      case _ => None
  }

  function EndAndSettings(rest: string): (string, string) {
    match SplitSpace(rest)
    case Some((end, settings)) => (end, Trim(settings))
    case None => (TrimEnd(rest), "")
  }

  function Spaced(settings: string): string {
    if settings == "" then "" else " " + settings
  }

  function TimingLine(t: Timing): string {
    FormatTimestamp(t.start) + (" --> " + (FormatTimestamp(t.end) + Spaced(t.settings)))
  }

  /** The timing `seconds` earlier, clamped at the start; none once it is over. */
  function ShiftTiming(t: Timing, seconds: real): Option<Timing> {
    if t.end - seconds <= 0.0 then None
    else Some(Timing(NonNegative(t.start - seconds), t.end - seconds, t.settings))
  }

  function QuantizedTiming(t: Timing): Timing {
    Timing(Quantized(t.start), Quantized(t.end), t.settings)
  }

  lemma TimestampOfTrimmed(a: string, b: string)
    requires Trim(a) == Trim(b)
    ensures Timestamp(a) == Timestamp(b)
  {
  }

  lemma SettingsRead(end: string, settings: string)
    requires end != "" && Trimmed(end) && Trimmed(settings)
    requires forall c :: c in end ==> !IsWhitespace(c)
    ensures EndAndSettings(end + Spaced(settings)) == (end, settings)
  {
    SplitSpaceAt(end, Spaced(settings));
    TrimIdentity(settings);
    TrimIdentity(end);
    NoHead(end);
  }

  /** Reading a written timing line gives the timing, to the millisecond. */
  lemma TimingRoundTrip(t: Timing)
    requires Trimmed(t.settings)
    ensures ParseCueTiming(TimingLine(t)) == Some(QuantizedTiming(t))
    ensures !Blank(TimingLine(t)) && Contains(TimingLine(t), "-->")
  {
    hide FormatTimestamp, Timestamp, Trim, TrimStart, TrimEnd, Find, EndAndSettings, Spaced;
    var a, b := FormatTimestamp(t.start), FormatTimestamp(t.end);
    var tail := b + Spaced(t.settings);
    TimestampShape(t.start);
    TimestampShape(t.end);
    TimestampRoundTrip(t.start);
    TimestampRoundTrip(t.end);
    ArrowSplit(a, tail);
    PaddedTimestamp(a);
    Tail(b, Spaced(t.settings));
    LeadingSpace(tail);
    SettingsRead(b, t.settings);
    NotBlank(a, " --> " + tail);
  }

  lemma ArrowSplit(a: string, tail: string)
    requires '-' !in a
    ensures SplitOnce(a + (" --> " + tail), "-->") == Some((a + " ", " " + tail))
    ensures Contains(a + (" --> " + tail), "-->")
  {
    hide Find;
    assert " --> " + tail == " " + ("-->" + (" " + tail));
    Assoc(a, " ", "-->" + (" " + tail));
    SplitOnceAt(a + " ", "-->", " " + tail);
  }

  lemma PaddedTimestamp(a: string)
    requires a != "" && Trimmed(a)
    ensures Timestamp(a + " ") == Timestamp(a)
  {
    hide Timestamp, Trim, TrimStart, TrimEnd;
    TrimPadded("", a, " ");
    NoHead(a + " ");
    TrimPadded("", a, "");
    NoHead(a);
    TimestampOfTrimmed(a + " ", a);
  }

  lemma LeadingSpace(tail: string)
    requires tail != "" && !IsWhitespace(tail[0])
    ensures TrimStart(" " + tail) == tail
  {
    TrimStartSkips(" ", tail);
  }

  lemma NotBlank(a: string, rest: string)
    requires a != "" && !IsWhitespace(a[0])
    ensures !Blank(a + rest)
  {
    BlankIffWhitespace(a + rest);
    assert (a + rest)[0] == a[0] && a[0] in a + rest;
  }

  lemma ParsedSettings(line: string)
    requires ParseCueTiming(line).Some?
    ensures Trimmed(ParseCueTiming(line).value.settings)
    ensures CleanLine(line) ==> CleanLine(ParseCueTiming(line).value.settings)
  {
    hide Timestamp, Find, Trim, TrimStart, TrimEnd;
    var rest0 := SplitOnce(line, "-->").value.1;
    var rest := TrimStart(rest0);
    TrimStartCuts(rest0);
    SplitSpaceParts(rest);
    match SplitSpace(rest)
    case None =>
    case Some((end, settings)) => TrimGivesTrimmed(settings);
  }

  lemma TimingLineClean(t: Timing)
    requires CleanLine(t.settings)
    ensures CleanLine(TimingLine(t))
  {
    hide FormatTimestamp;
    TimestampShape(t.start);
    TimestampShape(t.end);
  }

  // ---- Re-timing -------------------------------------------------------------

  /** Whether the rest of this block leads to a cue that is over by `seconds`. */
  predicate Drops(lines: seq<string>, seconds: real) {
    lines != [] && !Blank(lines[0])
    && match ParseCueTiming(lines[0])
       case Some(t) => ShiftTiming(t, seconds).None?
       case None => Drops(lines[1..], seconds)
  }

  /** The lines after the blank line that ends the current block. */
  function AfterBlock(lines: seq<string>): (rest: seq<string>)
    ensures |rest| <= |lines|
  {
    if lines == [] then [] else if Blank(lines[0]) then lines[1..] else AfterBlock(lines[1..])
  }

  /** What re-timing makes of each line, looking ahead where the code buffers. */
  function ShiftDoc(lines: seq<string>, seconds: real): seq<string>
    decreases |lines|
  {
    if lines == [] then []
    else if Blank(lines[0]) then [""] + ShiftDoc(lines[1..], seconds)
    else
      match ParseCueTiming(lines[0])
      case None =>
        (if Drops(lines[1..], seconds) then [] else [lines[0]]) + ShiftDoc(lines[1..], seconds)
      case Some(t) =>
        match ShiftTiming(t, seconds)
        case None => ShiftDoc(AfterBlock(lines[1..]), seconds)
        case Some(shifted) => [TimingLine(shifted)] + ShiftDoc(lines[1..], seconds)
  }

  function ShiftedText(text: string, seconds: real): string {
    if seconds <= 0.0 then text else Unlines(ShiftDoc(Lines(text), seconds))
  }

  /** What the loop still has to write, given its buffer and flag. */
  ghost function Remaining(pending: seq<string>, dropping: bool, lines: seq<string>, seconds: real): seq<string> {
    if dropping then ShiftDoc(AfterBlock(lines), seconds)
    else (if Drops(lines, seconds) then [] else pending) + ShiftDoc(lines, seconds)
  }

  lemma RemainingStart(lines: seq<string>, seconds: real)
    ensures Remaining([], false, lines, seconds) == ShiftDoc(lines, seconds)
  {
    NoHead(ShiftDoc(lines, seconds));
  }

  lemma RemainingEnd(pending: seq<string>, seconds: real)
    ensures Remaining(pending, false, [], seconds) == pending && Remaining(pending, true, [], seconds) == []
  {
    NoHead(pending);
  }

  lemma RemainingBlank(pending: seq<string>, dropping: bool, lines: seq<string>, seconds: real)
    requires lines != [] && Blank(lines[0])
    ensures Remaining(pending, dropping, lines, seconds)
         == if dropping then Remaining([], false, lines[1..], seconds)
            else pending + ([""] + Remaining([], false, lines[1..], seconds))
  {
    hide Blank, ParseCueTiming;
    RemainingStart(lines[1..], seconds);
  }

  lemma RemainingText(pending: seq<string>, dropping: bool, lines: seq<string>, seconds: real)
    requires lines != [] && !Blank(lines[0])
    ensures dropping ==>
      Remaining(pending, true, lines, seconds) == Remaining(pending, true, lines[1..], seconds)
    ensures !dropping && ParseCueTiming(lines[0]).None? ==>
      Remaining(pending, false, lines, seconds) == Remaining(pending + [lines[0]], false, lines[1..], seconds)
  {
    hide Blank, ParseCueTiming;
    Assoc(pending, [lines[0]], ShiftDoc(lines[1..], seconds));
    NoHead(ShiftDoc(lines[1..], seconds));
  }

  lemma RemainingTiming(pending: seq<string>, lines: seq<string>, seconds: real)
    requires lines != [] && !Blank(lines[0]) && ParseCueTiming(lines[0]).Some?
    ensures Remaining(pending, false, lines, seconds) ==
      match ShiftTiming(ParseCueTiming(lines[0]).value, seconds)
      case None => Remaining([], true, lines[1..], seconds)
      case Some(t) => pending + ([TimingLine(t)] + Remaining([], false, lines[1..], seconds))
  {
    hide Blank, ParseCueTiming, TimingLine;
    RemainingStart(lines[1..], seconds);
    NoHead(ShiftDoc(AfterBlock(lines[1..]), seconds));
  }

  method ShiftVtt(text: string, seconds: real) returns (out: string)
    ensures out == ShiftedText(text, seconds)
    ensures seconds <= 0.0 ==> out == text
  {
    if seconds <= 0.0 {
      return text;
    }
    out := "";
    var pending: seq<string> := [];
    var dropping := false;
    var lines := Lines(text);
    RemainingStart(lines, seconds);
    NoHead(Unlines(ShiftDoc(lines, seconds)));
    assert lines[0..] == lines;
    for i := 0 to |lines|
      invariant out + Unlines(Remaining(pending, dropping, lines[i..], seconds))
             == Unlines(ShiftDoc(lines, seconds))
    {
      hide Unlines, ParseCueTiming, TimingLine, Blank, Remaining, ShiftDoc;
      var line := lines[i];
      ghost var rest := lines[i + 1..];
      assert lines[i..][0] == line && lines[i..][1..] == rest;
      if Blank(line) {
        RemainingBlank(pending, dropping, lines[i..], seconds);
        Flush(out, pending, "", Remaining([], false, rest, seconds));
        if !dropping {
          out := out + Unlines(pending) + "\n";
        }
        pending, dropping := [], false;
        continue;
      }
      RemainingText(pending, dropping, lines[i..], seconds);
      if dropping {
        continue;
      }
      var timing := ParseCueTiming(line);
      if timing.Some? {
        RemainingTiming(pending, lines[i..], seconds);
        var shifted := ShiftTiming(timing.value, seconds);
        if shifted.None? {
          pending, dropping := [], true;
          continue;
        }
        var timingLine := TimingLine(shifted.value);
        Flush(out, pending, timingLine, Remaining([], false, rest, seconds));
        out := out + Unlines(pending) + (timingLine + "\n");
        pending := [];
        continue;
      }
      pending := pending + [line];
    }
    assert lines[|lines|..] == [];
    RemainingEnd(pending, seconds);
    NoHead(out);
    if !dropping {
      out := out + Unlines(pending);
    }
  }

  /** Writing the buffered lines and one more. */
  lemma Flush(out: string, pending: seq<string>, line: string, rest: seq<string>)
    ensures out + Unlines(pending + ([line] + rest)) == out + Unlines(pending) + (line + "\n") + Unlines(rest)
    ensures "" + "\n" == "\n"
  {
    hide Unlines;
    UnlinesConcat(pending, [line] + rest);
    UnlinesConcat([line], rest);
    UnlinesOne(line);
    Assoc(out, Unlines(pending), (line + "\n") + Unlines(rest));
    Assoc(out + Unlines(pending), line + "\n", Unlines(rest));
  }

  // ---- Blocks and cues --------------------------------------------------------

  function Close(block: seq<string>): seq<seq<string>> {
    if block == [] then [] else [block]
  }

  /** The blank-separated blocks of a document, the first one already begun. */
  function Blocks(block: seq<string>, lines: seq<string>): seq<seq<string>>
    decreases |lines|
  {
    if lines == [] then Close(block)
    else if Blank(lines[0]) then Close(block) + Blocks([], lines[1..])
    else Blocks(block + [lines[0]], lines[1..])
  }

  datatype Cue = Cue(id: seq<string>, timing: Timing, text: seq<string>)

  /** A cue's timing line is its first line, or its second after an identifier. */
  function ArrowAt(block: seq<string>): (at: Option<nat>)
    ensures at.Some? ==> at.value < |block| && Contains(block[at.value], "-->")
  {
    if |block| > 0 && Contains(block[0], "-->") then Some(0)
    else if |block| > 1 && Contains(block[1], "-->") then Some(1)
    else None
  }

  function CueOf(block: seq<string>): Option<Cue> {
    match ArrowAt(block)
    case None => None
    case Some(at) =>
      match ParseCueTiming(block[at])
      case None => None
      case Some(t) => Some(Cue(block[..at], t, block[at + 1..]))
  }

  function CuesOf(blocks: seq<seq<string>>): seq<Cue> {
    if blocks == [] then []
    else (match CueOf(blocks[0]) case None => [] case Some(cue) => [cue]) + CuesOf(blocks[1..])
  }

  function StripBom(text: string): string {
    if text != "" && text[0] == BOM then text[1..] else text
  }

  function DocLines(text: string): seq<string> {
    Lines(StripBom(text))
  }

  /** The cues of a WebVTT document, in order. */
  function Cues(text: string): seq<Cue> {
    CuesOf(Blocks([], DocLines(text)))
  }

  // ---- SubRip -------------------------------------------------------------------

  /** The converted lines of a cue that still show something. */
  function Body(text: seq<string>): seq<string> {
    if text == [] then []
    else (if Blank(SrtLine(text[0])) then [] else [SrtLine(text[0])]) + Body(text[1..])
  }

  datatype Entry = Entry(start: real, end: real, body: seq<string>)

  /** Cues with something to show. */
  function Entries(cues: seq<Cue>): seq<Entry> {
    if cues == [] then []
    else
      var body := Body(cues[0].text);
      (if body == [] then [] else [Entry(cues[0].timing.start, cues[0].timing.end, body)]) + Entries(cues[1..])
  }

  /** `replacen('.', ",", 1)` on the printed time. */
  function SrtTimestamp(t: real): string {
    var s := FormatTimestamp(t);
    match Find(s, ".") case None => s case Some(at) => s[..at] + ("," + s[at + 1..])
  }

  function SrtTiming(e: Entry): string {
    SrtTimestamp(e.start) + (" --> " + SrtTimestamp(e.end))
  }

  /** One numbered SubRip entry: number, times, text lines, blank line. */
  function EntryLines(number: nat, e: Entry): seq<string> {
    [Digits(number), SrtTiming(e)] + (e.body + [""])
  }

  /** Entries numbered on from `number`. */
  function NumberedLines(number: nat, entries: seq<Entry>): seq<string>
    decreases |entries|
  {
    if entries == [] then []
    else EntryLines(number + 1, entries[0]) + NumberedLines(number + 1, entries[1..])
  }

  function SrtDoc(vtt: string): string {
    [BOM] + Unlines(NumberedLines(0, Entries(Cues(vtt))))
  }

  /** What is left to write after `number` entries. */
  ghost function SrtRest(number: nat, blocks: seq<seq<string>>): string {
    Unlines(NumberedLines(number, Entries(CuesOf(blocks))))
  }

  method VttToSrt(vtt: string) returns (out: string)
    ensures out == SrtDoc(vtt)
  {
    hide Blank, CueOf, SrtRest, Body, SrtTiming, Digits, SrtDoc, Unlines, Blocks, Close, DocLines, EntryLines;
    out := [BOM];
    var number := 0;
    var block: seq<string> := [];
    var lines := DocLines(vtt);
    assert lines[0..] == lines;
    SrtStart(vtt);
    for i := 0 to |lines|
      invariant out + SrtRest(number, Blocks(block, lines[i..])) == SrtDoc(vtt)
      invariant i == |lines| ==> block == []
    {
      var line := lines[i];
      ghost var rest := lines[i + 1..];
      assert lines[i..][0] == line && lines[i..][1..] == rest;
      BlocksStep(block, lines[i..]);
      if !Blank(line) {
        block := block + [line];
        if i + 1 < |lines| {
          continue;
        }
        assert rest == [];
        BlocksEnd(block);
      }
      SrtRestStep(number, block, Blocks([], rest));
      var cue := CueOf(block);
      if cue.Some? {
        var body := Body(cue.value.text);
        if body != [] {
          var entry := Entry(cue.value.timing.start, cue.value.timing.end, body);
          EntryWritten(out, number + 1, entry, SrtRest(number + 1, Blocks([], rest)));
          number := number + 1;
          out := out + (Digits(number) + "\n" + (SrtTiming(entry) + "\n"));
          out := out + Unlines(body) + "\n";
        }
      }
      block := [];
    }
    assert lines[|lines|..] == [];
    SrtEnd(number);
    NoHead(out);
  }

  lemma SrtStart(vtt: string)
    ensures [BOM] + SrtRest(0, Blocks([], DocLines(vtt))) == SrtDoc(vtt)
  {
    hide Blocks, DocLines, CuesOf, Entries, NumberedLines, Unlines;
  }

  lemma SrtEnd(number: nat)
    ensures SrtRest(number, Blocks([], [])) == ""
  {
  }

  lemma BlocksStep(block: seq<string>, lines: seq<string>)
    requires lines != []
    ensures Blocks(block, lines)
         == if Blank(lines[0]) then Close(block) + Blocks([], lines[1..]) else Blocks(block + [lines[0]], lines[1..])
  {
    hide Blank;
  }

  lemma BlocksEnd(block: seq<string>)
    ensures Blocks(block, []) == Close(block) + Blocks([], [])
  {
    NoHead(Close(block));
  }

  lemma SrtRestStep(number: nat, block: seq<string>, more: seq<seq<string>>)
    ensures SrtRest(number, Close(block) + more)
         == match CueOf(block)
            case None => SrtRest(number, more)
            case Some(cue) =>
              var body := Body(cue.text);
              if body == [] then SrtRest(number, more)
              else Unlines(EntryLines(number + 1, Entry(cue.timing.start, cue.timing.end, body)))
                   + SrtRest(number + 1, more)
  {
    hide ParseCueTiming, Contains, Unlines, EntryLines, Body;
    if block == [] {
      NoHead(more);
    } else {
      Cut([block], more);
      NoHead(CuesOf(more));
      match CueOf(block)
      case None =>
      case Some(cue) =>
        Cut([cue], CuesOf(more));
        var body := Body(cue.text);
        NoHead(Entries(CuesOf(more)));
        if body != [] {
          var entry := Entry(cue.timing.start, cue.timing.end, body);
          Cut([entry], Entries(CuesOf(more)));
          UnlinesConcat(EntryLines(number + 1, entry), NumberedLines(number + 1, Entries(CuesOf(more))));
        }
    }
  }

  lemma EntryWritten(out: string, number: nat, e: Entry, rest: string)
    ensures out + (Unlines(EntryLines(number, e)) + rest)
         == out + (Digits(number) + "\n" + (SrtTiming(e) + "\n")) + Unlines(e.body) + "\n" + rest
  {
    hide Unlines, Digits, SrtTiming;
    var head := [Digits(number), SrtTiming(e)];
    UnlinesConcat(head, e.body + [""]);
    UnlinesConcat(e.body, [""]);
    UnlinesOne("");
    NoHead("\n");
    assert head == [Digits(number)] + [SrtTiming(e)];
    UnlinesConcat([Digits(number)], [SrtTiming(e)]);
    UnlinesOne(Digits(number));
    UnlinesOne(SrtTiming(e));
    var h := Digits(number) + "\n" + (SrtTiming(e) + "\n");
    Assoc(h, Unlines(e.body) + "\n", rest);
    Assoc(Unlines(e.body), "\n", rest);
    Assoc(out, h, Unlines(e.body) + ("\n" + rest));
    Assoc(out + h, Unlines(e.body), "\n" + rest);
    Assoc(out + h + Unlines(e.body), "\n", rest);
  }
}

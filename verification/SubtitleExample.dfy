/** A document that `shift_vtt` does not re-time as promised: its first block holds
    two timings, and the second is over before the first. */
module SubtitleExample {
  import opened Text
  import opened TimeText
  import opened Subtitles
  import opened SubtitleLaws
  import opened SubtitleFiles

  const KEPT := "00:00:05.000" + (" --> " + "00:00:09.000")
  const OVER := "00:00:01.000" + (" --> " + "00:00:02.000")
  const NEXT := "00:00:06.000" + (" --> " + "00:00:08.000")

  const TWO_TIMINGS := Unlines(["WEBVTT", "", KEPT, OVER, "", NEXT, "hi"])

  function Seconds(start: nat, end: nat): Timing {
    Timing(start as real, end as real, "")
  }

  lemma FewSeconds(n: nat)
    requires n < 10
    ensures Millis(n as real) == 1000 * n && Quantized(n as real) == n as real
  {
    WholeMillis(1000 * n);
    assert (1000 * n) as real / 1000.0 == n as real;
  }

  lemma PaddedDigit(n: nat)
    requires n < 10
    ensures Padded(n, 2) == ['0', DigitChar(n)]
  {
    assert Digits(n) == [DigitChar(n)] && Zeros(1) == "0" + Zeros(0) && Zeros(0) == "";
  }

  lemma PaddedZero()
    ensures Padded(0, 3) == "000"
  {
    assert Digits(0) == "0" && Zeros(2) == "0" + Zeros(1) && Zeros(1) == "0" + Zeros(0) && Zeros(0) == "";
  }

  function ClockText(n: nat): string
    requires n < 10
  {
    ['0', '0', ':', '0', '0', ':', '0', DigitChar(n), '.', '0', '0', '0']
  }

  lemma FewSecondsText(n: nat)
    requires n < 10
    ensures FormatTimestamp(n as real) == ClockText(n)
  {
    hide Padded, Millis, DigitChar;
    FewSeconds(n);
    PaddedDigit(0);
    PaddedDigit(n);
    PaddedZero();
    DigitZero();
    var ms := 1000 * n;
    assert ms / 3_600_000 == 0 && (ms % 3_600_000) / 60_000 == 0 && (ms % 60_000) / 1000 == n && ms % 1000 == 0;
    ClockParts(n);
  }

  lemma DigitZero()
    ensures DigitChar(0) == '0'
  {
  }

  lemma ClockParts(n: nat)
    requires n < 10
    ensures Colons(['0', '0'], ['0', '0'], ['0', DigitChar(n)] + ("." + "000")) == ClockText(n)
  {
  }

  lemma FewSecondsLine(start: nat, end: nat)
    requires start < 10 && end < 10
    ensures TimingLine(Seconds(start, end)) == ClockText(start) + (" --> " + ClockText(end))
    ensures QuantizedTiming(Seconds(start, end)) == Seconds(start, end)
    ensures ParseCueTiming(TimingLine(Seconds(start, end))) == Some(Seconds(start, end))
    ensures !Blank(TimingLine(Seconds(start, end))) && Contains(TimingLine(Seconds(start, end)), "-->")
    ensures CleanLine(TimingLine(Seconds(start, end)))
  {
    hide FormatTimestamp, ParseCueTiming, Blank, Find, Quantized, ClockText;
    FewSeconds(start);
    FewSeconds(end);
    FewSecondsText(start);
    FewSecondsText(end);
    NoHead(ClockText(end));
    TimingRoundTrip(Seconds(start, end));
    TimingLineClean(Seconds(start, end));
  }

  lemma Literals()
    ensures KEPT == TimingLine(Seconds(5, 9)) && OVER == TimingLine(Seconds(1, 2)) && NEXT == TimingLine(Seconds(6, 8))
  {
    hide TimingLine, ClockText, Seconds, ParseCueTiming, Blank, Contains, CleanLine, QuantizedTiming;
    FewSecondsLine(5, 9);
    FewSecondsLine(1, 2);
    FewSecondsLine(6, 8);
    Half(5, "00:00:05.000");
    Half(9, "00:00:09.000");
    Half(1, "00:00:01.000");
    Half(2, "00:00:02.000");
    Half(6, "00:00:06.000");
    Half(8, "00:00:08.000");
  }

  lemma Half(n: nat, literal: string)
    requires n < 10
    requires literal == ['0', '0', ':', '0', '0', ':', '0', ('0' as int + n) as char, '.', '0', '0', '0']
    ensures literal == ClockText(n)
  {
  }

  lemma PlainLine(line: string)
    requires line == "WEBVTT" || line == "hi"
    ensures !Blank(line) && CleanLine(line) && ParseCueTiming(line).None? && !Contains(line, "-->")
  {
    hide Blank, Find;
    NotBlank(line, "");
    NoHead(line);
    FindNone(line, "-->");
  }

  /** The document as lines: the header, and what follows its blank line. */
  function Doc(rest: seq<string>): seq<string> {
    ["WEBVTT"] + ([""] + rest)
  }

  predicate Parts(rest: seq<string>) {
    forall l :: l in rest ==> CleanLine(l)
  }

  lemma DocRead(rest: seq<string>)
    requires Parts(rest)
    ensures DocLines(Unlines(Doc(rest))) == Doc(rest)
    ensures CuesOf(Blocks([], Doc(rest))) == CuesOf(Blocks([], rest))
    ensures Lines(Unlines(Doc(rest))) == Doc(rest)
  {
    hide Lines, Unlines, Blank, CleanLine, CueOf, Contains;
    PlainLine("WEBVTT");
    BlankEmpty();
    EmptyClean();
    LinesOfUnlines(Doc(rest));
    FirstIsW(rest);
    BlocksOver([], ["WEBVTT"], [""] + rest);
    NoHead(["WEBVTT"]);
    Cut([""], rest);
    HeaderBlock();
    Cut([["WEBVTT"]], Blocks([], rest));
    NoHead(CuesOf(Blocks([], rest)));
    EmptyNonBlank();
  }

  lemma FirstIsW(rest: seq<string>)
    ensures Unlines(Doc(rest)) != "" && Unlines(Doc(rest))[0] == 'W'
  {
    Tail("WEBVTT", "\n" + Unlines([""] + rest));
    Cut(["WEBVTT"], [""] + rest);
  }

  lemma DocShift(rest: seq<string>, seconds: real)
    ensures ShiftDoc(Doc(rest), seconds) == Doc(ShiftDoc(rest, seconds))
  {
    hide Blank, ParseCueTiming;
    PlainLine("WEBVTT");
    BlankEmpty();
    Cut(["WEBVTT"], [""] + rest);
    Cut([""], rest);
  }

  /** A block that begins with a timing line is a cue. */
  lemma TimedBlock(start: nat, end: nat, text: seq<string>)
    requires start < 10 && end < 10
    ensures CueOf([TimingLine(Seconds(start, end))] + text) == Some(Cue([], Seconds(start, end), text))
  {
    hide TimingLine, ParseCueTiming, Blank, Contains, CleanLine, QuantizedTiming;
    FewSecondsLine(start, end);
    Cut([TimingLine(Seconds(start, end))], text);
  }

  lemma OneBlock(block: seq<string>)
    requires NonBlank(block) && block != []
    ensures Blocks([], block) == [block]
  {
    BlocksOver([], block, []);
    NoHead(block);
  }

  lemma TwoBlocks(block: seq<string>, next: seq<string>)
    requires NonBlank(block) && NonBlank(next) && block != [] && next != []
    ensures Blocks([], block + ([""] + next)) == [block] + [next]
  {
    hide Blank;
    BlankEmpty();
    BlocksOver([], block, [""] + next);
    NoHead(block);
    Cut([""], next);
    OneBlock(next);
  }

  lemma CuesOfTwo(a: seq<string>, b: seq<string>)
    ensures CuesOf([a] + [b]) == (match CueOf(a) case None => [] case Some(c) => [c])
                                 + (match CueOf(b) case None => [] case Some(c) => [c])
  {
    hide CueOf;
    CuesOfConcat([a], [b]);
    CuesOfOne(a);
    CuesOfOne(b);
  }

  lemma CuesOfOne(a: seq<string>)
    ensures CuesOf([a]) == match CueOf(a) case None => [] case Some(c) => [c]
  {
    hide CueOf;
    var none: seq<seq<string>> := [];
    assert [a][1..] == none && CuesOf(none) == [];
  }

  /** The cues of the document, and what three seconds should make of them. */
  lemma WhatShouldBe()
    ensures Cues(TWO_TIMINGS) == [Cue([], Seconds(5, 9), [OVER])] + [Cue([], Seconds(6, 8), ["hi"])]
    ensures Lines(TWO_TIMINGS) == Doc([KEPT, OVER] + ([""] + [NEXT, "hi"]))
  {
    hide TimingLine, ParseCueTiming, Blank, Contains, CleanLine, QuantizedTiming, Unlines, Lines, CuesOf, CueOf, DocLines, Seconds;
    Literals();
    FewSecondsLine(5, 9);
    FewSecondsLine(1, 2);
    FewSecondsLine(6, 8);
    PlainLine("hi");
    EmptyClean();
    var rest := [KEPT, OVER] + ([""] + [NEXT, "hi"]);
    assert ["WEBVTT", "", KEPT, OVER, "", NEXT, "hi"] == Doc(rest);
    DocRead(rest);
    TwoBlocks([KEPT, OVER], [NEXT, "hi"]);
    CuesOfTwo([KEPT, OVER], [NEXT, "hi"]);
    assert [KEPT, OVER] == [KEPT] + [OVER] && [NEXT, "hi"] == [NEXT] + ["hi"];
    TimedBlock(5, 9, [OVER]);
    TimedBlock(6, 8, ["hi"]);
  }

  lemma WhatIs()
    ensures Cues(ShiftedText(TWO_TIMINGS, 3.0)) == [Cue([], Seconds(2, 6), [TimingLine(Seconds(3, 5)), "hi"])]
  {
    hide TimingLine, ParseCueTiming, Blank, Contains, CleanLine, QuantizedTiming, Unlines, Lines, CuesOf, CueOf, ShiftDoc, AfterBlock;
    Literals();
    FewSecondsLine(5, 9);
    FewSecondsLine(1, 2);
    FewSecondsLine(6, 8);
    FewSecondsLine(2, 6);
    FewSecondsLine(3, 5);
    PlainLine("hi");
    WhatShouldBe();
    var a, c := TimingLine(Seconds(2, 6)), TimingLine(Seconds(3, 5));
    var rest := [KEPT, OVER] + ([""] + [NEXT, "hi"]);
    DocShift(rest, 3.0);
    assert rest == [KEPT, OVER, ""] + [NEXT, "hi"];
    TwoTimingsJoinBlocks(KEPT, OVER, [NEXT, "hi"], 3.0);
    assert [NEXT, "hi"] == [NEXT] + ["hi"];
    TimingStep(NEXT, ["hi"], Seconds(6, 8), 3.0);
    ShiftPlain("hi", 3.0);
    var block := [a] + ([c] + ["hi"]);
    assert ShiftDoc(rest, 3.0) == block;
    DocRead(block);
    OneBlock(block);
    CuesOfOne(block);
    TimedBlock(2, 6, [c] + ["hi"]);
    assert [c] + ["hi"] == [c, "hi"];
  }

  lemma ShiftPlain(line: string, seconds: real)
    requires !Blank(line) && ParseCueTiming(line).None?
    ensures ShiftDoc([line], seconds) == [line]
  {
    hide Blank, ParseCueTiming;
    var none: seq<string> := [];
    assert [line][1..] == none;
    assert ShiftDoc(none, seconds) == none && !Drops(none, seconds);
  }

  /** The law of cues fails on this document: two cues should be left, and one is, with
      the other's timing and text as its own text. */
  lemma TwoTimingsLoseACue()
    ensures |ShiftCues(Cues(TWO_TIMINGS), 3.0)| == 2 && |Cues(ShiftedText(TWO_TIMINGS, 3.0))| == 1
    ensures !Retimable(TWO_TIMINGS, 3.0)
  {
    hide Cues, ShiftedText, Retimable, QuantizedTiming;
    WhatShouldBe();
    WhatIs();
    TwoShifted(Cue([], Seconds(5, 9), [OVER]), Cue([], Seconds(6, 8), ["hi"]));
    if Retimable(TWO_TIMINGS, 3.0) {
      CuesOfShiftedText(TWO_TIMINGS, 3.0);
    }
  }

  lemma TwoShifted(a: Cue, b: Cue)
    requires ShiftTiming(a.timing, 3.0).Some? && ShiftTiming(b.timing, 3.0).Some?
    ensures |ShiftCues([a] + [b], 3.0)| == 2
  {
    hide QuantizedTiming, ShiftTiming;
    Cut([a], [b]);
    var none: seq<Cue> := [];
    assert [b][1..] == none && ShiftCues(none, 3.0) == [];
    assert |ShiftCues([b], 3.0)| == 1;
  }
}

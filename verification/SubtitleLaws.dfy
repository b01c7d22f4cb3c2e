/** What re-timing and conversion promise for well-formed WebVTT documents (W3C
    WebVTT, section 4.1): both are simple operations on the list of cues. */
module SubtitleLaws {
  import opened Text
  import opened TimeText
  import opened Subtitles

  // ---- Well-formed documents -------------------------------------------------

  /** At most one line with an arrow, the first or second, and it is a timing. */
  predicate BlockOk(block: seq<string>) {
    forall i :: 0 <= i < |block| && Contains(block[i], "-->") ==>
      i <= 1 && ParseCueTiming(block[i]).Some?
      && forall j :: 0 <= j < |block| && j != i ==> !Contains(block[j], "-->")
  }

  predicate BlocksOk(blocks: seq<seq<string>>) {
    forall b :: b in blocks ==> BlockOk(b)
  }

  predicate Clean(lines: seq<string>) {
    forall l :: l in lines ==> CleanLine(l)
  }

  /** The `WEBVTT` header block comes first and holds no timing. */
  predicate HeaderOk(lines: seq<string>) {
    lines != [] && StartsWith(lines[0], "WEBVTT")
    && Blocks([], lines) != [] && ArrowAt(Blocks([], lines)[0]).None?
  }

  predicate LinesOk(lines: seq<string>) {
    Clean(lines) && BlocksOk(Blocks([], lines)) && HeaderOk(lines)
  }

  predicate WellFormed(text: string) {
    LinesOk(DocLines(text))
  }

  // ---- Documents a shift handles ------------------------------------------------

  /** A timing that is over. */
  predicate Over(line: string, seconds: real) {
    ParseCueTiming(line).Some? && ShiftTiming(ParseCueTiming(line).value, seconds).None?
  }

  predicate AnyOver(lines: seq<string>, seconds: real) {
    exists i :: 0 <= i < |lines| && Over(lines[i], seconds)
  }

  /** What becomes of a line outside dropped blocks. */
  function ShiftLine(line: string, seconds: real): string
    requires !Over(line, seconds)
  {
    match ParseCueTiming(line) case None => line case Some(t) => TimingLine(ShiftTiming(t, seconds).value)
  }

  /** Lines a shift leaves alone: whatever reads as a timing is kept and printed as
      it was. */
  predicate Stays(lines: seq<string>, seconds: real) {
    forall i :: 0 <= i < |lines| ==> !Over(lines[i], seconds) && ShiftLine(lines[i], seconds) == lines[i]
  }

  /** The blocks for which re-timing means what it should: their cue is over, or no
      other line of theirs is touched. */
  predicate ShiftsWell(block: seq<string>, seconds: real) {
    match CueOf(block)
    case None => Stays(block, seconds)
    case Some(cue) => ShiftTiming(cue.timing, seconds).None? || Stays(cue.text, seconds)
  }

  predicate AllShiftWell(blocks: seq<seq<string>>, seconds: real) {
    forall b :: b in blocks ==> ShiftsWell(b, seconds)
  }

  predicate LinesRetimable(lines: seq<string>, seconds: real) {
    Clean(lines) && AllShiftWell(Blocks([], lines), seconds) && HeaderOk(lines)
  }

  predicate Retimable(text: string, seconds: real) {
    LinesRetimable(DocLines(text), seconds)
  }

  // ---- The law on cues ---------------------------------------------------------

  function ShiftCue(cue: Cue, seconds: real): seq<Cue> {
    match ShiftTiming(cue.timing, seconds)
    case None => []
    case Some(t) => [cue.(timing := QuantizedTiming(t))]
  }

  /** Cues that end after `seconds`, in order, each that much earlier. */
  function ShiftCues(cues: seq<Cue>, seconds: real): seq<Cue> {
    if cues == [] then [] else ShiftCue(cues[0], seconds) + ShiftCues(cues[1..], seconds)
  }

  function ShiftBlock(block: seq<string>, seconds: real): Option<seq<string>> {
    match CueOf(block)
    case None => Some(block)
    case Some(cue) =>
      match ShiftTiming(cue.timing, seconds)
      case None => None
      case Some(t) => Some(block[|cue.id| := TimingLine(t)])
  }

  function ShiftBlocks(blocks: seq<seq<string>>, seconds: real): seq<seq<string>> {
    if blocks == [] then []
    else (match ShiftBlock(blocks[0], seconds) case None => [] case Some(b) => [b])
         + ShiftBlocks(blocks[1..], seconds)
  }

  // ---- Blocks of lines -----------------------------------------------------------

  predicate NonBlank(lines: seq<string>) {
    forall l :: l in lines ==> !Blank(l)
  }

  predicate Untimed(lines: seq<string>) {
    forall l :: l in lines ==> ParseCueTiming(l).None?
  }

  lemma TimingHasArrow(line: string)
    ensures ParseCueTiming(line).Some? ==> Contains(line, "-->")
  {
  }

  function BlockLen(lines: seq<string>): (n: nat)
    ensures n <= |lines| && NonBlank(lines[..n]) && (n < |lines| ==> Blank(lines[n]))
  {
    if lines == [] || Blank(lines[0]) then 0
    else
      var n := BlockLen(lines[1..]);
      assert lines[..n + 1] == [lines[0]] + lines[1..][..n];
      n + 1
  }

  lemma {:induction false} BlocksOver(block: seq<string>, more: seq<string>, rest: seq<string>)
    requires NonBlank(more)
    ensures Blocks(block, more + rest) == Blocks(block + more, rest)
    decreases |more|
  {
    hide Blank;
    if more == [] {
      NoHead(rest);
      NoHead(block);
    } else {
      assert more[0] in more;
      Tail(more, rest);
      HeadTail(more);
      BlocksOver(block + [more[0]], more[1..], rest);
      Assoc(block, [more[0]], more[1..]);
    }
  }

  lemma {:induction false} AfterBlockOver(p: seq<string>, rest: seq<string>)
    requires NonBlank(p)
    ensures AfterBlock(p + rest) == AfterBlock(rest)
  {
    hide Blank;
    if p == [] {
      NoHead(rest);
    } else {
      assert p[0] in p;
      Tail(p, rest);
      AfterBlockOver(p[1..], rest);
    }
  }

  lemma {:induction false} ShiftUntimed(p: seq<string>, rest: seq<string>, seconds: real)
    requires NonBlank(p) && Untimed(p)
    ensures Drops(p + rest, seconds) == Drops(rest, seconds)
    ensures ShiftDoc(p + rest, seconds)
         == (if Drops(rest, seconds) then [] else p) + ShiftDoc(rest, seconds)
  {
    hide Blank, ParseCueTiming;
    if p == [] {
      NoHead(rest);
      NoHead(ShiftDoc(rest, seconds));
    } else {
      assert p[0] in p;
      Tail(p, rest);
      HeadTail(p);
      ShiftUntimed(p[1..], rest, seconds);
      Assoc([p[0]], p[1..], ShiftDoc(rest, seconds));
      NoHead(ShiftDoc(rest, seconds));
    }
  }

  /** What follows a block: nothing, or a blank line and the rest. */
  function Closed(rest: seq<string>, seconds: real): seq<string> {
    if rest == [] then [] else [""] + ShiftDoc(rest[1..], seconds)
  }

  predicate AtBreak(rest: seq<string>) {
    rest == [] || Blank(rest[0])
  }

  lemma BreakFacts(rest: seq<string>, seconds: real)
    requires AtBreak(rest)
    ensures ShiftDoc(rest, seconds) == Closed(rest, seconds) && !Drops(rest, seconds)
    ensures AfterBlock(rest) == if rest == [] then [] else rest[1..]
  {
  }

  lemma NoArrowUntimed(block: seq<string>)
    requires forall l :: l in block ==> !Contains(l, "-->")
    ensures Untimed(block)
  {
    hide ParseCueTiming, Contains;
    forall l | l in block
      ensures ParseCueTiming(l).None?
    {
      TimingHasArrow(l);
    }
  }

  lemma CuePosition(block: seq<string>)
    ensures match CueOf(block)
            case None => true
            case Some(cue) =>
              |cue.id| < |block| && cue.id == block[..|cue.id|] && cue.text == block[|cue.id| + 1..]
              && ParseCueTiming(block[|cue.id|]) == Some(cue.timing) && Untimed(cue.id)
              && ArrowAt(block) == Some(|cue.id|)
  {
    hide ParseCueTiming, Contains;
    match CueOf(block)
    case None =>
    case Some(cue) => NoArrowUntimed(cue.id);
  }

  lemma UntimedStays(lines: seq<string>, seconds: real)
    requires Untimed(lines)
    ensures Stays(lines, seconds) && !AnyOver(lines, seconds)
  {
    hide ParseCueTiming;
  }

  /** One timing per block is enough for every shift. */
  lemma OkShiftsWell(block: seq<string>, seconds: real)
    requires BlockOk(block)
    ensures ShiftsWell(block, seconds)
  {
    hide ParseCueTiming, Contains, Stays;
    CuePosition(block);
    match CueOf(block)
    case None =>
      NoArrowUntimed(block);
      UntimedStays(block, seconds);
    case Some(cue) =>
      NoArrowUntimed(cue.text);
      UntimedStays(cue.text, seconds);
  }

  // ---- What a shift does to one block ----------------------------------------------

  lemma OverFirst(lines: seq<string>, seconds: real)
    requires lines != []
    ensures AnyOver(lines, seconds) <==> Over(lines[0], seconds) || AnyOver(lines[1..], seconds)
  {
    hide Over;
    if AnyOver(lines, seconds) {
      var i :| 0 <= i < |lines| && Over(lines[i], seconds);
      assert i > 0 ==> lines[1..][i - 1] == lines[i];
    }
    if AnyOver(lines[1..], seconds) {
      var i :| 0 <= i < |lines[1..]| && Over(lines[1..][i], seconds);
      assert lines[i + 1] == lines[1..][i];
    }
  }

  /** Without an expired timing every line gives one line. */
  lemma {:induction false} NoneOver(lines: seq<string>, seconds: real)
    requires NonBlank(lines) && !AnyOver(lines, seconds)
    ensures !Drops(lines, seconds) && |ShiftDoc(lines, seconds)| == |lines|
    ensures forall i :: 0 <= i < |lines| ==>
      !Over(lines[i], seconds) && ShiftDoc(lines, seconds)[i] == ShiftLine(lines[i], seconds)
  {
    hide ParseCueTiming, Blank, TimingLine;
    if lines != [] {
      assert lines[0] in lines;
      OverFirst(lines, seconds);
      NoneOver(lines[1..], seconds);
      assert ShiftDoc(lines, seconds) == [ShiftLine(lines[0], seconds)] + ShiftDoc(lines[1..], seconds);
      assert forall i :: 0 < i < |lines| ==> lines[1..][i - 1] == lines[i];
    }
  }

  /** With one, some line is lost. */
  lemma {:induction false} SomeOver(lines: seq<string>, seconds: real)
    requires NonBlank(lines) && AnyOver(lines, seconds)
    ensures |ShiftDoc(lines, seconds)| < |lines|
  {
    hide ParseCueTiming, Blank, TimingLine, AnyOver;
    NotEmpty(lines, seconds);
    assert lines[0] in lines;
    OverFirst(lines, seconds);
    if Over(lines[0], seconds) {
      AfterBlockOver(lines[1..], []);
      NoHead(lines[1..]);
    } else {
      SomeOver(lines[1..], seconds);
    }
  }

  lemma NotEmpty(lines: seq<string>, seconds: real)
    requires AnyOver(lines, seconds)
    ensures lines != []
  {
  }

  /** A block is followed by its blank line, unless it ends in a dropped cue. */
  lemma {:induction false} BlockAndRest(block: seq<string>, rest: seq<string>, seconds: real)
    requires NonBlank(block) && AtBreak(rest)
    ensures Drops(block + rest, seconds) == Drops(block, seconds)
    ensures ShiftDoc(block + rest, seconds) == ShiftDoc(block, seconds)
         + (if AnyOver(block, seconds) then ShiftDoc(AfterBlock(rest), seconds) else Closed(rest, seconds))
  {
    hide ParseCueTiming, Blank, TimingLine, AfterBlock, AnyOver, Closed;
    BreakFacts(rest, seconds);
    if block == [] {
      NoHead(rest);
      NoHead(Closed(rest, seconds));
      NoneInNothing(seconds);
    } else {
      assert block[0] in block;
      OverFirst(block, seconds);
      Tail(block, rest);
      BlockAndRest(block[1..], rest, seconds);
      AfterBlockOver(block[1..], rest);
      AfterBlockOver(block[1..], []);
      NoHead(block[1..]);
      AfterNothing();
      var more := if AnyOver(block, seconds) then ShiftDoc(AfterBlock(rest), seconds) else Closed(rest, seconds);
      NoHead(more);
      match ParseCueTiming(block[0])
      case None =>
        Assoc([block[0]], ShiftDoc(block[1..], seconds), more);
        NoHead(ShiftDoc(block[1..], seconds) + more);
        NoHead(ShiftDoc(block[1..], seconds));
      case Some(t) =>
        if ShiftTiming(t, seconds).Some? {
          Assoc([TimingLine(ShiftTiming(t, seconds).value)], ShiftDoc(block[1..], seconds), more);
        }
    }
  }

  lemma NoneInNothing(seconds: real)
    ensures !AnyOver([], seconds) && ShiftDoc([], seconds) == []
  {
  }

  lemma AfterNothing()
    ensures AfterBlock([]) == []
  {
  }

  /** The block as it should come out; nothing when its cue is over. */
  function Wanted(block: seq<string>, seconds: real): seq<string> {
    match ShiftBlock(block, seconds) case None => [] case Some(b) => b
  }

  lemma CueIsOver(block: seq<string>, cue: Cue, seconds: real)
    requires NonBlank(block) && CueOf(block) == Some(cue) && ShiftTiming(cue.timing, seconds).None?
    ensures ShiftDoc(block, seconds) == [] && AnyOver(block, seconds)
  {
    hide ParseCueTiming, Contains, Blank, TimingLine, CueOf, AfterBlock;
    CuePosition(block);
    var line := block[|cue.id|];
    assert line in block && Over(line, seconds);
    UpdateSplit(block, |cue.id|, line);
    ShiftUntimed(cue.id, [line] + cue.text, seconds);
    TimingStep(line, cue.text, cue.timing, seconds);
    AfterBlockOver(cue.text, []);
    NoHead(cue.text);
    AfterNothing();
    NoneInNothing(seconds);
  }

  /** Exactly when a block comes out as it should. */
  lemma BlockShiftsWell(block: seq<string>, seconds: real)
    requires NonBlank(block)
    ensures ShiftDoc(block, seconds) == Wanted(block, seconds) <==> ShiftsWell(block, seconds)
    ensures ShiftBlock(block, seconds).None? ==> AnyOver(block, seconds) && ShiftDoc(block, seconds) == []
    ensures ShiftBlock(block, seconds).Some? && ShiftsWell(block, seconds) ==> !AnyOver(block, seconds)
    ensures ShiftBlock(block, seconds).Some? ==> |ShiftBlock(block, seconds).value| == |block|
  {
    hide ParseCueTiming, Contains, Blank, TimingLine, CueOf, ShiftDoc;
    CuePosition(block);
    if AnyOver(block, seconds) {
      SomeOver(block, seconds);
    } else {
      NoneOver(block, seconds);
    }
    match CueOf(block)
    case None =>
    case Some(cue) =>
      var at := |cue.id|;
      if ShiftTiming(cue.timing, seconds).None? {
        CueIsOver(block, cue, seconds);
      } else {
        RestShiftsWell(block, cue, seconds);
      }
  }

  lemma RestShiftsWell(block: seq<string>, cue: Cue, seconds: real)
    requires NonBlank(block) && CueOf(block) == Some(cue) && ShiftTiming(cue.timing, seconds).Some?
    ensures ShiftDoc(block, seconds) == Wanted(block, seconds) <==> Stays(cue.text, seconds)
    ensures Stays(cue.text, seconds) ==> !AnyOver(block, seconds)
  {
    hide ParseCueTiming, Contains, Blank, TimingLine, CueOf, ShiftDoc, ShiftTiming, AnyOver, Stays, Over, NonBlank;
    CueLines(block, cue, seconds);
    OverInText(block, cue, seconds);
    if AnyOver(block, seconds) {
      SomeOver(block, seconds);
    } else {
      NoneOver(block, seconds);
      TextStays(block, cue, ShiftDoc(block, seconds), seconds);
    }
  }

  /** Where the lines of a cue come from. */
  lemma CueLines(block: seq<string>, cue: Cue, seconds: real)
    requires CueOf(block) == Some(cue) && ShiftTiming(cue.timing, seconds).Some?
    ensures |block| == |cue.id| + 1 + |cue.text| && !Over(block[|cue.id|], seconds)
    ensures forall i :: 0 <= i < |cue.id| ==> !Over(block[i], seconds) && ShiftLine(block[i], seconds) == block[i]
    ensures forall i :: 0 <= i < |cue.text| ==> block[|cue.id| + 1 + i] == cue.text[i]
    ensures var t := ShiftTiming(cue.timing, seconds).value;
      Wanted(block, seconds) == block[|cue.id| := TimingLine(t)] && ShiftLine(block[|cue.id|], seconds) == TimingLine(t)
  {
    hide ParseCueTiming, Contains, TimingLine, CueOf, ShiftTiming;
    CuePosition(block);
    assert forall i :: 0 <= i < |cue.id| ==> block[i] in cue.id;
  }

  /** Only the text of the cue can hold an expired timing. */
  lemma OverInText(block: seq<string>, cue: Cue, seconds: real)
    requires CueOf(block) == Some(cue) && ShiftTiming(cue.timing, seconds).Some?
    ensures AnyOver(block, seconds) ==> !Stays(cue.text, seconds)
  {
    hide ParseCueTiming, Contains, TimingLine, CueOf, ShiftTiming, Over;
    CueLines(block, cue, seconds);
    if AnyOver(block, seconds) {
      var i :| 0 <= i < |block| && Over(block[i], seconds);
      assert cue.text[i - |cue.id| - 1] == block[i];
    }
  }

  lemma TextStays(block: seq<string>, cue: Cue, shifted: seq<string>, seconds: real)
    requires CueOf(block) == Some(cue) && ShiftTiming(cue.timing, seconds).Some? && |shifted| == |block|
    requires forall i :: 0 <= i < |block| ==> !Over(block[i], seconds) && shifted[i] == ShiftLine(block[i], seconds)
    ensures shifted == Wanted(block, seconds) <==> Stays(cue.text, seconds)
  {
    hide ParseCueTiming, Contains, TimingLine, CueOf, ShiftTiming, Over, ShiftLine, Wanted;
    CueLines(block, cue, seconds);
    var want, at := Wanted(block, seconds), |cue.id|;
    if Stays(cue.text, seconds) {
      forall i | 0 <= i < |block| ensures shifted[i] == want[i] {
        if i > at {
          assert cue.text[i - at - 1] == block[i];
        }
      }
    }
    if shifted == want {
      forall i | 0 <= i < |cue.text| ensures !Over(cue.text[i], seconds) && ShiftLine(cue.text[i], seconds) == cue.text[i] {
        assert shifted[at + 1 + i] == want[at + 1 + i] == block[at + 1 + i];
      }
    }
  }

  lemma UpdateSplit(block: seq<string>, at: nat, line: string)
    requires at < |block|
    ensures block[at := line] == block[..at] + ([line] + block[at + 1..])
    ensures block == block[..at] + ([block[at]] + block[at + 1..])
  {
  }

  /** Re-timing one block, whatever follows it. */
  lemma ShiftOneBlock(block: seq<string>, rest: seq<string>, seconds: real)
    requires NonBlank(block) && ShiftsWell(block, seconds) && AtBreak(rest)
    ensures ShiftDoc(block + rest, seconds)
         == match ShiftBlock(block, seconds)
            case None => ShiftDoc(AfterBlock(rest), seconds)
            case Some(b) => b + Closed(rest, seconds)
  {
    hide ShiftDoc, ShiftBlock, ShiftsWell, AnyOver, AfterBlock, Closed, NonBlank, Drops;
    BlockShiftsWell(block, seconds);
    BlockAndRest(block, rest, seconds);
    NoHead(ShiftDoc(AfterBlock(rest), seconds));
  }

  lemma TimingStep(line: string, tail: seq<string>, timing: Timing, seconds: real)
    requires !Blank(line) && ParseCueTiming(line) == Some(timing)
    ensures Drops([line] + tail, seconds) <==> ShiftTiming(timing, seconds).None?
    ensures ShiftDoc([line] + tail, seconds)
         == match ShiftTiming(timing, seconds)
            case None => ShiftDoc(AfterBlock(tail), seconds)
            case Some(t) => [TimingLine(t)] + ShiftDoc(tail, seconds)
  {
    hide ParseCueTiming, Blank, TimingLine;
    Cut([line], tail);
  }

  // ---- Whole documents ---------------------------------------------------------------

  /** A document is its first block and what follows. */
  lemma FirstBlock(lines: seq<string>) returns (block: seq<string>, rest: seq<string>)
    ensures lines == block + rest && NonBlank(block) && AtBreak(rest)
    ensures Blocks([], lines) == Close(block) + (if rest == [] then [] else Blocks([], rest[1..]))
    ensures rest != [] ==> |rest[1..]| < |lines|
    ensures block == lines[..BlockLen(lines)] && rest == lines[BlockLen(lines)..]
  {
    hide Blank;
    var n := BlockLen(lines);
    block, rest := lines[..n], lines[n..];
    BlocksOver([], block, rest);
    NoHead(block);
    NoHead(Close(block));
  }

  /** Each block re-timed on its own; a dropped one takes its blank line along. */
  function Promised(lines: seq<string>, seconds: real): seq<string>
    decreases |lines|
  {
    var block, rest := lines[..BlockLen(lines)], lines[BlockLen(lines)..];
    if rest == [] then Wanted(block, seconds)
    else match ShiftBlock(block, seconds)
      case None => Promised(rest[1..], seconds)
      case Some(b) => b + ([""] + Promised(rest[1..], seconds))
  }

  lemma EveryBlockWell(block: seq<string>, more: seq<seq<string>>, seconds: real)
    ensures AllShiftWell(Close(block) + more, seconds) <==> ShiftsWell(block, seconds) && AllShiftWell(more, seconds)
  {
    hide CueOf, Stays;
    EmptyWell(seconds);
    assert forall b :: b in Close(block) + more <==> (block != [] && b == block) || b in more;
  }

  lemma EmptyWell(seconds: real)
    ensures ShiftsWell([], seconds)
  {
    assert ArrowAt([]).None?;
  }

  /** Exactly which documents are re-timed block by block: those whose every block
      shifts well. In any other some line is lost or altered. */
  lemma {:induction false} LinesShiftWell(lines: seq<string>, seconds: real)
    ensures ShiftDoc(lines, seconds) == Promised(lines, seconds) <==> AllShiftWell(Blocks([], lines), seconds)
    ensures |ShiftDoc(lines, seconds)| <= |Promised(lines, seconds)|
    decreases |lines|
  {
    hide ShiftDoc, ShiftBlock, ShiftsWell, AllShiftWell, Blank, Blocks, AfterBlock, NonBlank, AnyOver, Closed, Drops;
    var block, rest := FirstBlock(lines);
    var more := if rest == [] then [] else Blocks([], rest[1..]);
    EveryBlockWell(block, more, seconds);
    BlockShiftsWell(block, seconds);
    BlockAndRest(block, rest, seconds);
    BlockLength(block, seconds);
    BreakFacts(rest, seconds);
    ClosedIs(rest, seconds);
    if rest == [] {
      ShiftNothing(seconds);
      NoHead(ShiftDoc(block, seconds));
      NoneWell(seconds);
    } else {
      LinesShiftWell(rest[1..], seconds);
      PartsEqual(ShiftDoc(block, seconds), ShiftDoc(rest[1..], seconds), Wanted(block, seconds), Promised(rest[1..], seconds));
      NoHead(ShiftDoc(rest[1..], seconds));
    }
  }

  lemma BlockLength(block: seq<string>, seconds: real)
    requires NonBlank(block)
    ensures AnyOver(block, seconds) ==> |ShiftDoc(block, seconds)| < |block|
    ensures !AnyOver(block, seconds) ==> |ShiftDoc(block, seconds)| == |block|
  {
    hide ShiftDoc, AnyOver;
    if AnyOver(block, seconds) {
      SomeOver(block, seconds);
    } else {
      NoneOver(block, seconds);
    }
  }

  lemma NoneWell(seconds: real)
    ensures AllShiftWell([], seconds)
  {
  }

  lemma PartsEqual(a: seq<string>, more: seq<string>, b: seq<string>, promised: seq<string>)
    ensures |a| == |b| ==> (a + ([""] + more) == b + ([""] + promised) <==> a == b && more == promised)
  {
    if |a| == |b| && a + ([""] + more) == b + ([""] + promised) {
      Cut(a, [""] + more);
      Cut(b, [""] + promised);
      Cut([""], more);
      Cut([""], promised);
    }
  }

  lemma ShiftedBlockShape(block: seq<string>, seconds: real)
    requires NonBlank(block)
    ensures ShiftBlock(block, seconds).Some? ==>
      var b := ShiftBlock(block, seconds).value;
      |b| == |block| && (BlockOk(block) ==> BlockOk(b)) && NonBlank(b)
      && (Clean(block) ==> Clean(b))
      && match CueOf(block)
         case None => b == block && CueOf(b) == None
         case Some(cue) =>
           ShiftTiming(cue.timing, seconds).Some?
           && CueOf(b) == Some(cue.(timing := QuantizedTiming(ShiftTiming(cue.timing, seconds).value)))
  {
    hide ParseCueTiming, Contains, Blank, CleanLine, TimingLine;
    CuePosition(block);
    match CueOf(block)
    case None =>
    case Some(cue) =>
      match ShiftTiming(cue.timing, seconds)
      case None =>
      case Some(t) =>
        var at, line := |cue.id|, TimingLine(t);
        var b := block[at := line];
        assert block[at] in block;
        ParsedSettings(block[at]);
        TimingRoundTrip(t);
        if Clean(block) {
          TimingLineClean(t);
        }
        assert forall l :: l in b ==> l == line || l in block;
        assert b[..at] == block[..at] && b[at + 1..] == block[at + 1..];
        assert BlockOk(block) ==> BlockOk(b);
  }

  lemma {:induction false} ShiftBlocksConcat(a: seq<seq<string>>, b: seq<seq<string>>, seconds: real)
    ensures ShiftBlocks(a + b, seconds) == ShiftBlocks(a, seconds) + ShiftBlocks(b, seconds)
  {
    hide ShiftBlock;
    if a == [] {
      NoHead(b);
      NoHead(ShiftBlocks(b, seconds));
    } else {
      Tail(a, b);
      ShiftBlocksConcat(a[1..], b, seconds);
      var head := match ShiftBlock(a[0], seconds) case None => [] case Some(x) => [x];
      Assoc(head, ShiftBlocks(a[1..], seconds), ShiftBlocks(b, seconds));
    }
  }

  lemma ShiftClosed(block: seq<string>, seconds: real)
    requires NonBlank(block)
    ensures ShiftBlocks(Close(block), seconds)
         == match ShiftBlock(block, seconds) case None => [] case Some(b) => Close(b)
  {
    hide ParseCueTiming, Contains, Blank;
    ShiftedBlockShape(block, seconds);
    if block != [] {
      assert [block][1..] == [];
    }
  }

  /** Re-timing the lines is re-timing the blocks. */
  lemma {:induction false} BlocksOfShift(lines: seq<string>, seconds: real)
    requires AllShiftWell(Blocks([], lines), seconds)
    ensures Blocks([], ShiftDoc(lines, seconds)) == ShiftBlocks(Blocks([], lines), seconds)
    decreases |lines|
  {
    hide ShiftDoc, ShiftBlock, Blank, BlockOk, AfterBlock, ShiftsWell, Blocks, Closed;
    var block, rest := FirstBlock(lines);
    FirstBlockWell(block, lines, seconds);
    var more := if rest == [] then [] else Blocks([], rest[1..]);
    ShiftBlocksConcat(Close(block), more, seconds);
    ShiftClosed(block, seconds);
    ShiftOneBlock(block, rest, seconds);
    BreakFacts(rest, seconds);
    NoBlocks();
    if rest != [] {
      assert forall b :: b in more ==> b in Blocks([], lines);
      BlocksOfShift(rest[1..], seconds);
    }
    ShiftedBlockShape(block, seconds);
    match ShiftBlock(block, seconds)
    case None =>
      NoHead(ShiftBlocks(more, seconds));
      ShiftNothing(seconds);
    case Some(b) =>
      BlocksOver([], b, Closed(rest, seconds));
      NoHead(b);
      BlocksClosed(b, rest, seconds);
  }

  lemma NoBlocks()
    ensures Blocks([], []) == []
  {
  }

  lemma FirstBlockWell(block: seq<string>, lines: seq<string>, seconds: real)
    requires AllShiftWell(Blocks([], lines), seconds)
    requires block != [] ==> block in Blocks([], lines)
    ensures ShiftsWell(block, seconds)
  {
    if block == [] {
      assert ArrowAt(block).None?;
    }
  }

  lemma FirstBlockOk(block: seq<string>, lines: seq<string>)
    requires BlocksOk(Blocks([], lines))
    requires block != [] ==> block in Blocks([], lines)
    ensures BlockOk(block)
  {
  }

  lemma BlocksClosed(b: seq<string>, rest: seq<string>, seconds: real)
    ensures Blocks(b, Closed(rest, seconds))
         == Close(b) + (if rest == [] then [] else Blocks([], ShiftDoc(rest[1..], seconds)))
  {
    hide ShiftDoc;
    if rest == [] {
      NoHead(Close(b));
    } else {
      Cut([""], ShiftDoc(rest[1..], seconds));
    }
  }

  /** Exact times let a shift be repeated on the printed text. */
  predicate ExactCues(blocks: seq<seq<string>>) {
    forall b :: b in blocks && CueOf(b).Some? ==>
      MsExact(CueOf(b).value.timing.start) && MsExact(CueOf(b).value.timing.end)
  }

  lemma ShiftTimingTwice(t: Timing, a: real, c: real)
    requires a > 0.0 && c > 0.0 && MsExact(a) && MsExact(t.start) && MsExact(t.end)
    ensures match ShiftTiming(t, a)
            case None => ShiftTiming(t, a + c).None?
            case Some(once) => QuantizedTiming(once) == once && ShiftTiming(once, c) == ShiftTiming(t, a + c)
  {
    hide Quantized;
    WholeMillis(0);
    ZeroExact();
    if t.end - a > 0.0 {
      ExactDifference(t.end, a);
    }
    if t.start >= a {
      ExactDifference(t.start, a);
    }
  }

  lemma ZeroExact()
    ensures Quantized(0.0) == 0.0
  {
    WholeMillis(0);
  }

  lemma ShiftBlockTwice(block: seq<string>, a: real, c: real)
    requires NonBlank(block) && BlockOk(block) && ExactCues([block])
    requires a > 0.0 && c > 0.0 && MsExact(a)
    ensures match ShiftBlock(block, a)
            case None => ShiftBlock(block, a + c) == None
            case Some(b) => ShiftBlock(b, c) == ShiftBlock(block, a + c)
  {
    hide ParseCueTiming, Contains, Blank, TimingLine, ShiftTiming, MsExact, QuantizedTiming;
    assert block in [block];
    ShiftedBlockShape(block, a);
    CuePosition(block);
    match CueOf(block)
    case None =>
    case Some(cue) =>
      ShiftTimingTwice(cue.timing, a, c);
      match ShiftTiming(cue.timing, a)
      case None =>
      case Some(once) =>
        assert CueOf(block[|cue.id| := TimingLine(once)]) == Some(cue.(timing := once));
        if ShiftTiming(once, c).Some? {
          UpdateTwice(block, |cue.id|, TimingLine(once), TimingLine(ShiftTiming(once, c).value));
        }
  }

  lemma UpdateTwice(block: seq<string>, at: nat, x: string, y: string)
    requires at < |block|
    ensures block[at := x][at := y] == block[at := y]
  {
  }

  /** Two shifts, one after the other, are one shift by the sum. */
  lemma {:induction false} ShiftDocTwice(lines: seq<string>, a: real, c: real)
    requires BlocksOk(Blocks([], lines)) && ExactCues(Blocks([], lines))
    requires a > 0.0 && c > 0.0 && MsExact(a)
    ensures ShiftDoc(ShiftDoc(lines, a), c) == ShiftDoc(lines, a + c)
    decreases |lines|
  {
    hide ShiftDoc, ShiftBlock, Blank, BlockOk, CueOf, MsExact, AfterBlock, ShiftsWell, Blocks, Closed;
    var block, rest := FirstBlock(lines);
    FirstBlockOk(block, lines);
    OkShiftsWell(block, a);
    OkShiftsWell(block, a + c);
    ExactFirst(block, Blocks([], lines));
    ShiftOneBlock(block, rest, a);
    ShiftOneBlock(block, rest, a + c);
    BreakFacts(rest, a);
    ShiftBlockTwice(block, a, c);
    ShiftNothing(a);
    ShiftNothing(c);
    ShiftNothing(a + c);
    if rest != [] {
      assert forall b :: b in Blocks([], rest[1..]) ==> b in Blocks([], lines);
      ShiftDocTwice(rest[1..], a, c);
    }
    ShiftedBlockShape(block, a);
    match ShiftBlock(block, a)
    case None =>
    case Some(b) =>
      var again := Closed(rest, a);
      ClosedBreaks(rest, a);
      ClosedIs(rest, a);
      ClosedIs(rest, a + c);
      ClosedIs(again, c);
      OkShiftsWell(b, c);
      ShiftOneBlock(b, again, c);
      BreakFacts(again, c);
  }

  lemma ExactFirst(block: seq<string>, blocks: seq<seq<string>>)
    requires ExactCues(blocks) && (block != [] ==> block in blocks)
    ensures ExactCues([block])
  {
  }

  lemma ShiftNothing(seconds: real)
    ensures ShiftDoc([], seconds) == []
  {
  }

  lemma ClosedIs(rest: seq<string>, seconds: real)
    ensures Closed(rest, seconds) == if rest == [] then [] else [""] + ShiftDoc(rest[1..], seconds)
  {
  }

  lemma ClosedBreaks(rest: seq<string>, seconds: real)
    ensures AtBreak(Closed(rest, seconds))
    ensures rest != [] ==> Closed(rest, seconds) != [] && Closed(rest, seconds)[1..] == ShiftDoc(rest[1..], seconds)
  {
    hide ShiftDoc;
  }

  // ---- From blocks to cues, from lines to text -----------------------------------------

  lemma {:induction false} CuesOfConcat(a: seq<seq<string>>, b: seq<seq<string>>)
    ensures CuesOf(a + b) == CuesOf(a) + CuesOf(b)
  {
    hide CueOf;
    if a == [] {
      NoHead(b);
      NoHead(CuesOf(b));
    } else {
      Tail(a, b);
      CuesOfConcat(a[1..], b);
      var head := match CueOf(a[0]) case None => [] case Some(cue) => [cue];
      Assoc(head, CuesOf(a[1..]), CuesOf(b));
    }
  }

  predicate BlocksNonBlank(blocks: seq<seq<string>>) {
    forall b :: b in blocks ==> NonBlank(b)
  }

  lemma {:induction false} BlocksAreNonBlank(block: seq<string>, lines: seq<string>)
    requires NonBlank(block)
    ensures BlocksNonBlank(Blocks(block, lines))
    decreases |lines|
  {
    hide Blank;
    if lines != [] {
      if Blank(lines[0]) {
        BlocksAreNonBlank([], lines[1..]);
      } else {
        BlocksAreNonBlank(block + [lines[0]], lines[1..]);
      }
    }
  }

  lemma {:induction false} CuesOfShift(blocks: seq<seq<string>>, seconds: real)
    requires BlocksNonBlank(blocks)
    ensures CuesOf(ShiftBlocks(blocks, seconds)) == ShiftCues(CuesOf(blocks), seconds)
  {
    hide CueOf, BlockOk, NonBlank, ShiftTiming, QuantizedTiming;
    if blocks != [] {
      assert blocks[0] in blocks;
      CuesOfShift(blocks[1..], seconds);
      ShiftedBlockShape(blocks[0], seconds);
      var head := match ShiftBlock(blocks[0], seconds) case None => [] case Some(b) => [b];
      CuesOfConcat(head, ShiftBlocks(blocks[1..], seconds));
      assert head != [] ==> head[1..] == [];
      NoHead(CuesOf(ShiftBlocks(blocks[1..], seconds)));
      match CueOf(blocks[0])
      case None => NoHead(CuesOf(blocks[1..]));
      case Some(cue) =>
        Cut([cue], CuesOf(blocks[1..]));
        NoHead(ShiftCue(cue, seconds));
    }
  }

  lemma {:induction false} ShiftedClean(lines: seq<string>, seconds: real)
    requires Clean(lines)
    ensures Clean(ShiftDoc(lines, seconds))
    decreases |lines|
  {
    hide CleanLine, ParseCueTiming, TimingLine, Blank;
    if lines != [] {
      assert lines[0] in lines;
      EmptyClean();
      CleanPart(lines, lines[1..]);
      ShiftedClean(lines[1..], seconds);
      match ParseCueTiming(lines[0])
      case None =>
      case Some(t) =>
        ParsedSettings(lines[0]);
        AfterBlockSuffix(lines[1..]);
        CleanPart(lines[1..], AfterBlock(lines[1..]));
        ShiftedClean(AfterBlock(lines[1..]), seconds);
        if ShiftTiming(t, seconds).Some? {
          TimingLineClean(ShiftTiming(t, seconds).value);
        }
    }
  }

  lemma EmptyClean()
    ensures CleanLine("")
  {
  }

  lemma CleanPart(lines: seq<string>, part: seq<string>)
    requires Clean(lines) && forall l :: l in part ==> l in lines
    ensures Clean(part)
  {
  }

  lemma {:induction false} AfterBlockSuffix(lines: seq<string>)
    ensures forall l :: l in AfterBlock(lines) ==> l in lines
  {
    hide Blank;
    if lines != [] && !Blank(lines[0]) {
      AfterBlockSuffix(lines[1..]);
    }
  }

  predicate HasBom(text: string) {
    text != "" && text[0] == BOM
  }

  function Prefix(text: string): string {
    if HasBom(text) then [BOM] else ""
  }

  function WithBom(lines: seq<string>): seq<string>
    requires lines != []
  {
    [[BOM] + lines[0]] + lines[1..]
  }

  lemma StripCrBom(line: string)
    ensures StripCr([BOM] + line) == [BOM] + StripCr(line)
  {
    if line != "" {
      Front([BOM], line);
    }
  }

  lemma BomFirstLine(t: string)
    requires t != ""
    ensures Lines(t) != [] && Lines([BOM] + t) == WithBom(Lines(t))
  {
    hide Find;
    FindSkips([BOM], t, "\n");
    match Find(t, "\n")
    case None =>
    case Some(at) =>
      StripCrBom(t[..at]);
      assert ([BOM] + t)[..at + 1] == [BOM] + t[..at];
      assert ([BOM] + t)[at + 2..] == t[at + 1..];
  }

  lemma UnlinesBom(lines: seq<string>)
    requires lines != []
    ensures Unlines(WithBom(lines)) == [BOM] + Unlines(lines)
  {
    Cut([[BOM] + lines[0]], lines[1..]);
    Assoc([BOM], lines[0], "\n" + Unlines(lines[1..]));
  }

  lemma HeaderIs(lines: seq<string>)
    requires HeaderOk(lines)
    ensures !Blank(lines[0]) && lines[0] != "" && lines[0][0] == 'W' && !Contains(lines[0], "-->")
  {
    hide Blank, Contains;
    var head := lines[0];
    assert head[..6] == "WEBVTT";
    assert head[0] == 'W';
    NotBlank([head[0]], head[1..]);
    HeadTail(head);
    var block, rest := FirstBlock(lines);
    FirstOfBlock(block, rest, lines);
  }

  /** The header's first line always stays first. */
  lemma HeaderStays(lines: seq<string>, seconds: real)
    requires LinesRetimable(lines, seconds)
    ensures !Drops(lines[1..], seconds)
    ensures ShiftBlock(Blocks([], lines)[0], seconds) == Some(Blocks([], lines)[0])
  {
    hide Blank, Drops, ShiftDoc, Contains, ParseCueTiming, Stays;
    HeaderIs(lines);
    var block, rest := FirstBlock(lines);
    FirstOfBlock(block, rest, lines);
    assert Blocks([], lines)[0] == block && block in Blocks([], lines);
    assert CueOf(block) == None;
    StaysNoneOver(block, seconds);
    NoneOver(block[1..], seconds);
    assert lines[1..] == block[1..] + rest;
    BlockAndRest(block[1..], rest, seconds);
  }

  lemma StaysNoneOver(block: seq<string>, seconds: real)
    requires Stays(block, seconds) && block != []
    ensures !AnyOver(block[1..], seconds)
  {
    hide Over;
    assert forall i :: 0 <= i < |block| - 1 ==> block[1..][i] == block[i + 1];
  }

  lemma FirstOfBlock(block: seq<string>, rest: seq<string>, lines: seq<string>)
    requires lines == block + rest && AtBreak(rest) && lines != [] && !Blank(lines[0])
    ensures block != [] && block[0] == lines[0]
  {
    hide Blank;
    if block == [] {
      NoHead(rest);
    }
  }

  lemma BomHeader(line: string)
    requires !Blank(line) && !Contains(line, "-->")
    ensures !Blank([BOM] + line) && ParseCueTiming([BOM] + line).None? && ParseCueTiming(line).None?
  {
    hide ParseCueTiming, Blank, Find;
    NotBlank([BOM], line);
    FindSkips([BOM], line, "-->");
    TimingHasArrow(line);
    TimingHasArrow([BOM] + line);
  }

  lemma HeaderShift(lines: seq<string>, seconds: real)
    requires LinesRetimable(lines, seconds)
    ensures ShiftDoc(lines, seconds) == [lines[0]] + ShiftDoc(lines[1..], seconds)
    ensures ShiftDoc(WithBom(lines), seconds) == WithBom(ShiftDoc(lines, seconds))
  {
    hide Blank, Drops, Contains, ParseCueTiming, LinesRetimable, HeaderOk;
    HeaderGiven(lines, seconds);
    HeaderIs(lines);
    HeaderStays(lines, seconds);
    BomHeader(lines[0]);
    Cut([[BOM] + lines[0]], lines[1..]);
    Cut([lines[0]], ShiftDoc(lines[1..], seconds));
  }

  lemma HeaderGiven(lines: seq<string>, seconds: real)
    requires LinesRetimable(lines, seconds)
    ensures HeaderOk(lines) && lines != []
  {
  }

  lemma ShiftedLinesOk(lines: seq<string>, seconds: real)
    requires LinesRetimable(lines, seconds)
    ensures Clean(ShiftDoc(lines, seconds)) && HeaderOk(ShiftDoc(lines, seconds))
    ensures BlocksOk(Blocks([], lines)) ==> BlocksOk(Blocks([], ShiftDoc(lines, seconds)))
  {
    hide ShiftDoc, Blank, Contains, BlockOk, Clean, NonBlank, Drops, ShiftsWell, ShiftBlock, Blocks, ArrowAt;
    ShiftedClean(lines, seconds);
    BlocksOfShift(lines, seconds);
    var blocks := Blocks([], lines);
    EmptyNonBlank();
    BlocksAreNonBlank([], lines);
    ShiftedBlocksOk(blocks, seconds);
    HeaderStays(lines, seconds);
    HeaderShift(lines, seconds);
    Cut([lines[0]], ShiftDoc(lines[1..], seconds));
    Cut([blocks[0]], ShiftBlocks(blocks[1..], seconds));
  }

  lemma EmptyNonBlank()
    ensures NonBlank([])
  {
  }

  lemma {:induction false} ShiftedBlocksOk(blocks: seq<seq<string>>, seconds: real)
    requires BlocksNonBlank(blocks)
    ensures BlocksOk(blocks) ==> BlocksOk(ShiftBlocks(blocks, seconds))
  {
    hide BlockOk, NonBlank, CueOf, Clean;
    if blocks != [] {
      assert blocks[0] in blocks;
      ShiftedBlockShape(blocks[0], seconds);
      ShiftedBlocksOk(blocks[1..], seconds);
    }
  }

  lemma OkRetimable(text: string, seconds: real)
    requires WellFormed(text)
    ensures Retimable(text, seconds)
  {
    hide BlockOk, ShiftsWell, Clean, HeaderOk, Blocks;
    forall b | b in Blocks([], DocLines(text))
      ensures ShiftsWell(b, seconds)
    {
      OkShiftsWell(b, seconds);
    }
  }

  /** Re-timing acts on the lines behind the byte-order mark. */
  lemma ShiftedTextIs(text: string, seconds: real)
    requires Retimable(text, seconds) && seconds > 0.0
    ensures ShiftedText(text, seconds) == Prefix(text) + Unlines(ShiftDoc(DocLines(text), seconds))
    ensures DocLines(ShiftedText(text, seconds)) == ShiftDoc(DocLines(text), seconds)
    ensures Clean(DocLines(ShiftedText(text, seconds)))
    ensures WellFormed(text) ==> WellFormed(ShiftedText(text, seconds))
    ensures Prefix(ShiftedText(text, seconds)) == Prefix(text)
  {
    hide ShiftDoc, LinesRetimable, Lines, Unlines, HeaderOk, Clean, BlocksOk, Blocks;
    var lines := DocLines(text);
    var shifted := ShiftDoc(lines, seconds);
    var body := Unlines(shifted);
    ShiftedLinesOk(lines, seconds);
    HeaderGiven(lines, seconds);
    HeaderShift(lines, seconds);
    FirstChar(shifted);
    ReadBack(shifted);
    if HasBom(text) {
      HeadTail(text);
      EmptyText();
      BomFirstLine(text[1..]);
      UnlinesBom(shifted);
      Cut([BOM], body);
    } else {
      NoHead(body);
    }
  }

  lemma EmptyText()
    ensures Lines("") == []
  {
  }

  lemma FirstChar(lines: seq<string>)
    requires HeaderOk(lines)
    ensures lines != [] && Unlines(lines) != "" && Unlines(lines)[0] == 'W'
  {
    HeaderIs(lines);
    Tail(lines[0], "\n" + Unlines(lines[1..]));
  }

  lemma ReadBack(lines: seq<string>)
    requires Clean(lines)
    ensures Lines(Unlines(lines)) == lines
  {
    hide Lines, Unlines;
    LinesOfUnlines(lines);
  }

  lemma CuesOfShiftedLines(lines: seq<string>, seconds: real)
    requires AllShiftWell(Blocks([], lines), seconds)
    ensures CuesOf(Blocks([], ShiftDoc(lines, seconds))) == ShiftCues(CuesOf(Blocks([], lines)), seconds)
  {
    hide AllShiftWell, BlocksNonBlank, ShiftDoc, CuesOf, ShiftCues;
    EmptyNonBlank();
    BlocksOfShift(lines, seconds);
    BlocksAreNonBlank([], lines);
    CuesOfShift(Blocks([], lines), seconds);
  }

  /** The cues of a re-timed document are the re-timed cues, and a well-formed
      document stays one. */
  lemma CuesOfShiftedText(text: string, seconds: real)
    requires Retimable(text, seconds) && seconds > 0.0
    ensures Cues(ShiftedText(text, seconds)) == ShiftCues(Cues(text), seconds)
    ensures WellFormed(text) ==> WellFormed(ShiftedText(text, seconds))
  {
    hide ShiftedText, DocLines, AllShiftWell, HeaderOk, Clean, CuesOf, Blocks, ShiftCues, ShiftDoc, WellFormed;
    ShiftedTextIs(text, seconds);
    CuesOfShiftedLines(DocLines(text), seconds);
  }

  /** SubRip made from a re-timed document: the byte-order mark and, numbered
      from one, exactly the re-timed cues that have something to show. */
  lemma RetimedSubRip(text: string, seconds: real)
    requires Retimable(text, seconds) && seconds > 0.0
    ensures SrtDoc(ShiftedText(text, seconds))
         == [BOM] + Unlines(NumberedLines(0, Entries(ShiftCues(Cues(text), seconds))))
  {
    hide ShiftedText, Cues, WellFormed, Retimable, Unlines, NumberedLines, Entries, ShiftCues;
    CuesOfShiftedText(text, seconds);
  }

  predicate ExactTimes(text: string) {
    ExactCues(Blocks([], DocLines(text)))
  }

  /** Shifts compose: re-timing a re-timed document adds up, letter by letter. */
  lemma ShiftsCompose(text: string, a: real, c: real)
    requires WellFormed(text) && ExactTimes(text)
    requires a > 0.0 && c > 0.0 && MsExact(a)
    ensures ShiftedText(ShiftedText(text, a), c) == ShiftedText(text, a + c)
  {
    hide ShiftedText, DocLines, HeaderOk, Clean, Blocks, ShiftDoc, ExactCues, BlocksOk, Prefix, MsExact, Unlines, Retimable;
    OkRetimable(text, a);
    OkRetimable(text, a + c);
    ShiftedTextIs(text, a);
    OkRetimable(ShiftedText(text, a), c);
    ShiftedTextIs(ShiftedText(text, a), c);
    ShiftedTextIs(text, a + c);
    ShiftDocTwice(DocLines(text), a, c);
  }

  /** What a second timing does that is over: it takes the blank line with it, so the
      kept cue swallows the next one. */
  lemma TwoTimingsJoinBlocks(kept: string, over: string, next: seq<string>, seconds: real)
    requires !Blank(kept) && ParseCueTiming(kept).Some?
    requires ShiftTiming(ParseCueTiming(kept).value, seconds).Some?
    requires !Blank(over) && ParseCueTiming(over).Some?
    requires ShiftTiming(ParseCueTiming(over).value, seconds).None?
    ensures ShiftDoc([kept, over, ""] + next, seconds)
         == [TimingLine(ShiftTiming(ParseCueTiming(kept).value, seconds).value)] + ShiftDoc(next, seconds)
  {
    hide ParseCueTiming, TimingLine, Blank;
    var lines := [kept, over, ""] + next;
    assert lines == [kept] + ([over] + ([""] + next));
    TimingStep(kept, [over] + ([""] + next), ParseCueTiming(kept).value, seconds);
    TimingStep(over, [""] + next, ParseCueTiming(over).value, seconds);
    BlankEmpty();
    Cut([""], next);
  }

  lemma BlankEmpty()
    ensures Blank("")
  {
  }
}

/** Reading back what is written: every list of cues has a WebVTT document, and
    the SubRip made from a document holds exactly its cues. */
module SubtitleFiles {
  import opened Text
  import opened TimeText
  import opened SrtText
  import opened Subtitles
  import opened SubtitleLaws

  // ---- Documents from blocks -----------------------------------------------------

  predicate Written(block: seq<string>) {
    block != [] && NonBlank(block)
  }

  predicate AllWritten(blocks: seq<seq<string>>) {
    forall b :: b in blocks ==> Written(b)
  }

  function DocumentLines(blocks: seq<seq<string>>): seq<string> {
    if blocks == [] then [] else blocks[0] + ([""] + DocumentLines(blocks[1..]))
  }

  /** Blocks written one after the other, each closed by a blank line, read back. */
  lemma {:induction false} DocumentBlocks(blocks: seq<seq<string>>)
    requires AllWritten(blocks)
    ensures Blocks([], DocumentLines(blocks)) == blocks
    ensures (forall b :: b in blocks ==> Clean(b)) ==> Clean(DocumentLines(blocks))
  {
    hide Blank, CleanLine;
    if blocks != [] {
      var block, rest := blocks[0], DocumentLines(blocks[1..]);
      assert block in blocks;
      HeadTail(blocks);
      DocumentBlocks(blocks[1..]);
      BlocksOver([], block, [""] + rest);
      NoHead(block);
      Cut([""], rest);
      BlankEmpty();
      EmptyClean();
    }
  }

  /** The lines a cue takes in a document. */
  function CueBlock(cue: Cue): seq<string> {
    cue.id + ([TimingLine(cue.timing)] + cue.text)
  }

  predicate PlainLines(lines: seq<string>) {
    NonBlank(lines) && Clean(lines) && forall l :: l in lines ==> !Contains(l, "-->")
  }

  predicate CueOk(cue: Cue) {
    |cue.id| <= 1 && PlainLines(cue.id) && PlainLines(cue.text)
    && Trimmed(cue.timing.settings) && CleanLine(cue.timing.settings)
    && QuantizedTiming(cue.timing) == cue.timing
  }

  /** A block of plain lines around one arrow line. */
  lemma OneArrow(id: seq<string>, line: string, text: seq<string>)
    requires |id| <= 1 && PlainLines(id) && PlainLines(text)
    requires !Blank(line) && CleanLine(line) && Contains(line, "-->")
    ensures var block := id + ([line] + text);
      Written(block) && Clean(block) && ArrowAt(block) == Some(|id|)
      && forall j :: 0 <= j < |block| && j != |id| ==> !Contains(block[j], "-->")
  {
    hide Blank, CleanLine, Contains;
    var block := id + ([line] + text);
    assert forall j :: 0 <= j < |block| ==>
      block[j] == if j < |id| then id[j] else if j == |id| then line else text[j - |id| - 1];
    assert NonBlank(block) && Clean(block);
  }

  lemma CueBlockRead(cue: Cue)
    requires CueOk(cue)
    ensures Written(CueBlock(cue)) && Clean(CueBlock(cue))
    ensures BlockOk(CueBlock(cue)) && CueOf(CueBlock(cue)) == Some(cue)
  {
    hide Blank, CleanLine, Contains, ParseCueTiming, TimingLine, PlainLines, Written, ArrowAt, Clean;
    var line := TimingLine(cue.timing);
    TimingRoundTrip(cue.timing);
    TimingLineClean(cue.timing);
    OneArrow(cue.id, line, cue.text);
    var block, at := CueBlock(cue), |cue.id|;
    Cut(cue.id, [line] + cue.text);
    Assoc(cue.id, [line], cue.text);
    Cut(cue.id + [line], cue.text);
    assert block[at] == line;
  }

  function CueBlocks(cues: seq<Cue>): seq<seq<string>> {
    if cues == [] then [] else [CueBlock(cues[0])] + CueBlocks(cues[1..])
  }

  predicate CuesOk(cues: seq<Cue>) {
    forall c :: c in cues ==> CueOk(c)
  }

  lemma {:induction false} CueBlocksRead(cues: seq<Cue>)
    requires CuesOk(cues)
    ensures AllWritten(CueBlocks(cues)) && BlocksOk(CueBlocks(cues)) && CuesOf(CueBlocks(cues)) == cues
    ensures forall b :: b in CueBlocks(cues) ==> Clean(b)
  {
    hide CueOk, Written, BlockOk, CueOf, CueBlock, Clean;
    if cues != [] {
      assert cues[0] in cues;
      HeadTail(cues);
      CueBlocksRead(cues[1..]);
      CueBlockRead(cues[0]);
      Cut([CueBlock(cues[0])], CueBlocks(cues[1..]));
    }
  }

  /** A WebVTT file holding `cues`. */
  function Document(cues: seq<Cue>): string {
    Unlines(DocumentLines([["WEBVTT"]] + CueBlocks(cues)))
  }

  lemma HeaderBlock()
    ensures Written(["WEBVTT"]) && Clean(["WEBVTT"]) && BlockOk(["WEBVTT"]) && CueOf(["WEBVTT"]) == None
    ensures ArrowAt(["WEBVTT"]) == None && StartsWith("WEBVTT", "WEBVTT")
  {
    hide ParseCueTiming, Find, Blank;
    var line := "WEBVTT";
    NotBlank(line, "");
    NoHead(line);
    FindNone(line, "-->");
    assert line[..6] == line;
  }

  /** Every list of cues is the content of a well-formed document. */
  lemma DocumentRead(cues: seq<Cue>)
    requires CuesOk(cues)
    ensures WellFormed(Document(cues)) && Cues(Document(cues)) == cues
  {
    hide Lines, Unlines, CueOk, Written, BlockOk, Clean, ArrowAt, CueOf, StartsWith;
    CueBlocksRead(cues);
    HeaderBlock();
    var blocks := [["WEBVTT"]] + CueBlocks(cues);
    Cut([["WEBVTT"]], CueBlocks(cues));
    NoHead(cues);
    DocumentBlocks(blocks);
    var lines := DocumentLines(blocks);
    assert lines[0] == "WEBVTT";
    assert LinesOk(lines);
    FirstChar(lines);
    ReadBack(lines);
  }

  // ---- SubRip read back --------------------------------------------------------------

  function EntryBlock(number: nat, e: Entry): seq<string> {
    [Digits(number), SrtTiming(e)] + e.body
  }

  /** One block an entry, numbered on from `number`. */
  function EntryBlocks(number: nat, entries: seq<Entry>): (blocks: seq<seq<string>>)
    ensures |blocks| == |entries|
    decreases |entries|
  {
    if entries == [] then [] else [EntryBlock(number + 1, entries[0])] + EntryBlocks(number + 1, entries[1..])
  }

  lemma {:induction false} EntryBlocksAt(number: nat, entries: seq<Entry>, i: nat)
    requires i < |entries|
    ensures EntryBlocks(number, entries)[i] == EntryBlock(number + i + 1, entries[i])
    decreases i
  {
    hide EntryBlock;
    Cut([EntryBlock(number + 1, entries[0])], EntryBlocks(number + 1, entries[1..]));
    if i > 0 {
      EntryBlocksAt(number + 1, entries[1..], i - 1);
      assert EntryBlocks(number, entries)[1..][i - 1] == EntryBlocks(number, entries)[i];
    }
  }

  predicate EntriesOk(entries: seq<Entry>) {
    forall e :: e in entries ==> NonBlank(e.body)
  }

  lemma {:induction false} NumberedIsDocument(number: nat, entries: seq<Entry>)
    ensures NumberedLines(number, entries) == DocumentLines(EntryBlocks(number, entries))
    decreases |entries|
  {
    hide EntryBlock, EntryLines;
    if entries != [] {
      var e := entries[0];
      NumberedIsDocument(number + 1, entries[1..]);
      Cut([EntryBlock(number + 1, e)], EntryBlocks(number + 1, entries[1..]));
      EntrySplit(number + 1, e, NumberedLines(number + 1, entries[1..]));
    }
  }

  lemma EntrySplit(number: nat, e: Entry, rest: seq<string>)
    ensures EntryLines(number, e) + rest == EntryBlock(number, e) + ([""] + rest)
  {
    hide Digits, SrtTiming;
    Assoc([Digits(number), SrtTiming(e)], e.body, [""]);
    Assoc(EntryBlock(number, e), [""], rest);
  }

  lemma NumberLine(number: nat)
    ensures !Blank(Digits(number)) && CleanLine(Digits(number))
  {
    hide Blank;
    DigitsRead(number);
    var s := Digits(number);
    assert s[0] in s && s[|s| - 1] in s;
    NotBlank(s, "");
    NoHead(s);
  }

  lemma TimesLine(e: Entry)
    ensures !Blank(SrtTiming(e)) && CleanLine(SrtTiming(e))
  {
    hide Blank, FormatTimestamp, Find;
    TimeShape(e.start);
    TimeShape(e.end);
    var s, t := SrtTimestamp(e.start), SrtTimestamp(e.end);
    NotBlank(s, " --> " + t);
    Front(" --> ", t);
    Front(s, " --> " + t);
    assert t[|t| - 1] in t;
  }

  lemma TimeShape(t: real)
    ensures var s := SrtTimestamp(t);
      s != "" && !IsWhitespace(s[0]) && '\n' !in s && '\r' !in s
  {
    hide FormatTimestamp, Find;
    var s := FormatTimestamp(t);
    TimestampShape(t);
    assert s[0] in s;
    match Find(s, ".")
    case None =>
    case Some(at) =>
      assert at > 0 ==> s[..at][0] == s[0];
      assert forall c :: c in s[..at] || c in s[at + 1..] ==> c in s;
  }

  lemma {:induction false} EntryBlocksWritten(number: nat, entries: seq<Entry>)
    requires EntriesOk(entries)
    ensures AllWritten(EntryBlocks(number, entries))
    decreases |entries|
  {
    hide Digits, SrtTiming, Blank, CleanLine;
    if entries != [] {
      var e := entries[0];
      assert e in entries;
      EntryBlocksWritten(number + 1, entries[1..]);
      NumberLine(number + 1);
      TimesLine(e);
      assert Written(EntryBlock(number + 1, e));
    }
  }

  // ---- Converted lines stay single lines ---------------------------------------------

  lemma {:induction false} ReplaceChars(s: string, pat: string, to: string)
    requires pat != ""
    ensures forall c :: c in Replace(s, pat, to) ==> c in s || c in to
    decreases |s|
  {
    if s != "" {
      if StartsWith(s, pat) {
        ReplaceChars(s[|pat|..], pat, to);
      } else {
        ReplaceChars(s[1..], pat, to);
      }
    }
  }

  lemma {:induction false} StripChars(s: string)
    ensures forall c :: c in StripTags(s) ==> c in s || c in "<>/ibu"
    decreases |s|, 1
  {
    hide Find, StripTagAt;
    match Find(s, "<")
    case None =>
    case Some(open) =>
      OpenFound(s);
      StripAtChars(s[open..]);
  }

  lemma {:induction false} StripAtChars(t: string)
    requires StartsWith(t, "<")
    ensures forall c :: c in StripTagAt(t) ==> c in t || c in "<>/ibu"
    decreases |t|, 0
  {
    hide Find, StripTags, NamePart;
    match Find(t, ">")
    case None =>
    case Some(close) =>
      CloseBound(t);
      StripChars(t[close + 1..]);
  }

  lemma {:induction false} ReplacedOneLine(s: string, k: nat)
    requires '\n' !in s && k <= 6
    ensures '\n' !in Replaced(s, k)
  {
    hide Replace;
    if k > 0 {
      ReplacedOneLine(s, k - 1);
      NamesFacts(k - 1);
      ReplaceChars(Replaced(s, k - 1), Entity(NAMES[k - 1]), Decoded(NAMES[k - 1]));
    }
  }

  lemma SrtLineOneLine(line: string)
    requires '\n' !in line
    ensures '\n' !in SrtLine(line)
  {
    hide Replaced, StripTags;
    StripChars(line);
    ReplacedOneLine(StripTags(line), 6);
  }

  predicate OneLiners(lines: seq<string>) {
    forall l :: l in lines ==> '\n' !in l
  }

  lemma {:induction false} BodyIsOk(text: seq<string>)
    ensures NonBlank(Body(text)) && (OneLiners(text) ==> OneLiners(Body(text)))
  {
    hide SrtLine, Blank;
    if text != [] {
      BodyIsOk(text[1..]);
      if OneLiners(text) {
        assert text[0] in text;
        SrtLineOneLine(text[0]);
      }
    }
  }

  predicate CueTextsOneLiners(cues: seq<Cue>) {
    forall c :: c in cues ==> OneLiners(c.text)
  }

  predicate EntriesOneLiners(entries: seq<Entry>) {
    forall e :: e in entries ==> OneLiners(e.body)
  }

  lemma {:induction false} EntriesAreOk(cues: seq<Cue>)
    ensures EntriesOk(Entries(cues)) && (CueTextsOneLiners(cues) ==> EntriesOneLiners(Entries(cues)))
  {
    hide Body, NonBlank, OneLiners;
    if cues != [] {
      BodyIsOk(cues[0].text);
      EntriesAreOk(cues[1..]);
      if CueTextsOneLiners(cues) {
        assert cues[0] in cues;
        assert CueTextsOneLiners(cues[1..]);
      }
    }
  }

  lemma {:induction false} BlocksOneLiners(block: seq<string>, lines: seq<string>)
    requires OneLiners(block) && OneLiners(lines)
    ensures forall b :: b in Blocks(block, lines) ==> OneLiners(b)
    decreases |lines|
  {
    hide Blank;
    if lines != [] {
      assert lines[0] in lines;
      BlocksOneLiners([], lines[1..]);
      BlocksOneLiners(block + [lines[0]], lines[1..]);
    }
  }

  lemma {:induction false} CuesOneLiners(blocks: seq<seq<string>>)
    requires forall b :: b in blocks ==> OneLiners(b)
    ensures CueTextsOneLiners(CuesOf(blocks))
  {
    hide ParseCueTiming, ArrowAt;
    if blocks != [] {
      assert blocks[0] in blocks;
      CuesOneLiners(blocks[1..]);
    }
  }

  // ---- What is read back ---------------------------------------------------------------

  /** A carriage return at the end of a line is read as part of its terminator. */
  function AsRead(entries: seq<Entry>): seq<Entry> {
    if entries == [] then [] else [entries[0].(body := StripCrs(entries[0].body))] + AsRead(entries[1..])
  }

  /** Only such lines are read differently. */
  lemma {:induction false} AsReadSame(entries: seq<Entry>)
    requires EntriesOneLiners(entries)
    ensures AsRead(entries) == entries <==> forall e :: e in entries ==> Clean(e.body)
  {
    hide Clean, OneLiners;
    if entries != [] {
      assert entries[0] in entries;
      assert EntriesOneLiners(entries[1..]);
      AsReadSame(entries[1..]);
      StripCrsSame(entries[0].body);
      HeadTail(entries);
      Cut([entries[0].(body := StripCrs(entries[0].body))], AsRead(entries[1..]));
    }
  }

  lemma {:induction false} StripCrsSame(lines: seq<string>)
    requires OneLiners(lines)
    ensures StripCrs(lines) == lines <==> Clean(lines)
  {
    if lines != [] {
      assert lines[0] in lines;
      StripCrsSame(lines[1..]);
      HeadTail(lines);
      Cut([StripCr(lines[0])], StripCrs(lines[1..]));
    }
  }

  lemma StripCrBlank(line: string)
    ensures Blank(StripCr(line)) <==> Blank(line)
  {
    hide Blank;
    BlankIffWhitespace(line);
    BlankIffWhitespace(StripCr(line));
    if line != "" && line[|line| - 1] == '\r' {
      assert line == line[..|line| - 1] + ['\r'];
    }
  }

  lemma {:induction false} StripCrsNonBlank(lines: seq<string>)
    requires NonBlank(lines)
    ensures NonBlank(StripCrs(lines))
  {
    hide Blank, StripCr;
    if lines != [] {
      assert lines[0] in lines;
      StripCrsNonBlank(lines[1..]);
      StripCrBlank(lines[0]);
    }
  }

  lemma {:induction false} AsReadOk(entries: seq<Entry>)
    requires EntriesOk(entries)
    ensures EntriesOk(AsRead(entries))
  {
    hide NonBlank;
    if entries != [] {
      assert entries[0] in entries;
      AsReadOk(entries[1..]);
      StripCrsNonBlank(entries[0].body);
    }
  }

  lemma CleanStripped(line: string)
    requires CleanLine(line)
    ensures StripCrs([line]) == [line]
  {
    var none: seq<string> := [];
    assert [line][1..] == none && StripCrs(none) == none;
  }

  lemma EntryAsRead(number: nat, e: Entry)
    ensures StripCrs(EntryLines(number, e)) == EntryLines(number, e.(body := StripCrs(e.body)))
  {
    hide StripCrs, Digits, SrtTiming, CleanLine;
    NumberLine(number);
    TimesLine(e);
    EmptyClean();
    CleanStripped(Digits(number));
    CleanStripped(SrtTiming(e));
    CleanStripped("");
    StripCrsConcat([Digits(number), SrtTiming(e)], e.body + [""]);
    StripCrsConcat([Digits(number)], [SrtTiming(e)]);
    StripCrsConcat(e.body, [""]);
    assert [Digits(number), SrtTiming(e)] == [Digits(number)] + [SrtTiming(e)];
    assert SrtTiming(e.(body := StripCrs(e.body))) == SrtTiming(e) by {
      SameTimes(e, StripCrs(e.body));
    }
  }

  lemma SameTimes(e: Entry, body: seq<string>)
    ensures SrtTiming(e.(body := body)) == SrtTiming(e)
  {
  }

  lemma {:induction false} NumberedAsRead(number: nat, entries: seq<Entry>)
    ensures StripCrs(NumberedLines(number, entries)) == NumberedLines(number, AsRead(entries))
    decreases |entries|
  {
    hide EntryLines;
    if entries != [] {
      var e := entries[0];
      NumberedAsRead(number + 1, entries[1..]);
      EntryAsRead(number + 1, e);
      StripCrsConcat(EntryLines(number + 1, e), NumberedLines(number + 1, entries[1..]));
      Cut([e.(body := StripCrs(e.body))], AsRead(entries[1..]));
    }
  }

  lemma {:induction false} NumberedOneLiners(number: nat, entries: seq<Entry>)
    requires EntriesOneLiners(entries)
    ensures OneLiners(NumberedLines(number, entries))
    decreases |entries|
  {
    hide Digits, SrtTiming;
    if entries != [] {
      assert entries[0] in entries;
      NumberedOneLiners(number + 1, entries[1..]);
      NumberLine(number + 1);
      TimesLine(entries[0]);
    }
  }

  /** For every text, well-formed or not: the blocks of the SubRip are the document's
      visible cues and nothing else: number, times and text of each, in order,
      numbered from one. */
  lemma SubRipRead(text: string)
    ensures Blocks([], DocLines(SrtDoc(text))) == EntryBlocks(0, AsRead(Entries(Cues(text))))
  {
    hide Blocks, CuesOf, Entries, EntryBlocks, DocumentLines, NumberedLines, Lines, Unlines, AsRead, StripCrs,
      CueTextsOneLiners, EntriesOneLiners, EntriesOk, AllWritten;
    LinesHaveNoBreak(StripBom(text));
    BlocksOneLiners([], DocLines(text));
    CuesOneLiners(Blocks([], DocLines(text)));
    var entries := Entries(Cues(text));
    EntriesAreOk(Cues(text));
    NumberedOneLiners(0, entries);
    NumberedAsRead(0, entries);
    LinesOfAny(NumberedLines(0, entries));
    AsReadOk(entries);
    NumberedIsDocument(0, AsRead(entries));
    EntryBlocksWritten(0, AsRead(entries));
    DocumentBlocks(EntryBlocks(0, AsRead(entries)));
    Cut([BOM], Unlines(NumberedLines(0, entries)));
  }

  /** The whole path of a DLNA subtitle request (src/media_server.rs): re-time,
      then convert. The file holds exactly the cues that end after `seconds`. */
  lemma ServedSubRip(text: string, seconds: real)
    requires Retimable(text, seconds) && seconds > 0.0
    ensures Blocks([], DocLines(SrtDoc(ShiftedText(text, seconds))))
         == EntryBlocks(0, AsRead(Entries(ShiftCues(Cues(text), seconds))))
  {
    hide Blocks, Cues, Entries, EntryBlocks, ShiftCues, DocLines, SrtDoc, ShiftedText, AsRead, Retimable, WellFormed;
    CuesOfShiftedText(text, seconds);
    SubRipRead(ShiftedText(text, seconds));
  }
}

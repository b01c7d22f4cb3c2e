/** `scan_user_rules` (src/firewall.rs): a line at a time through ufw's rule file
    with a bounded buffer, against the file split into lines. Characters are the
    file's bytes. */
module UserRules {
  import opened Text
  import opened FirewallText

  const MAX_LINE: nat := 65536

  /** The first line with its newline, if it has one. */
  function FirstLine(data: string): (line: string)
    requires data != ""
    ensures line != "" && |line| <= |data| && data[..|line|] == line
  {
    if data[0] == '\n' || |data| == 1 then data[..1] else
    var rest := FirstLine(data[1..]);
    assert data[..|rest| + 1] == [data[0]] + rest;
    [data[0]] + rest
  }

  /** The whole file split into lines, newlines included. */
  function FileLines(data: string): seq<string>
    decreases |data|
  {
    if data == "" then [] else var line := FirstLine(data); [line] + FileLines(data[|line|..])
  }

  predicate Closed(line: string) {
    line != "" && line[|line| - 1] == '\n'
  }

  /** The line and its newline fit the buffer. */
  predicate Fits(line: string) {
    |line| < 65536 || (|line| == 65536 && Closed(line))
  }

  /** A line the reader can hand over in full: a file that breaks off hides whether
      its last line is complete. */
  predicate Readable(line: string, broken: bool) {
    Fits(line) && (broken ==> Closed(line))
  }

  /** `broken`: reading fails where the data ends. */
  class LineReader {
    const data: string
    const broken: bool
    var pos: nat

    ghost predicate Valid()
      reads this
    {
      pos <= |data|
    }

    constructor (data: string, broken: bool)
      ensures Valid() && pos == 0 && this.data == data && this.broken == broken
    {
      this.data := data;
      this.broken := broken;
      pos := 0;
    }

    /** `take(limit).read_until('\n')`. */
    method ReadLine() returns (line: Option<string>)
      requires Valid()
      modifies this
      ensures Valid() && old(pos) <= pos
      ensures line.Some? ==> |line.value| <= MAX_LINE
      ensures var rest := data[old(pos)..];
        if rest == "" then pos == old(pos) && line == if broken then None else Some("")
        else
          var first := FirstLine(rest);
          if |first| >= MAX_LINE then line == Some(first[..MAX_LINE]) && pos == old(pos) + MAX_LINE
          else if !Closed(first) && broken then line == None
          else line == Some(first) && pos == old(pos) + |first|
    {
      var start := pos;
      ghost var rest := data[start..];
      while pos < |data| && pos - start < MAX_LINE && (pos == start || data[pos - 1] != '\n')
        invariant start <= pos <= |data| && pos - start <= MAX_LINE
        invariant forall i :: start <= i < pos - 1 ==> data[i] != '\n'
        decreases |data| - pos
      {
        pos := pos + 1;
      }
      if rest != "" {
        assert rest[..pos - start] == data[start..pos];
        FirstLineIs(rest, pos - start);
      }
      if pos == |data| && pos - start < MAX_LINE && (pos == start || data[pos - 1] != '\n') && broken {
        return None;
      }
      line := Some(data[start..pos]);
    }
  }

  /** Only the last character may be a newline. */
  predicate NoBreakBefore(s: string)
    requires s != ""
  {
    forall i :: 0 <= i < |s| - 1 ==> s[i] != '\n'
  }

  lemma {:induction false} FirstLineIs(rest: string, n: nat)
    requires 0 < n <= |rest| && NoBreakBefore(rest[..n])
    ensures var first := FirstLine(rest);
      n <= |first| && rest[..n] == first[..n] && ((rest[n - 1] == '\n' || n == |rest|) ==> n == |first|)
  {
    if n > 1 {
      assert rest[1..][..n - 1] == rest[..n][1..];
      assert forall i :: 0 <= i < n - 1 ==> rest[..n][i] != '\n';
      FirstLineIs(rest[1..], n - 1);
    }
  }

  /** Line `i` decides the scan: it matches or cannot be read, and nothing before it. */
  predicate Decides(lines: seq<string>, rule: Rule, broken: bool, i: nat)
    requires i < |lines|
  {
    (!Readable(lines[i], broken) || TupleMatches(lines[i], rule))
    && forall j :: 0 <= j < i ==> Readable(lines[j], broken) && !TupleMatches(lines[j], rule)
  }

  predicate AllPass(lines: seq<string>, rule: Rule, broken: bool) {
    forall j :: 0 <= j < |lines| ==> Readable(lines[j], broken) && !TupleMatches(lines[j], rule)
  }

  /** Stops at the first line that matches or cannot be read in full. */
  method ScanUserRules(reader: LineReader, rule: Rule) returns (found: Option<bool>)
    requires reader.Valid() && reader.pos == 0
    modifies reader
    ensures var lines := FileLines(reader.data);
      found == Some(true) <==>
        exists i :: 0 <= i < |lines| && Decides(lines, rule, reader.broken, i) && Readable(lines[i], reader.broken)
    ensures found == Some(false) <==> !reader.broken && AllPass(FileLines(reader.data), rule, false)
  {
    hide TupleMatches, FirstLine;
    ghost var lines := FileLines(reader.data);
    ghost var n := 0;
    assert reader.data[0..] == reader.data;
    while true
      invariant reader.Valid() && n <= |lines|
      invariant lines[n..] == FileLines(reader.data[reader.pos..])
      invariant forall j :: 0 <= j < n ==> Readable(lines[j], reader.broken) && !TupleMatches(lines[j], rule)
      decreases |lines| - n
    {
      ghost var rest := reader.data[reader.pos..];
      var line := reader.ReadLine();
      if rest != "" {
        assert lines[n] == lines[n..][0] == FirstLine(rest);
        FirstLineShape(rest);
        OnlyAt(lines, rule, reader.broken, n);
      } else {
        assert n == |lines|;
      }
      if line.None? {
        return None;
      }
      if line.value == "" {
        return Some(false);
      }
      if |line.value| >= MAX_LINE && line.value[|line.value| - 1] != '\n' {
        return None;
      }
      assert line.value == lines[n];
      if TupleMatches(line.value, rule) {
        assert Decides(lines, rule, reader.broken, n);
        return Some(true);
      }
      assert lines[n + 1..] == lines[n..][1..];
      assert rest[|line.value|..] == reader.data[reader.pos..];
      n := n + 1;
    }
  }

  /** With everything before line `n` passed, no other line can decide. */
  lemma OnlyAt(lines: seq<string>, rule: Rule, broken: bool, n: nat)
    requires n < |lines|
    requires forall j :: 0 <= j < n ==> Readable(lines[j], broken) && !TupleMatches(lines[j], rule)
    ensures !Readable(lines[n], broken) || TupleMatches(lines[n], rule) ==>
      Decides(lines, rule, broken, n) && forall i :: 0 <= i < |lines| && Decides(lines, rule, broken, i) ==> i == n
  {
    hide TupleMatches, Readable;
  }

  /** Splitting loses nothing, and every line but the last is closed. */
  lemma {:induction false} FileLinesJoin(data: string)
    ensures Joined(FileLines(data)) == data
    ensures forall i :: 0 <= i < |FileLines(data)| - 1 ==> Closed(FileLines(data)[i])
    ensures forall i :: 0 <= i < |FileLines(data)| ==> FileLines(data)[i] != "" && NoBreakBefore(FileLines(data)[i])
    decreases |data|
  {
    if data != "" {
      var line := FirstLine(data);
      FirstLineShape(data);
      FileLinesJoin(data[|line|..]);
      assert data[..|line|] + data[|line|..] == data;
    }
  }

  function Joined(lines: seq<string>): string {
    if lines == [] then "" else lines[0] + Joined(lines[1..])
  }

  lemma {:induction false} FirstLineShape(data: string)
    requires data != ""
    ensures NoBreakBefore(FirstLine(data)) && (|FirstLine(data)| < |data| ==> Closed(FirstLine(data)))
  {
    if data[0] != '\n' && |data| > 1 {
      FirstLineShape(data[1..]);
    }
  }
}

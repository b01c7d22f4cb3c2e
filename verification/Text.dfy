/** The string operations of Rust's standard library that the subtitle, time and
    range code is written in, with the facts the proofs need about them. */
module Text {

  datatype Option<+T> = None | Some(value: T)

  // Sequence facts, kept apart so that the proofs using them stay small.

  lemma Assoc<T>(a: seq<T>, b: seq<T>, c: seq<T>)
    ensures a + b + c == a + (b + c)
  {
  }

  lemma Tail<T>(a: seq<T>, b: seq<T>)
    requires a != []
    ensures (a + b)[0] == a[0] && (a + b)[1..] == a[1..] + b
  {
  }

  lemma Cut<T>(a: seq<T>, b: seq<T>)
    ensures (a + b)[..|a|] == a && (a + b)[|a|..] == b
  {
  }

  lemma HeadTail<T>(a: seq<T>)
    requires a != []
    ensures [a[0]] + a[1..] == a
  {
  }

  lemma NoHead<T>(b: seq<T>)
    ensures [] + b == b && b + [] == b
  {
  }

  /** `char::is_whitespace`: the Unicode White_Space property. */
  predicate IsWhitespace(c: char) {
    var n := c as int;
    9 <= n <= 13 || n == 32 || n == 0x85 || n == 0xA0 || n == 0x1680
    || 0x2000 <= n <= 0x200A || n == 0x2028 || n == 0x2029 || n == 0x202F
    || n == 0x205F || n == 0x3000
  }

  function TrimStart(s: string): string {
    if s != "" && IsWhitespace(s[0]) then TrimStart(s[1..]) else s
  }

  function TrimEnd(s: string): string {
    if s != "" && IsWhitespace(s[|s| - 1]) then TrimEnd(s[..|s| - 1]) else s
  }

  function Trim(s: string): string {
    TrimEnd(TrimStart(s))
  }

  predicate Blank(s: string) {
    Trim(s) == ""
  }

  /** Neither end is whitespace, so trimming leaves the text alone. */
  predicate Trimmed(s: string) {
    s != "" ==> !IsWhitespace(s[0]) && !IsWhitespace(s[|s| - 1])
  }

  lemma {:induction false} TrimStartCuts(s: string)
    ensures |TrimStart(s)| <= |s| && TrimStart(s) == s[|s| - |TrimStart(s)|..]
    ensures TrimStart(s) != "" ==> !IsWhitespace(TrimStart(s)[0])
    ensures forall c :: c in s ==> c in TrimStart(s) || IsWhitespace(c)
  {
    hide TrimStart, IsWhitespace;
    TrimStartStep(s);
    if s != "" && IsWhitespace(s[0]) {
      TrimStartCuts(s[1..]);
      SuffixOfTail(s, TrimStart(s));
      InHeadOrTail(s);
    }
  }

  lemma TrimStartStep(s: string)
    ensures TrimStart(s) == if s != "" && IsWhitespace(s[0]) then TrimStart(s[1..]) else s
  {
    hide IsWhitespace;
  }

  lemma TrimEndStep(s: string)
    ensures TrimEnd(s) == if s != "" && IsWhitespace(s[|s| - 1]) then TrimEnd(s[..|s| - 1]) else s
  {
    hide IsWhitespace;
  }

  lemma SuffixOfTail(s: string, t: string)
    requires s != "" && |t| < |s| && t == s[1..][|s| - 1 - |t|..]
    ensures t == s[|s| - |t|..]
  {
  }

  lemma InHeadOrTail(s: string)
    requires s != ""
    ensures forall c :: c in s ==> c == s[0] || c in s[1..]
  {
    HeadTail(s);
  }

  lemma {:induction false} TrimEndCuts(s: string)
    ensures |TrimEnd(s)| <= |s| && TrimEnd(s) == s[..|TrimEnd(s)|]
    ensures TrimEnd(s) != "" ==> !IsWhitespace(TrimEnd(s)[|TrimEnd(s)| - 1])
    ensures forall c :: c in s ==> c in TrimEnd(s) || IsWhitespace(c)
  {
    hide TrimEnd, IsWhitespace;
    TrimEndStep(s);
    if s != "" && IsWhitespace(s[|s| - 1]) {
      TrimEndCuts(s[..|s| - 1]);
      assert s == s[..|s| - 1] + [s[|s| - 1]];
    }
  }

  lemma TrimGivesTrimmed(s: string)
    ensures Trimmed(Trim(s)) && |Trim(s)| <= |s|
    ensures forall c :: c in Trim(s) ==> c in s
  {
    TrimStartCuts(s);
    TrimEndCuts(TrimStart(s));
  }

  predicate AllSpace(s: string) {
    forall c :: c in s ==> IsWhitespace(c)
  }

  lemma {:induction false} TrimStartSkips(w: string, s: string)
    requires AllSpace(w)
    ensures TrimStart(w + s) == TrimStart(s)
  {
    if w == "" {
      NoHead(s);
    } else {
      Tail(w, s);
      assert w[0] in w;
      TrimStartSkips(w[1..], s);
    }
  }

  lemma Front<T>(a: seq<T>, b: seq<T>)
    requires b != []
    ensures (a + b)[|a + b| - 1] == b[|b| - 1] && (a + b)[..|a + b| - 1] == a + b[..|b| - 1]
  {
  }

  lemma {:induction false} TrimEndSkips(s: string, w: string)
    requires AllSpace(w)
    ensures TrimEnd(s + w) == TrimEnd(s)
  {
    if w == "" {
      NoHead(s);
    } else {
      Front(s, w);
      assert w[|w| - 1] in w;
      TrimEndSkips(s, w[..|w| - 1]);
    }
  }

  /** Whitespace around a trimmed text is exactly what trimming removes. */
  lemma TrimPadded(before: string, s: string, after: string)
    requires Trimmed(s) && s != "" && AllSpace(before) && AllSpace(after)
    ensures TrimStart(before + s) == s
    ensures TrimEnd(s + after) == s
    ensures Trim(before + (s + after)) == s
  {
    TrimStartSkips(before, s);
    TrimStartSkips(before, s + after);
    TrimEndSkips(s, after);
  }

  lemma TrimIdentity(s: string)
    requires Trimmed(s)
    ensures Trim(s) == s && TrimStart(s) == s && TrimEnd(s) == s
  {
  }

  lemma BlankIffWhitespace(s: string)
    ensures Blank(s) <==> AllSpace(s)
  {
    TrimStartCuts(s);
    TrimEndCuts(TrimStart(s));
    var t := TrimStart(s);
    if t != "" {
      assert t[0] in t && t[0] in s;
    }
  }

  function Shifted(at: Option<nat>, distance: nat): Option<nat> {
    match at case None => None case Some(n) => Some(n + distance)
  }

  predicate StartsWith(s: string, pat: string) {
    |pat| <= |s| && s[..|pat|] == pat
  }

  /** `str::find` for a non-empty pattern. */
  function Find(s: string, pat: string): (at: Option<nat>)
    requires pat != ""
    ensures at.Some? ==> at.value + |pat| <= |s|
  {
    if s == "" then None
    else if StartsWith(s, pat) then Some(0)
    else Shifted(Find(s[1..], pat), 1)
  }

  lemma {:induction false} FindFound(s: string, pat: string)
    requires pat != "" && Find(s, pat).Some?
    ensures var at := Find(s, pat).value; s[at..at + |pat|] == pat
  {
    if !StartsWith(s, pat) {
      FindFound(s[1..], pat);
      var at := Find(s[1..], pat).value;
      assert s[1..][at..at + |pat|] == s[at + 1..at + 1 + |pat|];
    }
  }

  predicate Contains(s: string, pat: string)
    requires pat != ""
  {
    Find(s, pat).Some?
  }

  lemma FindStep(s: string, pat: string)
    requires pat != "" && s != "" && s[0] != pat[0]
    ensures Find(s, pat) == Shifted(Find(s[1..], pat), 1)
  {
    if |s| >= |pat| {
      assert s[..|pat|][0] == s[0];
    }
  }

  /** A prefix without the pattern's first character cannot host a match. */
  lemma {:induction false} FindSkips(p: string, s: string, pat: string)
    requires pat != "" && pat[0] !in p
    ensures Find(p + s, pat) == Shifted(Find(s, pat), |p|)
  {
    if p == "" {
      NoHead(s);
    } else {
      assert p[0] in p;
      Tail(p, s);
      FindSkips(p[1..], s, pat);
      FindStep(p + s, pat);
    }
  }

  lemma FindNone(s: string, pat: string)
    requires pat != "" && pat[0] !in s
    ensures Find(s, pat) == None
  {
    FindSkips(s, "", pat);
    NoHead(s);
  }

  lemma FindAt(p: string, pat: string, s: string)
    requires pat != "" && pat[0] !in p
    ensures Find(p + (pat + s), pat) == Some(|p|)
  {
    Cut(pat, s);
    FindSkips(p, pat + s, pat);
  }

  /** `str::split_once` for a string pattern. */
  function SplitOnce(s: string, pat: string): (r: Option<(string, string)>)
    requires pat != ""
  {
    match Find(s, pat)
    case None => None
    case Some(at) => Some((s[..at], s[at + |pat|..]))
  }

  lemma SplitOnceAt(p: string, pat: string, s: string)
    requires pat != "" && pat[0] !in p
    ensures SplitOnce(p + (pat + s), pat) == Some((p, s))
  {
    FindAt(p, pat, s);
    Cut(p, pat + s);
    Assoc(p, pat, s);
    Cut(p + pat, s);
  }

  /** `str::split_once(char::is_whitespace)`. */
  function SplitSpace(s: string): (r: Option<(string, string)>)
    ensures r.Some? ==> |r.value.0| + 1 + |r.value.1| == |s|
  {
    if s == "" then None
    else if IsWhitespace(s[0]) then Some(("", s[1..]))
    else match SplitSpace(s[1..])
      case None => None
      case Some(pair) => Some(([s[0]] + pair.0, pair.1))
  }

  lemma {:induction false} SplitSpaceAt(p: string, s: string)
    requires forall c :: c in p ==> !IsWhitespace(c)
    requires s != "" ==> IsWhitespace(s[0])
    ensures SplitSpace(p + s) == if s == "" then None else Some((p, s[1..]))
  {
    if p == "" {
      NoHead(s);
    } else {
      Tail(p, s);
      HeadTail(p);
      SplitSpaceAt(p[1..], s);
    }
  }

  lemma {:induction false} SplitSpaceParts(s: string)
    ensures SplitSpace(s).Some? ==>
              forall c :: c in SplitSpace(s).value.0 || c in SplitSpace(s).value.1 ==> c in s
  {
    if s != "" && !IsWhitespace(s[0]) {
      SplitSpaceParts(s[1..]);
    }
  }

  /** `str::split` on one character. */
  function SplitOn(s: string, c: char): (parts: seq<string>)
    ensures |parts| >= 1
  {
    if s == "" then [""]
    else if s[0] == c then [""] + SplitOn(s[1..], c)
    else var rest := SplitOn(s[1..], c); [[s[0]] + rest[0]] + rest[1..]
  }

  lemma {:induction false} SplitOnPart(p: string, c: char)
    requires c !in p
    ensures SplitOn(p, c) == [p]
  {
    if p != "" {
      SplitOnPart(p[1..], c);
      HeadTail(p);
    }
  }

  lemma {:induction false} SplitOnAt(p: string, c: char, s: string)
    requires c !in p
    ensures SplitOn(p + ([c] + s), c) == [p] + SplitOn(s, c)
  {
    if p == "" {
      NoHead([c] + s);
      Cut([c], s);
    } else {
      Tail(p, [c] + s);
      HeadTail(p);
      SplitOnAt(p[1..], c, s);
    }
  }

  /** `str::replace`: every non-overlapping match, left to right. */
  function Replace(s: string, pat: string, to: string): string
    requires pat != ""
    decreases |s|
  {
    if s == "" then ""
    else if |pat| <= |s| && s[..|pat|] == pat then to + Replace(s[|pat|..], pat, to)
    else [s[0]] + Replace(s[1..], pat, to)
  }

  function StripCr(line: string): string {
    if line != "" && line[|line| - 1] == '\r' then line[..|line| - 1] else line
  }

  /** `str::lines`: a line ends at LF or CRLF, and a final line needs no terminator. */
  function Lines(text: string): (lines: seq<string>)
    decreases |text|
  {
    if text == "" then []
    else match Find(text, "\n")
      case None => [text]
      case Some(at) => [StripCr(text[..at])] + Lines(text[at + 1..])
  }

  /** Every line followed by a LF, as the loops push them onto their output. */
  function Unlines(lines: seq<string>): string {
    if lines == [] then "" else lines[0] + ("\n" + Unlines(lines[1..]))
  }

  /** A line that survives being written and read back. */
  predicate CleanLine(line: string) {
    '\n' !in line && (line != "" ==> line[|line| - 1] != '\r')
  }

  lemma {:induction false} FindFirst(s: string, c: char)
    ensures match Find(s, [c]) case None => c !in s case Some(at) => c !in s[..at]
  {
    if s != "" {
      HeadTail(s);
      if s[0] == c {
        assert s[..1] == [c];
      } else {
        FindFirst(s[1..], c);
        FindStep(s, [c]);
        var at := Find(s[1..], [c]);
        if at.Some? {
          assert s[..at.value + 1] == [s[0]] + s[1..][..at.value];
        }
      }
    }
  }

  lemma {:induction false} LinesHaveNoBreak(text: string)
    ensures forall l :: l in Lines(text) ==> '\n' !in l
    decreases |text|
  {
    if text != "" {
      FindFirst(text, '\n');
      match Find(text, "\n")
      case None =>
      case Some(at) => LinesHaveNoBreak(text[at + 1..]);
    }
  }

  lemma LinesStep(l: string, rest: string)
    requires '\n' !in l
    ensures Lines(l + ("\n" + rest)) == [StripCr(l)] + Lines(rest)
  {
    FindAt(l, "\n", rest);
    Cut(l, "\n" + rest);
    Assoc(l, "\n", rest);
    Cut(l + "\n", rest);
  }

  /** A line ends at LF or at CRLF; a last one without either is taken as it is. */
  lemma LineEnds(l: string, rest: string)
    requires '\n' !in l && CleanLine(l)
    ensures Lines(l + ("\n" + rest)) == [l] + Lines(rest)
    ensures Lines(l + ("\r\n" + rest)) == [l] + Lines(rest)
    ensures l != "" ==> Lines(l) == [l] && Lines(l + "\r") == [l + "\r"]
  {
    LinesStep(l, rest);
    LinesStep(l + "\r", rest);
    assert "\r\n" + rest == "\r" + ("\n" + rest);
    Assoc(l, "\r", "\n" + rest);
    Front(l, "\r");
    FindNone(l, "\n");
    FindNone(l + "\r", "\n");
    NoHead(l);
  }

  /** What is read back of lines written one after the other. */
  function StripCrs(lines: seq<string>): seq<string> {
    if lines == [] then [] else [StripCr(lines[0])] + StripCrs(lines[1..])
  }

  lemma {:induction false} StripCrsConcat(a: seq<string>, b: seq<string>)
    ensures StripCrs(a + b) == StripCrs(a) + StripCrs(b)
  {
    hide StripCr;
    if a == [] {
      NoHead(b);
      NoHead(StripCrs(b));
    } else {
      Tail(a, b);
      StripCrsConcat(a[1..], b);
      Assoc([StripCr(a[0])], StripCrs(a[1..]), StripCrs(b));
    }
  }

  lemma {:induction false} LinesOfAny(lines: seq<string>)
    requires forall l :: l in lines ==> '\n' !in l
    ensures Lines(Unlines(lines)) == StripCrs(lines)
  {
    hide StripCr;
    if lines != [] {
      HeadTail(lines);
      LinesOfAny(lines[1..]);
      LinesStep(lines[0], Unlines(lines[1..]));
    }
  }

  /** Splitting a written document gives its lines back. */
  lemma {:induction false} LinesOfUnlines(lines: seq<string>)
    requires forall l :: l in lines ==> CleanLine(l)
    ensures Lines(Unlines(lines)) == lines
  {
    hide CleanLine, StripCr;
    if lines != [] {
      HeadTail(lines);
      assert lines[0] in lines;
      CleanKept(lines[0]);
      LinesOfUnlines(lines[1..]);
      LinesStep(lines[0], Unlines(lines[1..]));
    }
  }

  lemma CleanKept(line: string)
    requires CleanLine(line)
    ensures '\n' !in line && StripCr(line) == line
  {
  }

  lemma {:induction false} UnlinesConcat(a: seq<string>, b: seq<string>)
    ensures Unlines(a + b) == Unlines(a) + Unlines(b)
  {
    if a == [] {
      NoHead(b);
      NoHead(Unlines(b));
    } else {
      Tail(a, b);
      UnlinesConcat(a[1..], b);
      Assoc("\n", Unlines(a[1..]), Unlines(b));
      Assoc(a[0], "\n" + Unlines(a[1..]), Unlines(b));
    }
  }

  lemma UnlinesOne(l: string)
    ensures Unlines([l]) == l + "\n"
  {
    assert Unlines([l][1..]) == "";
    NoHead("\n");
  }
}

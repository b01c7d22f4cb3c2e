/** `srt_text` (src/subtitles.rs): one line of WebVTT cue text as SubRip. */
module SrtText {
  import opened Text

  // ---- The code ----------------------------------------------------------

  predicate EndsName(c: char) {
    c == '.' || IsWhitespace(c)
  }

  /** `split(|c| c == '.' || c.is_whitespace()).next()`. */
  function NamePart(tag: string): string {
    if tag == "" || EndsName(tag[0]) then "" else [tag[0]] + NamePart(tag[1..])
  }

  predicate KeptName(name: string) {
    name == "i" || name == "b" || name == "u"
  }

  function Markup(closing: bool, name: string): string {
    if !KeptName(name) then "" else if closing then "</" + (name + ">") else "<" + (name + ">")
  }

  /** What is written for a tag, given the text between its brackets. */
  function TagText(tag: string): string {
    if tag != "" && tag[0] == '/' then Markup(true, NamePart(tag[1..])) else Markup(false, NamePart(tag))
  }

  lemma CloseBound(t: string)
    requires StartsWith(t, "<") && Find(t, ">").Some?
    ensures Find(t, ">").value >= 1
  {
    assert t[..1][0] == '<';
    FindFound(t, ">");
  }

  lemma OpenFound(rest: string)
    requires Find(rest, "<").Some?
    ensures StartsWith(rest[Find(rest, "<").value..], "<")
  {
    FindFound(rest, "<");
  }

  /** The text a line is left with once each tag is replaced by its markup. */
  function StripTags(rest: string): string
    decreases |rest|, 1
  {
    match Find(rest, "<")
    case None => rest
    case Some(open) => OpenFound(rest); rest[..open] + StripTagAt(rest[open..])
  }

  /** The same from an opening bracket on; an unclosed tag is left as it is. */
  function StripTagAt(t: string): string
    requires StartsWith(t, "<")
    decreases |t|, 0
  {
    match Find(t, ">")
    case None => t
    case Some(close) => CloseBound(t); TagText(t[1..close]) + StripTags(t[close + 1..])
  }

  /** The entities in the order the chain of `replace` calls decodes them. */
  const NAMES: seq<string> := ["lt", "gt", "nbsp", "lrm", "rlm", "amp"]

  function Decoded(name: string): string {
    match name
    case "lt" => "<"
    case "gt" => ">"
    case "nbsp" => " "
    case "lrm" => ""
    case "rlm" => ""
    case "amp" => "&"
    case _ => Entity(name)
  }

  function Entity(name: string): string {
    "&" + (name + ";")
  }

  /** The first `k` replacements of the chain. */
  function Replaced(s: string, k: nat): string
    requires k <= 6
  {
    if k == 0 then s else Replace(Replaced(s, k - 1), Entity(NAMES[k - 1]), Decoded(NAMES[k - 1]))
  }

  function SrtLine(line: string): string {
    Replaced(StripTags(line), 6)
  }

  /** The loop over the tags of a line. */
  method StripLoop(line: string) returns (out: string)
    ensures out == StripTags(line)
  {
    out := "";
    var rest := line;
    NoHead(StripTags(line));
    while Find(rest, "<").Some?
      invariant out + StripTags(rest) == StripTags(line)
      decreases |rest|
    {
      hide TagText;
      var open := Find(rest, "<").value;
      OpenFound(rest);
      Assoc(out, rest[..open], StripTagAt(rest[open..]));
      out, rest := out + rest[..open], rest[open..];
      var close := Find(rest, ">");
      if close.None? {
        return out + rest;
      }
      CloseBound(rest);
      var tag := TagText(rest[1..close.value]);
      Assoc(out, tag, StripTags(rest[close.value + 1..]));
      out, rest := out + tag, rest[close.value + 1..];
    }
    out := out + rest;
  }

  method SrtText(line: string) returns (text: string)
    ensures text == SrtLine(line)
  {
    hide Replaced;
    var out := StripLoop(line);
    text := Replace(out, "&lt;", "<");
    text := Replace(text, "&gt;", ">");
    text := Replace(text, "&nbsp;", " ");
    text := Replace(text, "&lrm;", "");
    text := Replace(text, "&rlm;", "");
    text := Replace(text, "&amp;", "&");
    ReplacedChain(out);
  }

  lemma ReplacedChain(s: string)
    ensures Replaced(s, 6) == Replace(Replace(Replace(Replace(Replace(Replace(s,
      "&lt;", "<"), "&gt;", ">"), "&nbsp;", " "), "&lrm;", ""), "&rlm;", ""), "&amp;", "&")
  {
    hide Replace;
    assert Entity("lt") == "&lt;" && Entity("gt") == "&gt;" && Entity("nbsp") == "&nbsp;";
    assert Entity("lrm") == "&lrm;" && Entity("rlm") == "&rlm;" && Entity("amp") == "&amp;";
    var a := Replaced(s, 1);
    var b := Replaced(s, 2);
    var c := Replaced(s, 3);
    var d := Replaced(s, 4);
    var e := Replaced(s, 5);
    assert a == Replace(Replaced(s, 0), "&lt;", "<");
    assert b == Replace(a, "&gt;", ">");
    assert c == Replace(b, "&nbsp;", " ");
    assert d == Replace(c, "&lrm;", "");
    assert e == Replace(d, "&rlm;", "");
  }

  // ---- Cue text (W3C WebVTT, section 4.2.2) --------------------------------

  /** A cue text line is made of characters, character references and tags.
      `detail` is what follows a tag's name: classes or an annotation. */
  datatype Item =
    | Plain(c: char)
    | Ref(name: string)
    | Tag(closing: bool, tagName: string, detail: string)

  predicate ItemOk(item: Item) {
    match item
    case Plain(c) => c != '&' && c != '<'
    case Ref(name) => '&' !in name && ';' !in name && '<' !in name
    case Tag(closing, name, detail) =>
      (forall c :: c in name ==> !EndsName(c)) && (name != "" ==> name[0] != '/')
      && (detail != "" ==> EndsName(detail[0])) && '>' !in name && '>' !in detail
  }

  predicate ItemsOk(items: seq<Item>) {
    forall i :: i in items ==> ItemOk(i)
  }

  function TagBody(closing: bool, name: string, detail: string): string {
    if closing then "/" + (name + detail) else name + detail
  }

  /** The item as it stands in the file. */
  function Source(item: Item): string {
    match item
    case Plain(c) => [c]
    case Ref(name) => Entity(name)
    case Tag(closing, name, detail) => "<" + (TagBody(closing, name, detail) + ">")
  }

  /** What the viewer is meant to see, with only the markup SubRip knows. */
  function Shown(item: Item): string {
    match item
    case Plain(c) => [c]
    case Ref(name) => Decoded(name)
    case Tag(closing, name, _) => Markup(closing, name)
  }

  function SourceText(items: seq<Item>): string {
    if items == [] then "" else Source(items[0]) + SourceText(items[1..])
  }

  function ShownText(items: seq<Item>): string {
    if items == [] then "" else Shown(items[0]) + ShownText(items[1..])
  }

  /** The item once tags are gone and the first `k` entities are decoded. */
  function Piece(item: Item, k: nat): string
    requires k <= 6
  {
    match item
    case Plain(c) => [c]
    case Ref(name) => if name in NAMES[..k] then Decoded(name) else Entity(name)
    case Tag(closing, name, _) => Markup(closing, name)
  }

  function Pieces(items: seq<Item>, k: nat): string
    requires k <= 6
  {
    if items == [] then "" else Piece(items[0], k) + Pieces(items[1..], k)
  }

  // ---- Tags ----------------------------------------------------------------

  lemma {:induction false} NamePartOf(name: string, detail: string)
    requires forall c :: c in name ==> !EndsName(c)
    requires detail != "" ==> EndsName(detail[0])
    ensures NamePart(name + detail) == name
  {
    if name == "" {
      NoHead(detail);
    } else {
      Tail(name, detail);
      HeadTail(name);
      assert name[0] in name;
      NamePartOf(name[1..], detail);
    }
  }

  lemma TagTextOf(closing: bool, name: string, detail: string)
    requires ItemOk(Tag(closing, name, detail))
    ensures TagText(TagBody(closing, name, detail)) == Markup(closing, name)
  {
    hide Markup, NamePart;
    NamePartOf(name, detail);
    if closing {
      Tail("/", name + detail);
      NoHead(name + detail);
    } else if name == "" {
      NoHead(detail);
    } else {
      Tail(name, detail);
    }
  }

  lemma StripPlain(p: string, s: string)
    requires '<' !in p
    ensures StripTags(p + s) == p + StripTags(s)
  {
    hide Find, StripTagAt;
    FindSkips(p, s, "<");
    var at := Find(s, "<");
    if at.Some? {
      OpenFound(s);
      assert (p + s)[|p| + at.value..] == s[at.value..];
      assert (p + s)[..|p| + at.value] == p + s[..at.value];
      Assoc(p, s[..at.value], StripTagAt(s[at.value..]));
    }
  }

  lemma StripTag(tag: string, s: string)
    requires '>' !in tag
    ensures StripTags("<" + (tag + (">" + s))) == TagText(tag) + StripTags(s)
  {
    hide Find, TagText;
    var t := "<" + (tag + (">" + s));
    NoHead(t);
    FindAt("", "<", tag + (">" + s));
    Assoc("<", tag, ">" + s);
    FindAt("<" + tag, ">", s);
    assert t[0..] == t && t[..0] == "";
    assert t[1..1 + |tag|] == tag && t[1 + |tag| + 1..] == s;
    NoHead(StripTagAt(t));
  }

  lemma StripItem(item: Item, s: string)
    requires ItemOk(item)
    ensures StripTags(Source(item) + s) == Piece(item, 0) + StripTags(s)
  {
    hide StripTags, Markup, TagText;
    match item
    case Plain(c) => StripPlain([c], s);
    case Ref(name) => StripPlain(Entity(name), s);
    case Tag(closing, name, detail) =>
      var body := TagBody(closing, name, detail);
      TagTextOf(closing, name, detail);
      StripTag(body, s);
      Assoc("<", body + ">", s);
      Assoc(body, ">", s);
  }

  lemma {:induction false} StripItems(items: seq<Item>)
    requires ItemsOk(items)
    ensures StripTags(SourceText(items)) == Pieces(items, 0)
  {
    hide Source, Piece;
    if items != [] {
      StripItems(items[1..]);
      StripItem(items[0], SourceText(items[1..]));
    } else {
      assert Find("", "<") == None;
    }
  }

  // ---- Entities --------------------------------------------------------------

  lemma ReplaceStep(s: string, pat: string, to: string)
    requires pat != "" && s != "" && s[0] != pat[0]
    ensures Replace(s, pat, to) == [s[0]] + Replace(s[1..], pat, to)
  {
    if |pat| <= |s| {
      assert s[..|pat|][0] == s[0];
    }
  }

  /** Text without the pattern's first character passes through. */
  lemma {:induction false} ReplaceSkips(p: string, s: string, pat: string, to: string)
    requires pat != "" && pat[0] !in p
    ensures Replace(p + s, pat, to) == p + Replace(s, pat, to)
  {
    hide Replace;
    if p == "" {
      NoHead(s);
      NoHead(Replace(s, pat, to));
    } else {
      Tail(p, s);
      HeadTail(p);
      assert p[0] in p;
      ReplaceStep(p + s, pat, to);
      ReplaceSkips(p[1..], s, pat, to);
      Assoc([p[0]], p[1..], Replace(s, pat, to));
    }
  }

  lemma ReplaceHit(pat: string, s: string, to: string)
    requires pat != ""
    ensures Replace(pat + s, pat, to) == to + Replace(s, pat, to)
  {
    Cut(pat, s);
  }

  /** Two entities that start at the same place are the same entity. */
  lemma EntityMatch(name: string, s: string, other: string)
    requires ';' !in name && ';' !in other
    requires StartsWith(Entity(name) + s, Entity(other))
    ensures name == other
  {
    var t, e := Entity(name) + s, Entity(other);
    FirstSemicolon(name, s);
    FirstSemicolon(other, t[|e|..]);
    assert e + t[|e|..] == t;
    assert |name| == |other|;
    assert t[..|e|][1..1 + |name|] == name;
  }

  lemma FirstSemicolon(name: string, s: string)
    requires ';' !in name
    ensures Find(Entity(name) + s, ";") == Some(|name| + 1)
  {
    hide Find;
    FindAt("&" + name, ";", s);
    Assoc("&", name, ";");
    Assoc("&" + name, ";", s);
  }

  /** An entity other than the one being decoded passes through. */
  lemma ReplaceOther(name: string, s: string, other: string, to: string)
    requires ';' !in name && ';' !in other && '&' !in name && name != other
    ensures Replace(Entity(name) + s, Entity(other), to) == Entity(name) + Replace(s, Entity(other), to)
  {
    var pat := Entity(other);
    var t := Entity(name) + s;
    if StartsWith(t, pat) {
      EntityMatch(name, s, other);
    }
    OneReplace(t, pat, to);
    Assoc("&", name + ";", s);
    Tail("&", (name + ";") + s);
    NoHead((name + ";") + s);
    ReplaceSkips(name + ";", s, pat, to);
    Assoc("&", name + ";", Replace(s, pat, to));
  }

  lemma OneReplace(t: string, pat: string, to: string)
    requires pat != "" && t != "" && !StartsWith(t, pat)
    ensures Replace(t, pat, to) == [t[0]] + Replace(t[1..], pat, to)
  {
  }

  lemma NamesFacts(k: nat)
    requires k < 6
    ensures NAMES[..k + 1] == NAMES[..k] + [NAMES[k]]
    ensures ';' !in NAMES[k] && '&' !in NAMES[k]
    ensures forall j :: 0 <= j < k ==> '&' !in Decoded(NAMES[j])
  {
    assert NAMES[0] == "lt" && NAMES[1] == "gt" && NAMES[2] == "nbsp";
    assert NAMES[3] == "lrm" && NAMES[4] == "rlm" && NAMES[5] == "amp";
  }

  /** One replacement of the chain, on one item. */
  lemma ReplaceItem(item: Item, s: string, k: nat)
    requires ItemOk(item) && k < 6
    ensures Replace(Piece(item, k) + s, Entity(NAMES[k]), Decoded(NAMES[k]))
         == Piece(item, k + 1) + Replace(s, Entity(NAMES[k]), Decoded(NAMES[k]))
  {
    hide Replace;
    var pat, to := Entity(NAMES[k]), Decoded(NAMES[k]);
    NamesFacts(k);
    match item
    case Plain(c) => ReplaceSkips([c], s, pat, to);
    case Tag(closing, name, _) => ReplaceSkips(Markup(closing, name), s, pat, to);
    case Ref(name) =>
      if name in NAMES[..k] {
        ReplaceSkips(Decoded(name), s, pat, to);
      } else if name == NAMES[k] {
        ReplaceHit(pat, s, to);
      } else {
        ReplaceOther(name, s, NAMES[k], to);
      }
  }

  lemma {:induction false} ReplacePieces(items: seq<Item>, k: nat)
    requires ItemsOk(items) && k < 6
    ensures Replace(Pieces(items, k), Entity(NAMES[k]), Decoded(NAMES[k])) == Pieces(items, k + 1)
  {
    hide Piece, Entity, Decoded;
    if items != [] {
      ReplacePieces(items[1..], k);
      ReplaceItem(items[0], Pieces(items[1..], k), k);
    }
  }

  lemma {:induction false} ReplacedPieces(items: seq<Item>, k: nat)
    requires ItemsOk(items) && k <= 6
    ensures Replaced(Pieces(items, 0), k) == Pieces(items, k)
  {
    hide Replace, Entity, Decoded;
    if k > 0 {
      ReplacedPieces(items, k - 1);
      ReplacePieces(items, k - 1);
    }
  }

  lemma {:induction false} PiecesShown(items: seq<Item>)
    ensures Pieces(items, 6) == ShownText(items)
  {
    if items != [] {
      assert NAMES[..6] == NAMES;
      PiecesShown(items[1..]);
    }
  }

  /** Every well-formed cue text line comes out as what it was meant to show:
      references decoded once, `i`, `b` and `u` kept, other tags gone. */
  lemma CueTextShown(items: seq<Item>)
    requires ItemsOk(items)
    ensures SrtLine(SourceText(items)) == ShownText(items)
  {
    hide *;
    hide Replace;
    StripItems(items);
    ReplacedPieces(items, 6);
    PiecesShown(items);
    SrtLineIs(SourceText(items));
  }

  lemma SrtLineIs(line: string)
    ensures SrtLine(line) == Replaced(StripTags(line), 6)
  {
  }

  function EscapeChar(c: char): string {
    match c case '&' => "&amp;" case '<' => "&lt;" case '>' => "&gt;" case _ => [c]
  }

  /** WebVTT escaping of a text line. */
  function Escape(text: string): string {
    if text == "" then "" else EscapeChar(text[0]) + Escape(text[1..])
  }

  function EscapeItem(c: char): Item {
    match c case '&' => Ref("amp") case '<' => Ref("lt") case '>' => Ref("gt") case _ => Plain(c)
  }

  function EscapeItems(text: string): seq<Item> {
    if text == "" then [] else [EscapeItem(text[0])] + EscapeItems(text[1..])
  }

  lemma EscapeOne(c: char)
    ensures ItemOk(EscapeItem(c)) && Source(EscapeItem(c)) == EscapeChar(c) && Shown(EscapeItem(c)) == [c]
  {
    assert Entity("amp") == "&amp;" && Entity("lt") == "&lt;" && Entity("gt") == "&gt;";
  }

  lemma {:induction false} EscapeIsSource(text: string)
    ensures ItemsOk(EscapeItems(text))
    ensures SourceText(EscapeItems(text)) == Escape(text) && ShownText(EscapeItems(text)) == text
  {
    hide ItemOk, Source, Shown, EscapeItem, EscapeChar;
    if text != "" {
      EscapeIsSource(text[1..]);
      EscapeOne(text[0]);
      HeadTail(text);
      Cut([EscapeItem(text[0])], EscapeItems(text[1..]));
    }
  }

  /** Converting an escaped line gives back the line, whatever it contains. */
  lemma UnescapesEveryLine(text: string)
    ensures SrtLine(Escape(text)) == text
  {
    hide *;
    EscapeIsSource(text);
    CueTextShown(EscapeItems(text));
  }
}

/** What becomes of the markup and the references of a cue text line, spelled out
    (`srt_text`, src/subtitles.rs). */
module CueText {
  import opened Text
  import opened SrtText

  /** Text that is shown as it stands. */
  predicate Literal(text: string) {
    '&' !in text && '<' !in text
  }

  function PlainItems(text: string): seq<Item> {
    if text == "" then [] else [Plain(text[0])] + PlainItems(text[1..])
  }

  lemma {:induction false} PlainIsShown(text: string)
    requires Literal(text)
    ensures ItemsOk(PlainItems(text)) && SourceText(PlainItems(text)) == text && ShownText(PlainItems(text)) == text
  {
    if text != "" {
      PlainIsShown(text[1..]);
      HeadTail(text);
      Cut([Plain(text[0])], PlainItems(text[1..]));
    }
  }

  lemma {:induction false} ItemsConcat(a: seq<Item>, b: seq<Item>)
    ensures SourceText(a + b) == SourceText(a) + SourceText(b) && ShownText(a + b) == ShownText(a) + ShownText(b)
  {
    hide Source, Shown;
    if a == [] {
      NoHead(b);
      NoHead(SourceText(b));
      NoHead(ShownText(b));
    } else {
      Tail(a, b);
      ItemsConcat(a[1..], b);
      Assoc(Source(a[0]), SourceText(a[1..]), SourceText(b));
      Assoc(Shown(a[0]), ShownText(a[1..]), ShownText(b));
    }
  }

  lemma OneItem(item: Item)
    ensures SourceText([item]) == Source(item) && ShownText([item]) == Shown(item)
  {
    hide Source, Shown;
    var none: seq<Item> := [];
    assert [item][1..] == none && SourceText(none) == "" && ShownText(none) == "";
    NoHead(Source(item));
    NoHead(Shown(item));
  }

  /** Literal text around one item comes out around what the item shows. */
  lemma Around(before: string, item: Item, after: string)
    requires Literal(before) && Literal(after) && ItemOk(item)
    ensures SrtLine(before + (Source(item) + after)) == before + (Shown(item) + after)
  {
    hide Source, Shown, SrtLine, ItemOk, SourceText, ShownText;
    var p, q := PlainItems(before), PlainItems(after);
    PlainIsShown(before);
    PlainIsShown(after);
    OneItem(item);
    ItemsConcat([item], q);
    ItemsConcat(p, [item] + q);
    CueTextShown(p + ([item] + q));
  }

  /** The references of WebVTT stand for these characters; the two direction marks leave
      nothing, a fixed space becomes a plain one, and any other reference stays. */
  lemma References(before: string, name: string, after: string)
    requires Literal(before) && Literal(after)
    requires '&' !in name && ';' !in name && '<' !in name
    ensures SrtLine(before + (("&" + (name + ";")) + after)) == before + (
      (if name == "amp" then "&" else if name == "lt" then "<" else if name == "gt" then ">" else if name == "nbsp" then " "
       else if name == "lrm" || name == "rlm" then "" else "&" + (name + ";")) + after)
  {
    hide SrtLine;
    Around(before, Ref(name), after);
  }

  /** Italics, bold and underline stay, without their classes; any other tag goes. */
  lemma Tags(before: string, slash: string, name: string, detail: string, after: string)
    requires Literal(before) && Literal(after) && (slash == "" || slash == "/")
    requires (forall c :: c in name ==> c != '.' && !IsWhitespace(c)) && (name != "" ==> name[0] != '/')
    requires (detail != "" ==> detail[0] == '.' || IsWhitespace(detail[0])) && '>' !in name && '>' !in detail
    ensures SrtLine(before + (("<" + (slash + (name + (detail + ">")))) + after))
         == before + ((if name == "i" || name == "b" || name == "u" then "<" + (slash + (name + ">")) else "") + after)
  {
    hide SrtLine, IsWhitespace;
    Around(before, Tag(slash == "/", name, detail), after);
    Assoc(name, detail, ">");
    NoHead(name + (detail + ">"));
    NoHead(name + ">");
    Assoc("<", "/", name + ">");
    Assoc("/", name + detail, ">");
    assert "<" + "/" == "</";
  }

  /** An opening bracket that is never closed is text. */
  lemma Unclosed(before: string, after: string)
    requires '<' !in before && '>' !in after && '&' !in before && '&' !in after
    ensures SrtLine(before + ("<" + after)) == before + ("<" + after)
  {
    hide Replace, Find;
    var t := "<" + after;
    NoHead(t);
    StripPlain(before, t);
    FindAt("", "<", after);
    FindNone(t, ">");
    assert t[0..] == t && t[..0] == "";
    NoReferences(before + t);
  }

  lemma {:induction false} NoReferencesYet(text: string, k: nat)
    requires '&' !in text && k <= 6
    ensures Replaced(text, k) == text
  {
    hide Replace, Decoded;
    if k > 0 {
      NoReferencesYet(text, k - 1);
      ReplaceSkips(text, "", Entity(NAMES[k - 1]), Decoded(NAMES[k - 1]));
      NoHead(text);
      Nothing(Entity(NAMES[k - 1]), Decoded(NAMES[k - 1]));
    }
  }

  lemma Nothing(pat: string, to: string)
    requires pat != ""
    ensures Replace("", pat, to) == ""
  {
  }

  lemma NoReferences(text: string)
    requires '&' !in text
    ensures Replaced(text, 6) == text
  {
    NoReferencesYet(text, 6);
  }
}

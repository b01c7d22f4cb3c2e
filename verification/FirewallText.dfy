/** The text side of the firewall ledger (src/firewall.rs): ledger lines, and the
    rule file ufw keeps. */
module FirewallText {
  import opened Text
  import opened TimeText

  // ---- Words -----------------------------------------------------------

  /** `str::split_whitespace`. */
  function Words(s: string): seq<string>
    decreases |s|
  {
    if s == "" then []
    else if IsWhitespace(s[0]) then Words(s[1..])
    else match SplitSpace(s)
      case None => [s]
      case Some(pair) => [pair.0] + Words(pair.1)
  }

  predicate Word(s: string) {
    s != "" && forall c :: c in s ==> !IsWhitespace(c)
  }

  lemma WordsOne(w: string)
    requires Word(w)
    ensures Words(w) == [w]
  {
    SplitSpaceAt(w, "");
    assert w + "" == w && w[0] in w;
  }

  lemma WordsMore(w: string, s: string)
    requires Word(w)
    ensures Words(w + (" " + s)) == [w] + Words(s)
  {
    SplitSpaceAt(w, " " + s);
    Tail(w, " " + s);
    assert (" " + s)[1..] == s && w[0] in w;
  }

  lemma DigitsAreWord(n: nat)
    ensures Word(Digits(n)) && '.' !in Digits(n) && AllDigits(Digits(n))
  {
    DigitsRead(n);
  }

  lemma DigitsInjective(a: nat, b: nat)
    ensures Digits(a) == Digits(b) ==> a == b
  {
    DigitsRead(a);
    DigitsRead(b);
  }

  // ---- Addresses ----------------------------------------------------------------------

  type Octet = n: nat | n < 256

  datatype Ipv4 = Ipv4(a: Octet, b: Octet, c: Octet, d: Octet) {
    /** Private or link-local; the broadcast address is neither. */
    predicate Lan() {
      a == 10 || (a == 172 && 16 <= b < 32) || (a == 192 && b == 168) || (a == 169 && b == 254)
    }

    function Show(): string {
      Digits(a) + ("." + (Digits(b) + ("." + (Digits(c) + ("." + Digits(d))))))
    }
  }

  /** One to three digits without a leading zero. */
  function ParseOctet(s: string): Option<Octet> {
    if s != "" && |s| <= 3 && AllDigits(s) && (|s| > 1 ==> s[0] != '0') && DigitsValue(s) < 256 then Some(DigitsValue(s))
    else None
  }

  function ParseIpv4(s: string): Option<Ipv4> {
    var p := SplitOn(s, '.');
    if |p| != 4 then None
    else match (ParseOctet(p[0]), ParseOctet(p[1]), ParseOctet(p[2]), ParseOctet(p[3]))
      case (Some(a), Some(b), Some(c), Some(d)) => Some(Ipv4(a, b, c, d))
      case _ => None
  }

  lemma OctetRoundTrip(n: Octet)
    ensures ParseOctet(Digits(n)) == Some(n)
  {
    DigitsRead(n);
    assert n >= 10 ==> Digits(n)[0] == Digits(n / 10)[0];
    assert n >= 100 ==> Digits(n / 10)[0] == Digits(n / 100)[0];
  }

  lemma Ipv4RoundTrip(ip: Ipv4)
    ensures ParseIpv4(ip.Show()) == Some(ip)
  {
    hide ParseOctet, Digits;
    DigitsAreWord(ip.a);
    DigitsAreWord(ip.b);
    DigitsAreWord(ip.c);
    DigitsAreWord(ip.d);
    OctetRoundTrip(ip.a);
    OctetRoundTrip(ip.b);
    OctetRoundTrip(ip.c);
    OctetRoundTrip(ip.d);
    SplitOnPart(Digits(ip.d), '.');
    SplitOnAt(Digits(ip.c), '.', Digits(ip.d));
    SplitOnAt(Digits(ip.b), '.', Digits(ip.c) + ("." + Digits(ip.d)));
    SplitOnAt(Digits(ip.a), '.', Digits(ip.b) + ("." + (Digits(ip.c) + ("." + Digits(ip.d)))));
  }

  lemma ShowIsWord(ip: Ipv4)
    ensures Word(ip.Show()) && Trim(ip.Show()) == ip.Show() && ip.Show() != "any" && '/' !in ip.Show()
  {
    hide Digits;
    DigitsAreWord(ip.a);
    DigitsAreWord(ip.b);
    DigitsAreWord(ip.c);
    DigitsAreWord(ip.d);
    var rest := "." + (Digits(ip.b) + ("." + (Digits(ip.c) + ("." + Digits(ip.d)))));
    assert forall c :: c in rest ==> !IsWhitespace(c) && c != '/';
    assert ip.Show()[0] == Digits(ip.a)[0] && Digits(ip.a)[0] in Digits(ip.a);
    WordTrims(ip.Show());
  }

  lemma WordTrims(s: string)
    requires Word(s)
    ensures Trim(s) == s
  {
    assert s[0] in s && s[|s| - 1] in s;
    TrimIdentity(s);
  }

  /** `valid_receiver_ip`: the canonical text of a LAN address. */
  function ValidReceiver(s: string): Option<string> {
    match ParseIpv4(Trim(s))
    case Some(ip) => if ip.Lan() then Some(ip.Show()) else None
    case None => None
  }

  ghost predicate LanText(s: string) {
    exists ip: Ipv4 :: ip.Lan() && s == ip.Show()
  }

  lemma ReceiverIsLan(s: string)
    ensures ValidReceiver(s).Some? ==> LanText(ValidReceiver(s).value)
    ensures LanText(s) ==> ValidReceiver(s) == Some(s) && Word(s) && s != "any" && '/' !in s
  {
    hide ParseIpv4;
    if LanText(s) {
      var ip: Ipv4 :| ip.Lan() && s == ip.Show();
      ShowIsWord(ip);
      Ipv4RoundTrip(ip);
    }
  }

  // ---- Ledger lines ---------------------------------------------------------------------

  const U16_MAX: nat := 65535

  datatype Rule = Rule(receiver: string, bind: string, port: nat) {
    function Line(): string {
      if bind == "any" then receiver else receiver + (" " + (bind + (" " + Digits(port))))
    }

    predicate Covers(to: string, at: string, on: nat) {
      receiver == to && port == on && (bind == "any" || bind == at)
    }
  }

  function ParseBind(s: string): Option<string> {
    match ParseIpv4(s)
    case Some(ip) => if ip.Lan() then Some(ip.Show()) else None
    case None => None
  }

  function ParsePort(s: string): Option<nat> {
    match ParseUint(s, U16_MAX)
    case Some(n) => if n > 0 then Some(n) else None
    case None => None
  }

  function ParseRule(line: string, legacyPort: nat): Option<Rule> {
    var fields := Words(line);
    if |fields| == 1 then
      if ValidReceiver(fields[0]) == Some(fields[0]) then Some(Rule(fields[0], "any", legacyPort)) else None
    else if |fields| == 3 then
      match (ParseBind(fields[1]), ParsePort(fields[2]))
      case (Some(bind), Some(port)) =>
        if ValidReceiver(fields[0]) == Some(fields[0]) then Some(Rule(fields[0], bind, port)) else None
      case _ => None
    else None
  }

  /** A rule the daemon itself could have written. */
  ghost predicate ValidRule(rule: Rule, legacyPort: nat) {
    LanText(rule.receiver)
    && if rule.bind == "any" then rule.port == legacyPort else LanText(rule.bind) && 0 < rule.port <= U16_MAX
  }

  lemma ParsedRuleIsValid(line: string, legacyPort: nat)
    ensures ParseRule(line, legacyPort).Some? ==> ValidRule(ParseRule(line, legacyPort).value, legacyPort)
  {
    hide ParseIpv4, LanText, Words, ParseBind, ValidReceiver, DigitsValue;
    var fields := Words(line);
    if |fields| == 1 || |fields| == 3 {
      ReceiverIsLan(fields[0]);
    }
    if |fields| == 3 {
      BindIsLan(fields[1]);
    }
  }

  lemma BindIsLan(s: string)
    ensures ParseBind(s).Some? ==> LanText(ParseBind(s).value) && ParseBind(s).value != "any"
    ensures LanText(s) ==> ParseBind(s) == Some(s)
  {
    hide ParseIpv4;
    if LanText(s) {
      var ip: Ipv4 :| ip.Lan() && s == ip.Show();
      Ipv4RoundTrip(ip);
    }
    if ParseBind(s).Some? {
      ShowIsWord(ParseIpv4(s).value);
    }
  }

  /** Every ledger line the daemon writes is read back as the same rule. */
  lemma LineRoundTrip(rule: Rule, legacyPort: nat)
    requires ValidRule(rule, legacyPort)
    ensures ParseRule(rule.Line(), legacyPort) == Some(rule)
  {
    hide ParseIpv4, ParseUint, LanText, Words, Digits, ValidReceiver, ParseBind;
    ReceiverIsLan(rule.receiver);
    if rule.bind == "any" {
      WordsOne(rule.receiver);
    } else {
      ReceiverIsLan(rule.bind);
      BindIsLan(rule.bind);
      ParseUintDigits(rule.port, U16_MAX);
      DigitsAreWord(rule.port);
      WordsOne(Digits(rule.port));
      WordsMore(rule.bind, Digits(rule.port));
      WordsMore(rule.receiver, rule.bind + (" " + Digits(rule.port)));
    }
  }

  // ---- ufw's tuples ------------------------------------------------------------------------

  const TUPLE := "### tuple ###"

  function Bare(address: string): string {
    if |address| >= 3 && address[|address| - 3..] == "/32" then address[..|address| - 3] else address
  }

  predicate FieldsMatch(f: seq<string>, rule: Rule) {
    6 <= |f| <= 9
    && ':' !in f[0] && f[1] == "tcp" && f[2] == Digits(rule.port) && f[4] == "any"
    && Bare(f[3]) == rule.bind && Bare(f[5]) == rule.receiver
    && (|f| >= 8 ==> f[6] == "-" && f[7] == "-")
    && (|f| == 7 ==> f[6] == "in") && (|f| == 9 ==> f[8] == "in")
  }

  function TupleText(line: string): Option<string> {
    if StartsWith(line, TUPLE) then
      var rest := line[|TUPLE|..];
      Some(match SplitOnce(rest, " comment=") case None => rest case Some(pair) => pair.0)
    else None
  }

  predicate TupleMatches(line: string, rule: Rule) {
    match TupleText(line) case Some(text) => FieldsMatch(Words(text), rule) case None => false
  }

  /** A line speaks for the traffic of at most one rule. */
  lemma MatchDeterminesRule(line: string, a: Rule, b: Rule)
    requires TupleMatches(line, a) && TupleMatches(line, b)
    ensures a == b
  {
    DigitsInjective(a.port, b.port);
  }

  /** The fields of a tuple as ufw writes them. */
  function Spaced(words: seq<string>): string {
    if words == [] then "" else " " + (words[0] + Spaced(words[1..]))
  }

  /** A word ufw cannot take for the start of the comment. */
  predicate PlainWord(w: string) {
    Word(w) && !StartsWith(w, "comment=")
  }

  lemma {:induction false} WordsOfSpaced(words: seq<string>)
    requires forall i :: 0 <= i < |words| ==> PlainWord(words[i])
    ensures Words(Spaced(words)) == words
  {
    hide Words, IsWhitespace;
    if words == [] {
      NoWords();
    } else {
      var rest := words[1..];
      WordsOfSpaced(rest);
      SkipSpace(words[0] + Spaced(rest));
      if rest == [] {
        WordsOne(words[0]);
        assert words[0] + "" == words[0];
      } else {
        WordsMore(words[0], rest[0] + Spaced(rest[1..]));
        SkipSpace(rest[0] + Spaced(rest[1..]));
      }
    }
  }

  lemma NoWords()
    ensures Words("") == []
  {
  }

  lemma SkipSpace(s: string)
    ensures Words(" " + s) == Words(s)
  {
    assert (" " + s)[1..] == s;
  }

  /** A plain word and what follows it cannot host the start of a comment. */
  lemma CommentStart(w: string, s: string)
    requires PlainWord(w) && (s != "" ==> s[0] == ' ')
    ensures Find(" " + (w + s), " comment=") == Shifted(Find(s, " comment="), 1 + |w|)
  {
    hide Find, StartsWith, Shifted;
    var t := " " + (w + s);
    NoCommentHere(w, s);
    Cut(" ", w + s);
    FindPast(t, " comment=");
    NoSpace(w);
    FindSkips(w, s, " comment=");
    ShiftedTwice(Find(s, " comment="), |w|);
  }

  lemma ShiftedTwice(at: Option<nat>, n: nat)
    ensures Shifted(Shifted(at, n), 1) == Shifted(at, 1 + n)
  {
  }

  lemma NoSpace(w: string)
    requires Word(w)
    ensures ' ' !in w
  {
  }

  lemma FindPast(s: string, pat: string)
    requires pat != "" && s != "" && !StartsWith(s, pat)
    ensures Find(s, pat) == Shifted(Find(s[1..], pat), 1)
  {
  }

  lemma CommentHere(w: string, s: string)
    requires s != "" ==> s[0] == ' '
    ensures StartsWith(" " + (w + s), " comment=") ==> StartsWith(w, "comment=")
  {
    var t := " " + (w + s);
    if StartsWith(t, " comment=") {
      assert t[..9] == " comment=";
      assert forall i :: 1 <= i < 9 ==> t[i] == t[..9][i] && t[i] != ' ';
      assert s != "" ==> t[1 + |w|] == ' ';
      assert |w| >= 8;
      assert w[..8] == t[..9][1..];
    }
  }

  lemma NoCommentHere(w: string, s: string)
    requires PlainWord(w) && (s != "" ==> s[0] == ' ')
    ensures !StartsWith(" " + (w + s), " comment=")
  {
    hide StartsWith;
    CommentHere(w, s);
  }

  lemma {:induction false} CommentAt(words: seq<string>, end: string)
    requires forall i :: 0 <= i < |words| ==> PlainWord(words[i])
    requires end == "" || StartsWith(end, " comment=")
    ensures Find(Spaced(words) + end, " comment=") == if end == "" then None else Some(|Spaced(words)|)
  {
    hide PlainWord, Find, StartsWith;
    if words == [] {
      NoHead(end);
      CommentItself(end);
    } else {
      var rest := Spaced(words[1..]);
      CommentAt(words[1..], end);
      SpaceFirst(words[1..], end);
      CommentStart(words[0], rest + end);
      Assoc(words[0], rest, end);
      Assoc(" ", words[0] + rest, end);
    }
  }

  lemma CommentItself(end: string)
    requires end == "" || StartsWith(end, " comment=")
    ensures Find(end, " comment=") == if end == "" then None else Some(0)
  {
  }

  lemma SpaceFirst(words: seq<string>, end: string)
    requires end == "" || StartsWith(end, " comment=")
    ensures Spaced(words) + end != "" ==> (Spaced(words) + end)[0] == ' '
  {
    assert end != "" ==> end[0] == end[..9][0];
  }

  /** A tuple line counts exactly when its fields do, whatever its comment. */
  lemma TupleRead(words: seq<string>, end: string, rule: Rule)
    requires forall i :: 0 <= i < |words| ==> PlainWord(words[i])
    requires end == "" || StartsWith(end, " comment=")
    ensures TupleMatches(TUPLE + (Spaced(words) + end), rule) <==> FieldsMatch(words, rule)
  {
    hide Words, Find, Spaced, PlainWord, FieldsMatch;
    var text := Spaced(words) + end;
    Tail(TUPLE, text);
    Cut(TUPLE, text);
    assert StartsWith(TUPLE + text, TUPLE);
    CommentAt(words, end);
    WordsOfSpaced(words);
    if end == "" {
      assert text == Spaced(words);
    } else {
      Cut(Spaced(words), end);
    }
  }
}

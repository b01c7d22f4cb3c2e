/** What the text of the firewall ledger means: which lines of ufw's rule file speak for
    the traffic of a rule, and which traffic a rule lets in (src/firewall.rs). */
module UfwTuples {
  import opened Text
  import opened TimeText
  import opened FirewallText

  // ---- The rule file -----------------------------------------------------------------------

  /** ufw's tuples have grown: with a direction, with application names, with both. */
  datatype Form = Six | Seven | Eight | Nine

  function Masked(address: string, masked: bool): string {
    if masked then address + "/32" else address
  }

  /** action, protocol, port, destination, source port, source. */
  function Written(action: string, rule: Rule, form: Form, to: bool, from: bool): seq<string> {
    [action, "tcp", Digits(rule.port), Masked(rule.bind, to), "any", Masked(rule.receiver, from)]
    + match form case Six => [] case Seven => ["in"] case Eight => ["-", "-"] case Nine => ["-", "-", "in"]
  }

  /** A tuple that lets the receiver in, or keeps it out: any action but a routed one. */
  ghost predicate SpeaksFor(words: seq<string>, rule: Rule) {
    exists action: string, form: Form, to: bool, from: bool ::
      ':' !in action && words == Written(action, rule, form, to, from)
  }

  predicate NoMask(address: string) {
    '/' !in address
  }

  lemma MaskedBare(address: string, masked: bool)
    requires NoMask(address)
    ensures Bare(Masked(address, masked)) == address
  {
    if |address| >= 3 {
      assert address[|address| - 3] in address;
    }
  }

  lemma BareMasked(text: string) returns (masked: bool)
    ensures text == Masked(Bare(text), masked)
  {
    masked := |text| >= 3 && text[|text| - 3..] == "/32";
    if masked {
      assert text == text[..|text| - 3] + text[|text| - 3..];
    }
  }

  lemma WrittenMatches(action: string, rule: Rule, form: Form, to: bool, from: bool)
    requires ':' !in action && NoMask(rule.bind) && NoMask(rule.receiver)
    ensures FieldsMatch(Written(action, rule, form, to, from), rule)
  {
    hide Digits, Masked, Bare;
    MaskedBare(rule.bind, to);
    MaskedBare(rule.receiver, from);
  }

  function FormOf(n: nat): Form {
    if n == 6 then Six else if n == 7 then Seven else if n == 8 then Eight else Nine
  }

  lemma MatchesWritten(words: seq<string>, rule: Rule)
    requires FieldsMatch(words, rule)
    ensures SpeaksFor(words, rule)
  {
    hide Digits, Masked, Bare;
    var to := BareMasked(words[3]);
    var from := BareMasked(words[5]);
    var w := Written(words[0], rule, FormOf(|words|), to, from);
    assert |w| == |words|;
    assert forall i :: 0 <= i < 6 ==> w[i] == words[i];
    assert forall i :: 6 <= i < |words| ==> w[i] == words[i];
    assert w == words;
  }

  /** A line of the rule file counts exactly when it is a tuple ufw writes for the traffic
      of the rule: in one of its four forms, for this port, from the receiver to the
      address we serve on, with or without "/32", whatever the action and the comment.
      Another protocol, direction, application, or a routed rule never counts. */
  lemma TupleMeans(words: seq<string>, end: string, rule: Rule)
    requires forall i :: 0 <= i < |words| ==> PlainWord(words[i])
    requires end == "" || StartsWith(end, " comment=")
    requires NoMask(rule.bind) && NoMask(rule.receiver)
    ensures TupleMatches(TUPLE + (Spaced(words) + end), rule) <==> SpeaksFor(words, rule)
  {
    hide FieldsMatch, PlainWord, Written, TupleMatches, Spaced;
    TupleRead(words, end, rule);
    if SpeaksFor(words, rule) {
      var action: string, form: Form, to: bool, from: bool :|
        ':' !in action && words == Written(action, rule, form, to, from);
      WrittenMatches(action, rule, form, to, from);
    }
    if FieldsMatch(words, rule) {
      MatchesWritten(words, rule);
    }
  }

  lemma PlainWords(action: string, rule: Rule, form: Form, to: bool, from: bool)
    requires PlainWord(action) && Word(rule.bind) && Word(rule.receiver)
    requires LanText(rule.receiver) && (rule.bind == "any" || LanText(rule.bind))
    ensures var words := Written(action, rule, form, to, from); forall i :: 0 <= i < |words| ==> PlainWord(words[i])
  {
    hide Digits, LanText, StartsWith, Masked, PlainWord;
    DigitsAreWord(rule.port);
    Numeric(Digits(rule.port));
    PlainAddress(rule.bind, to);
    PlainAddress(rule.receiver, from);
    Literals();
  }

  lemma Literals()
    ensures PlainWord("tcp") && PlainWord("any") && PlainWord("in") && PlainWord("-")
  {
  }

  lemma FirstLetter(w: string)
    ensures StartsWith(w, "comment=") ==> w != "" && w[0] == 'c'
  {
    if StartsWith(w, "comment=") {
      assert w[..8][0] == 'c';
    }
  }

  lemma Numeric(w: string)
    requires Word(w) && AllDigits(w)
    ensures PlainWord(w)
  {
    assert w[0] in w;
    FirstLetter(w);
  }

  lemma PlainAddress(address: string, masked: bool)
    requires address == "any" || LanText(address)
    ensures PlainWord(Masked(address, masked)) && NoMask(address)
  {
    hide Digits;
    var text := Masked(address, masked);
    if address == "any" {
      assert text[0] == 'a';
    } else {
      var ip: Ipv4 :| ip.Lan() && address == ip.Show();
      ShowIsWord(ip);
      DigitsAreWord(ip.a);
      assert address[0] == Digits(ip.a)[0] && Digits(ip.a)[0] in Digits(ip.a);
      assert text[0] == address[0];
    }
    assert forall c :: c in "/32" ==> !IsWhitespace(c);
    FirstLetter(text);
  }

  lemma AddressIsWord(address: string)
    requires address == "any" || LanText(address)
    ensures Word(address)
  {
    if address != "any" {
      var ip: Ipv4 :| ip.Lan() && address == ip.Show();
      ShowIsWord(ip);
    }
  }

  /** In particular: the tuple ufw writes for a rule of ours, in any form and with any
      comment, counts for that rule and for no other. */
  lemma OursIsFound(action: string, rule: Rule, form: Form, to: bool, from: bool, end: string, other: Rule)
    requires PlainWord(action) && ':' !in action && (end == "" || StartsWith(end, " comment="))
    requires LanText(rule.receiver) && (rule.bind == "any" || LanText(rule.bind))
    ensures TupleMatches(TUPLE + (Spaced(Written(action, rule, form, to, from)) + end), other) <==> other == rule
  {
    hide FieldsMatch, PlainWord, Written, TupleMatches, Spaced, LanText, StartsWith;
    var words := Written(action, rule, form, to, from);
    AddressIsWord(rule.bind);
    AddressIsWord(rule.receiver);
    PlainAddress(rule.bind, false);
    PlainAddress(rule.receiver, false);
    PlainWords(action, rule, form, to, from);
    TupleMeans(words, end, rule);
    assert SpeaksFor(words, rule);
    var line := TUPLE + (Spaced(words) + end);
    if TupleMatches(line, other) {
      MatchDeterminesRule(line, rule, other);
    }
  }

  // ---- The ledger -------------------------------------------------------------------------------

  /** A ledger line is the receiver, and for a rule of its own address and port these. */
  lemma LedgerLine(rule: Rule)
    requires Word(rule.receiver) && Word(rule.bind)
    ensures Words(rule.Line()) == if rule.bind == "any" then [rule.receiver] else [rule.receiver, rule.bind, Digits(rule.port)]
  {
    hide Words, Digits;
    WordsOne(rule.receiver);
    DigitsAreWord(rule.port);
    WordsOne(Digits(rule.port));
    WordsMore(rule.bind, Digits(rule.port));
    WordsMore(rule.receiver, rule.bind + (" " + Digits(rule.port)));
  }

  /** A packet from the receiver to one of our addresses. */
  predicate Admits(rule: Rule, from: string, address: string, port: nat) {
    from == rule.receiver && port == rule.port && (rule.bind != "any" ==> address == rule.bind)
  }

  ghost predicate Within(rule: Rule, wider: Rule) {
    forall from: string, address: string, port: nat :: Admits(rule, from, address, port) ==> Admits(wider, from, address, port)
  }

  /** A rule covers a cast exactly when it lets in everything the rule for the cast would. */
  lemma CoversIsWithin(rule: Rule, to: string, at: string, on: nat)
    ensures rule.Covers(to, at, on) <==> Within(Rule(to, at, on), rule)
  {
    var asked := Rule(to, at, on);
    if Within(asked, rule) {
      assert Admits(asked, to, at, on);
      assert Admits(asked, to, at + "x", on) || at != "any";
    }
  }

  // ---- Addresses --------------------------------------------------------------------------------------

  function Value(ip: Ipv4): nat {
    ((ip.a * 256 + ip.b) * 256 + ip.c) * 256 + ip.d
  }

  /** 10.0.0.0/8, 172.16.0.0/12, 192.168.0.0/16 and 169.254.0.0/16. */
  lemma LanRanges(ip: Ipv4)
    ensures ip.Lan() <==>
      0x0A00_0000 <= Value(ip) <= 0x0AFF_FFFF || 0xAC10_0000 <= Value(ip) <= 0xAC1F_FFFF
      || 0xC0A8_0000 <= Value(ip) <= 0xC0A8_FFFF || 0xA9FE_0000 <= Value(ip) <= 0xA9FE_FFFF
  {
  }

  function Join(parts: seq<string>, c: char): string {
    if parts == [] then "" else if |parts| == 1 then parts[0] else parts[0] + ([c] + Join(parts[1..], c))
  }

  lemma {:induction false} SplitJoins(s: string, c: char)
    ensures Join(SplitOn(s, c), c) == s
  {
    if s != "" {
      var rest := SplitOn(s[1..], c);
      SplitJoins(s[1..], c);
      HeadTail(s);
      if s[0] == c {
        assert ([""] + rest)[1..] == rest && "" + ([c] + Join(rest, c)) == [c] + Join(rest, c);
      } else {
        assert ([[s[0]] + rest[0]] + rest[1..])[1..] == rest[1..];
        if |rest| > 1 {
          Assoc([s[0]], rest[0], [c] + Join(rest[1..], c));
        }
      }
    }
  }

  /** A text of digits without a leading zero is how its number is written. */
  lemma {:induction false} DigitsOf(s: string)
    requires AllDigits(s) && s != "" && (|s| > 1 ==> s[0] != '0')
    ensures Digits(DigitsValue(s)) == s && (s[0] != '0' ==> DigitsValue(s) > 0)
  {
    hide Digits, DigitsValue;
    var front, last := s[..|s| - 1], s[|s| - 1];
    assert last in s && s[0] in s;
    assert s == front + [last];
    LastDigit(front, last);
    if front == "" {
      NoHead([last]);
    } else {
      assert front[0] == s[0] && forall c :: c in front ==> c in s;
      DigitsOf(front);
    }
  }

  /** How the last digit is read and written. */
  lemma LastDigit(front: string, last: char)
    requires AllDigits(front) && IsDigit(last)
    ensures AllDigits(front + [last])
    ensures front == "" ==> Digits(DigitsValue([last])) == [last] && (last != '0' ==> DigitsValue([last]) > 0)
    ensures DigitsValue(front) > 0 ==>
      Digits(DigitsValue(front + [last])) == Digits(DigitsValue(front)) + [last] && DigitsValue(front + [last]) > 0
  {
    var s, v, d := front + [last], DigitsValue(front), last as int - '0' as int;
    assert s[..|s| - 1] == front && s[|s| - 1] == last;
    assert AllDigits(s);
    assert DigitsValue(s) == 10 * v + d;
    DivModUnique(10 * v + d, 10, v, d);
    assert DigitChar(d) == last;
    if front == "" {
      assert s == [last];
    }
  }

  lemma OctetIs(s: string)
    ensures ParseOctet(s).Some? ==> s == Digits(ParseOctet(s).value)
  {
    if ParseOctet(s).Some? {
      DigitsOf(s);
    }
  }

  /** Only the canonical text of an address is read as one. */
  lemma CanonicalOnly(s: string)
    ensures ParseIpv4(s).Some? ==> s == ParseIpv4(s).value.Show()
  {
    hide ParseOctet, Digits, SplitOn;
    if ParseIpv4(s).Some? {
      var p := SplitOn(s, '.');
      SplitJoins(s, '.');
      OctetIs(p[0]);
      OctetIs(p[1]);
      OctetIs(p[2]);
      OctetIs(p[3]);
      JoinFour(p);
    }
  }

  lemma JoinFour(p: seq<string>)
    requires |p| == 4
    ensures Join(p, '.') == p[0] + ("." + (p[1] + ("." + (p[2] + ("." + p[3])))))
  {
    assert p[1..][1..] == p[2..] && p[2..][1..] == p[3..];
    assert Join(p[3..], '.') == p[3];
    assert Join(p[2..], '.') == p[2] + ("." + p[3]);
    assert Join(p[1..], '.') == p[1] + ("." + (p[2] + ("." + p[3])));
  }

  /** A receiver is accepted exactly when, but for whitespace around it, it is the
      canonical text of an address of the local network. */
  lemma ReceiverExactly(s: string)
    ensures ValidReceiver(s).Some? <==> LanText(Trim(s))
    ensures ValidReceiver(s).Some? ==> ValidReceiver(s).value == Trim(s)
  {
    hide ParseIpv4, Trim;
    CanonicalOnly(Trim(s));
    if LanText(Trim(s)) {
      var ip: Ipv4 :| ip.Lan() && Trim(s) == ip.Show();
      Ipv4RoundTrip(ip);
    }
  }
}

/** Opening and clearing firewall rules with a ledger of what is ours
    (src/firewall.rs): one call at a time. ufw, polkit and the rule file answer
    arbitrarily, and other calls may write the ledger while one waits for polkit. */
module Firewall {
  import opened Text
  import opened FirewallText
  import opened UfwTuples

  datatype Answer = Done | NotLan | Unreadable | Declined

  /** `rule_was_added`: a line of ufw's output says just that. */
  predicate RuleWasAdded(output: string) {
    exists i :: 0 <= i < |Lines(output)| && Trim(Lines(output)[i]) == "Rule added"
  }

  predicate Covered(rules: set<Rule>, receiver: string, bind: string, port: nat) {
    exists r :: r in rules && r.Covers(receiver, bind, port)
  }

  /** What ufw is asked to do. */
  datatype Command = Allow(rule: Rule) | Delete(rule: Rule)

  /** ufw is asked for a rule when nothing recorded covers it and a complete scan found
      none for its traffic. */
  function OpenCommands(rules: set<Rule>, rule: Rule, scan: Option<bool>): seq<Command> {
    if !Covered(rules, rule.receiver, rule.bind, rule.port) && scan == Some(false) then [Allow(rule)] else []
  }

  /** That is: exactly when a complete scan found no rule for the traffic, and no recorded
      rule lets all of it in already. */
  lemma AsksExactly(rules: set<Rule>, rule: Rule, scan: Option<bool>)
    ensures OpenCommands(rules, rule, scan) == [Allow(rule)] <==> scan == Some(false) && forall r :: r in rules ==> !Within(rule, r)
    ensures OpenCommands(rules, rule, scan) != [Allow(rule)] ==> OpenCommands(rules, rule, scan) == []
  {
    forall r | r in rules ensures r.Covers(rule.receiver, rule.bind, rule.port) <==> Within(rule, r) {
      CoversIsWithin(r, rule.receiver, rule.bind, rule.port);
    }
  }

  // ---- The ledger --------------------------------------------------------------------

  /** The ledger file: lines anyone may have edited; malformed ones are ignored. */
  class Ledger {
    var lines: set<string>
    const legacyPort: nat
    /** All that ufw was asked, for the contracts. */
    ghost var asked: seq<Command>

    constructor (lines: set<string>, legacyPort: nat)
      ensures this.lines == lines && this.legacyPort == legacyPort && asked == []
    {
      this.lines := lines;
      this.legacyPort := legacyPort;
      asked := [];
    }

    ghost function Rules(): set<Rule>
      reads this
    {
      set line | line in lines && ParseRule(line, legacyPort).Some? :: ParseRule(line, legacyPort).value
    }

    method LedgerRules() returns (rules: seq<Rule>)
      ensures forall r :: r in rules <==> r in Rules()
    {
      rules := [];
      var left := lines;
      while left != {}
        invariant left <= lines
        invariant forall r :: r in rules ==> r in Rules()
        invariant forall line :: line in lines - left && ParseRule(line, legacyPort).Some? ==>
                    ParseRule(line, legacyPort).value in rules
        decreases |left|
      {
        var line :| line in left;
        left := left - {line};
        match ParseRule(line, legacyPort) {
          case Some(rule) => rules := rules + [rule];
          case None =>
        }
      }
    }

    method WriteLedger(rules: seq<Rule>)
      requires forall r :: r in rules ==> ValidRule(r, legacyPort)
      modifies this`lines
      ensures forall r :: r in Rules() <==> r in rules
      ensures lines == set r | r in rules :: r.Line()
    {
      hide ValidRule, ParseRule;
      lines := set r | r in rules :: r.Line();
      forall r | r in rules ensures ParseRule(r.Line(), legacyPort) == Some(r) {
        LineRoundTrip(r, legacyPort);
      }
    }

    /** Any rule read from the ledger is one the daemon could have written. */
    lemma RulesAreValid()
      ensures forall r :: r in Rules() ==> ValidRule(r, legacyPort)
    {
      hide ValidRule, ParseRule;
      forall line | line in lines && ParseRule(line, legacyPort).Some?
        ensures ValidRule(ParseRule(line, legacyPort).value, legacyPort)
      {
        ParsedRuleIsValid(line, legacyPort);
      }
    }

    /** While polkit asks, other calls leave the ledger with the lines `interim`; what is
        written then comes from the ledger as it was read. */
    method Open(active: bool, receiver: string, bind: Ipv4, port: nat, scan: Option<bool>, output: Option<string>,
                interim: set<string>)
      returns (answer: Answer)
      requires 0 < port <= U16_MAX
      modifies this
      ensures !active || ValidReceiver(receiver).None? || !bind.Lan() ==>
        lines == old(lines) && asked == old(asked) && answer == if active then NotLan else Done
      ensures active && ValidReceiver(receiver).Some? && bind.Lan() ==>
        var rule := Rule(ValidReceiver(receiver).value, bind.Show(), port);
        var commands := OpenCommands(old(Rules()), rule, scan);
        asked == old(asked) + commands
        && (commands == [] ==> lines == old(lines))
        && (commands != [] && output.Some? && RuleWasAdded(output.value) ==> Rules() == old(Rules()) + {rule})
        && (commands != [] && !(output.Some? && RuleWasAdded(output.value)) ==> lines == interim)
        && (answer == Unreadable <==> scan.None? && !Covered(old(Rules()), rule.receiver, rule.bind, rule.port))
        && (answer == Declined <==> commands != [] && output.None?)
        && answer != NotLan
    {
      hide ParseRule, ValidRule, RuleWasAdded, ValidReceiver;
      if !active {
        return Done;
      }
      var valid := ValidReceiver(receiver);
      if valid.None? || !bind.Lan() {
        return NotLan;
      }
      var rule := Rule(valid.value, bind.Show(), port);
      var rules := LedgerRules();
      RulesAreValid();
      NewRuleIsValid(receiver, bind, port, legacyPort);
      if exists r :: r in rules && r.Covers(rule.receiver, rule.bind, port) {
        return Done;
      }
      match scan {
        case Some(true) => return Done;
        case None => return Unreadable;
        case Some(false) =>
      }
      asked := asked + [Allow(rule)];
      ghost var before := Rules();
      Wait(interim);
      if output.None? {
        return Declined;
      }
      if RuleWasAdded(output.value) {
        WriteLedger(rules + [rule]);
        assert Rules() == before + {rule};
      }
      answer := Done;
    }

    /** Other calls write the ledger. */
    method Wait(interim: set<string>)
      modifies this`lines
      ensures lines == interim
    {
      lines := interim;
    }

    /** `deleted(i)`: ufw deleted the `i`-th rule asked for. Whatever other calls wrote
        meanwhile is overwritten. */
    method Clear(active: bool, deleted: nat -> bool, interim: set<string>) returns (ghost order: seq<Rule>)
      modifies this
      ensures forall r :: r in order <==> r in old(Rules())
      ensures active ==> asked == old(asked) + seq(|order|, i requires 0 <= i < |order| => Delete(order[i]))
      ensures active ==> Rules() == set i: nat | i < |order| && !deleted(i) :: order[i]
      ensures !active ==> asked == old(asked) && Rules() == {} && lines == {}
    {
      hide ParseRule, ValidRule;
      var rules := LedgerRules();
      RulesAreValid();
      order := rules;
      if !active {
        WriteLedger([]);
        return;
      }
      var remaining := [];
      ghost var before := asked;
      for i := 0 to |rules|
        invariant asked == before + seq(i, j requires 0 <= j < i => Delete(rules[j]))
        invariant forall r :: r in remaining <==> exists j: nat :: j < i && !deleted(j) && rules[j] == r
      {
        asked := asked + [Delete(rules[i])];
        Wait(interim);
        if !deleted(i) {
          remaining := remaining + [rules[i]];
        }
      }
      WriteLedger(remaining);
    }
  }

  lemma NewRuleIsValid(receiver: string, bind: Ipv4, port: nat, legacyPort: nat)
    requires ValidReceiver(receiver).Some? && bind.Lan() && 0 < port <= U16_MAX
    ensures ValidRule(Rule(ValidReceiver(receiver).value, bind.Show(), port), legacyPort)
  {
    ReceiverIsLan(receiver);
    ShowIsWord(bind);
  }

  // ---- What ufw says ------------------------------------------------------------------------

  lemma OneLine(line: string)
    requires CleanLine(line)
    ensures Lines(line + "\n") == [line]
  {
    hide Lines, CleanLine;
    LinesOfUnlines([line]);
    UnlinesOne(line);
  }

  lemma SaysAdded(line: string)
    requires CleanLine(line) && Trimmed(line)
    ensures RuleWasAdded(line + "\n") <==> line == "Rule added"
  {
    hide Lines, CleanLine;
    OneLine(line);
    TrimIdentity(line);
    assert Lines(line + "\n")[0] == line;
  }

  lemma AddedSaysSo()
    ensures RuleWasAdded("Rule added\n") && !RuleWasAdded("Rule updated\n")
  {
    hide RuleWasAdded;
    SaysAdded("Rule added");
    SaysAdded("Rule updated");
    assert "Rule updated"[5] != "Rule added"[5];
    assert "Rule added" + "\n" == "Rule added\n" && "Rule updated" + "\n" == "Rule updated\n";
  }
}

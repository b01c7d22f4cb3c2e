/** Opening and clearing firewall rules while each other and the user go on
    (src/firewall.rs, src/daemon.rs): `open` runs under the action lock, so one at a
    time; `clear` runs without it, in any number. Both read the ledger, wait for
    polkit, and write back what they made of their reading. */
module FirewallRuns {
  import opened Text
  import opened FirewallText
  import opened Firewall

  // ---- Steps ----------------------------------------------------------------------------

  datatype Owner = Ours | Users

  datatype Stage = Scanning | Prompting | Added

  /** An `open` under way, with the rules it read from the ledger. */
  datatype Opening = Opening(recorded: set<Rule>, rule: Rule, stage: Stage)

  /** A `clear` under way: what it read, what it still has to delete, and what it could
      not delete. A ledger with repeated lines lists a rule twice. */
  datatype Clearing = Clearing(listed: seq<Rule>, todo: seq<Rule>, kept: set<Rule>)

  /** The ledger, the rules ufw holds with who made them, and the calls under way. */
  datatype World = World(ledger: set<Rule>, held: map<Rule, Owner>, opening: Option<Opening>,
                         clearing: map<nat, Clearing>) {
    predicate Opens(rule: Rule, stage: Stage) {
      opening.Some? && opening.value.rule == rule && opening.value.stage == stage
    }

    predicate Holds(rule: Rule, owner: Owner) {
      rule in held && held[rule] == owner
    }
  }

  /** `replaced`: ufw put our rule in the place of one for the same traffic. `done`: ufw
      reported success; `gone`: it deleted a rule. */
  datatype Step =
    | OpenRead(rule: Rule)
    | OpenScan(found: Option<bool>)
    | OpenUfw(output: Option<string>, replaced: bool)
    | OpenWrite
    | ClearRead(id: nat, order: seq<Rule>)
    | ClearOff(id: nat)
    | ClearDelete(id: nat, done: bool, gone: bool)
    | ClearWrite(id: nat)
    | ClearDies(id: nat)
    | UserSets(rule: Rule)
    | UserDeletes(rule: Rule)

  predicate SaidAdded(output: Option<string>) {
    output.Some? && RuleWasAdded(output.value)
  }

  function Listed(order: seq<Rule>): set<Rule> {
    set r | r in order
  }

  /** What can happen, whatever scan, ufw and polkit answer. */
  predicate Possible(w: World, step: Step) {
    match step
    case OpenRead(_) => w.opening.None?
    case OpenScan(_) => w.opening.Some? && w.opening.value.stage.Scanning?
    case OpenUfw(_, _) => w.opening.Some? && w.opening.value.stage.Prompting?
    case OpenWrite => w.opening.Some? && w.opening.value.stage.Added?
    case ClearRead(id, order) => id !in w.clearing && Listed(order) == w.ledger
    case ClearOff(id) => id in w.clearing && w.clearing[id].todo == w.clearing[id].listed
    case ClearDelete(id, _, _) => id in w.clearing && w.clearing[id].todo != []
    case ClearWrite(id) => id in w.clearing && w.clearing[id].todo == []
    case ClearDies(id) => id in w.clearing
    case UserSets(_) | UserDeletes(_) => true
  }

  /** The rule a `clear` asks ufw to delete. */
  function Deleted(w: World, step: Step): Rule
    requires step.ClearDelete? && Possible(w, step)
  {
    w.clearing[step.id].todo[0]
  }

  /** A complete scan tells the truth; ufw says "Rule added" when it did, keeps or replaces
      a rule that is there, deletes ours when it reports so, and does nothing else. */
  predicate Honest(w: World, step: Step)
    requires Possible(w, step)
  {
    match step
    case OpenScan(found) => found.Some? ==> found.value == (w.opening.value.rule in w.held)
    case OpenUfw(output, replaced) => output.Some? ==> (RuleWasAdded(output.value) <==> w.opening.value.rule !in w.held)
    case ClearDelete(id, done, gone) => (gone ==> done) && (done && w.Holds(Deleted(w, step), Ours) ==> gone)
    case _ => true
  }

  function Next(w: World, step: Step): World
    requires Possible(w, step)
  {
    match step
    case OpenRead(rule) =>
      if Covered(w.ledger, rule.receiver, rule.bind, rule.port) then w
      else w.(opening := Some(Opening(w.ledger, rule, Scanning)))
    case OpenScan(found) =>
      w.(opening := if found == Some(false) then Some(w.opening.value.(stage := Prompting)) else None)
    case OpenUfw(output, replaced) =>
      var rule := w.opening.value.rule;
      w.(held := if output.Some? && (rule in w.held ==> replaced) then w.held[rule := Ours] else w.held,
         opening := if SaidAdded(output) then Some(w.opening.value.(stage := Added)) else None)
    case OpenWrite => w.(ledger := w.opening.value.recorded + {w.opening.value.rule}, opening := None)
    case ClearRead(id, order) => w.(clearing := w.clearing[id := Clearing(order, order, {})])
    case ClearOff(id) => w.(ledger := {}, clearing := w.clearing - {id})
    case ClearDelete(id, done, gone) =>
      var c := w.clearing[id];
      w.(held := if gone then w.held - {c.todo[0]} else w.held,
         clearing := w.clearing[id := c.(todo := c.todo[1..], kept := if done then c.kept else c.kept + {c.todo[0]})])
    case ClearWrite(id) => w.(ledger := w.clearing[id].kept, clearing := w.clearing - {id})
    case ClearDies(id) => w.(clearing := w.clearing - {id})
    case UserSets(rule) => w.(held := w.held[rule := Users])
    case UserDeletes(rule) => w.(held := w.held - {rule})
  }

  datatype Run = Run(states: seq<World>, steps: seq<Step>) {
    ghost predicate Valid() {
      |states| == |steps| + 1 && states[0].opening.None? && states[0].clearing == map[]
      && forall i :: 0 <= i < |steps| ==> Possible(states[i], steps[i]) && states[i + 1] == Next(states[i], steps[i])
    }

    /** ufw and the scan are honest throughout. */
    ghost predicate Truthful() {
      Valid() && forall i :: 0 <= i < |steps| ==> Honest(states[i], steps[i])
    }

    function Last(): World
      requires states != []
    {
      states[|states| - 1]
    }

    function Then(step: Step): Run
      requires states != [] && Possible(Last(), step)
    {
      Run(states + [Next(Last(), step)], steps + [step])
    }
  }

  // ---- With arbitrary answers ------------------------------------------------------------

  /** On the ledger at the start, or added by us: ufw said so after a complete scan that
      found no rule for that traffic. */
  ghost predicate Justified(run: Run, i: nat, r: Rule)
    requires run.Valid() && i < |run.states|
  {
    r in run.states[0].ledger || exists j :: 0 <= j < i && AddsAt(run, j, r)
  }

  ghost predicate AddsAt(run: Run, j: nat, r: Rule)
    requires run.Valid() && j < |run.steps|
  {
    run.steps[j].OpenUfw? && SaidAdded(run.steps[j].output) && run.states[j].Opens(r, Prompting) && ScannedAt(run, j, r)
  }

  /** Since some step before `j` that found no rule in a complete scan, the same `open`
      has been waiting for polkit. */
  ghost predicate ScannedAt(run: Run, j: nat, r: Rule)
    requires run.Valid() && j < |run.states|
  {
    exists s :: 0 <= s < j && run.steps[s] == OpenScan(Some(false)) && forall k :: s < k <= j ==> run.states[k].Opens(r, Prompting)
  }

  lemma {:induction false} PromptIsScanned(run: Run, i: nat, r: Rule)
    requires run.Valid() && i < |run.states| && run.states[i].Opens(r, Prompting)
    ensures ScannedAt(run, i, r)
  {
    hide Covered, RuleWasAdded;
    var s := i - 1;
    if run.steps[i - 1].OpenScan? {
      assert run.steps[s] == OpenScan(Some(false));
    } else {
      PromptIsScanned(run, i - 1, r);
      var t :| 0 <= t < i - 1 && run.steps[t] == OpenScan(Some(false)) && forall k :: t < k <= i - 1 ==> run.states[k].Opens(r, Prompting);
      assert forall k :: t < k <= i ==> run.states[k].Opens(r, Prompting);
    }
  }

  /** Every rule the ledger, an `open` or a `clear` has in hand. */
  predicate InHand(w: World, r: Rule) {
    r in w.ledger
    || (w.opening.Some? && (r in w.opening.value.recorded || w.Opens(r, Added)))
    || exists id :: id in w.clearing && (r in w.clearing[id].todo || r in w.clearing[id].kept)
  }

  lemma InHandStep(w: World, step: Step, r: Rule)
    requires Possible(w, step) && InHand(Next(w, step), r)
    ensures InHand(w, r) || (step.OpenUfw? && SaidAdded(step.output) && w.Opens(r, Prompting))
  {
    hide Covered, RuleWasAdded;
    var t := Next(w, step);
    if exists id :: id in t.clearing && (r in t.clearing[id].todo || r in t.clearing[id].kept) {
      var id :| id in t.clearing && (r in t.clearing[id].todo || r in t.clearing[id].kept);
      if step.ClearDelete? && id == step.id {
        assert r in w.clearing[id].todo || r in w.clearing[id].kept;
      } else if !(step.ClearRead? && id == step.id) {
        assert id in w.clearing && t.clearing[id] == w.clearing[id];
      }
    }
  }

  lemma {:induction false} InHandIsJustified(run: Run, i: nat, r: Rule)
    requires run.Valid() && i < |run.states| && InHand(run.states[i], r)
    ensures Justified(run, i, r)
  {
    hide Next, Possible, InHand, SaidAdded, ScannedAt;
    if i == 0 {
      OnlyLedger(run.states[0], r);
    } else {
      var w, step := run.states[i - 1], run.steps[i - 1];
      InHandStep(w, step, r);
      if InHand(w, r) {
        InHandIsJustified(run, i - 1, r);
      } else {
        PromptIsScanned(run, i - 1, r);
        assert AddsAt(run, i - 1, r);
      }
    }
  }

  lemma OnlyLedger(w: World, r: Rule)
    requires w.opening.None? && w.clearing == map[] && InHand(w, r)
    ensures r in w.ledger
  {
  }

  /** Over every run, however calls overlap and whatever scan, ufw and polkit answer: what
      is recorded, and what ufw is asked to delete, was on the ledger at the start or was
      added by us after a complete scan. */
  lemma OnlyOursDeleted(run: Run, i: nat, r: Rule)
    requires run.Valid() && i < |run.states|
    requires r in run.states[i].ledger
             || (i < |run.steps| && run.steps[i].ClearDelete? && Deleted(run.states[i], run.steps[i]) == r)
    ensures Justified(run, i, r)
  {
    hide Justified, Next;
    InHandIsJustified(run, i, r);
  }

  // ---- The user's rules ------------------------------------------------------------------

  /** The step takes a rule from the user: ufw replaces it for an `open`, or deletes it
      for a `clear`. */
  predicate Takes(w: World, step: Step, r: Rule)
    requires Possible(w, step)
  {
    (step.OpenUfw? && step.output.Some? && step.replaced && w.Opens(r, Prompting))
    || (step.ClearDelete? && Deleted(w, step) == r && step.gone)
  }

  lemma UsersStep(w: World, step: Step, r: Rule)
    requires Possible(w, step) && Honest(w, step) && w.Holds(r, Users)
    ensures !Next(w, step).Holds(r, Users) <==> step == UserDeletes(r) || Takes(w, step, r)
  {
    hide Covered, RuleWasAdded;
  }

  /** `r` was set by the user while the prompt of an `open` for it was up. */
  ghost predicate SetDuringPrompt(run: Run, i: nat, r: Rule)
    requires run.Valid() && i < |run.states|
  {
    exists j :: 0 <= j < i && run.steps[j] == UserSets(r) && forall k :: j <= k <= i ==> run.states[k].Opens(r, Prompting)
  }

  /** Clear `id` has been under way since it read a ledger that listed `r`. */
  ghost predicate ListedAt(run: Run, i: nat, id: nat, r: Rule)
    requires run.Valid() && i < |run.states|
  {
    exists j :: 0 <= j < i && run.steps[j].ClearRead? && run.steps[j].id == id && r in run.states[j].ledger
      && forall k :: j < k <= i ==> id in run.states[k].clearing
  }

  lemma {:induction false} HeldDuringPrompt(run: Run, i: nat, r: Rule)
    requires run.Truthful() && i < |run.states| && run.states[i].Opens(r, Prompting) && r in run.states[i].held
    ensures SetDuringPrompt(run, i, r)
  {
    hide Covered, RuleWasAdded;
    var w, step := run.states[i - 1], run.steps[i - 1];
    if step == UserSets(r) {
      assert run.states[i - 1].Opens(r, Prompting);
      assert forall k :: i - 1 <= k <= i ==> run.states[k].Opens(r, Prompting);
    } else {
      PromptStep(w, step, r);
      HeldDuringPrompt(run, i - 1, r);
      var j :| 0 <= j < i - 1 && run.steps[j] == UserSets(r) && forall k :: j <= k <= i - 1 ==> run.states[k].Opens(r, Prompting);
      assert forall k :: j <= k <= i ==> run.states[k].Opens(r, Prompting);
    }
  }

  lemma PromptStep(w: World, step: Step, r: Rule)
    requires Possible(w, step) && Honest(w, step) && step != UserSets(r)
    requires Next(w, step).Opens(r, Prompting) && r in Next(w, step).held
    ensures w.Opens(r, Prompting) && r in w.held
  {
    hide Covered, RuleWasAdded;
  }

  lemma {:induction false} TodoIsListed(run: Run, i: nat, id: nat, r: Rule)
    requires run.Valid() && i < |run.states| && id in run.states[i].clearing && r in run.states[i].clearing[id].todo
    ensures ListedAt(run, i, id, r)
  {
    hide Covered, RuleWasAdded;
    var w, step := run.states[i - 1], run.steps[i - 1];
    if step.ClearRead? && step.id == id {
      assert r in w.ledger;
    } else {
      TodoIsListed(run, i - 1, id, r);
      var j :| 0 <= j < i - 1 && run.steps[j].ClearRead? && run.steps[j].id == id && r in run.states[j].ledger
        && forall k :: j < k <= i - 1 ==> id in run.states[k].clearing;
      assert forall k :: j < k <= i ==> id in run.states[k].clearing;
    }
  }

  /** Over every run with an honest ufw, exactly how a rule of the user's is taken from
      them: they set it while the prompt for the same rule was up, and ufw replaces it;
      or a `clear` that read a ledger with that rule on it deletes it. */
  lemma UsersRuleTaken(run: Run, i: nat, r: Rule)
    requires run.Truthful() && i < |run.steps| && run.states[i].Holds(r, Users)
    ensures !run.states[i + 1].Holds(r, Users) && run.steps[i] != UserDeletes(r) <==>
      (run.steps[i].OpenUfw? && run.steps[i].output.Some? && run.steps[i].replaced && SetDuringPrompt(run, i, r))
      || (run.steps[i].ClearDelete? && run.steps[i].gone && Deleted(run.states[i], run.steps[i]) == r
          && ListedAt(run, i, run.steps[i].id, r))
  {
    hide Next, Honest, Covered, RuleWasAdded, SetDuringPrompt, ListedAt;
    var w, step := run.states[i], run.steps[i];
    UsersStep(w, step, r);
    if step.OpenUfw? {
      SetOpens(run, i, r);
      if w.Opens(r, Prompting) {
        HeldDuringPrompt(run, i, r);
      }
    }
    if step.ClearDelete? {
      TodoIsListed(run, i, step.id, Deleted(w, step));
    }
  }

  lemma SetOpens(run: Run, i: nat, r: Rule)
    requires run.Valid() && i < |run.states|
    ensures SetDuringPrompt(run, i, r) ==> run.states[i].Opens(r, Prompting)
  {
    hide Possible, Next;
  }

  // ---- Forgotten rules --------------------------------------------------------------------

  /** Ours, but not on the ledger, nor about to be written to it: no later `clear` will
      delete it. */
  predicate Forgotten(w: World, r: Rule) {
    w.Holds(r, Ours) && r !in w.ledger && !w.Opens(r, Added)
  }

  /** The list a step writes to the ledger. */
  function Written(w: World, step: Step): Option<set<Rule>>
    requires Possible(w, step)
  {
    match step
    case OpenWrite => Some(w.opening.value.recorded + {w.opening.value.rule})
    case ClearOff(_) => Some({})
    case ClearWrite(id) => Some(w.clearing[id].kept)
    case _ => None
  }

  /** A list without the rule is written while ufw holds it as ours, or ufw replaced a
      rule of the user's for an `open` whose rule is not recorded. */
  predicate Loses(w: World, step: Step, r: Rule)
    requires Possible(w, step)
  {
    (Written(w, step).Some? && r !in Written(w, step).value && w.Holds(r, Ours) && !w.Opens(r, Added))
    || (step.OpenUfw? && step.output.Some? && step.replaced && w.Opens(r, Prompting) && w.Holds(r, Users) && r !in w.ledger)
  }

  /** The ledger is written, or the rule leaves ufw or becomes the user's. */
  predicate Settles(w: World, step: Step, r: Rule)
    requires Possible(w, step)
  {
    Written(w, step).Some? || step == UserDeletes(r) || step == UserSets(r)
    || (step.ClearDelete? && Deleted(w, step) == r && step.gone)
  }

  lemma ForgottenStep(w: World, step: Step, r: Rule)
    requires Possible(w, step) && Honest(w, step)
    ensures Forgotten(Next(w, step), r) <==> Loses(w, step, r) || (Forgotten(w, r) && !Settles(w, step, r))
  {
    hide Covered, RuleWasAdded;
  }

  ghost predicate LosesAt(run: Run, i: nat, n: nat, r: Rule)
    requires run.Valid() && i < n < |run.states|
  {
    Loses(run.states[i], run.steps[i], r) && forall j :: i < j < n ==> !Settles(run.states[j], run.steps[j], r)
  }

  /** Over every run with an honest ufw, exactly how a rule of ours is forgotten: a list
      without it is written to the ledger, by an inactive `clear` or from a stale reading,
      or ufw put it in the place of a rule of the user's; and nothing happens to it or the
      ledger after that. */
  lemma {:induction false} ForgottenExactly(run: Run, n: nat, r: Rule)
    requires run.Truthful() && n < |run.states| && !Forgotten(run.states[0], r)
    ensures Forgotten(run.states[n], r) <==> exists i :: 0 <= i < n && LosesAt(run, i, n, r)
  {
    hide Next, Possible, Honest, Forgotten, Loses, Settles;
    if n > 0 {
      ForgottenExactly(run, n - 1, r);
      ForgottenStep(run.states[n - 1], run.steps[n - 1], r);
      LosesLast(run, n, r);
      if Forgotten(run.states[n], r) && !Loses(run.states[n - 1], run.steps[n - 1], r) {
        var i :| 0 <= i < n - 1 && LosesAt(run, i, n - 1, r);
        LosesLater(run, i, n, r);
      }
      if exists i :: 0 <= i < n && LosesAt(run, i, n, r) {
        var i :| 0 <= i < n && LosesAt(run, i, n, r);
        if i < n - 1 {
          LosesLater(run, i, n, r);
        }
      }
    }
  }

  lemma LosesLater(run: Run, i: nat, n: nat, r: Rule)
    requires run.Valid() && i < n - 1 && n < |run.states|
    ensures LosesAt(run, i, n, r) <==> LosesAt(run, i, n - 1, r) && !Settles(run.states[n - 1], run.steps[n - 1], r)
  {
    hide Next, Possible, Loses, Settles;
  }

  lemma LosesLast(run: Run, n: nat, r: Rule)
    requires run.Valid() && 0 < n < |run.states|
    ensures LosesAt(run, n - 1, n, r) <==> Loses(run.states[n - 1], run.steps[n - 1], r)
  {
    hide Next, Possible, Loses, Settles;
  }

  // ---- Calm runs -----------------------------------------------------------------------------

  /** No `clear` overlaps an `open` or another `clear`; and the user sets no rule that is
      recorded, or for which an `open` is under way. */
  predicate Calm(w: World, step: Step) {
    match step
    case OpenRead(_) => w.clearing == map[]
    case ClearRead(_, _) => w.clearing == map[] && w.opening.None?
    case UserSets(rule) => rule !in w.ledger && !(w.opening.Some? && w.opening.value.rule == rule)
    case _ => true
  }

  predicate OpeningOk(w: World, o: Opening) {
    w.clearing == map[] && o.recorded == w.ledger && o.rule !in w.ledger
    && (o.stage.Prompting? ==> o.rule !in w.held)
    && (o.stage.Added? ==> (o.rule in w.held ==> w.held[o.rule] == Ours))
  }

  predicate ClearingOk(w: World, c: Clearing) {
    (forall r :: r in c.todo ==> r in w.ledger) && c.kept <= w.ledger
    && forall r :: r in w.ledger && r in w.held ==> r in c.todo || r in c.kept
  }

  predicate CalmInv(w: World) {
    (forall r :: r in w.ledger && r in w.held ==> w.held[r] == Ours)
    && (w.opening.Some? ==> OpeningOk(w, w.opening.value))
    && (forall id :: id in w.clearing ==> ClearingOk(w, w.clearing[id]))
    && (forall i, j :: i in w.clearing && j in w.clearing ==> i == j)
  }

  lemma CalmOpenStep(w: World, step: Step)
    requires Possible(w, step) && Honest(w, step) && Calm(w, step) && CalmInv(w)
    requires step.OpenRead? || step.OpenScan? || step.OpenUfw? || step.OpenWrite? || step.UserSets? || step.UserDeletes?
    ensures CalmInv(Next(w, step))
  {
    hide RuleWasAdded;
    if step.OpenRead? {
      CoversItself(w.ledger, step.rule);
    }
  }

  lemma CoversItself(rules: set<Rule>, rule: Rule)
    ensures rule in rules ==> Covered(rules, rule.receiver, rule.bind, rule.port)
  {
  }

  lemma CalmClearStep(w: World, step: Step)
    requires Possible(w, step) && Honest(w, step) && Calm(w, step) && CalmInv(w)
    requires step.ClearRead? || step.ClearOff? || step.ClearDelete? || step.ClearWrite? || step.ClearDies?
    ensures CalmInv(Next(w, step))
  {
    hide Covered, RuleWasAdded;
    var t := Next(w, step);
    if step.ClearDelete? {
      var c := w.clearing[step.id];
      HeadTail(c.todo);
      assert forall r :: r in c.todo <==> r == c.todo[0] || r in c.todo[1..];
      assert ClearingOk(t, t.clearing[step.id]);
    }
  }

  /** A run in which all goes calmly, from a ledger whose rules ufw holds as ours. */
  ghost predicate CalmRun(run: Run) {
    run.Truthful() && CalmInv(run.states[0])
    && forall i :: 0 <= i < |run.steps| ==> Calm(run.states[i], run.steps[i])
  }

  lemma {:induction false} CalmRunInv(run: Run, i: nat)
    requires CalmRun(run) && i < |run.states|
    ensures CalmInv(run.states[i])
  {
    hide CalmInv, Next, Possible, Honest, Calm;
    if i > 0 {
      CalmRunInv(run, i - 1);
      var w, step := run.states[i - 1], run.steps[i - 1];
      if step.ClearRead? || step.ClearOff? || step.ClearDelete? || step.ClearWrite? || step.ClearDies? {
        CalmClearStep(w, step);
      } else {
        CalmOpenStep(w, step);
      }
    }
  }

  lemma CalmTakesNothing(w: World, step: Step, r: Rule)
    requires Possible(w, step) && CalmInv(w) && w.Holds(r, Users)
    ensures !Takes(w, step, r)
  {
    if step.ClearDelete? {
      assert ClearingOk(w, w.clearing[step.id]);
      assert Deleted(w, step) in w.clearing[step.id].todo;
    }
  }

  /** In calm runs the user's rules are never touched. */
  lemma UsersRulesUntouched(run: Run, i: nat, r: Rule)
    requires CalmRun(run) && i < |run.steps| && run.states[i].Holds(r, Users) && run.steps[i] != UserDeletes(r)
    ensures run.states[i + 1].Holds(r, Users)
  {
    hide CalmInv, Next, Takes, Honest, Calm;
    CalmRunInv(run, i);
    CalmTakesNothing(run.states[i], run.steps[i], r);
    UsersStep(run.states[i], run.steps[i], r);
  }

  lemma CalmForgottenStep(w: World, step: Step, r: Rule)
    requires Possible(w, step) && Honest(w, step) && CalmInv(w)
    ensures Forgotten(Next(w, step), r) <==>
      (step.ClearOff? && w.Holds(r, Ours)) || (Forgotten(w, r) && step != UserDeletes(r) && step != UserSets(r))
  {
    hide Covered, RuleWasAdded;
    if step.ClearOff? || step.ClearDelete? || step.ClearWrite? {
      assert ClearingOk(w, w.clearing[step.id]);
      assert step.ClearDelete? ==> Deleted(w, step) in w.clearing[step.id].todo;
    }
  }

  ghost predicate ClearedOffAt(run: Run, i: nat, n: nat, r: Rule)
    requires run.Valid() && i < n < |run.states|
  {
    run.steps[i].ClearOff? && run.states[i].Holds(r, Ours)
    && forall j :: i < j < n ==> run.steps[j] != UserDeletes(r) && run.steps[j] != UserSets(r)
  }

  /** In calm runs a rule is forgotten exactly by clearing while ufw is inactive, which
      empties the ledger but deletes nothing; and then only the user can delete it. */
  lemma {:induction false} ForgottenOnlyWhenInactive(run: Run, n: nat, r: Rule)
    requires CalmRun(run) && n < |run.states| && !Forgotten(run.states[0], r)
    ensures Forgotten(run.states[n], r) <==> exists i :: 0 <= i < n && ClearedOffAt(run, i, n, r)
  {
    hide Next, Possible, Honest, Forgotten, Calm, CalmInv;
    if n > 0 {
      ForgottenOnlyWhenInactive(run, n - 1, r);
      CalmRunInv(run, n - 1);
      var w, step := run.states[n - 1], run.steps[n - 1];
      CalmForgottenStep(w, step, r);
      assert ClearedOffAt(run, n - 1, n, r) <==> step.ClearOff? && w.Holds(r, Ours);
      if Forgotten(run.states[n], r) && !(step.ClearOff? && w.Holds(r, Ours)) {
        var i :| 0 <= i < n - 1 && ClearedOffAt(run, i, n - 1, r);
        assert ClearedOffAt(run, i, n, r);
      }
      if exists i :: 0 <= i < n && ClearedOffAt(run, i, n, r) {
        var i :| 0 <= i < n && ClearedOffAt(run, i, n, r);
        assert i < n - 1 ==> ClearedOffAt(run, i, n - 1, r);
      }
    }
  }

  // ---- Runs that are not calm -----------------------------------------------------------------

  /** A run that has not begun, from a ledger and what ufw holds. */
  function Begun(ledger: set<Rule>, held: map<Rule, Owner>): Run {
    Run([World(ledger, held, None, map[])], [])
  }

  lemma ThenTruthful(run: Run, step: Step)
    requires run.Truthful() && Possible(run.Last(), step) && Honest(run.Last(), step)
    ensures run.Then(step).Truthful() && run.Then(step).Last() == Next(run.Last(), step)
    ensures run.states <= run.Then(step).states
  {
    hide Next, Possible, Honest;
    var t := run.Then(step);
    assert forall i :: 0 <= i < |run.steps| ==> t.states[i] == run.states[i] && t.steps[i] == run.steps[i];
    assert forall i :: 0 <= i < |run.states| ==> t.states[i] == run.states[i];
  }

  function Holding(r: Rule): map<Rule, Owner> {
    map[r := Ours]
  }

  predicate Apart(a: Rule, b: Rule) {
    a != b && !a.Covers(b.receiver, b.bind, b.port)
  }

  lemma NotCovered(rules: set<Rule>, b: Rule)
    requires forall a :: a in rules ==> Apart(a, b)
    ensures !Covered(rules, b.receiver, b.bind, b.port)
  {
  }

  /** An `open` from its reading of the ledger to the prompt. */
  lemma Prompted(run: Run, b: Rule) returns (t: Run)
    requires run.Truthful() && run.Last().opening.None? && b !in run.Last().held
    requires forall a :: a in run.Last().ledger ==> Apart(a, b)
    ensures t.Truthful() && run.states <= t.states
    ensures t.Last() == run.Last().(opening := Some(Opening(run.Last().ledger, b, Prompting)))
  {
    hide Covered;
    NotCovered(run.Last().ledger, b);
    ThenTruthful(run, OpenRead(b));
    t := run.Then(OpenRead(b));
    ThenTruthful(t, OpenScan(Some(false)));
    t := t.Then(OpenScan(Some(false)));
  }

  /** ... and from the prompt to the ledger, ufw adding the rule. */
  lemma Recorded(run: Run, b: Rule) returns (t: Run)
    requires run.Truthful() && run.Last().Opens(b, Prompting) && b !in run.Last().held
    ensures t.Truthful() && run.states <= t.states
    ensures var w := run.Last();
      t.Last() == w.(held := w.held[b := Ours], ledger := w.opening.value.recorded + {b}, opening := None)
  {
    hide RuleWasAdded;
    AddedSaysSo();
    ThenTruthful(run, OpenUfw(Some("Rule added\n"), false));
    t := run.Then(OpenUfw(Some("Rule added\n"), false));
    ThenTruthful(t, OpenWrite);
    t := t.Then(OpenWrite);
  }

  /** A `clear` that deletes the one rule it read, but has not written the ledger. */
  lemma Deleting(run: Run, id: nat, a: Rule) returns (t: Run)
    requires run.Truthful() && id in run.Last().clearing && run.Last().clearing[id] == Clearing([a], [a], {})
    ensures t.Truthful() && run.states <= t.states
    ensures var w := run.Last();
      t.Last() == w.(held := w.held - {a}, clearing := w.clearing[id := Clearing([a], [], {})])
  {
    ThenTruthful(run, ClearDelete(id, true, true));
    t := run.Then(ClearDelete(id, true, true));
    assert [a][1..] == [];
  }

  lemma Reading(run: Run, id: nat, a: Rule) returns (t: Run)
    requires run.Truthful() && id !in run.Last().clearing && run.Last().ledger == {a}
    ensures t.Truthful() && run.states <= t.states
    ensures var w := run.Last(); t.Last() == w.(clearing := w.clearing[id := Clearing([a], [a], {})])
  {
    assert Listed([a]) == {a};
    ThenTruthful(run, ClearRead(id, [a]));
    t := run.Then(ClearRead(id, [a]));
  }

  lemma Writing(run: Run, id: nat) returns (t: Run)
    requires run.Truthful() && id in run.Last().clearing && run.Last().clearing[id].todo == []
    ensures t.Truthful() && run.states <= t.states
    ensures var w := run.Last(); t.Last() == w.(ledger := w.clearing[id].kept, clearing := w.clearing - {id})
  {
    ThenTruthful(run, ClearWrite(id));
    t := run.Then(ClearWrite(id));
  }

  lemma BegunTruthful(ledger: set<Rule>, held: map<Rule, Owner>)
    ensures Begun(ledger, held).Truthful()
  {
  }

  /** A rule is opened, and then cleared while ufw is inactive. */
  lemma ForgottenByClearing(r: Rule) returns (run: Run)
    ensures run.Truthful() && run.states[0] == World({}, map[], None, map[])
    ensures Forgotten(run.Last(), r) && run.Last().opening.None? && run.Last().clearing == map[]
  {
    hide Next, Possible, Honest;
    BegunTruthful({}, map[]);
    run := Prompted(Begun({}, map[]), r);
    run := Recorded(run, r);
    assert run.Last().ledger == {r};
    run := Reading(run, 0, r);
    run := Off(run, 0);
  }

  /** An active ufw, no user: a rule is opened and recorded while a `clear` is deleting
      another, and then forgotten. */
  lemma ForgottenByOverlap(a: Rule, b: Rule) returns (run: Run)
    requires Apart(a, b)
    ensures run.Truthful() && run.states[0] == World({a}, Holding(a), None, map[])
    ensures Forgotten(run.Last(), b) && run.Last().ledger == {} && run.Last().opening.None? && run.Last().clearing == map[]
  {
    hide Next, Possible, Honest;
    BegunTruthful({a}, Holding(a));
    run := Reading(Begun({a}, Holding(a)), 0, a);
    run := Prompted(run, b);
    run := Recorded(run, b);
    run := Deleting(run, 0, a);
    run := Writing(run, 0);
  }

  /** A forgotten rule is recorded again by the stale writing of an `open`. */
  lemma RecordedAgain(a: Rule, b: Rule) returns (run: Run, i: nat)
    requires Apart(a, b)
    ensures run.Truthful() && run.states[0] == World({a}, Holding(a), None, map[])
    ensures i < |run.states| && Forgotten(run.states[i], a) && a in run.Last().ledger && run.Last().Holds(a, Ours)
  {
    hide Possible, Honest, Covered;
    BegunTruthful({a}, Holding(a));
    run := Prompted(Begun({a}, Holding(a)), b);
    run := Reading(run, 0, a);
    run := Off(run, 0);
    i := |run.states| - 1;
    run := Recorded(run, b);
  }

  lemma Off(run: Run, id: nat) returns (t: Run)
    requires run.Truthful() && id in run.Last().clearing && run.Last().clearing[id].todo == run.Last().clearing[id].listed
    ensures t.Truthful() && run.states <= t.states
    ensures var w := run.Last(); t.Last() == w.(ledger := {}, clearing := w.clearing - {id})
  {
    ThenTruthful(run, ClearOff(id));
    t := run.Then(ClearOff(id));
  }

  /** The user sets a rule while the prompt for it is up; ufw replaces it. */
  lemma ReplacedDuringPrompt(r: Rule) returns (run: Run, i: nat)
    ensures run.Truthful() && run.states[0] == World({}, map[], None, map[])
    ensures i < |run.states| && run.states[i].Holds(r, Users) && run.Last().Holds(r, Ours) && r !in run.Last().ledger
  {
    hide Covered, RuleWasAdded;
    AddedSaysSo();
    BegunTruthful({}, map[]);
    run := Prompted(Begun({}, map[]), r);
    ThenTruthful(run, UserSets(r));
    run := run.Then(UserSets(r));
    i := |run.states| - 1;
    ThenTruthful(run, OpenUfw(Some("Rule updated\n"), true));
    run := run.Then(OpenUfw(Some("Rule updated\n"), true));
  }

  /** The user sets a rule that is not recorded at that moment; the stale writing of an
      `open` records it, and the next `clear` deletes it. */
  lemma DeletedAfterStaleWrite(a: Rule, b: Rule) returns (run: Run, i: nat)
    requires Apart(a, b)
    ensures run.Truthful() && run.states[0] == World({a}, Holding(a), None, map[])
    ensures i < |run.states| && run.states[i].Holds(a, Users) && a !in run.states[i].ledger && a !in run.Last().held
  {
    hide Covered, RuleWasAdded, Honest, Possible;
    BegunTruthful({a}, Holding(a));
    run := Prompted(Begun({a}, Holding(a)), b);
    run := Reading(run, 0, a);
    run := Deleting(run, 0, a);
    run := Writing(run, 0);
    run := Setting(run, a);
    i := |run.states| - 1;
    run := Recorded(run, b);
    run := DeletingFirst(run, 1, a, b);
  }

  lemma Setting(run: Run, r: Rule) returns (t: Run)
    requires run.Truthful()
    ensures t.Truthful() && run.states <= t.states
    ensures t.Last() == run.Last().(held := run.Last().held[r := Users])
  {
    ThenTruthful(run, UserSets(r));
    t := run.Then(UserSets(r));
  }

  lemma DeletingFirst(run: Run, id: nat, a: Rule, b: Rule) returns (t: Run)
    requires run.Truthful() && id !in run.Last().clearing && run.Last().ledger == {a, b}
    ensures t.Truthful() && run.states <= t.states && t.Last().held == run.Last().held - {a}
  {
    assert Listed([a, b]) == {a, b};
    ThenTruthful(run, ClearRead(id, [a, b]));
    t := run.Then(ClearRead(id, [a, b]));
    ThenTruthful(t, ClearDelete(id, true, true));
    t := t.Then(ClearDelete(id, true, true));
  }
}

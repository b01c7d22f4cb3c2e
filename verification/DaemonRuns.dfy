/** What the session lifecycle guarantees along every run of the daemon. */
module DaemonRuns {
  import opened Text
  import opened Daemon
  import opened DaemonSafety

  datatype Run = Run(states: seq<State>, steps: seq<Step>) {
    predicate Valid() {
      |states| == |steps| + 1 && states[0] == INIT
      && forall i :: 0 <= i < |steps| ==> Enabled(states[i], steps[i]) && states[i + 1] == Next(states[i], steps[i])
    }
  }

  lemma {:induction false} RunInv(run: Run, i: nat)
    requires run.Valid() && i < |run.states|
    ensures Inv(run.states[i])
  {
    hide Inv, Next, Enabled;
    if i == 0 {
      InitInv();
    } else {
      RunInv(run, i - 1);
      StepKeeps(run.states[i - 1], run.steps[i - 1]);
    }
  }

  // ---- Slots ------------------------------------------------------------------------

  /** At every moment of every run: at most one protocol slot is filled, it belongs
      to the visible session and matches its protocol; and with the lock free, a
      missing session means nothing at all is held. */
  lemma SlotsFollowSession(run: Run, i: nat)
    requires run.Valid() && i < |run.states|
    ensures var s := run.states[i];
      (forall p, q :: s.active.Slot(p).Some? && s.active.Slot(q).Some? ==> p == q)
      && (forall p :: s.active.Slot(p).Some? ==> s.session.id != 0 && s.session.protocol == Some(p))
      && (s.pc.Free? && s.session.id == 0 ==> s.active == EMPTY)
      && (s.pc.Free? && s.session.id != 0 ==>
            s.session.protocol.Some? && s.active.Slot(s.session.protocol.value).Some?
            && s.active.serve == s.session.protocol)
  {
    hide LogOk, WorkersOk;
    RunInv(run, i);
    assert forall p :: SlotOk(run.states[i], p);
  }

  /** With the lock free, the only poller not aborted is the one in the session's
      slot: no restart, failure or teardown leaves one behind. */
  lemma NoPollerLeft(run: Run, i: nat, w: nat)
    requires run.Valid() && i < |run.states|
    requires var s := run.states[i]; s.pc.Free? && w in s.workers && !s.workers[w].kind.Cast? && !s.workers[w].aborted
    ensures var s := run.states[i];
      s.workers[w].session == s.session.id
      && s.session.protocol == Some(s.workers[w].kind) && s.active.Slot(s.workers[w].kind) == Some(w)
  {
    hide LogOk, PcOk;
    RunInv(run, i);
    var s := run.states[i];
    assert WorkerOk(s, w);
    assert SlotOk(s, Dlna) && SlotOk(s, Airplay);
  }

  // ---- Session ids ---------------------------------------------------------------------

  predicate Restaffs(pc: Pc) {
    pc.ConnTeardown? || pc.ConnFail? || pc.DiscTeardown? || pc.ShutTeardown? || pc.AutoTeardown? || pc.RtAbort?
    || pc.RsAbort? || pc.ConnPlay? || pc.RsSpawn?
  }

  lemma StaffKept(s: State, c: Choice)
    requires !Restaffs(s.pc)
    ensures Handler(s, c).workers == s.workers && Handler(s, c).spawned == s.spawned
  {
  }

  /** Workers may be aborted, and one may be added; nothing else happens to them. */
  predicate StaffChange(s: State, t: State) {
    t.session == s.session && t.nextId == s.nextId && s.spawned <= t.spawned && t.events == s.events
    && (forall w :: w in s.workers && w != s.spawned ==>
          (w in t.workers
           && t.workers[w] == s.workers[w].(aborted := t.workers[w].aborted)
           && (s.workers[w].aborted ==> t.workers[w].aborted)))
    && (forall w :: w in t.workers ==> w in s.workers || w == s.spawned < t.spawned)
  }

  lemma Restaffed(s: State, c: Choice)
    requires Restaffs(s.pc)
    ensures StaffChange(s, Handler(s, c))
  {
    hide Handler, StaffChange;
    if s.pc.ConnPlay? || s.pc.RsSpawn? {
      Spawned(s, c);
    } else if s.pc.RsAbort? {
      Aborted(s, c);
    } else {
      TornDown(s, c);
    }
  }

  lemma Spawned(s: State, c: Choice)
    requires s.pc.ConnPlay? || s.pc.RsSpawn?
    ensures StaffChange(s, Handler(s, c))
  {
  }

  lemma Aborted(s: State, c: Choice)
    requires s.pc.RsAbort?
    ensures StaffChange(s, Handler(s, c))
  {
    hide Abort;
    AbortMarks(s.workers, Some(s.pc.w));
  }

  lemma TornDown(s: State, c: Choice)
    requires Restaffs(s.pc) && !s.pc.ConnPlay? && !s.pc.RsSpawn? && !s.pc.RsAbort?
    ensures StaffChange(s, Handler(s, c))
  {
    hide Abort;
    var workers := Abort(s.workers, s.active.dlna);
    AbortMarks(s.workers, s.active.dlna);
    AbortMarks(workers, s.active.airplay);
  }

  lemma AbortMarks(workers: map<nat, Worker>, slot: Option<nat>)
    ensures Abort(workers, slot).Keys == workers.Keys
    ensures forall w :: w in workers ==>
      Abort(workers, slot)[w] == workers[w].(aborted := Abort(workers, slot)[w].aborted)
      && (workers[w].aborted ==> Abort(workers, slot)[w].aborted)
  {
  }

  predicate InConnect(pc: Pc) {
    pc.ConnNewId? || pc.ConnLookup? || pc.ConnProtocol? || pc.ConnDetails? || pc.ConnFirewall? || pc.ConnMedia?
    || pc.ConnFill? || pc.ConnFinish?
  }

  predicate InRestart(pc: Pc) {
    pc.RsTake? || pc.RsPlay? || pc.RsPut? || pc.RsWrite? || pc.RtStop? || pc.RtStart? || pc.RtContext? || pc.RtBoost?
    || pc.RtSwitch?
  }

  predicate IdChange(s: State, t: State) {
    s.nextId <= t.nextId
    && (t.session.id == s.session.id || (t.session.id == 0 && s.pc.Reset?)
        || (t.session.id == s.nextId && t.nextId == s.nextId + 1 && s.pc.ConnNewId?))
  }

  lemma HandlerId(s: State, c: Choice)
    requires !Restaffs(s.pc)
    ensures IdChange(s, Handler(s, c))
  {
    hide Handler, IdChange;
    if InConnect(s.pc) {
      ConnectId(s, c);
    } else if InRestart(s.pc) {
      RestartId(s, c);
    } else {
      OtherId(s, c);
    }
  }

  lemma ConnectId(s: State, c: Choice)
    requires InConnect(s.pc)
    ensures IdChange(s, Handler(s, c))
  {
  }

  lemma RestartId(s: State, c: Choice)
    requires InRestart(s.pc)
    ensures IdChange(s, Handler(s, c))
  {
  }

  lemma OtherId(s: State, c: Choice)
    requires !Restaffs(s.pc) && !InConnect(s.pc) && !InRestart(s.pc)
    ensures IdChange(s, Handler(s, c))
  {
  }

  /** The id changes only where a handler resets or replaces the session. */
  lemma IdStep(s: State, step: Step)
    requires Inv(s) && Enabled(s, step)
    ensures var t := Next(s, step);
      s.nextId <= t.nextId
      && (t.session.id == s.session.id
          || (t.session.id == 0 && step.Advance? && s.pc.Reset?)
          || (t.session.id == s.nextId && t.nextId == s.nextId + 1 && step.Advance? && s.pc.ConnNewId?))
  {
    hide Inv, Handler;
    if step.Advance? {
      if Restaffs(s.pc) {
        Restaffed(s, step.choice);
      } else {
        HandlerId(s, step.choice);
      }
    } else if IsWorkerStep(step) {
      WorkerStepEffect(s, step);
    }
  }

  /** An id that is not the current one, once issued, never becomes it again. */
  lemma {:induction false} StaleForever(run: Run, i: nat, j: nat, k: nat)
    requires run.Valid() && i <= j < |run.states|
    requires 0 < k < run.states[i].nextId && run.states[i].session.id != k
    ensures run.states[j].session.id != k && k < run.states[j].nextId
    decreases j
  {
    hide Inv, Next, Enabled;
    if i < j {
      StaleForever(run, i, j - 1, k);
      RunInv(run, j - 1);
      IdStep(run.states[j - 1], run.steps[j - 1]);
    }
  }

  /** Worker ids are not reused, so a worker keeps its session for life. */
  lemma {:induction false} WorkerKeepsSession(run: Run, i: nat, j: nat, w: nat)
    requires run.Valid() && i <= j < |run.states|
    requires w in run.states[i].workers
    ensures w < run.states[j].spawned
    ensures w in run.states[j].workers ==> run.states[j].workers[w].session == run.states[i].workers[w].session
    ensures w in run.states[j].workers && run.states[i].workers[w].aborted ==> run.states[j].workers[w].aborted
    ensures w in run.states[j].workers ==> run.states[j].workers[w].kind == run.states[i].workers[w].kind
    decreases j
  {
    hide Inv, Next, Enabled;
    if i < j {
      WorkerKeepsSession(run, i, j - 1, w);
      RunInv(run, j - 1);
      SameWorkerStep(run.states[j - 1], run.steps[j - 1], w);
    } else {
      RunInv(run, i);
      Fresh(run.states[i], w);
    }
  }

  lemma Fresh(s: State, w: nat)
    requires Inv(s) && w in s.workers
    ensures w < s.spawned && 0 < s.workers[w].session < s.nextId
  {
    assert WorkerOk(s, w);
  }

  lemma Fresh0(s: State)
    requires Inv(s)
    ensures s.spawned !in s.workers
  {
    if s.spawned in s.workers {
      Fresh(s, s.spawned);
    }
  }

  lemma HandlerStaff(s: State, c: Choice, w: nat)
    requires w < s.spawned
    ensures var t := Handler(s, c);
      s.spawned <= t.spawned && (w in t.workers <==> w in s.workers)
      && (w in t.workers ==> t.workers[w] == s.workers[w].(aborted := t.workers[w].aborted)
                             && (s.workers[w].aborted ==> t.workers[w].aborted))
  {
    hide Handler;
    if Restaffs(s.pc) {
      Restaffed(s, c);
    } else {
      StaffKept(s, c);
    }
  }

  lemma SameWorkerStep(s: State, step: Step, w: nat)
    requires Inv(s) && Enabled(s, step) && w < s.spawned
    ensures var t := Next(s, step);
      w < t.spawned
      && (w in t.workers ==>
            w in s.workers && t.workers[w].session == s.workers[w].session
            && t.workers[w].kind == s.workers[w].kind && (s.workers[w].aborted ==> t.workers[w].aborted))
  {
    hide Inv, Handler;
    if step.Advance? {
      HandlerStaff(s, step.choice, w);
    } else if IsWorkerStep(step) {
      WorkerStepEffect(s, step);
    }
  }

  function WorkerOf(step: Step): nat
    requires IsWorkerStep(step)
  {
    match step
    case PollTick(w) => w
    case PollReply(w, _) => w
    case PollWrite(w) => w
    case PollPost(w) => w
    case CastWrite(w, _, _) => w
    case CastEnd(w, _) => w
  }

  lemma StaleStep(s: State, step: Step)
    requires Enabled(s, step) && IsWorkerStep(step) && s.workers[WorkerOf(step)].session != s.session.id
    ensures Next(s, step).session == s.session
  {
  }

  /** Once its session is over, a poller or Cast thread changes nothing the panel
      shows, however long it lingers and whoever casts next. */
  lemma StaleWorkerIsHarmless(run: Run, i: nat, j: nat, w: nat)
    requires run.Valid() && i <= j < |run.steps|
    requires w in run.states[i].workers && run.states[i].workers[w].session != run.states[i].session.id
    requires IsWorkerStep(run.steps[j]) && WorkerOf(run.steps[j]) == w
    ensures run.states[j + 1].session == run.states[j].session
  {
    hide Inv, Next;
    RunInv(run, i);
    Fresh(run.states[i], w);
    StaleForever(run, i, j, run.states[i].workers[w].session);
    WorkerKeepsSession(run, i, j, w);
    StaleStep(run.states[j], run.steps[j]);
  }

  // ---- Aborted pollers -------------------------------------------------------------------

  /** Critical sections poller `w` runs in the steps from `i` up to `j`. */
  function Sections(run: Run, i: nat, j: nat, w: nat): nat
    requires i <= j <= |run.steps|
    decreases j
  {
    if i == j then 0
    else Sections(run, i, j - 1, w) + (if run.steps[j - 1] == PollWrite(w) then 1 else 0)
  }

  /** An aborted poller that already has its answer may use it; no other can. */
  function SectionsLeft(s: State, w: nat): nat {
    if w in s.workers && s.workers[w].phase.Ready? then 1 else 0
  }

  lemma AbortedStep(s: State, step: Step, w: nat)
    requires Inv(s) && Enabled(s, step) && w < s.spawned
    requires w in s.workers ==> s.workers[w].aborted
    ensures SectionsLeft(Next(s, step), w) + (if step == PollWrite(w) then 1 else 0) <= SectionsLeft(s, w)
  {
    hide Inv, Handler, Section;
    if step.Advance? {
      HandlerStaff(s, step.choice, w);
    }
  }

  /** Aborting is cooperative, but an aborted poller writes at most once more. */
  lemma {:induction false} AbortedPollerWritesOnce(run: Run, i: nat, j: nat, w: nat)
    requires run.Valid() && i <= j <= |run.steps|
    requires w in run.states[i].workers && run.states[i].workers[w].aborted
    ensures Sections(run, i, j, w) + SectionsLeft(run.states[j], w) <= SectionsLeft(run.states[i], w) <= 1
    decreases j
  {
    hide Inv, Next, Enabled;
    if i < j {
      AbortedPollerWritesOnce(run, i, j - 1, w);
      RunInv(run, j - 1);
      WorkerKeepsSession(run, i, j - 1, w);
      AbortedStep(run.states[j - 1], run.steps[j - 1], w);
    }
  }

  // ---- Auto-stop -------------------------------------------------------------------------

  /** Each session is stopped automatically at most once. */
  lemma AutoStoppedOnce(run: Run, i: nat)
    requires run.Valid() && i < |run.states|
    ensures NoDuplicates(run.states[i].autoStopped)
  {
    hide PcOk, WorkersOk, SessionOk;
    RunInv(run, i);
  }

  /** An event about a session that was already stopped, replaced or revived by a
      restart changes nothing. */
  lemma LateEventIgnored(run: Run, i: nat, k: nat)
    requires run.Valid() && i < |run.steps| && run.steps[i].Advance? && run.states[i].pc == AutoCheck(k)
    requires var s := run.states[i];
      k in s.autoStopped || s.session.id != k || !s.session.state.Ended()
    ensures run.states[i + 1] == run.states[i].(pc := Free)
  {
    hide PcOk, WorkersOk, SessionOk;
    RunInv(run, i);
  }

  predicate TearingDown(pc: Pc) {
    pc.DiscTeardown? || pc.AutoTeardown? || pc.ConnFail? || pc.Reset?
  }

  predicate NothingLeft(s: State) {
    s.session == DEFAULT_SESSION && s.active == EMPTY
    && forall w :: w in s.workers && !s.workers[w].kind.Cast? ==> s.workers[w].aborted
  }

  lemma TeardownStep(s: State, step: Step)
    requires Inv(s) && Enabled(s, step) && TearingDown(s.pc)
    ensures var t := Next(s, step);
      TearingDown(t.pc) || (t.pc.Free? && t.session == DEFAULT_SESSION && t.active == EMPTY)
  {
    hide SessionOk, WorkersOk, LogOk;
    if IsWorkerStep(step) {
      WorkerStepEffect(s, step);
    }
  }

  /** Once `disconnect`, `auto_stop` or a failed `connect` tears a session down, the
      next time the lock is free nothing of it is left: no session, slot, server or
      live poller, whatever the workers did meanwhile. */
  lemma {:induction false} TeardownCompletes(run: Run, i: nat, j: nat)
    requires run.Valid() && i <= j < |run.states|
    requires TearingDown(run.states[i].pc) && forall m :: i <= m < j ==> !run.states[m].pc.Free?
    ensures TearingDown(run.states[j].pc) || (run.states[j].pc.Free? && NothingLeft(run.states[j]))
    decreases j
  {
    hide Inv, Next, Enabled, TearingDown;
    if i < j {
      TeardownCompletes(run, i, j - 1);
      RunInv(run, j - 1);
      RunInv(run, j);
      TeardownStep(run.states[j - 1], run.steps[j - 1]);
      if run.states[j].pc.Free? && run.states[j].active == EMPTY {
        Unheld(run.states[j]);
      }
    }
  }

  lemma Unheld(s: State)
    requires Inv(s) && s.pc.Free? && s.active == EMPTY
    ensures forall w :: w in s.workers && !s.workers[w].kind.Cast? ==> s.workers[w].aborted
  {
    hide PcOk, LogOk, SessionOk;
    assert forall w :: w in s.workers ==> WorkerOk(s, w);
  }

  /** `auto_stop` tears down exactly the sessions that are current and ended when it
      gets the lock, and then none of them a second time. */
  lemma AutoStopDecision(run: Run, i: nat, k: nat)
    requires run.Valid() && i < |run.steps| && run.steps[i].Advance? && run.states[i].pc == AutoCheck(k)
    ensures var s := run.states[i];
      (TearingDown(run.states[i + 1].pc) <==> s.session.id == k && s.session.state.Ended())
      && (TearingDown(run.states[i + 1].pc) ==> k !in s.autoStopped)
  {
    hide PcOk, WorkersOk, SessionOk;
    RunInv(run, i);
  }

  /** The event is in the queue, with the consumer, or about to be posted; or the
      handler is already acting on it. */
  predicate InFlight(s: State, k: nat) {
    k in s.events || s.handling == Some(k) || Posts(s, k)
    || s.pc == AutoCheck(k) || s.pc == AutoTeardown(k) || s.pc.Reset?
    || (s.pc.FailPost? && s.pc.k == k)
  }

  predicate Posts(s: State, k: nat) {
    exists w :: w in s.workers && s.workers[w].phase.Posting? && s.workers[w].session == k
  }

  /** An ended DLNA or AirPlay session always has its event on the way. */
  predicate EndIsPosted(s: State) {
    s.session.state.Ended() && (s.session.protocol == Some(Dlna) || s.session.protocol == Some(Airplay))
    ==> InFlight(s, s.session.id)
  }

  lemma PostsKept(s: State, t: State, k: nat)
    requires forall w :: w in s.workers && s.workers[w].phase.Posting? ==> w in t.workers && t.workers[w].phase == s.workers[w].phase && t.workers[w].session == s.workers[w].session
    ensures Posts(s, k) ==> Posts(t, k)
  {
    if Posts(s, k) {
      var w :| w in s.workers && s.workers[w].phase.Posting? && s.workers[w].session == k;
      assert w in t.workers && t.workers[w].phase.Posting? && t.workers[w].session == k;
    }
  }

  lemma WritePosted(s: State, w: nat)
    requires Inv(s) && Enabled(s, PollWrite(w)) && EndIsPosted(s)
    ensures EndIsPosted(Next(s, PollWrite(w)))
  {
    hide PcOk, LogOk, SessionOk, WorkersOk;
    var t := Next(s, PollWrite(w));
    PostsKept(s, t, s.session.id);
    var me := s.workers[w];
    if s.session.id == me.session && Section(s.session, me, me.phase.reply).ended {
      SectionEffect(s.session, me, me.phase.reply);
      assert t.workers[w].phase.Posting? && t.workers[w].session == t.session.id;
    }
  }

  lemma PostPosted(s: State, w: nat)
    requires Inv(s) && Enabled(s, PollPost(w)) && EndIsPosted(s)
    ensures EndIsPosted(Next(s, PollPost(w)))
  {
    hide PcOk, LogOk, SessionOk, WorkersOk;
    var t := Next(s, PollPost(w));
    var k := s.session.id;
    assert s.workers[w].session in t.events;
    if Posts(s, k) && s.workers[w].session != k {
      var v :| v in s.workers && s.workers[v].phase.Posting? && s.workers[v].session == k;
      assert v in t.workers;
    }
  }

  lemma WorkerPosted(s: State, step: Step)
    requires Inv(s) && Enabled(s, step) && IsWorkerStep(step) && EndIsPosted(s)
    ensures EndIsPosted(Next(s, step))
  {
    hide PcOk, LogOk, SessionOk, Section;
    match step
    case PollWrite(w) => WritePosted(s, w);
    case PollPost(w) => PostPosted(s, w);
    case PollTick(w) => PostsKept(s, Next(s, step), s.session.id);
    case PollReply(w, _) => PostsKept(s, Next(s, step), s.session.id);
    case CastWrite(w, _, _) =>
      assert WorkerOk(s, w);
      PostsKept(s, Next(s, step), s.session.id);
    case CastEnd(w, _) => PostsKept(s, Next(s, step), s.session.id);
  }

  lemma HandlerPosted(s: State, c: Choice)
    requires Inv(s) && EndIsPosted(s) && !s.pc.Free? && !s.pc.Exited?
    ensures EndIsPosted(Handler(s, c))
  {
    hide Inv, Handler, EndIsPosted;
    if Restaffs(s.pc) {
      RestaffPosted(s, c);
    } else {
      StaffPosted(s, c);
    }
  }

  lemma RestaffPosted(s: State, c: Choice)
    requires Inv(s) && EndIsPosted(s) && Restaffs(s.pc)
    ensures EndIsPosted(Handler(s, c))
  {
    hide Inv, Handler;
    var t := Handler(s, c);
    Restaffed(s, c);
    Fresh0(s);
    PostsKept(s, t, s.session.id);
    RestaffPc(s, c);
  }

  lemma RestaffPc(s: State, c: Choice)
    requires Restaffs(s.pc)
    ensures Handler(s, c).handling == s.handling && !s.pc.Reset? && !s.pc.AutoCheck? && !s.pc.FailPost?
    ensures s.pc.AutoTeardown? ==> Handler(s, c).pc.Reset?
  {
  }

  lemma StaffPosted(s: State, c: Choice)
    requires Inv(s) && EndIsPosted(s) && !Restaffs(s.pc) && !s.pc.Free? && !s.pc.Exited?
    ensures EndIsPosted(Handler(s, c))
  {
    hide Handler, SessionOk, WorkersOk, LogOk, Settled, Taken, OwnWorker;
    var t := Handler(s, c);
    StaffKept(s, c);
    PostsKept(s, t, s.session.id);
    StateAfter(s, c);
  }

  /** An ended session in `t` ended just now, with its event to be posted next, or
      was there in `s` and nothing about its event was lost. */
  predicate EndKept(s: State, t: State) {
    t.session.state.Ended() && (t.session.protocol == Some(Dlna) || t.session.protocol == Some(Airplay)) ==>
      (t.pc.FailPost? && t.pc.k == t.session.id)
      || (s.session.state.Ended() && t.session.id == s.session.id && t.session.protocol == s.session.protocol
          && t.handling == s.handling && !s.pc.Reset?
          && (s.pc.FailPost? ==> t.events == s.events + [s.pc.k])
          && (!s.pc.FailPost? ==> t.events == s.events)
          && (s.pc == AutoCheck(s.session.id) ==> t.pc == AutoTeardown(s.session.id)))
  }

  /** How a handler step that starts or aborts no worker leaves an ended session. */
  lemma StateAfter(s: State, c: Choice)
    requires PcOk(s) && !Restaffs(s.pc) && !s.pc.Free? && !s.pc.Exited?
    ensures EndKept(s, Handler(s, c))
  {
    hide PcOk, Handler, EndKept;
    if InConnect(s.pc) {
      ConnectState(s, c);
    } else if InRestart(s.pc) {
      RestartState(s, c);
    } else {
      OtherState(s, c);
    }
  }

  lemma ConnectState(s: State, c: Choice)
    requires PcOk(s) && InConnect(s.pc)
    ensures EndKept(s, Handler(s, c))
  {
    hide Settled, Taken, OwnWorker;
  }

  lemma RestartState(s: State, c: Choice)
    requires InRestart(s.pc)
    ensures EndKept(s, Handler(s, c))
  {
    hide PcOk;
  }

  lemma OtherState(s: State, c: Choice)
    requires PcOk(s) && !Restaffs(s.pc) && !InConnect(s.pc) && !InRestart(s.pc) && !s.pc.Free? && !s.pc.Exited?
    ensures EndKept(s, Handler(s, c))
  {
    hide Settled, Taken, OwnWorker;
  }

  lemma BeginPosted(s: State, step: Step)
    requires Inv(s) && Enabled(s, step) && !step.Advance? && !IsWorkerStep(step) && EndIsPosted(s)
    ensures EndIsPosted(Next(s, step))
  {
    hide LogOk, WorkersOk, Settled, PcOk, SessionOk;
    PostsKept(s, Next(s, step), s.session.id);
    if step.ReceiveEvent? {
      HeadTail(s.events);
    }
  }

  lemma {:induction false} RunPosted(run: Run, i: nat)
    requires run.Valid() && i < |run.states|
    ensures EndIsPosted(run.states[i])
  {
    hide Inv, Next, Enabled, EndIsPosted, Handler;
    if i == 0 {
      NothingEnded();
    } else {
      var s, step := run.states[i - 1], run.steps[i - 1];
      RunPosted(run, i - 1);
      RunInv(run, i - 1);
      StepPosted(s, step);
    }
  }

  lemma NothingEnded()
    ensures EndIsPosted(INIT)
  {
  }

  lemma StepPosted(s: State, step: Step)
    requires Inv(s) && Enabled(s, step) && EndIsPosted(s)
    ensures EndIsPosted(Next(s, step))
  {
    hide Inv, EndIsPosted, Handler;
    if step.Advance? {
      HandlerPosted(s, step.choice);
    } else if IsWorkerStep(step) {
      WorkerPosted(s, step);
    } else {
      BeginPosted(s, step);
    }
  }

  /** No ended DLNA or AirPlay session is forgotten: with the lock free, its
      `SessionEnded` is queued, held by the consumer, or about to be posted. */
  lemma EndedSessionIsReported(run: Run, i: nat)
    requires run.Valid() && i < |run.states|
    requires var s := run.states[i];
      s.pc.Free? && s.session.state.Ended() && (s.session.protocol == Some(Dlna) || s.session.protocol == Some(Airplay))
    ensures var s := run.states[i]; var k := s.session.id;
      k in s.events || s.handling == Some(k) || Posts(s, k)
  {
    RunPosted(run, i);
  }
}

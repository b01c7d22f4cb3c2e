/** Safety of the session lifecycle over every interleaving. */
module DaemonSafety {
  import opened Text
  import opened Daemon

  // ---- The invariant ------------------------------------------------------------

  /** With nobody at work: no session and nothing held, or a session whose
      protocol's slot, and only that one, is filled. */
  predicate Settled(s: State) {
    if s.session.id == 0 then s.active == EMPTY
    else
      s.session.protocol.Some? && s.active.serve == s.session.protocol
      && Only(s.active, s.session.protocol.value)
  }

  /** The slot of `p` is filled and the others are not. */
  predicate Only(a: Active, p: Protocol) {
    (a.cast.Some? <==> p.Cast?) && (a.dlna.Some? <==> p.Dlna?) && (a.airplay.Some? <==> p.Airplay?)
    && !p.Unsupported?
  }

  predicate Taken(s: State, p: Protocol) {
    s.session.id != 0 && s.session.protocol == Some(p) && (p.Dlna? || p.Airplay?)
    && s.active.NoSlot() && s.active.serve == Some(p)
  }

  /** What each handler may rely on where it stands. */
  predicate PcOk(s: State) {
    match s.pc
    case Free | ConnTeardown | DiscTeardown | AutoCheck(_) | PauseWrite | ResumeWrite | ShutTeardown => Settled(s)
    case ConnNewId | Reset | Exited => s.active == EMPTY
    case ConnLookup =>
      s.session.id != 0 && s.active == EMPTY && s.session.protocol.None? && s.session.state.Connecting?
    case ConnProtocol(_) =>
      s.session.id != 0 && s.active == EMPTY && s.session.protocol.None? && s.session.state.Connecting?
    case ConnDetails(p) => s.session.id != 0 && s.active == EMPTY && s.session.protocol == Some(p)
    case ConnFirewall(p) => s.session.id != 0 && s.active == EMPTY && s.session.protocol == Some(p)
    case ConnMedia(p) =>
      s.session.id != 0 && s.active == EMPTY && s.session.protocol == Some(p) && !p.Unsupported?
    case ConnPlay(p, _) =>
      s.session.id != 0 && s.active == EMPTY.(media := true) && s.session.protocol == Some(p) && !p.Unsupported?
    case ConnFill(p, w) =>
      s.session.id != 0 && s.active == EMPTY.(media := true) && s.session.protocol == Some(p) && !p.Unsupported?
      && w < s.spawned && OwnWorker(s, w, p)
    case ConnFinish(id) => Settled(s) && s.session.id == id && id != 0
    case ConnFail => s.session.id != 0 && s.active.NoSlot() && s.active.serve.None?
    case AutoTeardown(k) => Settled(s) && s.session.id == k && k != 0
    case FinalWrite | RtAbort | RtStop | RtStart | RtContext | RtBoost | RtSwitch | FailWrite(_) | RsWrite(_, _) =>
      Settled(s) && s.session.id != 0
    case FailPost(k, _) => Settled(s) && s.session.id == k && k != 0
    case RsTake(p, _) => Settled(s) && s.session.id != 0 && s.session.protocol == Some(p) && (p.Dlna? || p.Airplay?)
    case RsAbort(p, _, w) => Taken(s, p) && w < s.spawned && OwnWorker(s, w, p)
    case RsPlay(p, _) => Taken(s, p)
    case RsSpawn(p, _, _) => Taken(s, p)
    case RsPut(p, _, _, w) => Taken(s, p) && w < s.spawned && OwnWorker(s, w, p)
  }

  /** A worker still around belongs to the current session and speaks `p`. */
  predicate OwnWorker(s: State, w: nat, p: Protocol) {
    w in s.workers ==> s.workers[w].session == s.session.id && s.workers[w].kind == p
  }

  predicate SlotOk(s: State, p: Protocol) {
    s.active.Slot(p).Some? ==>
      s.session.id != 0 && s.session.protocol == Some(p)
      && s.active.Slot(p).value < s.spawned && OwnWorker(s, s.active.Slot(p).value, p)
  }

  /** A poller the handler has in hand: just spawned, or about to be aborted. */
  function InHand(pc: Pc): Option<nat> {
    match pc
    case ConnFill(_, w) => Some(w)
    case RsAbort(_, _, w) => Some(w)
    case RsPut(_, _, _, w) => Some(w)
    case _ => None
  }

  predicate Held(s: State, w: nat) {
    s.active.Holds(w) || InHand(s.pc) == Some(w)
  }

  predicate WorkerOk(s: State, w: nat)
    requires w in s.workers
  {
    var me := s.workers[w];
    w < s.spawned && 0 < me.session < s.nextId && !me.kind.Unsupported?
    && (me.kind.Cast? <==> me.phase.Running?)
    && (me.phase.Ready? ==> (me.kind.Dlna? <==> me.phase.reply.DlnaReply?))
    && (me.session == s.session.id ==> s.session.protocol == Some(me.kind))
    && (!me.kind.Cast? && !me.aborted ==> Held(s, w))
  }

  predicate SessionOk(s: State) {
    s.session.id < s.nextId && (s.session.id == 0 <==> s.session.state.Idle?)
    && (s.session.id == 0 ==> s.session == DEFAULT_SESSION)
    && (forall p :: SlotOk(s, p))
    && (s.active.serve.Some? ==> s.session.id != 0 && s.session.protocol == s.active.serve)
    && (s.active.media ==> s.session.id != 0)
  }

  predicate WorkersOk(s: State) {
    forall w :: w in s.workers ==> WorkerOk(s, w)
  }

  predicate NoDuplicates(ids: seq<nat>) {
    forall i, j :: 0 <= i < j < |ids| ==> ids[i] != ids[j]
  }

  predicate LogOk(s: State) {
    NoDuplicates(s.autoStopped)
    && (forall k :: k in s.autoStopped ==> 0 < k < s.nextId && (k == s.session.id ==> s.pc.Reset?))
  }

  predicate Inv(s: State) {
    SessionOk(s) && PcOk(s) && WorkersOk(s) && LogOk(s)
  }

  lemma InitInv()
    ensures Inv(INIT)
  {
  }

  // ---- Every step keeps it ---------------------------------------------------------

  lemma BeginKeeps(s: State, step: Step)
    requires Inv(s) && Enabled(s, step) && !step.Advance? && !IsWorkerStep(step)
    ensures Inv(Next(s, step))
  {
    hide LogOk, Settled, Only, EMPTY;
    var t := Next(s, step);
    SettledKept(s, t);
    assert t == s.(pc := t.pc, handling := t.handling, events := t.events);
    assert InHand(t.pc) == InHand(s.pc);
    assert forall p :: SlotOk(s, p) ==> SlotOk(t, p);
    assert forall w :: w in s.workers ==> WorkerOk(s, w) && WorkerOk(t, w);
    LogSame(s, t);
  }

  lemma LogSame(s: State, t: State)
    requires LogOk(s) && t.autoStopped == s.autoStopped && s.nextId <= t.nextId
    requires t.session.id == s.session.id || t.session.id == 0 || t.session.id >= s.nextId
    requires s.pc.Reset? ==> t.pc.Reset? || t.session.id == 0
    ensures LogOk(t)
  {
  }

  /** The same worker, whatever it has seen. */
  predicate SameWorker(a: Worker, b: Worker) {
    a.kind == b.kind && a.session == b.session && a.aborted == b.aborted
    && (b.kind.Cast? <==> b.phase.Running?)
    && (b.phase.Ready? ==> (b.kind.Dlna? <==> b.phase.reply.DlnaReply?))
  }

  /** All a worker can do: write the current session without touching its
      identity, move itself along, post events. */
  predicate WorkerEffect(s: State, t: State) {
    t == s.(session := t.session, workers := t.workers, events := t.events)
    && t.session.id == s.session.id && t.session.protocol == s.session.protocol
    && (t.session.protocol.None? ==> t.session == s.session)
    && (t.session.id == 0 ==> t.session == s.session)
    && (t.session.state.Idle? ==> s.session.state.Idle?)
    && forall w :: w in t.workers ==> w in s.workers && SameWorker(s.workers[w], t.workers[w])
  }

  lemma WorkerStepEffect(s: State, step: Step)
    requires Inv(s) && Enabled(s, step) && IsWorkerStep(step)
    ensures WorkerEffect(s, Next(s, step))
  {
    hide PcOk, LogOk, SlotOk, Section;
    match step
    case PollTick(w) => assert WorkerOk(s, w);
    case PollReply(w, _) => assert WorkerOk(s, w);
    case PollWrite(w) => assert WorkerOk(s, w); SectionEffect(s.session, s.workers[w], s.workers[w].phase.reply);
    case PollPost(w) => assert WorkerOk(s, w);
    case CastWrite(w, _, _) => assert WorkerOk(s, w);
    case CastEnd(w, _) => assert WorkerOk(s, w);
  }

  lemma SectionEffect(session: Session, w: Worker, reply: Reply)
    ensures var out := Section(session, w, reply);
      out.session.id == session.id && out.session.protocol == session.protocol
      && (out.session.state.Idle? ==> session.state.Idle?)
      && out.worker.kind == w.kind && out.worker.session == w.session && out.worker.aborted == w.aborted
      && (out.ended ==> out.session.state.Ended())
  {
  }

  lemma EffectKeeps(s: State, t: State)
    requires Inv(s) && WorkerEffect(s, t)
    ensures Inv(t)
  {
    hide PcOk, LogOk;
    assert forall p :: SlotOk(s, p) ==> SlotOk(t, p);
    assert forall w :: w in t.workers ==> w in s.workers && WorkerOk(s, w) && WorkerOk(t, w);
    EffectPc(s, t);
    EffectLog(s, t);
  }

  lemma EffectPc(s: State, t: State)
    requires PcOk(s) && WorkerEffect(s, t)
    ensures PcOk(t)
  {
    assert forall w, p :: OwnWorker(s, w, p) ==> OwnWorker(t, w, p);
  }

  lemma EffectLog(s: State, t: State)
    requires LogOk(s) && WorkerEffect(s, t)
    ensures LogOk(t)
  {
  }

  // Handler steps, by what they touch.

  /** Steps that leave the workers, the slots and the session's identity alone. */
  predicate IsQuiet(pc: Pc) {
    match pc
    case ConnLookup | ConnDetails(_) | ConnFirewall(_) | ConnMedia(_) | ConnFinish(_) => true
    case AutoCheck(_) | PauseWrite | ResumeWrite | FinalWrite | RsPlay(_, _) | RsWrite(_, _) => true
    case FailWrite(_) | FailPost(_, _) | RtStop | RtStart | RtContext | RtBoost | RtSwitch => true
    case _ => false
  }

  predicate Quiet(s: State, t: State) {
    t == s.(session := t.session, active := t.active, events := t.events, pc := t.pc)
    && t.session.id == s.session.id && t.session.protocol == s.session.protocol
    && (t.session.id == 0 ==> t.session == s.session)
    && (t.session.state.Idle? ==> s.session.state.Idle?)
    && t.active == s.active.(media := t.active.media)
    && (t.active.media ==> s.active.media || t.session.id != 0)
    && InHand(t.pc) == InHand(s.pc) && !s.pc.Reset?
  }

  lemma QuietKeeps(s: State, t: State)
    requires Inv(s) && Quiet(s, t) && PcOk(t)
    ensures Inv(t)
  {
    hide PcOk, LogOk;
    assert forall p :: SlotOk(s, p) ==> SlotOk(t, p);
    assert forall w :: w in t.workers ==> WorkerOk(s, w) && WorkerOk(t, w);
    LogSame(s, t);
  }

  lemma QuietStep(s: State, c: Choice)
    requires Inv(s) && IsQuiet(s.pc)
    ensures Inv(Handler(s, c))
  {
    QuietEffect(s, c);
    QuietKeeps(s, Handler(s, c));
  }

  predicate IsQuietConnect(pc: Pc) {
    pc.ConnLookup? || pc.ConnDetails? || pc.ConnFirewall? || pc.ConnMedia? || pc.ConnFinish?
  }

  lemma QuietEffect(s: State, c: Choice)
    requires SessionOk(s) && PcOk(s) && IsQuiet(s.pc)
    ensures Quiet(s, Handler(s, c)) && PcOk(Handler(s, c))
  {
    hide Quiet, PcOk, Handler, SessionOk;
    if IsQuietConnect(s.pc) {
      QuietConnect(s, c);
    } else if s.pc.RsPlay? || s.pc.RsWrite? || s.pc.FailWrite? || s.pc.FailPost? {
      QuietRestart(s, c);
    } else if s.pc.RtStop? || s.pc.RtStart? || s.pc.RtContext? || s.pc.RtBoost? || s.pc.RtSwitch? {
      QuietRestream(s, c);
    } else {
      QuietRest(s, c);
    }
  }

  lemma QuietConnect(s: State, c: Choice)
    requires SessionOk(s) && PcOk(s) && IsQuietConnect(s.pc)
    ensures Quiet(s, Handler(s, c)) && PcOk(Handler(s, c))
  {
    hide SlotOk, OwnWorker;
  }

  lemma SettledKept(s: State, t: State)
    requires t.active == s.active || (s.session.id != 0 && t.active == s.active.(media := t.active.media))
    requires t.session.id == s.session.id && t.session.protocol == s.session.protocol
    ensures Settled(t) == Settled(s)
  {
  }

  lemma QuietRestart(s: State, c: Choice)
    requires SessionOk(s) && PcOk(s)
    requires s.pc.RsPlay? || s.pc.RsWrite? || s.pc.FailWrite? || s.pc.FailPost?
    ensures Quiet(s, Handler(s, c)) && PcOk(Handler(s, c))
  {
    hide SlotOk, OwnWorker, Settled;
    SettledKept(s, Handler(s, c));
  }

  lemma QuietRestream(s: State, c: Choice)
    requires SessionOk(s) && PcOk(s)
    requires s.pc.RtStop? || s.pc.RtStart? || s.pc.RtContext? || s.pc.RtBoost? || s.pc.RtSwitch?
    ensures Quiet(s, Handler(s, c)) && PcOk(Handler(s, c))
  {
    hide SlotOk, OwnWorker, Settled;
    SettledKept(s, Handler(s, c));
    SettledServe(s);
  }

  lemma QuietRest(s: State, c: Choice)
    requires SessionOk(s) && PcOk(s)
    requires s.pc.AutoCheck? || s.pc.PauseWrite? || s.pc.ResumeWrite? || s.pc.FinalWrite?
    ensures Quiet(s, Handler(s, c)) && PcOk(Handler(s, c))
  {
    hide SlotOk, OwnWorker, Settled;
    SettledKept(s, Handler(s, c));
  }

  lemma SettledServe(s: State)
    requires Settled(s)
    ensures s.session.id != 0 ==> s.active.serve == s.session.protocol
  {
  }

  /** After a teardown nothing is held and no poller is left unaborted. */
  lemma TornDownKeeps(s: State, t: State)
    requires Inv(s) && InHand(s.pc).None? && InHand(t.pc).None?
    requires t == Teardown(s).(pc := t.pc, autoStopped := t.autoStopped)
    requires PcOk(t) && LogOk(t)
    ensures Inv(t)
  {
    hide PcOk, LogOk;
    assert forall p :: SlotOk(t, p);
    forall w | w in t.workers
      ensures WorkerOk(t, w)
    {
      assert WorkerOk(s, w);
    }
  }

  lemma TeardownKeeps(s: State, c: Choice)
    requires Inv(s)
    requires s.pc.ConnTeardown? || s.pc.ConnFail? || s.pc.DiscTeardown? || s.pc.ShutTeardown?
    ensures Inv(Handler(s, c))
  {
    var t := Handler(s, c);
    LogSame(s, t);
    TornDownKeeps(s, t);
  }

  lemma AutoTeardownStep(s: State, c: Choice)
    requires Inv(s) && s.pc.AutoTeardown?
    ensures Inv(Handler(s, c))
  {
    var t := Handler(s, c);
    assert s.pc.k !in s.autoStopped;
    TornDownKeeps(s, t);
  }

  /** Aborting the pollers in place: the slots still hold them. */
  lemma RestreamAbortStep(s: State, c: Choice)
    requires Inv(s) && s.pc.RtAbort?
    ensures Inv(Handler(s, c))
  {
    hide LogOk;
    var t := Handler(s, c);
    LogSame(s, t);
    assert forall p :: SlotOk(s, p) ==> SlotOk(t, p);
    forall w | w in t.workers
      ensures WorkerOk(t, w)
    {
      assert WorkerOk(s, w);
    }
  }

  /** A new session: every worker so far belongs to an older one. */
  lemma NewIdStep(s: State, c: Choice)
    requires Inv(s) && s.pc.ConnNewId?
    ensures Inv(Handler(s, c))
  {
    hide LogOk;
    var t := Handler(s, c);
    LogSame(s, t);
    assert forall p :: SlotOk(t, p);
    forall w | w in t.workers
      ensures WorkerOk(t, w)
    {
      assert WorkerOk(s, w);
    }
  }

  lemma ResetStep(s: State, c: Choice)
    requires Inv(s) && s.pc.Reset?
    ensures Inv(Handler(s, c))
  {
    hide LogOk;
    var t := Handler(s, c);
    LogSame(s, t);
    assert forall p :: SlotOk(t, p);
    forall w | w in t.workers
      ensures WorkerOk(t, w)
    {
      assert WorkerOk(s, w);
    }
  }

  lemma ProtocolStep(s: State, c: Choice)
    requires Inv(s) && s.pc.ConnProtocol?
    ensures Inv(Handler(s, c))
  {
    hide LogOk;
    var t := Handler(s, c);
    LogSame(s, t);
    assert forall p :: SlotOk(t, p);
    forall w | w in t.workers
      ensures WorkerOk(t, w)
    {
      assert WorkerOk(s, w);
    }
  }

  /** Starting a worker for the current session. */
  lemma SpawnKeeps(s: State, t: State, p: Protocol)
    requires Inv(s) && InHand(s.pc).None? && !s.pc.Reset? && !p.Unsupported?
    requires s.session.id != 0 && s.session.protocol == Some(p)
    requires t == Spawn(s, p).(pc := t.pc) && PcOk(t)
    requires InHand(t.pc) == Some(s.spawned) || (p.Cast? && InHand(t.pc).None?)
    ensures Inv(t)
  {
    hide PcOk, LogOk;
    LogSame(s, t);
    forall q
      ensures SlotOk(t, q)
    {
      assert SlotOk(s, q);
    }
    forall w | w in t.workers
      ensures WorkerOk(t, w)
    {
      if w in s.workers {
        assert WorkerOk(s, w);
      }
    }
  }

  lemma PlayStep(s: State, c: Choice)
    requires Inv(s) && s.pc.ConnPlay?
    ensures Inv(Handler(s, c))
  {
    var t := Handler(s, c);
    if s.pc.p.Cast? || c.ok {
      SpawnKeeps(s, t, s.pc.p);
    } else {
      QuietKeeps(s, t);
    }
  }

  lemma RespawnStep(s: State, c: Choice)
    requires Inv(s) && s.pc.RsSpawn?
    ensures Inv(Handler(s, c))
  {
    SpawnKeeps(s, Handler(s, c), s.pc.p);
  }

  /** Moving the worker in hand into its slot. */
  lemma PutStep(s: State, c: Choice)
    requires Inv(s) && (s.pc.ConnFill? || s.pc.RsPut?)
    ensures Inv(Handler(s, c))
  {
    hide LogOk;
    var t := Handler(s, c);
    LogSame(s, t);
    forall q
      ensures SlotOk(t, q)
    {
      assert SlotOk(s, q);
    }
    forall w | w in t.workers
      ensures WorkerOk(t, w)
    {
      assert WorkerOk(s, w);
    }
  }

  lemma TakeStep(s: State, c: Choice)
    requires Inv(s) && s.pc.RsTake?
    ensures Inv(Handler(s, c))
  {
    hide LogOk;
    var t := Handler(s, c);
    LogSame(s, t);
    forall q
      ensures SlotOk(t, q)
    {
      assert SlotOk(s, q);
    }
    forall w | w in t.workers
      ensures WorkerOk(t, w)
    {
      assert WorkerOk(s, w);
    }
    assert SlotOk(s, s.pc.p);
  }

  lemma AbortStep(s: State, c: Choice)
    requires Inv(s) && s.pc.RsAbort?
    ensures Inv(Handler(s, c))
  {
    hide LogOk;
    var t := Handler(s, c);
    LogSame(s, t);
    assert forall q :: SlotOk(t, q);
    forall w | w in t.workers
      ensures WorkerOk(t, w)
    {
      assert WorkerOk(s, w);
    }
  }

  lemma HandlerKeeps(s: State, c: Choice)
    requires Inv(s) && !s.pc.Free? && !s.pc.Exited?
    ensures Inv(Handler(s, c))
  {
    hide Inv, Handler;
    if IsQuiet(s.pc) {
      QuietStep(s, c);
    } else if s.pc.ConnTeardown? || s.pc.ConnFail? || s.pc.DiscTeardown? || s.pc.ShutTeardown? {
      TeardownKeeps(s, c);
    } else if s.pc.RsTake? || s.pc.RsAbort? || s.pc.RsSpawn? || s.pc.RsPut? || s.pc.ConnFill? {
      RestartStep(s, c);
    } else {
      RemainingStep(s, c);
    }
  }

  lemma RestartStep(s: State, c: Choice)
    requires Inv(s) && (s.pc.RsTake? || s.pc.RsAbort? || s.pc.RsSpawn? || s.pc.RsPut? || s.pc.ConnFill?)
    ensures Inv(Handler(s, c))
  {
    hide Inv, Handler;
    if s.pc.RsTake? {
      TakeStep(s, c);
    } else if s.pc.RsAbort? {
      AbortStep(s, c);
    } else if s.pc.RsSpawn? {
      RespawnStep(s, c);
    } else {
      PutStep(s, c);
    }
  }

  lemma RemainingStep(s: State, c: Choice)
    requires Inv(s)
    requires s.pc.AutoTeardown? || s.pc.RtAbort? || s.pc.ConnNewId? || s.pc.Reset? || s.pc.ConnProtocol? || s.pc.ConnPlay?
    ensures Inv(Handler(s, c))
  {
    hide Inv, Handler;
    if s.pc.AutoTeardown? {
      AutoTeardownStep(s, c);
    } else if s.pc.RtAbort? {
      RestreamAbortStep(s, c);
    } else if s.pc.ConnNewId? {
      NewIdStep(s, c);
    } else if s.pc.Reset? {
      ResetStep(s, c);
    } else if s.pc.ConnProtocol? {
      ProtocolStep(s, c);
    } else {
      PlayStep(s, c);
    }
  }

  lemma StepKeeps(s: State, step: Step)
    requires Inv(s) && Enabled(s, step)
    ensures Inv(Next(s, step))
  {
    hide Inv, Handler;
    if step.Advance? {
      HandlerKeeps(s, step.choice);
    } else if IsWorkerStep(step) {
      WorkerStepEffect(s, step);
      EffectKeeps(s, Next(s, step));
    } else {
      BeginKeeps(s, step);
    }
  }
}

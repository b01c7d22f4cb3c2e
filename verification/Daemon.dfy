/** The session lifecycle (src/daemon.rs): command handlers that take turns under
    the action lock, pollers and Cast threads that write the shared session at any
    time, and the queue of `SessionEnded` events that drives `auto_stop`.

    One step is one stretch of code between two points where another task can run:
    a critical section, a send, or the answer to a request. Receivers, ffmpeg and
    the firewall answer arbitrarily. */
module Daemon {
  import opened Text

  datatype Protocol = Cast | Dlna | Airplay | Unsupported

  datatype SessionState = Idle | Connecting | Buffering | Playing | Paused | Stopped | Error {
    predicate IsActive() {
      !Idle? && !Stopped?
    }

    predicate Ended() {
      Stopped? || Error?
    }
  }

  /** `shown` stands for every other field the panel sees (position, volume, ...). */
  datatype Session = Session(id: nat, state: SessionState, protocol: Option<Protocol>, shown: int)

  const DEFAULT_SESSION := Session(0, Idle, None, 0)

  // ---- Workers ---------------------------------------------------------------

  const POLL_UNREACHABLE_LIMIT: nat := 20

  datatype Transport = TPlaying | TPaused | TTransitioning | TStopped | TUnknown | TOther

  /** One round of answers; `late` when the start grace period is over. */
  datatype Reply =
    | DlnaReply(transport: Transport, late: bool, shown: int)
    | AirplayReply(playing: Option<bool>, late: bool, shown: int)

  /** A poller waits for its tick, asks the receiver, has the answer in hand, or
      still has to post that the session ended. A Cast thread just runs. */
  datatype Phase = Waiting | Querying | Ready(reply: Reply) | Posting | Running

  datatype Worker = Worker(kind: Protocol, session: nat, phase: Phase, aborted: bool,
                           seenActive: bool, unreachable: nat)

  datatype Outcome = Outcome(session: Session, worker: Worker, ended: bool)

  /** The critical section of `dlna_poll`. */
  function DlnaSection(session: Session, w: Worker, reply: Reply): Outcome
    requires reply.DlnaReply?
  {
    var seen := w.seenActive || reply.transport.TPlaying? || reply.transport.TPaused?;
    var stopped := reply.transport.TStopped? && w.seenActive;
    var state := match reply.transport
      case TPlaying => Playing
      case TPaused => Paused
      case TTransitioning => Buffering
      case _ => if stopped then Stopped else session.state;
    var unreachable := if reply.transport.TUnknown? then w.unreachable + 1 else 0;
    var failed := !stopped && (unreachable >= POLL_UNREACHABLE_LIMIT || (!seen && reply.late));
    Outcome(session.(state := if failed then Error else state, shown := reply.shown),
            w.(seenActive := seen, unreachable := unreachable), stopped || failed)
  }

  /** The critical section of `airplay_poll`. */
  function AirplaySection(session: Session, w: Worker, reply: Reply): Outcome
    requires reply.AirplayReply?
  {
    match reply.playing
    case Some(playing) =>
      Outcome(session.(state := if playing then Playing else Paused, shown := reply.shown),
              w.(seenActive := true), false)
    case None =>
      if w.seenActive then Outcome(session.(state := Stopped), w, true)
      else if reply.late then Outcome(session.(state := Error), w, true)
      else Outcome(session, w, false)
  }

  function Section(session: Session, w: Worker, reply: Reply): Outcome {
    if reply.DlnaReply? then DlnaSection(session, w, reply) else AirplaySection(session, w, reply)
  }

  // ---- The daemon ---------------------------------------------------------------

  /** The `Active` slots; each protocol slot holds its worker. */
  datatype Active = Active(media: bool, cast: Option<nat>, dlna: Option<nat>, airplay: Option<nat>,
                           serve: Option<Protocol>) {
    function Slot(p: Protocol): Option<nat> {
      match p case Cast => cast case Dlna => dlna case Airplay => airplay case Unsupported => None
    }

    function With(p: Protocol, w: Option<nat>): Active {
      match p
      case Cast => this.(cast := w)
      case Dlna => this.(dlna := w)
      case Airplay => this.(airplay := w)
      case Unsupported => this
    }

    predicate NoSlot() {
      cast.None? && dlna.None? && airplay.None?
    }

    predicate Holds(w: nat) {
      dlna == Some(w) || airplay == Some(w)
    }
  }

  const EMPTY := Active(false, None, None, None, None)

  /** Where the holder of the action lock is. */
  datatype Pc =
    | Free
    // connect
    | ConnTeardown | ConnNewId | ConnLookup | ConnProtocol(p: Protocol) | ConnDetails(p: Protocol)
    | ConnFirewall(p: Protocol) | ConnMedia(p: Protocol) | ConnPlay(p: Protocol, retry: bool)
    | ConnFill(p: Protocol, w: nat) | ConnFinish(id: nat) | ConnFail
    // disconnect, auto_stop, shutdown
    | DiscTeardown | AutoCheck(k: nat) | AutoTeardown(k: nat) | Reset | ShutTeardown | Exited
    // pause, resume, and the unguarded writes of seek, volume, mute and subtitle
    | PauseWrite | ResumeWrite | FinalWrite
    // restart_dlna and restart_airplay; `nested` when restream called them
    | RsTake(p: Protocol, nested: bool) | RsAbort(p: Protocol, nested: bool, w: nat)
    | RsPlay(p: Protocol, nested: bool) | RsSpawn(p: Protocol, nested: bool, ok: bool)
    | RsPut(p: Protocol, nested: bool, ok: bool, w: nat) | RsWrite(nested: bool, ok: bool)
    // fail_session, and again in restream
    | FailWrite(again: bool) | FailPost(k: nat, again: bool)
    // restream
    | RtAbort | RtStop | RtStart | RtContext | RtBoost | RtSwitch

  datatype State = State(session: Session, active: Active, workers: map<nat, Worker>, spawned: nat,
                         events: seq<nat>, handling: Option<nat>, nextId: nat, pc: Pc,
                         autoStopped: seq<nat>)

  const INIT := State(DEFAULT_SESSION, EMPTY, map[], 0, [], None, 1, Free, [])

  /** The nondeterministic answers a handler step may use. */
  datatype Choice = Choice(ok: bool, p: Protocol, shown: int)

  datatype Step =
    | BeginConnect | BeginDisconnect | BeginPause | BeginResume | BeginSeek(restart: bool)
    | BeginTweak | BeginRestream | BeginShutdown
    | ReceiveEvent | BeginAutoStop
    | Advance(choice: Choice)
    | PollTick(w: nat) | PollReply(w: nat, reply: Reply) | PollWrite(w: nat) | PollPost(w: nat)
    | CastWrite(w: nat, state: Option<SessionState>, shown: int) | CastEnd(w: nat, post: bool)

  predicate IsWorkerStep(step: Step) {
    step.PollTick? || step.PollReply? || step.PollWrite? || step.PollPost? || step.CastWrite? || step.CastEnd?
  }

  predicate Enabled(s: State, step: Step) {
    match step
    case BeginConnect | BeginDisconnect | BeginPause | BeginResume | BeginShutdown => s.pc.Free?
    case BeginSeek(_) | BeginTweak | BeginRestream => s.pc.Free? && s.session.state.IsActive()
    case ReceiveEvent => s.handling.None? && s.events != []
    case BeginAutoStop => s.pc.Free? && s.handling.Some?
    case Advance(_) => !s.pc.Free? && !s.pc.Exited?
    case PollTick(w) => w in s.workers && s.workers[w].phase.Waiting? && !s.workers[w].aborted
    case PollReply(w, reply) =>
      w in s.workers && s.workers[w].phase.Querying? && !s.workers[w].aborted
      && (if s.workers[w].kind.Dlna? then reply.DlnaReply? else reply.AirplayReply?)
    case PollWrite(w) => w in s.workers && s.workers[w].phase.Ready?
    case PollPost(w) => w in s.workers && s.workers[w].phase.Posting?
    case CastWrite(w, state, _) =>
      w in s.workers && s.workers[w].phase.Running? && state != Some(Idle) && state != Some(Connecting)
    case CastEnd(w, _) => w in s.workers && s.workers[w].phase.Running?
  }

  function Abort(workers: map<nat, Worker>, slot: Option<nat>): map<nat, Worker> {
    if slot.Some? && slot.value in workers then
      workers[slot.value := workers[slot.value].(aborted := true)]
    else workers
  }

  /** `disconnect_locked`: empties every slot and aborts the pollers. */
  function Teardown(s: State): State {
    s.(active := EMPTY, workers := Abort(Abort(s.workers, s.active.dlna), s.active.airplay))
  }

  function Spawn(s: State, p: Protocol): State {
    s.(workers := s.workers[s.spawned :=
         Worker(p, s.session.id, if p.Cast? then Running else Waiting, false, false, 0)],
       spawned := s.spawned + 1)
  }

  /** After a restart: fail the session once if the receiver refused the stream. */
  function AfterRestart(nested: bool, ok: bool): Pc {
    if ok then FinalWrite else FailWrite(nested)
  }

  function SetState(s: State, state: SessionState): State {
    s.(session := s.session.(state := state))
  }

  function Show(s: State, shown: int): State {
    s.(session := s.session.(shown := shown))
  }

  /** The next stretch of the handler that holds the lock. */
  function Handler(s: State, c: Choice): State {
    match s.pc
    case Free | Exited => s
    case ConnTeardown => Teardown(s).(pc := ConnNewId)
    case ConnNewId =>
      s.(session := Session(s.nextId, Connecting, None, c.shown), nextId := s.nextId + 1, pc := ConnLookup)
    case ConnLookup => s.(pc := if c.ok then ConnProtocol(c.p) else Reset)
    case ConnProtocol(p) =>
      s.(session := s.session.(protocol := Some(p), shown := c.shown), pc := ConnDetails(p))
    case ConnDetails(p) => Show(s, c.shown).(pc := ConnFirewall(p))
    case ConnFirewall(p) => s.(pc := if c.ok && !p.Unsupported? then ConnMedia(p) else ConnFail)
    case ConnMedia(p) =>
      if c.ok then s.(active := s.active.(media := true), pc := ConnPlay(p, false)) else s.(pc := ConnFail)
    case ConnPlay(p, retry) =>
      if p.Cast? then
        Spawn(s, Cast).(pc := if c.ok then ConnFill(Cast, s.spawned) else if retry then ConnFail else ConnPlay(p, true))
      else if c.ok then Spawn(s, p).(pc := ConnFill(p, s.spawned))
      else s.(pc := ConnFail)
    case ConnFill(p, w) =>
      s.(active := s.active.With(p, Some(w)).(serve := Some(p)), pc := ConnFinish(s.session.id))
    case ConnFinish(id) =>
      (if s.session.id == id && s.session.state.Connecting? then SetState(s, Buffering) else s).(pc := Free)
    case ConnFail => Teardown(s).(pc := Reset)
    case DiscTeardown => Teardown(s).(pc := Reset)
    case AutoCheck(k) =>
      s.(pc := if s.session.id == k && s.session.state.Ended() then AutoTeardown(k) else Free)
    case AutoTeardown(k) => Teardown(s).(pc := Reset, autoStopped := s.autoStopped + [k])
    case Reset => s.(session := DEFAULT_SESSION, pc := Free)
    case ShutTeardown => Teardown(s).(pc := Exited)
    case PauseWrite => (if s.session.state.Playing? then SetState(s, Paused) else s).(pc := Free)
    case ResumeWrite => (if s.session.state.Paused? then SetState(s, Playing) else s).(pc := Free)
    case FinalWrite => Show(s, c.shown).(pc := Free)
    case RsTake(p, nested) =>
      var slot := s.active.Slot(p);
      if s.active.serve.None? || slot.None? then s.(pc := if nested then FailWrite(false) else FinalWrite)
      else s.(active := s.active.With(p, None), pc := RsAbort(p, nested, slot.value))
    case RsAbort(p, nested, w) => s.(workers := Abort(s.workers, Some(w)), pc := RsPlay(p, nested))
    case RsPlay(p, nested) => s.(pc := RsSpawn(p, nested, c.ok))
    case RsSpawn(p, nested, ok) => Spawn(s, p).(pc := RsPut(p, nested, ok, s.spawned))
    case RsPut(p, nested, ok, w) => s.(active := s.active.With(p, Some(w)), pc := RsWrite(nested, ok))
    case RsWrite(nested, ok) => Show(SetState(s, Buffering), c.shown).(pc := AfterRestart(nested, ok))
    case FailWrite(again) =>
      if s.session.state.IsActive() then Show(SetState(s, Error), c.shown).(pc := FailPost(s.session.id, again))
      else s.(pc := if again then FailWrite(false) else FinalWrite)
    case FailPost(k, again) =>
      s.(events := s.events + [k], pc := if again then FailWrite(false) else FinalWrite)
    case RtAbort =>
      s.(workers := Abort(Abort(s.workers, s.active.dlna), s.active.airplay),
         pc := if s.active.serve.Some? then RtStop else FailWrite(false))
    case RtStop => s.(active := s.active.(media := false), pc := RtStart)
    case RtStart =>
      if c.ok then s.(active := s.active.(media := true), pc := RtContext) else s.(pc := FailWrite(false))
    case RtContext => s.(pc := RtBoost)
    case RtBoost => Show(s, c.shown).(pc := RtSwitch)
    case RtSwitch =>
      match s.active.serve
      case Some(Dlna) => s.(pc := RsTake(Dlna, true))
      case Some(Airplay) => s.(pc := RsTake(Airplay, true))
      case Some(Cast) => s.(pc := if s.active.cast.Some? then FinalWrite else FailWrite(false))
      case _ => s.(pc := FailWrite(false))
  }

  /** `seek`: only an ffmpeg stream on DLNA or AirPlay has to be restarted. */
  function SeekPc(s: State, restart: bool): Pc {
    match s.session.protocol
    case Some(Dlna) => if restart then RsTake(Dlna, false) else FinalWrite
    case Some(Airplay) => if restart then RsTake(Airplay, false) else FinalWrite
    case _ => FinalWrite
  }

  function Drop(s: State, w: nat): State {
    s.(workers := s.workers - {w})
  }

  /** A worker's critical section: the id is checked again under the write lock. */
  function WriteBack(s: State, w: nat): State
    requires w in s.workers && s.workers[w].phase.Ready?
  {
    var me := s.workers[w];
    if s.session.id != me.session then Drop(s, w)
    else
      var out := Section(s.session, me, me.phase.reply);
      s.(session := out.session,
         workers := s.workers[w := out.worker.(phase := if out.ended then Posting else Waiting)])
  }

  function Next(s: State, step: Step): State
    requires Enabled(s, step)
  {
    match step
    case BeginConnect => s.(pc := ConnTeardown)
    case BeginDisconnect => s.(pc := DiscTeardown)
    case BeginPause => s.(pc := PauseWrite)
    case BeginResume => s.(pc := ResumeWrite)
    case BeginSeek(restart) => s.(pc := SeekPc(s, restart))
    case BeginTweak => s.(pc := FinalWrite)
    case BeginRestream => s.(pc := RtAbort)
    case BeginShutdown => s.(pc := ShutTeardown)
    case ReceiveEvent => s.(handling := Some(s.events[0]), events := s.events[1..])
    case BeginAutoStop => s.(pc := AutoCheck(s.handling.value), handling := None)
    case Advance(choice) => Handler(s, choice)
    case PollTick(w) =>
      if s.session.id != s.workers[w].session then Drop(s, w)
      else s.(workers := s.workers[w := s.workers[w].(phase := Querying)])
    case PollReply(w, reply) => s.(workers := s.workers[w := s.workers[w].(phase := Ready(reply))])
    case PollWrite(w) => WriteBack(s, w)
    case PollPost(w) => Drop(s.(events := s.events + [s.workers[w].session]), w)
    case CastWrite(w, state, shown) =>
      if s.session.id != s.workers[w].session then s
      else s.(session := s.session.(state := if state.Some? then state.value else s.session.state, shown := shown))
    case CastEnd(w, post) =>
      Drop(if post then s.(events := s.events + [s.workers[w].session]) else s, w)
  }
}

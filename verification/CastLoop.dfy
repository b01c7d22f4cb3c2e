/** The Cast session loop (src/cast.rs, `run_session`). Everything the loop asks
    the receiver and hears from it is one history; the loop's variables, and all
    it shows the panel, are folds of that history. */
module CastLoop {
  import opened Text
  import opened TimeText
  import opened Daemon
  import opened SeekStart

  datatype IdleReason = IdleError | Finished | Cancelled | Interrupted

  datatype Player = PlayerIdle(reason: Option<IdleReason>) | PlayerPlaying | PlayerBuffering | PlayerPaused

  /** One entry of a media status. */
  datatype Entry = Entry(id: int, player: Player, time: Option<real>)

  datatype Message = Status(entries: seq<Entry>) | LoadFailed | MediaError | OtherMessage

  /** A command with the answer the receiver gives to it: `ok`, or the media status
      a load comes back with. `probed` is what ffprobe prints, if it runs. */
  datatype Command =
    | PauseCast(ok: bool)
    | ResumeCast(ok: bool)
    | Shutdown
    | Seek(position: real, probed: Option<string>, ok: bool, loaded: Option<seq<Entry>>)
    | SetSubtitle(ok: bool)
    | SetVolume
    | Reload(position: real, transcode: bool, exact: bool, probed: Option<string>, loaded: Option<seq<Entry>>)

  datatype Verb = Pause | Play | Jump(to: real) | EditTracks | Stop

  /** A load names the stream by `sent`, the printed form of `start`, and asks to play
      it from `at` on. */
  datatype Event =
    | Begin(entries: seq<Entry>)
    | Asked(command: Command)
    | Load(start: real, sent: real, at: real, loaded: Option<seq<Entry>>)
    | Told(verb: Verb, id: int, ok: bool)
    | Heard(message: Message, current: bool)
    | TimedOut
    | Failed
    | Polled(id: int, answer: Option<seq<Entry>>, current: bool)

  type History = seq<Event>

  datatype Mode = Mode(transcode: bool, exact: bool)

  const MAX_ERRORS: nat := 5

  // ---- What a history means ---------------------------------------------------------

  function FirstId(entries: seq<Entry>, otherwise: int): int {
    if entries == [] then otherwise else entries[0].id
  }

  /** The media session our own loads created, or the first one heard of. */
  function Own(h: History): int {
    if h == [] then 0
    else
      var before := Own(h[..|h| - 1]);
      match h[|h| - 1]
      case Begin(entries) => FirstId(entries, 0)
      case Load(_, _, _, Some(entries)) => FirstId(entries, before)
      case Heard(Status(entries), _) => if before == 0 then FirstId(entries, before) else before
      case _ => before
  }

  /** Where in the file the stream last asked for begins. */
  function LastStart(h: History): real {
    if h == [] then 0.0
    else match h[|h| - 1] case Load(start, _, _, _) => start case _ => LastStart(h[..|h| - 1])
  }

  /** Failures since the last message; timeouts count for nothing. */
  function ErrorRun(h: History): nat {
    if h == [] then 0
    else match h[|h| - 1]
      case Heard(_, _) => 0
      case Failed => ErrorRun(h[..|h| - 1]) + 1
      case _ => ErrorRun(h[..|h| - 1])
  }

  function ModeOf(h: History, initial: Mode): Mode {
    if h == [] then initial
    else match h[|h| - 1]
      case Asked(Reload(_, transcode, exact, _, _)) => Mode(transcode, exact)
      case _ => ModeOf(h[..|h| - 1], initial)
  }

  predicate Stopping(h: History) {
    Asked(Shutdown) in h
  }

  /** The first entry of a status ends the cast. */
  predicate Ends(entries: seq<Entry>, own: int) {
    entries != [] && entries[0].player.PlayerIdle?
    && match entries[0].player.reason
       case Some(IdleError) => true
       case Some(Finished) => true
       case Some(_) => own == 0 || entries[0].id == own
       case None => false
  }

  predicate EndsNow(e: Event, own: int) {
    match e
    case Heard(Status(entries), current) => current && Ends(entries, own)
    case Heard(LoadFailed, _) => true
    case Heard(MediaError, _) => true
    case Polled(_, Some(entries), current) => current && Ends(entries, own)
    case _ => false
  }

  // ---- What the panel is shown --------------------------------------------------------

  datatype Write =
    | Put(state: Option<SessionState>, position: Option<real>)
    | Switch(from: SessionState, to: SessionState)

  function StateOf(entry: Entry, own: int): Option<SessionState> {
    match entry.player
    case PlayerPlaying => Some(Playing)
    case PlayerBuffering => Some(Buffering)
    case PlayerPaused => Some(Paused)
    case PlayerIdle(Some(IdleError)) => Some(Error)
    case PlayerIdle(Some(Finished)) => Some(Stopped)
    case PlayerIdle(Some(_)) => if own == 0 || entry.id == own then Some(Stopped) else None
    case PlayerIdle(None) => None
  }

  function Published(entries: seq<Entry>, current: bool, offset: real, own: int): seq<Write> {
    if entries == [] || !current then []
    else
      [Put(StateOf(entries[0], own),
           match entries[0].time case None => None case Some(t) => Some(MediaSeconds(t) + offset))]
  }

  function Shows(h: History): seq<Write> {
    if h == [] then []
    else
      var before := h[..|h| - 1];
      Shows(before) + ShownBy(before, h[|h| - 1])
  }

  function ShownBy(before: History, e: Event): seq<Write> {
    match e
    case Begin(entries) => Published(entries, true, 0.0, -1)
    case Load(start, _, at, Some(_)) => [Put(Some(Buffering), Some(start + at))]
    case Told(Pause, _, true) => [Switch(Playing, Paused)]
    case Told(Play, _, true) => [Switch(Paused, Playing)]
    case Told(Jump(to), _, true) => [Put(None, Some(to)), Switch(Paused, Playing)]
    case Heard(Status(entries), current) => Published(entries, current, LastStart(before), Own(before))
    case Heard(LoadFailed, _) => [Put(Some(Error), None)]
    case Heard(MediaError, _) => [Put(Some(Error), None)]
    case Polled(_, Some(entries), current) => Published(entries, current, LastStart(before), Own(before))
    case Failed => if ErrorRun(before) >= MAX_ERRORS then [Put(Some(Error), None)] else []
    case _ => []
  }

  // ---- Turns -----------------------------------------------------------------------------

  function CastStart(position: real, exact: bool, probed: Option<string>): real {
    if exact then position else match KeyframeAt(position, probed) case Some(k) => k case None => position
  }

  function LoadFrom(start: real, loaded: Option<seq<Entry>>): Event {
    Load(start, Sent(start), 0.0, loaded)
  }

  /** What a command makes the loop ask of the receiver. */
  function Answer(c: Command, own: int, mode: Mode): seq<Event> {
    match c
    case PauseCast(ok) => if own != 0 then [Told(Pause, own, ok)] else []
    case ResumeCast(ok) => if own != 0 then [Told(Play, own, ok)] else []
    case Seek(position, probed, ok, loaded) =>
      if own == 0 then []
      else if mode.transcode then [LoadFrom(CastStart(position, mode.exact, probed), loaded)]
      else [Told(Jump(position), own, ok)]
    case SetSubtitle(ok) => if own != 0 then [Told(EditTracks, own, ok)] else []
    case Reload(position, transcode, exact, probed, loaded) =>
      if transcode then [LoadFrom(CastStart(position, exact, probed), loaded)]
      else [Load(0.0, 0.0, position, loaded)]
    case _ => []
  }

  function Ask(h: History, c: Command, initial: Mode): History {
    h + ([Asked(c)] + Answer(c, Own(h), ModeOf(h, initial)))
  }

  function AskAll(h: History, commands: seq<Command>, initial: Mode): History {
    if commands == [] then h
    else Ask(AskAll(h, commands[..|commands| - 1], initial), commands[|commands| - 1], initial)
  }

  datatype Received = Got(message: Message) | Timeout | Broken

  /** Everything the world does in one turn of the loop. `stale` and `current` tell
      whether the visible session is (still) ours at that moment; `poll` is the
      answer to the regular status request, when it is due. */
  datatype Turn = Turn(commands: seq<Command>, stale: bool, received: Received, current: bool,
                       poll: Option<Option<seq<Entry>>>, pollCurrent: bool)

  datatype Exit = Continue | ShutDown | Stale | Ended | LinkLost {
    predicate Posts() {
      Ended? || LinkLost?
    }
  }

  function Reception(turn: Turn): Event {
    match turn.received
    case Got(message) => Heard(message, turn.current)
    case Timeout => TimedOut
    case Broken => Failed
  }

  function Goodbye(h: History): History {
    if Own(h) != 0 then h + [Told(Stop, Own(h), true)] else h
  }

  function AfterReceive(h: History, e: Event): (History, Exit) {
    var t := h + [e];
    if EndsNow(e, Own(h)) then (Goodbye(t), Ended)
    else if e.Failed? && ErrorRun(t) > MAX_ERRORS then (t, LinkLost)
    else (t, Continue)
  }

  function AfterPoll(h: History, poll: Option<Option<seq<Entry>>>, current: bool): (History, Exit) {
    if poll.None? || Own(h) == 0 then (h, Continue)
    else
      var e := Polled(Own(h), poll.value, current);
      if EndsNow(e, Own(h)) then (Goodbye(h + [e]), Ended) else (h + [e], Continue)
  }

  function AfterTurn(h: History, turn: Turn, initial: Mode): (History, Exit) {
    var t := AskAll(h, turn.commands, initial);
    if Stopping(t) then (Goodbye(t), ShutDown)
    else if turn.stale then (t, Stale)
    else
      var heard := AfterReceive(t, Reception(turn));
      if heard.1.Continue? then AfterPoll(heard.0, turn.poll, turn.pollCurrent) else heard
  }

  /** The loop over a whole script of turns; `Continue` when the script runs out. */
  function Story(h: History, turns: seq<Turn>, initial: Mode): (History, Exit) {
    if turns == [] then (h, Continue)
    else
      var before := Story(h, turns[..|turns| - 1], initial);
      if before.1.Continue? then AfterTurn(before.0, turns[|turns| - 1], initial) else before
  }

  // ---- The loop itself ---------------------------------------------------------------------

  class Loop {
    var mediaSession: int
    var positionOffset: real
    var errors: nat
    var running: bool
    var mode: Mode
    var shown: seq<Write>
    ghost var history: History
    ghost const initial: Mode

    ghost predicate Valid()
      reads this
    {
      mediaSession == Own(history) && positionOffset == LastStart(history) && errors == ErrorRun(history)
      && mode == ModeOf(history, initial) && (running <==> !Stopping(history)) && shown == Shows(history)
    }

    /** The handshake loaded the media; its status is published before the media
        session is known, and cannot end the cast. */
    constructor (mode: Mode, entries: seq<Entry>)
      ensures Valid() && history == [Begin(entries)] && initial == mode
    {
      this.mode := mode;
      initial := mode;
      mediaSession := FirstId(entries, 0);
      positionOffset := 0.0;
      errors := 0;
      running := true;
      shown := Published(entries, true, 0.0, -1);
      history := [Begin(entries)];
      new;
      var none: History := [];
      assert history[..0] == none;
    }

    /** Records one event and what the panel is shown for it. */
    method Note(e: Event, writes: seq<Write>)
      requires mediaSession == Own(history + [e]) && positionOffset == LastStart(history + [e])
      requires errors == ErrorRun(history + [e]) && mode == ModeOf(history + [e], initial)
      requires running <==> !Stopping(history + [e])
      requires shown == Shows(history) && writes == ShownBy(history, e)
      modifies this`shown, this`history
      ensures Valid() && history == old(history) + [e]
    {
      hide Own, LastStart, ErrorRun, ModeOf, Stopping, Shows, ShownBy;
      ShowsOne(history, e);
      history := history + [e];
      shown := shown + writes;
    }

    method SeekCast(position: real, probed: Option<string>, ok: bool, loaded: Option<seq<Entry>>)
      requires Valid()
      modifies this
      ensures Valid()
      ensures history == old(history) +
        if old(mode).transcode then [LoadFrom(CastStart(position, old(mode).exact, probed), loaded)]
        else [Told(Jump(position), old(mediaSession), ok)]
    {
      if mode.transcode {
        var start := position;
        if !mode.exact {
          var keyframe := KeyframeAtOrBefore(position, probed);
          start := match keyframe case Some(k) => k case None => position;
        }
        positionOffset := start;
        LoadMedia(start, Sent(start), 0.0, loaded);
      } else {
        FoldOne(history, Told(Jump(position), mediaSession, ok), initial);
        Note(Told(Jump(position), mediaSession, ok),
             if ok then [Put(None, Some(position)), Switch(Paused, Playing)] else []);
      }
    }

    /** The offset is already set when the answer to the load is known. */
    method LoadMedia(start: real, sent: real, at: real, loaded: Option<seq<Entry>>)
      requires mediaSession == Own(history) && positionOffset == start && errors == ErrorRun(history)
      requires mode == ModeOf(history, initial) && (running <==> !Stopping(history)) && shown == Shows(history)
      modifies this`mediaSession, this`shown, this`history
      ensures Valid() && history == old(history) + [Load(start, sent, at, loaded)]
    {
      FoldOne(history, Load(start, sent, at, loaded), initial);
      match loaded {
        case Some(entries) =>
          mediaSession := FirstId(entries, mediaSession);
          Note(Load(start, sent, at, loaded), [Put(Some(Buffering), Some(start + at))]);
        case None =>
          Note(Load(start, sent, at, loaded), []);
      }
    }

    method Tell(verb: Verb, ok: bool, writes: seq<Write>)
      requires Valid() && writes == ShownBy(history, Told(verb, mediaSession, ok))
      modifies this
      ensures Valid() && history == old(history) + [Told(verb, old(mediaSession), ok)]
    {
      FoldOne(history, Told(verb, mediaSession, ok), initial);
      Note(Told(verb, mediaSession, ok), writes);
    }

    /** A command leaves its mark; a reload also changes how to seek from now on. */
    method Accept(c: Command)
      requires Valid()
      modifies this
      ensures Valid() && history == old(history) + [Asked(c)]
    {
      FoldOne(history, Asked(c), initial);
      match c {
        case Shutdown => running := false;
        case Reload(_, transcode, exact, _, _) => mode := Mode(transcode, exact);
        case _ =>
      }
      Note(Asked(c), []);
    }

    method Obey(c: Command)
      requires Valid()
      modifies this
      ensures Valid() && history == Ask(old(history), c, initial)
    {
      ghost var h := history;
      Accept(c);
      AskedFolds(h, c, initial);
      match c {
        case PauseCast(ok) =>
          if mediaSession != 0 {
            Tell(Pause, ok, if ok then [Switch(Playing, Paused)] else []);
          }
        case ResumeCast(ok) =>
          if mediaSession != 0 {
            Tell(Play, ok, if ok then [Switch(Paused, Playing)] else []);
          }
        case Seek(position, probed, ok, loaded) =>
          if mediaSession != 0 {
            SeekCast(position, probed, ok, loaded);
          }
        case SetSubtitle(ok) =>
          if mediaSession != 0 {
            Tell(EditTracks, ok, []);
          }
        case Reload(position, transcode, _, probed, loaded) =>
          if transcode {
            SeekCast(position, probed, false, loaded);
          } else {
            positionOffset := 0.0;
            LoadMedia(0.0, 0.0, position, loaded);
          }
        case _ =>
      }
      AskFolds(h, c, initial);
    }

    method Receive(e: Event)
      requires Valid() && (e.Heard? || e.TimedOut? || e.Failed?)
      modifies this
      ensures Valid() && history == old(history) + [e]
    {
      FoldOne(history, e, initial);
      var writes := [];
      match e {
        case Heard(message, current) =>
          errors := 0;
          writes := Hear(message, current);
        case Failed =>
          errors := errors + 1;
          writes := if errors > MAX_ERRORS then [Put(Some(Error), None)] else [];
        case _ =>
      }
      Note(e, writes);
    }

    /** Publishes a message and adopts the first media session when none is known. */
    method Hear(message: Message, current: bool) returns (writes: seq<Write>)
      requires mediaSession == Own(history) && positionOffset == LastStart(history)
      modifies this`mediaSession
      ensures writes == ShownBy(history, Heard(message, current))
      ensures mediaSession == Own(history + [Heard(message, current)])
    {
      FoldOne(history, Heard(message, current), initial);
      writes := [];
      match message {
        case Status(entries) =>
          writes := Published(entries, current, positionOffset, mediaSession);
          if entries != [] && (mediaSession == 0 || entries[0].id == mediaSession) {
            mediaSession := entries[0].id;
          }
        case LoadFailed => writes := [Put(Some(Error), None)];
        case MediaError => writes := [Put(Some(Error), None)];
        case OtherMessage =>
      }
    }

    method Teardown()
      requires Valid()
      modifies this
      ensures Valid() && history == Goodbye(old(history))
    {
      if mediaSession != 0 {
        Tell(Stop, true, []);
      }
    }

    method Commands(commands: seq<Command>)
      requires Valid()
      modifies this
      ensures Valid() && history == AskAll(old(history), commands, initial)
    {
      for i := 0 to |commands|
        invariant Valid() && history == AskAll(old(history), commands[..i], initial)
      {
        assert commands[..i + 1][..i] == commands[..i];
        Obey(commands[i]);
      }
      assert commands[..|commands|] == commands;
    }

    /** One turn: every queued command, even those after a shutdown; then one receive
        and, when due, one status request. */
    method Take(turn: Turn) returns (exit: Exit)
      requires Valid()
      modifies this
      ensures Valid() && (history, exit) == AfterTurn(old(history), turn, initial)
    {
      hide Own, LastStart, ErrorRun, ModeOf, Stopping, Shows, AskAll;
      Commands(turn.commands);
      if !running {
        Teardown();
        return ShutDown;
      }
      if turn.stale {
        return Stale;
      }
      exit := Listen(Reception(turn));
      if exit.Continue? {
        exit := Poll(turn.poll, turn.pollCurrent);
      }
    }

    method Listen(e: Event) returns (exit: Exit)
      requires Valid() && (e.Heard? || e.TimedOut? || e.Failed?)
      modifies this
      ensures Valid() && (history, exit) == AfterReceive(old(history), e)
    {
      hide Own, LastStart, ErrorRun, ModeOf, Stopping, Shows;
      var ended := EndsNow(e, mediaSession);
      Receive(e);
      if ended {
        Teardown();
        return Ended;
      }
      exit := if e.Failed? && errors > MAX_ERRORS then LinkLost else Continue;
    }

    method Poll(poll: Option<Option<seq<Entry>>>, current: bool) returns (exit: Exit)
      requires Valid()
      modifies this
      ensures Valid() && (history, exit) == AfterPoll(old(history), poll, current)
    {
      hide Own, LastStart, ErrorRun, ModeOf, Stopping, Shows;
      exit := Continue;
      if poll.Some? && mediaSession != 0 {
        var e := Polled(mediaSession, poll.value, current);
        var ended := EndsNow(e, mediaSession);
        FoldOne(history, e, initial);
        var writes := [];
        if poll.value.Some? {
          writes := Published(poll.value.value, current, positionOffset, mediaSession);
        }
        Note(e, writes);
        if ended {
          Teardown();
          exit := Ended;
        }
      }
    }

    method Run(turns: seq<Turn>) returns (exit: Exit)
      requires Valid()
      modifies this
      ensures Valid() && (history, exit) == Story(old(history), turns, initial)
    {
      exit := Continue;
      var i := 0;
      while i < |turns| && exit.Continue?
        invariant i <= |turns| && Valid() && (history, exit) == Story(old(history), turns[..i], initial)
      {
        assert turns[..i + 1][..i] == turns[..i];
        exit := Take(turns[i]);
        i := i + 1;
      }
      StoryStops(old(history), turns, i, initial);
    }
  }

  lemma {:induction false} StoryStops(h: History, turns: seq<Turn>, i: nat, initial: Mode)
    requires i <= |turns| && (i == |turns| || !Story(h, turns[..i], initial).1.Continue?)
    ensures Story(h, turns, initial) == Story(h, turns[..i], initial)
    decreases |turns|
  {
    if i == |turns| {
      assert turns[..i] == turns;
    } else {
      assert turns[..|turns| - 1][..i] == turns[..i];
      StoryStops(h, turns[..|turns| - 1], i, initial);
    }
  }

  lemma ShowsOne(h: History, e: Event)
    ensures Shows(h + [e]) == Shows(h) + ShownBy(h, e)
  {
    assert (h + [e])[..|h|] == h;
  }

  lemma FoldOne(h: History, e: Event, initial: Mode)
    ensures (h + [e])[..|h|] == h && (h + [e])[|h|] == e
    ensures Own(h + [e]) == match e
      case Begin(entries) => FirstId(entries, 0)
      case Load(_, _, _, Some(entries)) => FirstId(entries, Own(h))
      case Heard(Status(entries), _) => if Own(h) == 0 then FirstId(entries, 0) else Own(h)
      case _ => Own(h)
    ensures LastStart(h + [e]) == if e.Load? then e.start else LastStart(h)
    ensures ErrorRun(h + [e]) == if e.Heard? then 0 else if e.Failed? then ErrorRun(h) + 1 else ErrorRun(h)
    ensures ModeOf(h + [e], initial) == match e
      case Asked(Reload(_, transcode, exact, _, _)) => Mode(transcode, exact)
      case _ => ModeOf(h, initial)
    ensures Stopping(h + [e]) <==> Stopping(h) || e == Asked(Shutdown)
  {
  }

  lemma AskedFolds(h: History, c: Command, initial: Mode)
    ensures var t := h + [Asked(c)];
      Own(t) == Own(h) && LastStart(t) == LastStart(h)
      && ModeOf(t, initial) == if c.Reload? then Mode(c.transcode, c.exact) else ModeOf(h, initial)
  {
    FoldOne(h, Asked(c), initial);
  }

  lemma AskFolds(h: History, c: Command, initial: Mode)
    ensures Ask(h, c, initial) == (h + [Asked(c)]) + Answer(c, Own(h), ModeOf(h, initial))
  {
  }

  // ---- What every run guarantees -------------------------------------------------------------

  /** `e` is a load of ours that the receiver answered with a media session. */
  predicate Names(e: Event) {
    match e
    case Begin(entries) => true
    case Load(_, _, _, Some(entries)) => entries != []
    case _ => false
  }

  /** Once known, the media session changes only with one of our own loads, whatever
      sessions the receiver talks about. */
  lemma {:induction false} OwnSessionStays(h: History, i: nat)
    requires i <= |h| && Own(h[..i]) != 0
    requires forall k :: i <= k < |h| ==> !Names(h[k])
    ensures Own(h) == Own(h[..i])
  {
    if i == |h| {
      assert h[..i] == h;
    } else {
      assert h[..|h| - 1][..i] == h[..i];
      OwnSessionStays(h[..|h| - 1], i);
    }
  }

  /** Event `k` ends the cast, given what was known before it. */
  predicate EndsAt(h: History, k: nat)
    requires k < |h|
  {
    EndsNow(h[k], Own(h[..k]))
  }

  predicate Quiet(h: History) {
    forall k :: 0 <= k < |h| ==> !EndsAt(h, k)
  }

  /** Requests always name the media session known at that moment. */
  predicate Addressed(h: History) {
    forall k :: 0 <= k < |h| ==>
      (h[k].Told? ==> h[k].id == Own(h[..k]) != 0) && (h[k].Polled? ==> h[k].id == Own(h[..k]) != 0)
  }

  lemma QuietOne(h: History, e: Event)
    ensures Quiet(h + [e]) <==> Quiet(h) && !EndsNow(e, Own(h))
    ensures Addressed(h + [e]) <==>
      Addressed(h) && (e.Told? ==> e.id == Own(h) != 0) && (e.Polled? ==> e.id == Own(h) != 0)
  {
    hide Own, EndsNow, Addressed;
    var t := h + [e];
    assert t[..|h|] == h && t[|h|] == e;
    assert forall k :: 0 <= k < |h| ==> t[..k] == h[..k] && t[k] == h[k];
    assert forall k :: 0 <= k < |h| ==> (EndsAt(t, k) <==> EndsAt(h, k));
    assert EndsAt(t, |h|) <==> EndsNow(e, Own(h));
    AddressedOne(h, e);
  }

  lemma AddressedOne(h: History, e: Event)
    ensures Addressed(h + [e]) <==>
      Addressed(h) && (e.Told? ==> e.id == Own(h) != 0) && (e.Polled? ==> e.id == Own(h) != 0)
  {
    hide Own;
    var t := h + [e];
    assert t[..|h|] == h && t[|h|] == e;
    assert forall k :: 0 <= k < |h| ==> t[..k] == h[..k] && t[k] == h[k];
  }

  lemma AskQuiet(h: History, c: Command, initial: Mode)
    requires Quiet(h) && Addressed(h)
    ensures Quiet(Ask(h, c, initial)) && Addressed(Ask(h, c, initial)) && ErrorRun(Ask(h, c, initial)) == ErrorRun(h)
  {
    hide Quiet, Addressed, Own, ErrorRun, ModeOf;
    var t := h + [Asked(c)];
    var more := Answer(c, Own(h), ModeOf(h, initial));
    QuietOne(h, Asked(c));
    FoldOne(h, Asked(c), initial);
    AskFolds(h, c, initial);
    if more == [] {
      assert t + more == t;
    } else {
      QuietOne(t, more[0]);
      FoldOne(t, more[0], initial);
      assert t + more == t + [more[0]];
    }
  }

  lemma {:induction false} AskAllQuiet(h: History, commands: seq<Command>, initial: Mode)
    requires Quiet(h) && Addressed(h)
    ensures var t := AskAll(h, commands, initial); Quiet(t) && Addressed(t) && ErrorRun(t) == ErrorRun(h)
  {
    hide Quiet, Addressed, Own, ErrorRun, ModeOf, Ask;
    if commands != [] {
      AskAllQuiet(h, commands[..|commands| - 1], initial);
      AskQuiet(AskAll(h, commands[..|commands| - 1], initial), commands[|commands| - 1], initial);
    }
  }

  /** How a run stands: it ended exactly when an ending event was seen, and it lost
      the link exactly when six failures came in a row. */
  predicate Standing(h: History, exit: Exit) {
    Addressed(h) && (exit.Ended? <==> !Quiet(h)) && (exit.LinkLost? <==> ErrorRun(h) > MAX_ERRORS)
    && ErrorRun(h) <= MAX_ERRORS + 1
    && (exit.Ended? ==> exists k :: 0 <= k < |h| && Decides(h, k))
  }

  /** Event `k` ended the cast: nothing before it did, and nothing but the farewell
      follows. */
  predicate Decides(h: History, k: nat)
    requires k < |h|
  {
    EndsAt(h, k) && Quiet(h[..k]) && (|h| == k + 1 || (|h| == k + 2 && h[k + 1].Told? && h[k + 1].verb == Stop))
  }

  lemma FarewellDecides(h: History, e: Event)
    requires Quiet(h) && EndsNow(e, Own(h))
    ensures |h| < |Goodbye(h + [e])| && Decides(Goodbye(h + [e]), |h|) && Goodbye(h + [e])[|h|] == e
  {
    hide Own, EndsNow, Quiet;
    var t := Goodbye(h + [e]);
    assert t[..|h|] == h && t[|h|] == e;
  }

  lemma GoodbyeStanding(h: History)
    requires Addressed(h)
    ensures Addressed(Goodbye(h)) && (Quiet(Goodbye(h)) <==> Quiet(h)) && ErrorRun(Goodbye(h)) == ErrorRun(h)
  {
    hide Quiet, Addressed, Own, ErrorRun;
    QuietOne(h, Told(Stop, Own(h), true));
    FoldOne(h, Told(Stop, Own(h), true), Mode(false, false));
  }

  lemma ReceiveStanding(h: History, e: Event)
    requires Standing(h, Continue) && (e.Heard? || e.TimedOut? || e.Failed?)
    ensures Standing(AfterReceive(h, e).0, AfterReceive(h, e).1)
  {
    hide Quiet, Addressed, Own, ErrorRun, Goodbye, Decides;
    QuietOne(h, e);
    FoldOne(h, e, Mode(false, false));
    GoodbyeStanding(h + [e]);
    if EndsNow(e, Own(h)) {
      FarewellDecides(h, e);
    }
  }

  lemma PollStanding(h: History, poll: Option<Option<seq<Entry>>>, current: bool)
    requires Standing(h, Continue)
    ensures Standing(AfterPoll(h, poll, current).0, AfterPoll(h, poll, current).1)
  {
    hide Quiet, Addressed, Own, ErrorRun, Goodbye, Decides;
    if poll.Some? && Own(h) != 0 {
      var e := Polled(Own(h), poll.value, current);
      QuietOne(h, e);
      FoldOne(h, e, Mode(false, false));
      GoodbyeStanding(h + [e]);
      if EndsNow(e, Own(h)) {
        FarewellDecides(h, e);
      }
    }
  }

  lemma TurnStanding(h: History, turn: Turn, initial: Mode)
    requires Standing(h, Continue)
    ensures Standing(AfterTurn(h, turn, initial).0, AfterTurn(h, turn, initial).1)
  {
    hide Quiet, Addressed, Own, ErrorRun, Goodbye, Decides, AskAll, AfterReceive, AfterPoll;
    var t := AskAll(h, turn.commands, initial);
    AskAllQuiet(h, turn.commands, initial);
    GoodbyeStanding(t);
    ReceiveStanding(t, Reception(turn));
    var heard := AfterReceive(t, Reception(turn));
    if heard.1.Continue? {
      PollStanding(heard.0, turn.poll, turn.pollCurrent);
    }
  }

  /** Over every run: requests name our media session; the cast ends exactly when a
      message or poll ended it; the link is lost exactly after six failures in a row. */
  lemma {:induction false} EveryRunStands(entries: seq<Entry>, turns: seq<Turn>, initial: Mode)
    ensures var r := Story([Begin(entries)], turns, initial); Standing(r.0, r.1)
  {
    hide Quiet, Addressed, Own, ErrorRun, AfterTurn, Decides;
    if turns == [] {
      var none: History := [];
      QuietOne(none, Begin(entries));
      FoldOne(none, Begin(entries), initial);
      assert none + [Begin(entries)] == [Begin(entries)];
      NoHistory();
    } else {
      EveryRunStands(entries, turns[..|turns| - 1], initial);
      var before := Story([Begin(entries)], turns[..|turns| - 1], initial);
      if before.1.Continue? {
        TurnStanding(before.0, turns[|turns| - 1], initial);
      }
    }
  }

  lemma NoHistory()
    ensures Quiet([]) && Addressed([]) && ErrorRun([]) == 0
  {
  }

  /** The entries of a status heard or polled while the visible session was ours. */
  function StatusIn(e: Event): Option<seq<Entry>> {
    match e
    case Heard(Status(entries), true) => Some(entries)
    case Polled(_, Some(entries), true) => Some(entries)
    case _ => None
  }

  predicate IdleBecause(entries: seq<Entry>, reason: IdleReason) {
    entries != [] && entries[0].player == PlayerIdle(Some(reason))
  }

  /** A failed load, a media error, a status of any media session that is idle after an
      error or at the end, or one that says ours was cancelled or interrupted. */
  predicate EndReason(e: Event, own: int) {
    (e.Heard? && (e.message.LoadFailed? || e.message.MediaError?))
    || (StatusIn(e).Some?
        && var es := StatusIn(e).value;
           IdleBecause(es, IdleError) || IdleBecause(es, Finished)
           || ((IdleBecause(es, Cancelled) || IdleBecause(es, Interrupted)) && (own == 0 || es[0].id == own)))
  }

  lemma EndsForReason(e: Event, own: int)
    ensures EndsNow(e, own) <==> EndReason(e, own)
  {
    hide Ends, IdleBecause;
    match e
    case Heard(Status(entries), current) => EndsIs(entries, own);
    case Polled(_, Some(entries), current) => EndsIs(entries, own);
    case _ =>
  }

  lemma EndsIs(entries: seq<Entry>, own: int)
    ensures Ends(entries, own) <==>
      IdleBecause(entries, IdleError) || IdleBecause(entries, Finished)
      || ((IdleBecause(entries, Cancelled) || IdleBecause(entries, Interrupted)) && (own == 0 || entries[0].id == own))
  {
    if entries != [] && entries[0].player.PlayerIdle? {
      match entries[0].player.reason
      case None =>
      case Some(reason) =>
        assert entries[0].player == PlayerIdle(Some(reason));
        match reason
        case IdleError =>
        case Finished =>
        case Cancelled =>
        case Interrupted =>
    }
  }

  /** Over every run: a cast that ended did so on one event, the last thing heard, and
      for one of these reasons. */
  lemma WhyEnded(entries: seq<Entry>, turns: seq<Turn>, initial: Mode) returns (k: nat)
    requires Story([Begin(entries)], turns, initial).1.Ended?
    ensures var h := Story([Begin(entries)], turns, initial).0;
      k < |h| && Decides(h, k) && EndReason(h[k], Own(h[..k]))
  {
    hide Own, Story, Quiet, Addressed, ErrorRun, EndsNow, EndReason;
    EveryRunStands(entries, turns, initial);
    var h := Story([Begin(entries)], turns, initial).0;
    k :| 0 <= k < |h| && Decides(h, k);
    EndsForReason(h[k], Own(h[..k]));
  }

  /** A status of another media session ends the cast exactly when it is current and says
      "error" or "finished"; "cancelled" and "interrupted" never do. */
  lemma OtherSessionEnds(entries: seq<Entry>, turns: seq<Turn>, initial: Mode, k: nat)
    requires var h := Story([Begin(entries)], turns, initial).0;
      k < |h| && StatusIn(h[k]).Some? && StatusIn(h[k]).value != []
      && Own(h[..k]) != 0 && StatusIn(h[k]).value[0].id != Own(h[..k])
    ensures var r := Story([Begin(entries)], turns, initial); var es := StatusIn(r.0[k]).value;
      IdleBecause(es, IdleError) || IdleBecause(es, Finished) <==> r.1.Ended? && Decides(r.0, k)
  {
    hide Own, Story, Addressed, ErrorRun;
    EveryRunStands(entries, turns, initial);
    var h := Story([Begin(entries)], turns, initial).0;
    if EndsAt(h, k) {
      var j :| 0 <= j < |h| && Decides(h, j);
      DecidesOnce(h, j, k);
    }
  }

  lemma DecidesOnce(h: History, j: nat, k: nat)
    requires j < |h| && k < |h| && Decides(h, j) && EndsAt(h, k)
    ensures j == k
  {
    hide Own;
    if k < j {
      EndsBefore(h, j, k);
    }
  }

  lemma EndsBefore(h: History, j: nat, k: nat)
    requires k < j <= |h|
    ensures EndsAt(h[..j], k) <==> EndsAt(h, k)
  {
    hide Own;
    assert h[..j][..k] == h[..k] && h[..j][k] == h[k];
  }

  // ---- Positions --------------------------------------------------------------------------------

  function PositionOf(writes: seq<Write>): Option<real> {
    if writes != [] && writes[0].Put? then writes[0].position else None
  }

  /** The position shown for a load is the one the receiver's own time leads to: a
      status that reports the time the load asked for shows the same position. */
  lemma StatusAgreesWithLoad(h: History, start: real, sent: real, at: real, loaded: seq<Entry>, entries: seq<Entry>)
    requires entries != [] && entries[0].time == Some(at) && 0.0 <= at <= MAX_MEDIA_SECONDS
    ensures var load := Load(start, sent, at, Some(loaded));
      PositionOf(ShownBy(h + [load], Heard(Status(entries), true))) == PositionOf(ShownBy(h, load)) == Some(start + at)
  {
    FoldOne(h, Load(start, sent, at, Some(loaded)), Mode(false, false));
  }

  /** A reload decides how the seeks after it are done, whatever is said between. */
  lemma {:induction false} ReloadSetsMode(h: History, more: History, c: Command, initial: Mode)
    requires c.Reload? && forall k :: 0 <= k < |more| ==> !(more[k].Asked? && more[k].command.Reload?)
    ensures ModeOf(h + ([Asked(c)] + more), initial) == Mode(c.transcode, c.exact)
  {
    var all := h + ([Asked(c)] + more);
    if more == [] {
      assert all == h + [Asked(c)];
      FoldOne(h, Asked(c), initial);
    } else {
      var before := h + ([Asked(c)] + more[..|more| - 1]);
      ReloadSetsMode(h, more[..|more| - 1], c, initial);
      assert all == before + [more[|more| - 1]];
      FoldOne(before, more[|more| - 1], initial);
    }
  }

  /** A seek of an ffmpeg stream, or a reload, loads the stream from no later than the
      wanted position, keyframe search included, and shows where it resumes. The start
      as it is sent can be later: exactly when it is rounded up and no whole millisecond
      lies between. */
  lemma SeekLands(h: History, c: Command, initial: Mode) returns (load: Event)
    requires (c.Seek? && Own(h) != 0 && ModeOf(h, initial).transcode) || c.Reload?
    requires c.position >= 0.0
    ensures load.Load? && Ask(h, c, initial) == (h + [Asked(c)]) + [load]
    ensures LastStart(Ask(h, c, initial)) == load.start <= c.position && load.start + load.at <= c.position
    ensures load.sent <= c.position <==> RoundsDown(load.start) || NextMillisecond(load.start) <= c.position
    ensures -0.0005 <= load.sent - load.start <= 0.0005
    ensures c.loaded.Some? ==> PositionOf(ShownBy(h + [Asked(c)], load)) == Some(load.start + load.at)
    ensures c.Reload? && !c.transcode ==> load.start == load.sent == 0.0 && load.at == c.position
  {
    hide Own, ModeOf, Ask, LastStart, KeyframeAt, Sent, RoundsDown, NextMillisecond;
    AskFolds(h, c, initial);
    load := Answer(c, Own(h), ModeOf(h, initial))[0];
    FoldOne(h + [Asked(c)], load, initial);
    KeyframeIsNotLater(c.position, c.probed);
    SentInTime(load.start, c.position);
    SentIsNear(load.start);
    SentZero();
  }

  lemma SentZero()
    ensures Sent(0.0) == 0.0
  {
  }

  /** An exact seek is sent late exactly when its position is rounded up. */
  lemma ExactSeekLands(h: History, c: Command, initial: Mode) returns (load: Event)
    requires c.Seek? && Own(h) != 0 && ModeOf(h, initial) == Mode(true, true)
    ensures load.Load? && Ask(h, c, initial) == (h + [Asked(c)]) + [load] && load.start == c.position
    ensures load.sent <= c.position <==> RoundsDown(c.position)
  {
    hide Own, ModeOf, Ask, KeyframeAt, Sent, RoundsDown;
    AskFolds(h, c, initial);
    load := Answer(c, Own(h), ModeOf(h, initial))[0];
    ExactSentInTime(c.position);
  }

  /** One that is: a stream asked for at 12.0006 seconds begins at 12.001. */
  lemma ExactSeekIsLate(h: History, initial: Mode) returns (load: Event)
    requires Own(h) != 0 && ModeOf(h, initial) == Mode(true, true)
    ensures Ask(h, Seek(12.0006, None, false, None), initial) == (h + [Asked(Seek(12.0006, None, false, None))]) + [load]
    ensures load.Load? && load.sent == 12.001
  {
    hide Own, ModeOf, Ask, Sent;
    var c := Seek(12.0006, None, false, None);
    AskFolds(h, c, initial);
    load := Answer(c, Own(h), ModeOf(h, initial))[0];
    ExactSeekTooLate();
  }

  // ---- Losing the link --------------------------------------------------------------------------

  function CountFailed(h: History): nat {
    if h == [] then 0 else CountFailed(h[..|h| - 1]) + (if h[|h| - 1].Failed? then 1 else 0)
  }

  predicate NothingHeard(h: History, from: nat) {
    forall k :: from <= k < |h| ==> !h[k].Heard?
  }

  /** `n` failures in a row: since some moment nothing was heard and `n` receives
      failed, however many timed out in between. */
  lemma {:induction false} ErrorRunMeaning(h: History, n: nat)
    requires 0 < n
    ensures n <= ErrorRun(h) <==> exists i :: 0 <= i <= |h| && NothingHeard(h, i) && n <= CountFailed(h[i..])
  {
    var i := LastHeard(h);
    if exists j :: 0 <= j <= |h| && NothingHeard(h, j) && n <= CountFailed(h[j..]) {
      var j :| 0 <= j <= |h| && NothingHeard(h, j) && n <= CountFailed(h[j..]);
      CountGrows(h, i, j);
    }
  }

  lemma {:induction false} LastHeard(h: History) returns (i: nat)
    ensures i <= |h| && NothingHeard(h, i) && CountFailed(h[i..]) == ErrorRun(h)
    ensures forall j :: 0 <= j <= |h| && NothingHeard(h, j) ==> i <= j
  {
    if h == [] || h[|h| - 1].Heard? {
      i := |h|;
    } else {
      var before := h[..|h| - 1];
      i := LastHeard(before);
      assert h[i..][..|h[i..]| - 1] == before[i..];
      forall j | 0 <= j <= |h| && NothingHeard(h, j) ensures i <= j {
        assert j < |h| ==> NothingHeard(before, j);
      }
    }
  }

  lemma {:induction false} CountGrows(h: History, i: nat, j: nat)
    requires i <= j <= |h|
    ensures CountFailed(h[j..]) <= CountFailed(h[i..])
    decreases |h|
  {
    if j < |h| {
      var before := h[..|h| - 1];
      CountGrows(before, i, j);
      assert h[j..][..|h[j..]| - 1] == before[j..];
      assert h[i..][..|h[i..]| - 1] == before[i..];
    } else {
      assert CountFailed(h[j..]) == 0;
    }
  }
}

/** What the panel shows of a Cast session and why, and what each command makes the
    loop ask of the receiver, over every history (src/cast.rs). */
module CastPanel {
  import opened Text
  import opened TimeText
  import opened Daemon
  import opened SeekStart
  import opened CastLoop

  // ---- The panel ---------------------------------------------------------------------------

  /** What the panel has of the session. */
  datatype Panel = Panel(state: SessionState, position: real)

  function Written(p: Panel, w: Write): Panel {
    match w
    case Put(state, position) =>
      Panel(match state case None => p.state case Some(s) => s, match position case None => p.position case Some(x) => x)
    case Switch(from, to) => if p.state == from then p.(state := to) else p
  }

  function WrittenAll(p: Panel, writes: seq<Write>): Panel {
    if writes == [] then p else Written(WrittenAll(p, writes[..|writes| - 1]), writes[|writes| - 1])
  }

  /** The panel after everything the loop showed, from what it had before. */
  function PanelAfter(p: Panel, h: History): Panel {
    WrittenAll(p, Shows(h))
  }

  lemma {:induction false} WrittenConcat(p: Panel, a: seq<Write>, b: seq<Write>)
    ensures WrittenAll(p, a + b) == WrittenAll(WrittenAll(p, a), b)
  {
    if b == [] {
      NoHead(a);
      assert a + b == a;
    } else {
      var n := |b| - 1;
      WrittenConcat(p, a, b[..n]);
      assert (a + b)[..|a| + n] == a + b[..n] && (a + b)[|a| + n] == b[n];
    }
  }

  lemma PanelOne(p: Panel, h: History, e: Event)
    ensures PanelAfter(p, h + [e]) == WrittenAll(PanelAfter(p, h), ShownBy(h, e))
  {
    ShowsOne(h, e);
    WrittenConcat(p, Shows(h), ShownBy(h, e));
  }

  lemma WrittenNone(p: Panel)
    ensures WrittenAll(p, []) == p
  {
  }

  lemma WrittenOne(p: Panel, w: Write)
    ensures WrittenAll(p, [w]) == Written(p, w)
  {
    var none: seq<Write> := [];
    assert [w][..0] == none;
  }

  lemma WrittenTwo(p: Panel, v: Write, w: Write)
    ensures WrittenAll(p, [v, w]) == Written(Written(p, v), w)
  {
    assert [v, w] == [v] + [w];
    WrittenConcat(p, [v], [w]);
    WrittenOne(p, v);
    WrittenOne(Written(p, v), w);
  }

  // ---- Why it shows what it shows ------------------------------------------------------------------

  /** The entries of a media status that counts: the handshake's, or one that came
      while the visible session was ours. */
  function StatusOf(e: Event): Option<seq<Entry>> {
    match e case Begin(entries) => Some(entries) case _ => StatusIn(e)
  }

  /** The first media session of the status is in this state. */
  predicate Says(e: Event, player: Player) {
    StatusOf(e).Some? && StatusOf(e).value != [] && StatusOf(e).value[0].player == player
  }

  /** The first media session of the status is the one the loop knows, or the first it
      hears of; before the handshake's status it knows none by name. */
  predicate OfOurs(before: History, e: Event)
    requires StatusOf(e).Some? && StatusOf(e).value != []
  {
    var own := if e.Begin? then -1 else Own(before);
    own == 0 || StatusOf(e).value[0].id == own
  }

  /** Why the panel, after `before`, comes to show the state `to` with `e`. */
  predicate Because(before: History, e: Event, from: SessionState, to: SessionState) {
    match to
    case Playing =>
      Says(e, PlayerPlaying) || (from == Paused && e.Told? && (e.verb.Play? || e.verb.Jump?) && e.ok)
    case Paused => Says(e, PlayerPaused) || (from == Playing && e.Told? && e.verb.Pause? && e.ok)
    case Buffering => Says(e, PlayerBuffering) || (e.Load? && e.loaded.Some?)
    case Stopped =>
      Says(e, PlayerIdle(Some(Finished)))
      || ((Says(e, PlayerIdle(Some(Cancelled))) || Says(e, PlayerIdle(Some(Interrupted)))) && OfOurs(before, e))
    case Error =>
      Says(e, PlayerIdle(Some(IdleError))) || (e.Heard? && (e.message.LoadFailed? || e.message.MediaError?))
      || (e.Failed? && ErrorRun(before) >= 5)
    case _ => false
  }

  /** One event, exactly: the panel shows a new state when there is a reason for it, and
      keeps the old one when there is none. */
  predicate StateFollows(before: History, e: Event, from: SessionState, after: SessionState) {
    (forall to :: Because(before, e, from, to) ==> after == to)
    && ((forall to :: !Because(before, e, from, to)) ==> after == from)
  }

  lemma StatusState(before: History, e: Event, p: Panel, offset: real, own: int)
    requires StatusOf(e).Some? && own == (if e.Begin? then -1 else Own(before))
    ensures StateFollows(before, e, p.state, WrittenAll(p, Published(StatusOf(e).value, true, offset, own)).state)
  {
    hide Own, MediaSeconds;
    var entries := StatusOf(e).value;
    if entries == [] {
      WrittenNone(p);
    } else {
      WrittenOne(p, Published(entries, true, offset, own)[0]);
      match entries[0].player {
        case PlayerPlaying => assert Because(before, e, p.state, Playing);
        case PlayerBuffering => assert Because(before, e, p.state, Buffering);
        case PlayerPaused => assert Because(before, e, p.state, Paused);
        case PlayerIdle(Some(IdleError)) => assert Because(before, e, p.state, Error);
        case PlayerIdle(Some(Finished)) => assert Because(before, e, p.state, Stopped);
        case PlayerIdle(Some(Cancelled)) =>
          assert OfOurs(before, e) ==> Because(before, e, p.state, Stopped);
        case PlayerIdle(Some(Interrupted)) =>
          assert OfOurs(before, e) ==> Because(before, e, p.state, Stopped);
        case PlayerIdle(None) =>
      }
    }
  }

  lemma EventState(before: History, e: Event, p: Panel)
    ensures StateFollows(before, e, p.state, WrittenAll(p, ShownBy(before, e)).state)
  {
    hide Own, LastStart, ErrorRun, Published, WrittenAll, Says, StateFollows;
    if StatusOf(e).Some? {
      StatusState(before, e, p, if e.Begin? then 0.0 else LastStart(before), if e.Begin? then -1 else Own(before));
    } else {
      OtherState(before, e, p);
    }
  }

  lemma OtherState(before: History, e: Event, p: Panel)
    requires StatusOf(e).None?
    ensures StateFollows(before, e, p.state, WrittenAll(p, ShownBy(before, e)).state)
  {
    hide Own, LastStart, ErrorRun, WrittenAll;
    var writes, from := ShownBy(before, e), p.state;
    WrittenNone(p);
    match e {
      case Load(start, _, at, Some(_)) =>
        WrittenOne(p, writes[0]);
        assert Because(before, e, from, Buffering);
      case Told(Pause, _, true) =>
        WrittenOne(p, Switch(Playing, Paused));
        assert from == Playing ==> Because(before, e, from, Paused);
      case Told(Play, _, true) =>
        WrittenOne(p, Switch(Paused, Playing));
        assert from == Paused ==> Because(before, e, from, Playing);
      case Told(Jump(to), _, true) =>
        WrittenTwo(p, Put(None, Some(to)), Switch(Paused, Playing));
        assert from == Paused ==> Because(before, e, from, Playing);
      case Heard(LoadFailed, _) =>
        WrittenOne(p, writes[0]);
        assert Because(before, e, from, Error);
      case Heard(MediaError, _) =>
        WrittenOne(p, writes[0]);
        assert Because(before, e, from, Error);
      case Failed =>
        if writes != [] {
          WrittenOne(p, writes[0]);
          assert Because(before, e, from, Error);
        }
      case _ =>
    }
  }

  /** Over every history: what the panel shows is what it had at first, or it came to
      show it for a reason that nothing has overruled since. */
  lemma {:induction false} ShownSince(h: History, p: Panel) returns (k: nat)
    ensures k <= |h| && forall j :: k <= j <= |h| ==> PanelAfter(p, h[..j]).state == PanelAfter(p, h).state
    ensures if k == 0 then PanelAfter(p, h).state == p.state
            else Because(h[..k - 1], h[k - 1], PanelAfter(p, h[..k - 1]).state, PanelAfter(p, h).state)
  {
    hide PanelAfter, Because;
    assert h[..|h|] == h;
    if h == [] {
      k := 0;
      NothingShown(p);
    } else {
      var n := |h| - 1;
      var before, e := h[..n], h[n];
      assert h == before + [e];
      PanelOne(p, before, e);
      EventState(before, e, PanelAfter(p, before));
      var from, to := PanelAfter(p, before).state, PanelAfter(p, h).state;
      if Because(before, e, from, to) {
        k := |h|;
      } else {
        NoReason(before, e, from, to);
        k := ShownSince(before, p);
        assert forall j :: k <= j <= n ==> h[..j] == before[..j];
        if k > 0 {
          assert h[..k - 1] == before[..k - 1] && h[k - 1] == before[k - 1];
        }
      }
    }
  }

  lemma NothingShown(p: Panel)
    ensures PanelAfter(p, []) == p
  {
  }

  lemma NoReason(before: History, e: Event, from: SessionState, after: SessionState)
    requires StateFollows(before, e, from, after) && !Because(before, e, from, after)
    ensures after == from
  {
    hide Because;
    assert forall to :: !Because(before, e, from, to);
  }

  /** Over every run of the loop: the same, and the command of ours that was accepted, if
      that was the reason, named our own media session. */
  lemma PanelSince(entries: seq<Entry>, turns: seq<Turn>, initial: Mode, p: Panel) returns (k: nat)
    ensures var h := Story([Begin(entries)], turns, initial).0;
      k <= |h| && (forall j :: k <= j <= |h| ==> PanelAfter(p, h[..j]).state == PanelAfter(p, h).state)
      && (if k == 0 then PanelAfter(p, h).state == p.state
          else Because(h[..k - 1], h[k - 1], PanelAfter(p, h[..k - 1]).state, PanelAfter(p, h).state)
               && (h[k - 1].Told? ==> h[k - 1].id == Own(h[..k - 1]) != 0))
  {
    hide Own, PanelAfter, Because, Story, Quiet, ErrorRun;
    var h := Story([Begin(entries)], turns, initial).0;
    EveryRunStands(entries, turns, initial);
    k := ShownSince(h, p);
  }

  /** The position shown, exactly: where a status, an accepted load or an accepted seek
      puts it, or the old one. */
  lemma PositionFollows(before: History, e: Event, p: Panel)
    ensures var x := WrittenAll(p, ShownBy(before, e)).position;
      if StatusOf(e).Some? && StatusOf(e).value != [] && StatusOf(e).value[0].time.Some? then
        x == MediaSeconds(StatusOf(e).value[0].time.value) + (if e.Begin? then 0.0 else LastStart(before))
      else if e.Load? && e.loaded.Some? then x == e.start + e.at
      else if e.Told? && e.verb.Jump? && e.ok then x == e.verb.to
      else x == p.position
  {
    hide Own, LastStart, ErrorRun, WrittenAll, MediaSeconds;
    var writes := ShownBy(before, e);
    WrittenNone(p);
    if e.Told? && e.verb.Jump? && e.ok {
      WrittenTwo(p, writes[0], writes[1]);
    } else if writes != [] {
      WrittenOne(p, writes[0]);
    }
  }

  // ---- What the loop knows -----------------------------------------------------------------------------

  /** The stream begins where the last load asked for it, answered or not. */
  lemma {:induction false} OffsetOfLastLoad(h: History, k: nat)
    requires k < |h| && h[k].Load? && forall j :: k < j < |h| ==> !h[j].Load?
    ensures LastStart(h) == h[k].start
  {
    if k < |h| - 1 {
      OffsetOfLastLoad(h[..|h| - 1], k);
    }
  }

  /** Our media session is the one the last answered load named. */
  lemma {:induction false} OwnOfLastLoad(h: History, k: nat)
    requires k < |h| && h[k].Load? && h[k].loaded.Some? && h[k].loaded.value != [] && h[k].loaded.value[0].id != 0
    requires forall j :: k < j < |h| ==> !Names(h[j])
    ensures Own(h) == h[k].loaded.value[0].id
  {
    if k < |h| - 1 {
      OwnOfLastLoad(h[..|h| - 1], k);
    }
  }

  /** While none is known, the first session a status names becomes ours. */
  lemma FirstHeardIsOurs(h: History, entries: seq<Entry>, current: bool)
    requires Own(h) == 0 && entries != []
    ensures Own(h + [Heard(Status(entries), current)]) == entries[0].id
  {
    FoldOne(h, Heard(Status(entries), current), Mode(false, false));
  }

  /** Without a reload the stream is as it was at first. */
  lemma {:induction false} ModeAtFirst(h: History, initial: Mode)
    requires forall k :: 0 <= k < |h| ==> !(h[k].Asked? && h[k].command.Reload?)
    ensures ModeOf(h, initial) == initial
  {
    if h != [] {
      ModeAtFirst(h[..|h| - 1], initial);
    }
  }

  // ---- What a command asks --------------------------------------------------------------------------------

  /** The start of a stream for an inexact seek: the keyframe found. */
  predicate AtKeyframe(start: real, position: real, probed: Option<string>) {
    (position > 0.0 && probed.Some? ==> FoundStart(Lines(probed.value), position, start))
    && (position > 0.0 && probed.None? ==> start == position) && (position <= 0.0 ==> start == 0.0)
  }

  /** The last keyframe no later than the position, or the position when there is none. */
  predicate FoundStart(lines: seq<string>, position: real, start: real) {
    IsBest(lines, position, Some(start)) || (IsBest(lines, position, None) && start == position)
  }

  lemma CastStartIsKeyframe(position: real, probed: Option<string>)
    ensures AtKeyframe(CastStart(position, false, probed), position, probed)
  {
    hide Lines, KeyframeIn, Latest, IsBest;
    if probed.Some? {
      LatestIsBest(Lines(probed.value), position);
    }
  }

  /** A command is noted, and makes the loop ask the receiver at most one thing: exactly
      what the user wants, of our own media session, and nothing while that is unknown. */
  lemma CommandAsks(h: History, c: Command, initial: Mode)
    ensures var own, mode, t := Own(h), ModeOf(h, initial), h + [Asked(c)];
      match c
      case Shutdown => Ask(h, c, initial) == t
      case SetVolume => Ask(h, c, initial) == t
      case PauseCast(ok) => Ask(h, c, initial) == if own == 0 then t else t + [Told(Pause, own, ok)]
      case ResumeCast(ok) => Ask(h, c, initial) == if own == 0 then t else t + [Told(Play, own, ok)]
      case SetSubtitle(ok) => Ask(h, c, initial) == if own == 0 then t else t + [Told(EditTracks, own, ok)]
      case Seek(position, probed, ok, loaded) =>
        if own == 0 then Ask(h, c, initial) == t
        else if !mode.transcode then Ask(h, c, initial) == t + [Told(Jump(position), own, ok)]
        else if mode.exact then Ask(h, c, initial) == t + [Load(position, Sent(position), 0.0, loaded)]
        else
          exists start :: AtKeyframe(start, position, probed) && Ask(h, c, initial) == t + [Load(start, Sent(start), 0.0, loaded)]
      case Reload(position, transcode, exact, probed, loaded) =>
        if !transcode then Ask(h, c, initial) == t + [Load(0.0, 0.0, position, loaded)]
        else if exact then Ask(h, c, initial) == t + [Load(position, Sent(position), 0.0, loaded)]
        else
          exists start :: AtKeyframe(start, position, probed) && Ask(h, c, initial) == t + [Load(start, Sent(start), 0.0, loaded)]
  {
    hide Own, ModeOf, Ask, AtKeyframe, KeyframeAt, Sent;
    AskFolds(h, c, initial);
    assert (h + [Asked(c)]) + [] == h + [Asked(c)];
    if c.Seek? || c.Reload? {
      CastStartIsKeyframe(c.position, c.probed);
    }
  }

  /** So an accepted pause shows a playing session paused, and leaves any other as it is. */
  lemma PauseShows(h: History, initial: Mode, p: Panel)
    requires Own(h) != 0
    ensures PanelAfter(p, Ask(h, PauseCast(true), initial))
         == PanelAfter(p, h).(state := if PanelAfter(p, h).state == Playing then Paused else PanelAfter(p, h).state)
    ensures PanelAfter(p, Ask(h, ResumeCast(true), initial))
         == PanelAfter(p, h).(state := if PanelAfter(p, h).state == Paused then Playing else PanelAfter(p, h).state)
  {
    hide Own, Ask, PanelAfter, WrittenAll;
    VerbShows(h, PauseCast(true), Pause, initial, p);
    VerbShows(h, ResumeCast(true), Play, initial, p);
    WrittenOne(PanelAfter(p, h), Switch(Playing, Paused));
    WrittenOne(PanelAfter(p, h), Switch(Paused, Playing));
  }

  lemma VerbShows(h: History, c: Command, verb: Verb, initial: Mode, p: Panel)
    requires Own(h) != 0 && ((c == PauseCast(true) && verb == Pause) || (c == ResumeCast(true) && verb == Play))
    ensures PanelAfter(p, Ask(h, c, initial)) == WrittenAll(PanelAfter(p, h), ShownBy(h + [Asked(c)], Told(verb, Own(h), true)))
  {
    hide Own, Ask, PanelAfter, WrittenAll;
    CommandAsks(h, c, initial);
    PanelOne(p, h, Asked(c));
    WrittenNone(PanelAfter(p, h));
    PanelOne(p, h + [Asked(c)], Told(verb, Own(h), true));
  }

  // ---- How a run goes ----------------------------------------------------------------------------------------

  /** The commands the loop took up, in order. */
  function AskedIn(h: History): seq<Command> {
    if h == [] then []
    else AskedIn(h[..|h| - 1]) + (match h[|h| - 1] case Asked(c) => [c] case _ => [])
  }

  function AllCommands(turns: seq<Turn>): seq<Command> {
    if turns == [] then [] else AllCommands(turns[..|turns| - 1]) + turns[|turns| - 1].commands
  }

  lemma AskedOne(h: History, e: Event)
    ensures AskedIn(h + [e]) == AskedIn(h) + (match e case Asked(c) => [c] case _ => [])
  {
    assert (h + [e])[..|h|] == h;
  }

  lemma AskTakesUp(h: History, c: Command, initial: Mode)
    ensures AskedIn(Ask(h, c, initial)) == AskedIn(h) + [c]
    ensures Stopping(Ask(h, c, initial)) <==> Stopping(h) || c.Shutdown?
  {
    hide Own, ModeOf, AskedIn, CastStart, Sent;
    var t := h + [Asked(c)];
    var more := Answer(c, Own(h), ModeOf(h, initial));
    AskFolds(h, c, initial);
    AskedOne(h, Asked(c));
    if more == [] {
      assert t + more == t;
    } else {
      AskedOne(t, more[0]);
      assert t + more == t + [more[0]];
      assert AskedIn(t) + [] == AskedIn(t);
    }
  }

  lemma {:induction false} AskAllTakesUp(h: History, commands: seq<Command>, initial: Mode)
    ensures AskedIn(AskAll(h, commands, initial)) == AskedIn(h) + commands
    ensures Stopping(AskAll(h, commands, initial)) <==> Stopping(h) || Shutdown in commands
  {
    hide AskedIn, Ask, Stopping;
    if commands == [] {
      assert AskedIn(h) + commands == AskedIn(h);
    } else {
      var n := |commands| - 1;
      AskAllTakesUp(h, commands[..n], initial);
      AskTakesUp(AskAll(h, commands[..n], initial), commands[n], initial);
      assert commands == commands[..n] + [commands[n]];
      Assoc(AskedIn(h), commands[..n], [commands[n]]);
    }
  }

  /** The last thing the receiver is told. */
  predicate ToldToStop(h: History) {
    Own(h) != 0 ==> h != [] && h[|h| - 1] == Told(Stop, Own(h), true)
  }

  predicate NeverToldToStop(h: History) {
    forall k :: 0 <= k < |h| ==> !(h[k].Told? && h[k].verb.Stop?)
  }

  /** How a run went that took up these commands: it shut down exactly when told to; and
      then, or when the cast ended, the receiver was told to stop, and otherwise not. */
  predicate Went(h: History, exit: Exit, taken: seq<Command>) {
    AskedIn(h) == taken && (Stopping(h) <==> Shutdown in taken) && (exit.ShutDown? <==> Shutdown in taken)
    && (if exit.ShutDown? || exit.Ended? then ToldToStop(h) else NeverToldToStop(h))
  }

  lemma NeverToldOne(h: History, e: Event)
    requires NeverToldToStop(h) && !(e.Told? && e.verb.Stop?)
    ensures NeverToldToStop(h + [e])
  {
  }

  lemma AskNeverTells(h: History, c: Command, initial: Mode)
    requires NeverToldToStop(h)
    ensures NeverToldToStop(Ask(h, c, initial))
  {
    hide Own, ModeOf, NeverToldToStop, CastStart, Sent;
    var t := h + [Asked(c)];
    var more := Answer(c, Own(h), ModeOf(h, initial));
    AskFolds(h, c, initial);
    NeverToldOne(h, Asked(c));
    if more == [] {
      assert t + more == t;
    } else {
      NeverToldOne(t, more[0]);
      assert t + more == t + [more[0]];
    }
  }

  lemma {:induction false} AskAllNeverTells(h: History, commands: seq<Command>, initial: Mode)
    requires NeverToldToStop(h)
    ensures NeverToldToStop(AskAll(h, commands, initial))
  {
    hide NeverToldToStop, Ask;
    if commands != [] {
      AskAllNeverTells(h, commands[..|commands| - 1], initial);
      AskNeverTells(AskAll(h, commands[..|commands| - 1], initial), commands[|commands| - 1], initial);
    }
  }

  lemma GoodbyeTells(h: History)
    ensures ToldToStop(Goodbye(h)) && AskedIn(Goodbye(h)) == AskedIn(h) && (Stopping(Goodbye(h)) <==> Stopping(h))
  {
    hide Own, AskedIn;
    var e := Told(Stop, Own(h), true);
    FoldOne(h, e, Mode(false, false));
    AskedOne(h, e);
    assert AskedIn(h) + [] == AskedIn(h);
  }

  /** An event that is no command changes nothing about the commands. */
  lemma EventGoes(h: History, e: Event, taken: seq<Command>)
    requires Went(h, Continue, taken) && !e.Asked? && !(e.Told? && e.verb.Stop?)
    ensures Went(h + [e], Continue, taken) && Went(h + [e], LinkLost, taken) && Went(Goodbye(h + [e]), Ended, taken)
  {
    hide Own, AskedIn, NeverToldToStop, ToldToStop, Goodbye, Stopping;
    FoldOne(h, e, Mode(false, false));
    AskedOne(h, e);
    assert AskedIn(h) + [] == AskedIn(h);
    NeverToldOne(h, e);
    GoodbyeTells(h + [e]);
  }

  lemma TurnGoes(h: History, turn: Turn, initial: Mode, taken: seq<Command>)
    requires Went(h, Continue, taken)
    ensures var r := AfterTurn(h, turn, initial);
      Went(r.0, r.1, taken + turn.commands)
      && (r.1.Stale? ==> turn.stale) && (turn.stale ==> r.1.Stale? || r.1.ShutDown?)
  {
    hide Own, AskedIn, NeverToldToStop, ToldToStop, Goodbye, Stopping, AskAll, EndsNow, ErrorRun;
    var t := AskAll(h, turn.commands, initial);
    var all := taken + turn.commands;
    AskAllTakesUp(h, turn.commands, initial);
    AskAllNeverTells(h, turn.commands, initial);
    GoodbyeTells(t);
    if !Stopping(t) {
      assert Went(t, Continue, all) && Went(t, Stale, all);
      EventGoes(t, Reception(turn), all);
      var heard := AfterReceive(t, Reception(turn));
      if heard.1.Continue? && turn.poll.Some? {
        EventGoes(heard.0, Polled(Own(heard.0), turn.poll.value, turn.pollCurrent), all);
      }
    }
  }

  /** Every run takes its turns one after the other, in each every command in its order;
      it shuts down exactly when one of them says so, and goes quietly as soon as the
      visible session is no longer its own. */
  lemma {:induction false} RunGoes(entries: seq<Entry>, turns: seq<Turn>, initial: Mode) returns (n: nat)
    ensures var r := Story([Begin(entries)], turns, initial);
      n <= |turns| && Went(r.0, r.1, AllCommands(turns[..n])) && (r.1.Continue? ==> n == |turns|)
      && (r.1.Stale? ==> n > 0 && turns[n - 1].stale)
      && forall i :: 0 <= i < n && turns[i].stale ==> i == n - 1 && (r.1.Stale? || r.1.ShutDown?)
  {
    hide Went, AfterTurn;
    if turns == [] {
      n := 0;
      JustBegun(entries);
    } else {
      n := RunGoes(entries, turns[..|turns| - 1], initial);
      var before := Story([Begin(entries)], turns[..|turns| - 1], initial);
      assert turns[..|turns| - 1][..n] == turns[..n];
      if before.1.Continue? {
        TurnGoes(before.0, turns[|turns| - 1], initial, AllCommands(turns[..n]));
        n := |turns|;
        assert turns[..n] == turns;
      }
    }
  }

  /** A turn that goes on adds one receive, and one status request when that is due and
      there is a media session to ask about. */
  lemma TurnHears(h: History, turn: Turn, initial: Mode) returns (e: Event)
    requires AfterTurn(h, turn, initial).1.Continue?
    ensures match turn.received case Got(message) => e == Heard(message, turn.current) case Timeout => e == TimedOut case Broken => e == Failed
    ensures var heard, t := AskAll(h, turn.commands, initial) + [e], AfterTurn(h, turn, initial).0;
      if turn.poll.Some? && Own(heard) != 0 then t == heard + [Polled(Own(heard), turn.poll.value, turn.pollCurrent)]
      else t == heard
  {
    hide Own, AskAll, Stopping, EndsNow, ErrorRun, Goodbye;
    e := Reception(turn);
  }

  lemma JustBegun(entries: seq<Entry>)
    ensures Went([Begin(entries)], Continue, [])
  {
    var none: History := [];
    var h := [Begin(entries)];
    assert none + [Begin(entries)] == h;
    AskedOne(none, Begin(entries));
  }
}

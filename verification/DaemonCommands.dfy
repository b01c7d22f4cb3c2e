/** What each command comes to when no other task runs in between (src/daemon.rs). */
module DaemonCommands {
  import opened Text
  import opened Daemon
  import opened DaemonSafety
  import opened DaemonRuns

  /** The state after `n` stretches of the handler that holds the lock, each with its
      answer, or as soon as the lock is free. */
  function After(s: State, answers: nat -> Choice, n: nat): State {
    if n == 0 then s
    else
      var t := After(s, answers, n - 1);
      if t.pc.Free? || t.pc.Exited? then t else Handler(t, answers(n - 1))
  }

  lemma Stretch(s: State, answers: nat -> Choice, n: nat)
    ensures var t := After(s, answers, n);
      After(s, answers, n + 1) == if t.pc.Free? || t.pc.Exited? then t else Handler(t, answers(n))
  {
  }

  lemma {:induction false} StaysFree(s: State, answers: nat -> Choice, n: nat, m: nat)
    requires n <= m && After(s, answers, n).pc.Free?
    ensures After(s, answers, m) == After(s, answers, n)
  {
    if n < m {
      StaysFree(s, answers, n, m - 1);
    }
  }

  /** A worker that has heard nothing yet: a Cast thread runs, a poller waits. */
  function NewWorker(p: Protocol, id: nat): Worker {
    Worker(p, id, if p.Cast? then Running else Waiting, false, false, 0)
  }

  // ---- connect ------------------------------------------------------------------------

  /** The device is known and speaks a protocol, the firewall opens, the server starts,
      and the receiver takes the stream; a Cast receiver may take it at the second try. */
  predicate Accepted(answers: nat -> Choice) {
    var p := answers(2).p;
    answers(2).ok && !p.Unsupported? && answers(5).ok && answers(6).ok
    && (answers(7).ok || (p.Cast? && answers(8).ok))
  }

  function NewSession(s: State, shown: int): State {
    Teardown(s).(session := Session(s.nextId, Connecting, None, shown), nextId := s.nextId + 1)
  }

  lemma LooksUp(s: State, answers: nat -> Choice)
    requires s.pc.ConnTeardown?
    ensures After(s, answers, 3)
         == NewSession(s, answers(1).shown).(pc := if answers(2).ok then ConnProtocol(answers(2).p) else Reset)
  {
    hide After, Teardown;
    Start(s, answers);
    TornDownStaff(s);
    Stretch(s, answers, 0);
    assert After(s, answers, 1) == Teardown(s).(pc := ConnNewId);
    Stretch(s, answers, 1);
    assert After(s, answers, 2) == NewSession(s, answers(1).shown).(pc := ConnLookup);
    Stretch(s, answers, 2);
  }

  lemma Start(s: State, answers: nat -> Choice)
    ensures After(s, answers, 0) == s
  {
  }

  /** From the device found to the request that the receiver play. */
  lemma Prepares(s: State, answers: nat -> Choice, u: State, p: Protocol)
    requires u == After(s, answers, 3) && u.pc == ConnProtocol(p)
    ensures var t := After(s, answers, 7);
      if !p.Unsupported? && answers(5).ok && answers(6).ok then
        t == u.(session := u.session.(protocol := Some(p), shown := answers(4).shown),
                active := u.active.(media := true), pc := ConnPlay(p, false))
      else !t.pc.ConnPlay?
    ensures !p.Unsupported? && answers(5).ok && !answers(6).ok ==> After(s, answers, 7).pc.ConnFail?
    ensures p.Unsupported? || !answers(5).ok ==> After(s, answers, 6).pc.ConnFail?
  {
    hide After;
    Stretch(s, answers, 3);
    Stretch(s, answers, 4);
    Stretch(s, answers, 5);
    Stretch(s, answers, 6);
  }

  /** Giving up: everything is torn down and the session is gone. */
  lemma GivesUp(s: State, answers: nat -> Choice, n: nat)
    requires After(s, answers, n).pc.ConnFail?
    ensures var t := After(s, answers, n + 2);
      t.pc.Free? && t.session == DEFAULT_SESSION && t.active == EMPTY
  {
    hide After, Abort;
    Stretch(s, answers, n);
    Stretch(s, answers, n + 1);
  }

  predicate Started(s: State, t: State, w: nat, p: Protocol, id: nat) {
    t.pc.Free? && t.session.id == id && t.session.protocol == Some(p) && t.session.state == Buffering
    && t.active == EMPTY.(media := true, serve := Some(p)).With(p, Some(w))
    && s.spawned <= w < t.spawned && w in t.workers
    && t.workers[w] == NewWorker(p, id)
  }

  /** The worker started last fills its slot. */
  lemma Finishes(s: State, answers: nat -> Choice, n: nat, p: Protocol, w: nat)
    requires var u := After(s, answers, n);
      u.pc == ConnFill(p, w) && u.active == EMPTY.(media := true) && u.session.protocol == Some(p)
      && u.session.state == Connecting && s.spawned <= w < u.spawned && w in u.workers
      && u.workers[w] == NewWorker(p, u.session.id)
    ensures Started(s, After(s, answers, n + 2), w, p, After(s, answers, n).session.id) && After(s, answers, n + 2).pc.Free?
  {
    hide After;
    Stretch(s, answers, n);
    Stretch(s, answers, n + 1);
  }

  lemma Plays(s: State, answers: nat -> Choice, p: Protocol, u: State)
    requires u == After(s, answers, 7) && u.pc == ConnPlay(p, false)
    ensures answers(7).ok ==> After(s, answers, 8) == Spawn(u, p).(pc := ConnFill(p, u.spawned))
    ensures !answers(7).ok && !p.Cast? ==> After(s, answers, 8).pc.ConnFail?
    ensures !answers(7).ok && p.Cast? && answers(8).ok ==>
      After(s, answers, 9) == Spawn(Spawn(u, Cast), Cast).(pc := ConnFill(Cast, u.spawned + 1))
    ensures !answers(7).ok && p.Cast? && !answers(8).ok ==> After(s, answers, 9).pc.ConnFail?
  {
    hide After;
    Stretch(s, answers, 7);
    Stretch(s, answers, 8);
  }

  /** A `connect` either leaves the new session with its server, its stream and its
      worker, in its own slot and no other, or leaves nothing at all; and it succeeds
      exactly when everything it asks for is granted. */
  lemma ConnectAlone(s: State, answers: nat -> Choice)
    requires s.pc.ConnTeardown?
    ensures var t := After(s, answers, 11);
      if Accepted(answers) then exists w :: Started(s, t, w, answers(2).p, s.nextId)
      else t.pc.Free? && t.session == DEFAULT_SESSION && t.active == EMPTY
  {
    hide After, Teardown, Handler;
    LooksUp(s, answers);
    var u := After(s, answers, 3);
    if !answers(2).ok {
      NotFound(s, answers);
      return;
    }
    var p := answers(2).p;
    TornDownStaff(s);
    Prepares(s, answers, u, p);
    if p.Unsupported? || !answers(5).ok {
      GivesUp(s, answers, 6);
      StaysFree(s, answers, 8, 11);
    } else if !answers(6).ok {
      GivesUp(s, answers, 7);
      StaysFree(s, answers, 9, 11);
    } else {
      Serves(s, answers, p);
    }
  }

  /** The server runs; the rest is up to the receiver. */
  lemma Serves(s: State, answers: nat -> Choice, p: Protocol)
    requires var u := After(s, answers, 7);
      u.pc == ConnPlay(p, false) && u.active == EMPTY.(media := true) && u.session.protocol == Some(p)
      && u.session.state == Connecting && u.spawned == s.spawned
    ensures var t := After(s, answers, 11);
      if answers(7).ok || (p.Cast? && answers(8).ok) then exists w :: Started(s, t, w, p, After(s, answers, 7).session.id)
      else t.pc.Free? && t.session == DEFAULT_SESSION && t.active == EMPTY
  {
    hide After, Handler, Started;
    Plays(s, answers, p, After(s, answers, 7));
    if answers(7).ok {
      Finishes(s, answers, 8, p, s.spawned);
      StaysFree(s, answers, 10, 11);
    } else if !p.Cast? {
      GivesUp(s, answers, 8);
      StaysFree(s, answers, 10, 11);
    } else if answers(8).ok {
      Finishes(s, answers, 9, p, s.spawned + 1);
    } else {
      GivesUp(s, answers, 9);
    }
  }

  lemma NotFound(s: State, answers: nat -> Choice)
    requires s.pc.ConnTeardown? && !answers(2).ok
    ensures var t := After(s, answers, 11); t.pc.Free? && t.session == DEFAULT_SESSION && t.active == EMPTY
  {
    hide After, Abort;
    LooksUp(s, answers);
    Stretch(s, answers, 3);
    StaysFree(s, answers, 4, 11);
  }

  lemma TornDownStaff(s: State)
    ensures Teardown(s).active == EMPTY && Teardown(s).spawned == s.spawned && Teardown(s).nextId == s.nextId
  {
    hide Abort;
  }

  // ---- pause, resume and seek ------------------------------------------------------------

  /** `pause` shows a playing session paused, and touches nothing else. */
  lemma PauseAlone(s: State, answers: nat -> Choice)
    requires Enabled(s, BeginPause)
    ensures After(Next(s, BeginPause), answers, 1)
         == s.(session := s.session.(state := if s.session.state == Playing then Paused else s.session.state))
  {
    Stretch(Next(s, BeginPause), answers, 0);
  }

  lemma ResumeAlone(s: State, answers: nat -> Choice)
    requires Enabled(s, BeginResume)
    ensures After(Next(s, BeginResume), answers, 1)
         == s.(session := s.session.(state := if s.session.state == Paused then Playing else s.session.state))
  {
    Stretch(Next(s, BeginResume), answers, 0);
  }

  /** A `seek` a receiver can do itself, like setting the volume, changes at most what
      the panel shows. */
  lemma SeekInPlace(s: State, answers: nat -> Choice, restart: bool)
    requires Enabled(s, BeginSeek(restart)) && (!restart || s.session.protocol == Some(Cast))
    ensures After(Next(s, BeginSeek(restart)), answers, 1) == s.(session := s.session.(shown := answers(0).shown))
    ensures After(Next(s, BeginTweak), answers, 1) == s.(session := s.session.(shown := answers(0).shown))
  {
    Stretch(Next(s, BeginSeek(restart)), answers, 0);
    Stretch(Next(s, BeginTweak), answers, 0);
  }

  /** The old poller is told to stop and a new one, which has heard nothing yet, is in
      its place; the state and the events are as given. */
  predicate Restarted(s: State, t: State, p: Protocol, state: SessionState, events: seq<nat>) {
    t.session.id == s.session.id && t.session.protocol == s.session.protocol && t.session.state == state
    && t.events == s.events + events && t.active == s.active.With(p, Some(s.spawned))
    && s.spawned in t.workers && t.workers[s.spawned] == NewWorker(p, s.session.id)
    && Told(s, t, s.active.Slot(p))
  }

  /** The worker in `slot`, if it is still around, was told to stop. */
  predicate Told(s: State, t: State, slot: Option<nat>) {
    slot.Some? && slot.value != s.spawned && slot.value in s.workers ==>
      slot.value in t.workers && t.workers[slot.value].aborted
  }

  /** The part of a restart that is the same however the receiver answers. */
  lemma Restarts(s: State, answers: nat -> Choice, n: nat, p: Protocol, nested: bool)
    requires var u := After(s, answers, n);
      u.pc == RsTake(p, nested) && u.active.serve.Some? && u.active.Slot(p).Some? && (p.Dlna? || p.Airplay?)
    ensures var u, t, ok := After(s, answers, n), After(s, answers, n + 6), answers(n + 2).ok;
      Restarted(u, t, p, Buffering, []) && t.pc == (if ok then FinalWrite else FailWrite(nested))
  {
    hide After, Abort;
    var u := After(s, answers, n);
    var slot := u.active.Slot(p);
    Takes(s, answers, n, p, nested);
    AbortMarks(u.workers, slot);
    Aborts(u.workers, slot);
    Stretch(s, answers, n + 2);
    RestartEnds(s, answers, n + 3);
  }

  lemma Takes(s: State, answers: nat -> Choice, n: nat, p: Protocol, nested: bool)
    requires var u := After(s, answers, n);
      u.pc == RsTake(p, nested) && u.active.serve.Some? && u.active.Slot(p).Some? && (p.Dlna? || p.Airplay?)
    ensures var u := After(s, answers, n);
      After(s, answers, n + 2)
      == u.(active := u.active.With(p, None), workers := Abort(u.workers, u.active.Slot(p)), pc := RsPlay(p, nested))
  {
    hide After, Abort;
    Stretch(s, answers, n);
    Stretch(s, answers, n + 1);
  }

  lemma Aborts(workers: map<nat, Worker>, slot: Option<nat>)
    ensures slot.Some? && slot.value in workers ==> Abort(workers, slot)[slot.value].aborted
  {
  }

  lemma RestartEnds(s: State, answers: nat -> Choice, n: nat)
    requires After(s, answers, n).pc.RsSpawn?
    ensures var u, t := After(s, answers, n), After(s, answers, n + 3);
      t == u.(workers := t.workers, spawned := u.spawned + 1, active := u.active.With(u.pc.p, Some(u.spawned)),
              session := u.session.(state := Buffering, shown := t.session.shown),
              pc := if u.pc.ok then FinalWrite else FailWrite(u.pc.nested))
      && t.workers == u.workers[u.spawned := NewWorker(u.pc.p, u.session.id)]
  {
    hide After;
    var u := After(s, answers, n);
    Stretch(s, answers, n);
    assert After(s, answers, n + 1) == Spawn(u, u.pc.p).(pc := RsPut(u.pc.p, u.pc.nested, u.pc.ok, u.spawned));
    Puts(s, answers, n + 1);
  }

  lemma Puts(s: State, answers: nat -> Choice, n: nat)
    requires After(s, answers, n).pc.RsPut?
    ensures var u, t := After(s, answers, n), After(s, answers, n + 2);
      t == u.(active := u.active.With(u.pc.p, Some(u.pc.w)),
              session := u.session.(state := Buffering, shown := t.session.shown),
              pc := if u.pc.ok then FinalWrite else FailWrite(u.pc.nested))
  {
    hide After;
    Stretch(s, answers, n);
    Stretch(s, answers, n + 1);
  }

  /** An active session fails: one event, once or, in a nested failure, twice. */
  lemma Fails(s: State, answers: nat -> Choice, n: nat)
    requires var u := After(s, answers, n); u.pc == FailWrite(false) && u.session.state.IsActive()
    ensures var u, t := After(s, answers, n), After(s, answers, n + 3);
      t == u.(session := u.session.(state := Error, shown := t.session.shown), events := u.events + [u.session.id], pc := Free)
  {
    hide After;
    var u := After(s, answers, n);
    Stretch(s, answers, n);
    assert After(s, answers, n + 1)
        == u.(session := u.session.(state := Error, shown := answers(n).shown), pc := FailPost(u.session.id, false));
    Posts(s, answers, n + 1);
  }

  lemma Posts(s: State, answers: nat -> Choice, n: nat)
    requires After(s, answers, n).pc.FailPost? && !After(s, answers, n).pc.again
    ensures var u, t := After(s, answers, n), After(s, answers, n + 2);
      t == u.(session := u.session.(shown := t.session.shown), events := u.events + [u.pc.k], pc := Free)
  {
    hide After;
    Stretch(s, answers, n);
    Stretch(s, answers, n + 1);
  }

  lemma FailsTwice(s: State, answers: nat -> Choice, n: nat)
    requires var u := After(s, answers, n); u.pc == FailWrite(true) && u.session.state.IsActive()
    ensures var u, t := After(s, answers, n), After(s, answers, n + 5);
      t == u.(session := u.session.(state := Error, shown := t.session.shown),
              events := u.events + [u.session.id, u.session.id], pc := Free)
  {
    hide After;
    Stretch(s, answers, n);
    Stretch(s, answers, n + 1);
    Fails(s, answers, n + 2);
    var u := After(s, answers, n);
    assert u.events + [u.session.id] + [u.session.id] == u.events + [u.session.id, u.session.id];
  }

  lemma Shows(s: State, answers: nat -> Choice, n: nat)
    requires After(s, answers, n).pc.FinalWrite?
    ensures var u, t := After(s, answers, n), After(s, answers, n + 1);
      t == u.(session := u.session.(shown := answers(n).shown), pc := Free)
  {
    hide After;
    Stretch(s, answers, n);
  }

  /** A `seek` in an ffmpeg stream starts the stream, and the poller, anew; if the
      receiver refuses it, the session has failed and its end is posted. */
  lemma SeekRestarts(s: State, answers: nat -> Choice, p: Protocol)
    requires Inv(s) && Enabled(s, BeginSeek(true)) && s.session.protocol == Some(p) && (p.Dlna? || p.Airplay?)
    ensures var t := After(Next(s, BeginSeek(true)), answers, 9);
      t.pc.Free?
      && (if answers(2).ok then Restarted(s, t, p, Buffering, []) else Restarted(s, t, p, Error, [s.session.id]))
  {
    hide After, Handler, WorkersOk, LogOk, Restarted;
    var u := Next(s, BeginSeek(true));
    Start(u, answers);
    assert s.session.id != 0;
    Restarts(u, answers, 0, p, false);
    SameStart(s, u, After(u, answers, 6), p);
    if answers(2).ok {
      Shows(u, answers, 6);
      StaysFree(u, answers, 7, 9);
      Then(s, After(u, answers, 6), After(u, answers, 9), p, Buffering, []);
    } else {
      RestartedSession(u, After(u, answers, 6), p, Buffering, []);
      Fails(u, answers, 6);
      Then(s, After(u, answers, 6), After(u, answers, 9), p, Error, [s.session.id]);
    }
  }

  lemma RestartedSession(s: State, t: State, p: Protocol, state: SessionState, events: seq<nat>)
    requires Restarted(s, t, p, state, events)
    ensures t.session.id == s.session.id && t.session.state == state && t.active.media == s.active.media
  {
  }

  /** What came before the restart does not matter to it. */
  lemma SameStart(s: State, u: State, t: State, p: Protocol)
    requires Restarted(u, t, p, Buffering, [])
    requires u.session.id == s.session.id && u.session.protocol == s.session.protocol && u.events == s.events
    requires u.active == s.active && u.spawned == s.spawned && s.workers.Keys <= u.workers.Keys
    ensures Restarted(s, t, p, Buffering, [])
  {
  }

  /** What the session shows, and posts, after a restart. */
  lemma Then(s: State, t: State, u: State, p: Protocol, state: SessionState, events: seq<nat>)
    requires Restarted(s, t, p, Buffering, [])
    requires u == t.(session := t.session.(state := state, shown := u.session.shown), events := t.events + events, pc := u.pc)
    ensures Restarted(s, u, p, state, events)
  {
    assert s.events + [] == s.events;
  }

  // ---- restream -----------------------------------------------------------------------------

  /** The pollers are told to stop and the server is replaced. */
  lemma Reserves(s: State, answers: nat -> Choice)
    requires s.pc.RtAbort? && s.active.serve.Some?
    ensures var t := After(s, answers, 3);
      t == s.(active := s.active.(media := answers(2).ok), workers := t.workers,
              pc := if answers(2).ok then RtContext else FailWrite(false))
      && t.workers == Abort(Abort(s.workers, s.active.dlna), s.active.airplay)
  {
    hide After, Abort;
    Start(s, answers);
    Stretch(s, answers, 0);
    Stretch(s, answers, 1);
    Stretch(s, answers, 2);
  }

  lemma Switches(s: State, answers: nat -> Choice, p: Protocol)
    requires var u := After(s, answers, 3);
      u.pc.RtContext? && u.active.serve == Some(p) && (p.Cast? ==> u.active.cast.Some?) && !p.Unsupported?
    ensures var u, t := After(s, answers, 3), After(s, answers, 6);
      t == u.(session := u.session.(shown := answers(4).shown), pc := if p.Cast? then FinalWrite else RsTake(p, true))
  {
    hide After;
    var u := After(s, answers, 3);
    Boosts(s, answers);
    assert After(s, answers, 5) == u.(session := u.session.(shown := answers(4).shown), pc := RtSwitch);
    Stretch(s, answers, 5);
  }

  lemma Boosts(s: State, answers: nat -> Choice)
    requires After(s, answers, 3).pc.RtContext?
    ensures var u := After(s, answers, 3);
      After(s, answers, 5) == u.(session := u.session.(shown := answers(4).shown), pc := RtSwitch)
  {
    hide After;
    Stretch(s, answers, 3);
    Stretch(s, answers, 4);
  }

  /** Serving the file again for a DLNA or AirPlay receiver: with the new server and the
      stream accepted, a restart; without a server, a failure; and if the receiver
      refuses, the end is posted by the restart and by `restream` again. */
  lemma RestreamRestarts(s: State, answers: nat -> Choice, p: Protocol)
    requires Inv(s) && Enabled(s, BeginRestream) && s.session.protocol == Some(p) && (p.Dlna? || p.Airplay?)
    ensures var t, id := After(Next(s, BeginRestream), answers, 17), s.session.id;
      t.pc.Free? && t.active.media == answers(2).ok
      && (if !answers(2).ok then
            t.session.state == Error && t.session.id == id && t.events == s.events + [id]
            && t.active == s.active.(media := false)
            && forall w :: w in t.workers && t.workers[w].session == id ==> t.workers[w].aborted
          else if answers(8).ok then Restarted(s.(active := s.active.(media := true)), t, p, Buffering, [])
          else Restarted(s.(active := s.active.(media := true)), t, p, Error, [id, id]))
  {
    hide After, Handler, LogOk, WorkersOk, Restarted, Abort;
    var v := Next(s, BeginRestream);
    assert s.session.id != 0;
    Reserves(v, answers);
    if !answers(2).ok {
      Fails(v, answers, 3);
      StaysFree(v, answers, 6, 17);
      AllTold(s);
    } else {
      var u := After(v, answers, 3);
      Switches(v, answers, p);
      Restarts(v, answers, 6, p, true);
      var served, restarted := s.(active := s.active.(media := true)), After(v, answers, 12);
      AbortMarks(s.workers, s.active.dlna);
      AbortMarks(Abort(s.workers, s.active.dlna), s.active.airplay);
      SameStart(served, After(v, answers, 6), restarted, p);
      if answers(8).ok {
        Shows(v, answers, 12);
        StaysFree(v, answers, 13, 17);
        Then(served, restarted, After(v, answers, 17), p, Buffering, []);
        RestartedSession(served, After(v, answers, 17), p, Buffering, []);
      } else {
        RestartedSession(served, restarted, p, Buffering, []);
        FailsTwice(v, answers, 12);
        Then(served, restarted, After(v, answers, 17), p, Error, [s.session.id, s.session.id]);
        RestartedSession(served, After(v, answers, 17), p, Error, [s.session.id, s.session.id]);
      }
    }
  }

  /** With the lock free, aborting the pollers in the slots aborts all there are. */
  lemma AllTold(s: State)
    requires Inv(s) && s.pc.Free? && s.session.protocol != Some(Cast)
    ensures var all := Abort(Abort(s.workers, s.active.dlna), s.active.airplay);
      forall w :: w in all && all[w].session == s.session.id ==> all[w].aborted
  {
    hide PcOk, LogOk, SessionOk, Abort;
    var some := Abort(s.workers, s.active.dlna);
    AbortMarks(s.workers, s.active.dlna);
    AbortMarks(some, s.active.airplay);
    Aborts(s.workers, s.active.dlna);
    Aborts(some, s.active.airplay);
    assert forall w :: w in s.workers ==> WorkerOk(s, w);
  }

  /** A Cast receiver reloads by itself: with the new server there is nothing to restart. */
  lemma RestreamCast(s: State, answers: nat -> Choice)
    requires Inv(s) && Enabled(s, BeginRestream) && s.session.protocol == Some(Cast)
    ensures var t, id := After(Next(s, BeginRestream), answers, 7), s.session.id;
      t == s.(session := t.session, active := s.active.(media := answers(2).ok), events := t.events)
      && t.session == s.session.(state := if answers(2).ok then s.session.state else Error, shown := t.session.shown)
      && t.events == s.events + (if answers(2).ok then [] else [id])
  {
    hide After, Handler, LogOk, WorkersOk;
    var v := Next(s, BeginRestream);
    assert s.session.id != 0 && s.events + [] == s.events;
    Reserves(v, answers);
    if answers(2).ok {
      Switches(v, answers, Cast);
      Shows(v, answers, 6);
    } else {
      Fails(v, answers, 3);
      StaysFree(v, answers, 6, 7);
    }
  }

  // ---- shutdown ------------------------------------------------------------------------------

  /** Once the daemon shuts down it holds nothing, and every poller was told to stop. */
  lemma ShutdownHoldsNothing(run: Run, i: nat)
    requires run.Valid() && i < |run.states| && run.states[i].pc.Exited?
    ensures var s := run.states[i];
      s.active == EMPTY && forall w :: w in s.workers && !s.workers[w].kind.Cast? ==> s.workers[w].aborted
  {
    hide LogOk, SessionOk;
    RunInv(run, i);
    var s := run.states[i];
    assert forall w :: w in s.workers ==> WorkerOk(s, w);
  }

  // ---- Cast threads and events -------------------------------------------------------------------

  /** What a Cast thread shows counts while its session is current, and only then; its end
      is posted when it says so, whoever casts by then. */
  lemma CastThreadSteps(s: State, w: nat, state: Option<SessionState>, shown: int, post: bool)
    requires Enabled(s, CastWrite(w, state, shown)) && Enabled(s, CastEnd(w, post))
    ensures var t, mine := Next(s, CastWrite(w, state, shown)), s.workers[w].session == s.session.id;
      t == s.(session := t.session)
      && (!mine ==> t.session == s.session)
      && (mine ==> t.session.id == s.session.id && t.session.protocol == s.session.protocol && t.session.shown == shown
                   && (if state.Some? then Some(t.session.state) == state else t.session.state == s.session.state))
    ensures var t := Next(s, CastEnd(w, post));
      t == s.(workers := t.workers, events := t.events) && t.workers.Keys == s.workers.Keys - {w}
      && |t.events| == |s.events| + (if post then 1 else 0) && s.events <= t.events
      && (post ==> t.events[|s.events|] == s.workers[w].session)
  {
  }

  /** The events in the order they were posted, the one in hand first. */
  function Pending(s: State): seq<nat> {
    (match s.handling case Some(k) => [k] case None => []) + s.events
  }

  /** The consumer takes the events in their order, and no other step takes one, but for
      `auto_stop`, which acts on the one in hand. */
  lemma EventsKeepOrder(s: State, step: Step)
    requires Inv(s) && Enabled(s, step)
    ensures step.BeginAutoStop? ==> s.handling == Some(Next(s, step).pc.k) && Pending(s) == [Next(s, step).pc.k] + Pending(Next(s, step))
    ensures !step.BeginAutoStop? ==> Pending(s) <= Pending(Next(s, step)) && |Pending(Next(s, step))| <= |Pending(s)| + 1
  {
    hide Inv, Handler, Section;
    if step.Advance? {
      HandlerEvents(s, step.choice);
    }
  }

  lemma HandlerEvents(s: State, c: Choice)
    ensures Handler(s, c).handling == s.handling
    ensures Handler(s, c).events == s.events + (if s.pc.FailPost? then [s.pc.k] else [])
  {
    hide Abort, Handler;
    assert s.events + [] == s.events;
    if Restaffs(s.pc) {
      Restaffed(s, c);
      RestaffPc(s, c);
    } else if InConnect(s.pc) {
      ConnectEvents(s, c);
    } else if InRestart(s.pc) {
      RestartEvents(s, c);
    } else {
      OtherEvents(s, c);
    }
  }

  lemma ConnectEvents(s: State, c: Choice)
    requires InConnect(s.pc)
    ensures Handler(s, c).handling == s.handling && Handler(s, c).events == s.events
  {
  }

  lemma RestartEvents(s: State, c: Choice)
    requires InRestart(s.pc)
    ensures Handler(s, c).handling == s.handling && Handler(s, c).events == s.events
  {
  }

  lemma OtherEvents(s: State, c: Choice)
    requires !Restaffs(s.pc) && !InConnect(s.pc) && !InRestart(s.pc)
    ensures Handler(s, c).handling == s.handling
    ensures Handler(s, c).events == if s.pc.FailPost? then s.events + [s.pc.k] else s.events
  {
  }

  // ---- Who changes the state -----------------------------------------------------------------------

  /** A handler may change the state of the session from `from` to `to` here. */
  predicate HandlerMay(pc: Pc, from: SessionState, to: SessionState) {
    (pc.ConnNewId? && to == Connecting) || (pc.Reset? && to == Idle)
    || (pc.ConnFinish? && from == Connecting && to == Buffering)
    || (pc.PauseWrite? && from == Playing && to == Paused) || (pc.ResumeWrite? && from == Paused && to == Playing)
    || (pc.RsWrite? && to == Buffering) || (pc.FailWrite? && from != Idle && from != Stopped && to == Error)
  }

  /** What a worker shows of its session. */
  predicate WorkerMay(to: SessionState) {
    to == Playing || to == Paused || to == Buffering || to == Stopped || to == Error
  }

  lemma HandlerState(s: State, c: Choice)
    ensures var from, to := s.session.state, Handler(s, c).session.state; from == to || HandlerMay(s.pc, from, to)
  {
    hide Abort, HandlerMay;
    if Restaffs(s.pc) {
      Restaffed(s, c);
    } else if InConnect(s.pc) {
      ConnectMay(s, c);
    } else if InRestart(s.pc) {
      RestartMay(s, c);
    } else {
      OtherMay(s, c);
    }
  }

  lemma ConnectMay(s: State, c: Choice)
    requires InConnect(s.pc)
    ensures var from, to := s.session.state, Handler(s, c).session.state; from == to || HandlerMay(s.pc, from, to)
  {
  }

  lemma RestartMay(s: State, c: Choice)
    requires InRestart(s.pc)
    ensures var from, to := s.session.state, Handler(s, c).session.state; from == to || HandlerMay(s.pc, from, to)
  {
  }

  lemma OtherMay(s: State, c: Choice)
    requires !Restaffs(s.pc) && !InConnect(s.pc) && !InRestart(s.pc)
    ensures var from, to := s.session.state, Handler(s, c).session.state; from == to || HandlerMay(s.pc, from, to)
  {
  }

  /** Over every run, who changes the state the panel shows: a command, from and to the
      states that are its own, or a worker of the session shown. So a `connect` that ends
      late never covers up what its worker has shown. */
  lemma WhoChangesState(run: Run, i: nat)
    requires run.Valid() && i < |run.steps| && run.states[i].session.state != run.states[i + 1].session.state
    ensures var s, step, from, to := run.states[i], run.steps[i], run.states[i].session.state, run.states[i + 1].session.state;
      if IsWorkerStep(step) then
        (step.PollWrite? || step.CastWrite?) && WorkerMay(to)
        && WorkerOf(step) in s.workers && s.workers[WorkerOf(step)].session == s.session.id
      else step.Advance? && HandlerMay(s.pc, from, to)
  {
    hide Inv, Handler, HandlerMay;
    var s, step := run.states[i], run.steps[i];
    assert Enabled(s, step) && run.states[i + 1] == Next(s, step);
    if step.Advance? {
      HandlerState(s, step.choice);
    }
  }
}

/** When a poller ends its session, over every run and from nothing but the answers
    its receiver gave (`dlna_poll` and `airplay_poll`, src/daemon.rs). */
module PollerRuns {
  import opened Text
  import opened Daemon
  import opened DaemonSafety
  import opened DaemonRuns

  // ---- What the receiver said -----------------------------------------------------------

  /** The answers poller `w` got in the first `j` steps. */
  function Answers(run: Run, j: nat, w: nat): seq<Reply>
    requires j <= |run.steps|
  {
    if j == 0 then []
    else
      Answers(run, j - 1, w)
      + (match run.steps[j - 1] case PollReply(v, reply) => if v == w then [reply] else [] case _ => [])
  }

  /** The renderer played, or was paused, at some time. */
  predicate Played(replies: seq<Reply>) {
    exists k :: 0 <= k < |replies| && replies[k].DlnaReply? && (replies[k].transport.TPlaying? || replies[k].transport.TPaused?)
  }

  /** The last `n` rounds could not tell. */
  predicate SilentFor(replies: seq<Reply>, n: nat) {
    n <= |replies|
    && forall k :: |replies| - n <= k < |replies| ==> replies[k].DlnaReply? && replies[k].transport.TUnknown?
  }

  /** The receiver answered at some time. */
  predicate Answered(replies: seq<Reply>) {
    exists k :: 0 <= k < |replies| && replies[k].AirplayReply? && replies[k].playing.Some?
  }

  /** The renderer stopped after it had been playing. */
  predicate DlnaFinished(replies: seq<Reply>)
    requires replies != []
  {
    var last := replies[|replies| - 1];
    last.DlnaReply? && last.transport.TStopped? && Played(replies[..|replies| - 1])
  }

  /** The renderer went away, or never started playing in time. */
  predicate DlnaLost(replies: seq<Reply>)
    requires replies != []
  {
    var last := replies[|replies| - 1];
    SilentFor(replies, 20) || (last.DlnaReply? && last.late && !Played(replies))
  }

  /** The receiver answered once and no longer does. */
  predicate AirplayFinished(replies: seq<Reply>)
    requires replies != []
  {
    var last := replies[|replies| - 1];
    last.AirplayReply? && last.playing.None? && Answered(replies[..|replies| - 1])
  }

  /** The receiver never answered in time. */
  predicate AirplayLost(replies: seq<Reply>)
    requires replies != []
  {
    var last := replies[|replies| - 1];
    last.AirplayReply? && last.playing.None? && last.late && !Answered(replies)
  }

  // ---- What the poller remembers -----------------------------------------------------------

  /** Rounds at the end that could not tell. */
  function Silence(replies: seq<Reply>): nat {
    if replies == [] then 0
    else
      var last := replies[|replies| - 1];
      if last.DlnaReply? && last.transport.TUnknown? then Silence(replies[..|replies| - 1]) + 1 else 0
  }

  lemma {:induction false} SilenceCounts(replies: seq<Reply>, n: nat)
    ensures Silence(replies) >= n <==> SilentFor(replies, n)
  {
    if replies != [] && n > 0 {
      var earlier := replies[..|replies| - 1];
      SilenceCounts(earlier, n - 1);
      if SilentFor(replies, n) {
        assert forall k :: 0 <= k < |earlier| ==> earlier[k] == replies[k];
      }
      if SilentFor(earlier, n - 1) {
        assert forall k :: 0 <= k < |earlier| ==> earlier[k] == replies[k];
      }
    }
  }

  lemma PlayedMore(replies: seq<Reply>, reply: Reply)
    ensures Played(replies + [reply]) <==>
      Played(replies) || (reply.DlnaReply? && (reply.transport.TPlaying? || reply.transport.TPaused?))
  {
    var all := replies + [reply];
    if Played(replies) {
      var k :| 0 <= k < |replies| && replies[k].DlnaReply? && (replies[k].transport.TPlaying? || replies[k].transport.TPaused?);
      assert all[k] == replies[k];
    }
    assert all[|replies|] == reply;
  }

  lemma AnsweredMore(replies: seq<Reply>, reply: Reply)
    ensures Answered(replies + [reply]) <==> Answered(replies) || (reply.AirplayReply? && reply.playing.Some?)
  {
    var all := replies + [reply];
    if Answered(replies) {
      var k :| 0 <= k < |replies| && replies[k].AirplayReply? && replies[k].playing.Some?;
      assert all[k] == replies[k];
    }
    assert all[|replies|] == reply;
  }

  /** A poller remembers of its answers whether the receiver was ever active, and how
      many rounds ago it last could tell. */
  predicate Remembers(w: Worker, replies: seq<Reply>) {
    if w.kind.Dlna? then (w.seenActive <==> Played(replies)) && w.unreachable == Silence(replies)
    else w.seenActive <==> Answered(replies)
  }

  /** The answers so far are those it has dealt with, and the one in hand. */
  predicate UpToDate(w: Worker, replies: seq<Reply>) {
    if w.phase.Ready? then
      replies != [] && replies[|replies| - 1] == w.phase.reply && Remembers(w, replies[..|replies| - 1])
    else w.phase.Posting? || Remembers(w, replies)
  }

  lemma SectionRemembers(session: Session, w: Worker, earlier: seq<Reply>, reply: Reply)
    requires Remembers(w, earlier) && (w.kind.Dlna? <==> reply.DlnaReply?)
    ensures Remembers(Section(session, w, reply).worker, earlier + [reply])
  {
    hide Played, Answered;
    PlayedMore(earlier, reply);
    AnsweredMore(earlier, reply);
    var all := earlier + [reply];
    assert all[..|all| - 1] == earlier && all[|all| - 1] == reply;
  }

  /** Before a worker is started it has no answers. */
  lemma {:induction false} NoAnswers(run: Run, j: nat, w: nat)
    requires run.Valid() && j < |run.states| && w >= run.states[j].spawned
    ensures Answers(run, j, w) == []
  {
    hide Inv, Next;
    if j > 0 {
      var s, step := run.states[j - 1], run.steps[j - 1];
      RunInv(run, j - 1);
      SpawnedGrows(s, step);
      NoAnswers(run, j - 1, w);
      if w in s.workers {
        Fresh(s, w);
      }
    }
  }

  lemma SpawnedGrows(s: State, step: Step)
    requires Inv(s) && Enabled(s, step)
    ensures s.spawned <= Next(s, step).spawned
  {
    hide Inv, Handler;
    if step.Advance? {
      if Restaffs(s.pc) {
        Restaffed(s, step.choice);
      } else {
        StaffKept(s, step.choice);
      }
    } else if IsWorkerStep(step) {
      WorkerStepEffect(s, step);
    }
  }

  /** A worker that appears is new and has nothing to remember. */
  lemma Appears(s: State, step: Step, w: nat)
    requires Inv(s) && Enabled(s, step) && w !in s.workers && w in Next(s, step).workers
    ensures step.Advance? && w >= s.spawned
    ensures var me := Next(s, step).workers[w]; !me.phase.Ready? && !me.seenActive && me.unreachable == 0
  {
    hide Inv, Handler;
    if step.Advance? {
      if Restaffs(s.pc) {
        Restaffed(s, step.choice);
        SpawnsNew(s, step.choice);
      } else {
        StaffKept(s, step.choice);
      }
    } else if IsWorkerStep(step) {
      WorkerStepEffect(s, step);
    }
  }

  lemma SpawnsNew(s: State, c: Choice)
    requires Restaffs(s.pc) && s.spawned !in s.workers
    ensures var t := Handler(s, c);
      s.spawned in t.workers ==>
        var me := t.workers[s.spawned]; !me.phase.Ready? && !me.seenActive && me.unreachable == 0
  {
    hide Abort;
    AbortMarks(s.workers, s.active.dlna);
    AbortMarks(Abort(s.workers, s.active.dlna), s.active.airplay);
    if s.pc.RsAbort? {
      AbortMarks(s.workers, Some(s.pc.w));
    }
  }

  /** At every moment of every run a poller is up to date with its receiver's answers. */
  lemma {:induction false} PollerUpToDate(run: Run, j: nat, w: nat)
    requires run.Valid() && j < |run.states| && w in run.states[j].workers && !run.states[j].workers[w].kind.Cast?
    ensures UpToDate(run.states[j].workers[w], Answers(run, j, w))
  {
    hide Inv, Next, Enabled, UpToDate;
    if j > 0 {
      var s, t, step := run.states[j - 1], run.states[j], run.steps[j - 1];
      RunInv(run, j - 1);
      assert Enabled(s, step) && t == Next(s, step);
      if w in s.workers {
        Fresh(s, w);
        SameWorkerStep(s, step, w);
        PollerUpToDate(run, j - 1, w);
        StepUpToDate(s, step, w, Answers(run, j - 1, w), Answers(run, j, w));
      } else {
        Appears(s, step, w);
        NoAnswers(run, j - 1, w);
        assert Answers(run, j, w) == [];
        NewUpToDate(t.workers[w]);
      }
    }
  }

  lemma NewUpToDate(w: Worker)
    requires !w.phase.Ready? && !w.seenActive && w.unreachable == 0
    ensures UpToDate(w, [])
  {
  }

  lemma StepUpToDate(s: State, step: Step, w: nat, before: seq<Reply>, after: seq<Reply>)
    requires Inv(s) && Enabled(s, step) && w in s.workers && w in Next(s, step).workers && !s.workers[w].kind.Cast?
    requires UpToDate(s.workers[w], before)
    requires after == before
                      + (match step case PollReply(v, reply) => if v == w then [reply] else [] case _ => [])
    ensures UpToDate(Next(s, step).workers[w], after)
  {
    hide Inv, Handler, Section, Remembers, UpToDate;
    if step.PollReply? && step.w == w {
      ReplyUpToDate(s, step, before);
    } else {
      assert after == before;
      if step == PollWrite(w) {
        WorkerKind(s, w);
        WriteUpToDate(s, w, before);
      } else {
        if step.Advance? {
          Fresh(s, w);
          HandlerStaff(s, step.choice, w);
        }
        OtherUpToDate(s.workers[w], Next(s, step).workers[w], before);
      }
    }
  }

  lemma ReplyUpToDate(s: State, step: Step, before: seq<Reply>)
    requires step.PollReply? && Enabled(s, step) && UpToDate(s.workers[step.w], before)
    ensures UpToDate(Next(s, step).workers[step.w], before + [step.reply])
  {
    hide Remembers;
    var after := before + [step.reply];
    assert after[..|after| - 1] == before;
    SameMemory(s.workers[step.w], Next(s, step).workers[step.w], before);
  }

  lemma OtherUpToDate(v: Worker, w: Worker, replies: seq<Reply>)
    requires UpToDate(v, replies) && v == w.(phase := v.phase, aborted := v.aborted)
    requires w.phase == v.phase || (v.phase.Waiting? && w.phase.Querying?)
    ensures UpToDate(w, replies)
  {
    hide Remembers;
    SameMemory(v, w, replies);
  }

  lemma SameMemory(v: Worker, w: Worker, replies: seq<Reply>)
    requires v.kind == w.kind && v.seenActive == w.seenActive && v.unreachable == w.unreachable
    ensures Remembers(v, replies) == Remembers(w, replies)
    ensures replies != [] ==> Remembers(v, replies[..|replies| - 1]) == Remembers(w, replies[..|replies| - 1])
  {
  }

  lemma WorkerKind(s: State, w: nat)
    requires Inv(s) && w in s.workers && s.workers[w].phase.Ready?
    ensures s.workers[w].kind.Dlna? <==> s.workers[w].phase.reply.DlnaReply?
  {
    assert WorkerOk(s, w);
  }

  lemma WriteUpToDate(s: State, w: nat, replies: seq<Reply>)
    requires w in s.workers && s.workers[w].phase.Ready? && UpToDate(s.workers[w], replies)
    requires s.workers[w].kind.Dlna? <==> s.workers[w].phase.reply.DlnaReply?
    requires w in WriteBack(s, w).workers
    ensures UpToDate(WriteBack(s, w).workers[w], replies)
  {
    hide Section, Remembers;
    var me := s.workers[w];
    var earlier := replies[..|replies| - 1];
    assert earlier + [me.phase.reply] == replies;
    SectionRemembers(s.session, me, earlier, me.phase.reply);
    SameMemory(Section(s.session, me, me.phase.reply).worker, WriteBack(s, w).workers[w], replies);
  }

  // ---- When a poller ends its session ------------------------------------------------------------

  /** A DLNA poller whose session is current ends it exactly when the renderer stopped
      after it had played, or when it went away or never started; and it shows what the
      renderer said last. */
  lemma DlnaEndsExactly(run: Run, i: nat, w: nat)
    requires run.Valid() && i < |run.steps| && run.steps[i] == PollWrite(w)
    requires var s := run.states[i]; w in s.workers && s.workers[w].kind.Dlna? && s.workers[w].session == s.session.id
    ensures var s, t, replies := run.states[i], run.states[i + 1], Answers(run, i, w);
      replies != [] && replies[|replies| - 1].DlnaReply? && w in t.workers
      && (t.workers[w].phase.Posting? <==> DlnaFinished(replies) || DlnaLost(replies))
      && t == s.(session := t.session, workers := t.workers)
      && t.session == s.session.(state := t.session.state, shown := replies[|replies| - 1].shown)
      && (if DlnaFinished(replies) then t.session.state == Stopped
          else if DlnaLost(replies) then t.session.state == Error
          else match replies[|replies| - 1].transport
               case TPlaying => t.session.state == Playing
               case TPaused => t.session.state == Paused
               case TTransitioning => t.session.state == Buffering
               case _ => t.session.state == s.session.state)
  {
    hide Inv, Played, SilentFor;
    var s, replies := run.states[i], Answers(run, i, w);
    RunInv(run, i);
    assert Enabled(s, run.steps[i]);
    WorkerKind(s, w);
    PollerUpToDate(run, i, w);
    var earlier, last := replies[..|replies| - 1], s.workers[w].phase.reply;
    assert earlier + [last] == replies;
    PlayedMore(earlier, last);
    SilenceCounts(replies, 20);
  }

  /** An AirPlay poller whose session is current ends it exactly when the receiver
      stopped answering, or never began to; and it shows what the receiver said. */
  lemma AirplayEndsExactly(run: Run, i: nat, w: nat)
    requires run.Valid() && i < |run.steps| && run.steps[i] == PollWrite(w)
    requires var s := run.states[i]; w in s.workers && s.workers[w].kind.Airplay? && s.workers[w].session == s.session.id
    ensures var s, t, replies := run.states[i], run.states[i + 1], Answers(run, i, w);
      replies != [] && replies[|replies| - 1].AirplayReply? && w in t.workers
      && (t.workers[w].phase.Posting? <==> AirplayFinished(replies) || AirplayLost(replies))
      && t == s.(session := t.session, workers := t.workers)
      && t.session == s.session.(state := t.session.state, shown := t.session.shown)
      && (if AirplayFinished(replies) then t.session.state == Stopped
          else if AirplayLost(replies) then t.session.state == Error
          else match replies[|replies| - 1].playing
               case Some(playing) =>
                 t.session.state == (if playing then Playing else Paused)
                 && t.session.shown == replies[|replies| - 1].shown
               case None => t.session == s.session)
  {
    hide Inv, Answered;
    var s, replies := run.states[i], Answers(run, i, w);
    RunInv(run, i);
    assert Enabled(s, run.steps[i]);
    WorkerKind(s, w);
    PollerUpToDate(run, i, w);
    var earlier, last := replies[..|replies| - 1], s.workers[w].phase.reply;
    assert earlier + [last] == replies;
    AnsweredMore(earlier, last);
  }

  // ---- When its session is over ---------------------------------------------------------------------

  /** An answer still on its way. */
  function Awaited(s: State, w: nat): nat {
    if w in s.workers && s.workers[w].phase.Querying? then 1 else 0
  }

  lemma StaleAsksNothing(s: State, step: Step, w: nat)
    requires Inv(s) && Enabled(s, step) && w < s.spawned
    requires w in s.workers ==> s.workers[w].session != s.session.id
    ensures Awaited(Next(s, step), w) + (if step.PollReply? && step.w == w then 1 else 0) <= Awaited(s, w)
  {
    hide Inv, Handler, Section;
    if step.Advance? {
      HandlerStaff(s, step.choice, w);
    }
  }

  /** Once its session is over, a poller asks its receiver nothing more: only an answer
      already on its way can still arrive. */
  lemma {:induction false} StalePollerAsksNoMore(run: Run, i: nat, j: nat, w: nat)
    requires run.Valid() && i <= j < |run.states|
    requires w in run.states[i].workers && run.states[i].workers[w].session != run.states[i].session.id
    ensures |Answers(run, j, w)| + Awaited(run.states[j], w) <= |Answers(run, i, w)| + Awaited(run.states[i], w)
    decreases j
  {
    hide Inv, Next, Enabled, Awaited;
    if i < j {
      StalePollerAsksNoMore(run, i, j - 1, w);
      RunInv(run, i);
      Fresh(run.states[i], w);
      RunInv(run, j - 1);
      StaleForever(run, i, j - 1, run.states[i].workers[w].session);
      WorkerKeepsSession(run, i, j - 1, w);
      StaleAsksNothing(run.states[j - 1], run.steps[j - 1], w);
    }
  }
}

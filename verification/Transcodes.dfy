/** Admission of live ffmpeg streams (src/media_server.rs, `admit_transcode`): a
    queue of cancellation tokens that other tasks cancel at any moment. Tokens are
    numbered in the order of their admission. */
module Transcodes {
  const MAX_LIVE: nat := 2

  /** `down`: the server was shut down, which cancels every token, past and future. */
  datatype State = State(queue: seq<nat>, cancelled: set<nat>, admitted: nat, down: bool) {
    predicate Cancelled(t: nat) {
      down || t in cancelled
    }

    /** Admitted and not cancelled. */
    predicate Live(t: nat) {
      t < admitted && !Cancelled(t)
    }
  }

  const IDLE := State([], {}, 0, false)

  /** `meanwhile`: tokens cancelled by others while the admission is under way, after
      it looked at them. */
  datatype Op = Admit(meanwhile: set<nat>) | Finish(t: nat) | Shutdown

  function Retained(s: State, queue: seq<nat>): seq<nat> {
    if queue == [] then []
    else
      var before := Retained(s, queue[..|queue| - 1]);
      if s.Cancelled(queue[|queue| - 1]) then before else before + [queue[|queue| - 1]]
  }

  function Surplus(queue: seq<nat>): nat {
    if |queue| <= MAX_LIVE then 0 else |queue| - MAX_LIVE
  }

  function Ids(queue: seq<nat>): set<nat> {
    set t | t in queue
  }

  function Admitted(s: State, meanwhile: set<nat>): State {
    var queue := Retained(s, s.queue) + [s.admitted];
    var surplus := Surplus(queue);
    State(queue[surplus..], s.cancelled + meanwhile + Ids(queue[..surplus]), s.admitted + 1, s.down)
  }

  function Apply(s: State, op: Op): State {
    match op
    case Admit(meanwhile) => Admitted(s, meanwhile)
    case Finish(t) => s.(cancelled := s.cancelled + {t})
    case Shutdown => s.(down := true)
  }

  class LiveTranscodes {
    var queue: seq<nat>
    var cancelled: set<nat>
    var admitted: nat
    var down: bool

    function Value(): State
      reads this
    {
      State(queue, cancelled, admitted, down)
    }

    constructor ()
      ensures Value() == IDLE
    {
      queue, cancelled, admitted, down := [], {}, 0, false;
    }

    method AdmitTranscode(meanwhile: set<nat>) returns (token: nat)
      modifies this
      ensures token == old(admitted) && Value() == Apply(old(Value()), Admit(meanwhile))
    {
      token := admitted;
      var kept := [];
      for i := 0 to |queue|
        invariant Value() == old(Value()) && kept == Retained(Value(), queue[..i])
      {
        assert queue[..i + 1][..i] == queue[..i];
        if !down && queue[i] !in cancelled {
          kept := kept + [queue[i]];
        }
      }
      assert queue[..|queue|] == queue;
      ghost var all := kept + [token];
      ghost var start := cancelled;
      queue := kept + [token];
      admitted := admitted + 1;
      while |queue| > MAX_LIVE
        invariant |all| - |queue| <= Surplus(all) && |queue| <= |all| && queue == all[|all| - |queue|..]
        invariant cancelled == start + Ids(all[..|all| - |queue|])
        invariant admitted == old(admitted) + 1 && down == old(down)
      {
        ghost var n := |all| - |queue|;
        assert all[..n + 1] == all[..n] + [queue[0]];
        cancelled := cancelled + {queue[0]};
        queue := queue[1..];
      }
      Others(meanwhile);
      assert start + Ids(all[..Surplus(all)]) + meanwhile == start + meanwhile + Ids(all[..Surplus(all)]);
    }

    /** The other tasks' cancellations, seen at the end of the admission. */
    method Others(meanwhile: set<nat>)
      modifies this`cancelled
      ensures cancelled == old(cancelled) + meanwhile
    {
      cancelled := cancelled + meanwhile;
    }

    /** ffmpeg ended, or was killed after a cancellation. */
    method Ended(t: nat)
      modifies this
      ensures Value() == Apply(old(Value()), Finish(t))
    {
      cancelled := cancelled + {t};
    }

    method ShutDown()
      modifies this
      ensures Value() == Apply(old(Value()), Shutdown)
    {
      down := true;
    }
  }

  // ---- What every run keeps -----------------------------------------------------------

  predicate Increasing(queue: seq<nat>) {
    forall i, j :: 0 <= i < j < |queue| ==> queue[i] < queue[j]
  }

  /** The queue is short, in order of admission, and holds every live stream. */
  ghost predicate Inv(s: State) {
    |s.queue| <= MAX_LIVE && Increasing(s.queue)
    && (forall t :: t in s.queue ==> t < s.admitted)
    && (forall t: nat :: s.Live(t) ==> t in s.queue)
  }

  lemma {:induction false} RetainedKeepsOrder(s: State, queue: seq<nat>)
    requires Increasing(queue)
    ensures Increasing(Retained(s, queue)) && |Retained(s, queue)| <= |queue|
    ensures forall t :: t in Retained(s, queue) <==> t in queue && !s.Cancelled(t)
  {
    if queue != [] {
      var before := queue[..|queue| - 1];
      RetainedKeepsOrder(s, before);
      assert forall t :: t in queue <==> t in before || t == queue[|queue| - 1];
      assert forall i :: 0 <= i < |Retained(s, before)| ==> Retained(s, before)[i] in before;
    }
  }

  /** With a short queue at most one stream, the oldest, has to go. */
  lemma AdmittedIs(s: State, meanwhile: set<nat>)
    requires Inv(s)
    ensures var kept := Retained(s, s.queue); var t := Admitted(s, meanwhile);
      t.admitted == s.admitted + 1 && t.down == s.down
      && if |kept| < MAX_LIVE then t.queue == kept + [s.admitted] && t.cancelled == s.cancelled + meanwhile
         else |kept| == 2 && t.queue == [kept[1], s.admitted] && t.cancelled == s.cancelled + meanwhile + {kept[0]}
  {
    var kept := Retained(s, s.queue);
    var queue := kept + [s.admitted];
    RetainedKeepsOrder(s, s.queue);
    if |kept| < MAX_LIVE {
      assert queue[0..] == queue && Ids(queue[..0]) == {};
    } else {
      assert queue[..1] == [kept[0]] && Ids([kept[0]]) == {kept[0]};
      assert queue[1..] == [kept[1], s.admitted];
    }
  }

  lemma AdmitKeeps(s: State, meanwhile: set<nat>)
    requires Inv(s)
    ensures Inv(Admitted(s, meanwhile))
  {
    hide Admitted, Retained;
    RetainedKeepsOrder(s, s.queue);
    AdmittedIs(s, meanwhile);
    var kept := Retained(s, s.queue);
    assert forall i :: 0 <= i < |kept| ==> kept[i] in kept;
    if |kept| < MAX_LIVE {
      assert forall u :: u in kept + [s.admitted] <==> u in kept || u == s.admitted;
    } else {
      assert forall u :: u in kept <==> u == kept[0] || u == kept[1];
    }
    assert forall u: nat :: Admitted(s, meanwhile).Live(u) ==> u == s.admitted || s.Live(u);
  }

  function Run(ops: seq<Op>): State {
    if ops == [] then IDLE else Apply(Run(ops[..|ops| - 1]), ops[|ops| - 1])
  }

  lemma {:induction false} RunInv(ops: seq<Op>)
    ensures Inv(Run(ops))
  {
    hide Admitted;
    if ops != [] {
      RunInv(ops[..|ops| - 1]);
      if ops[|ops| - 1].Admit? {
        AdmitKeeps(Run(ops[..|ops| - 1]), ops[|ops| - 1].meanwhile);
      }
    }
  }

  /** In every run at most two streams are live, and all of those are queued. */
  lemma AtMostTwoLive(ops: seq<Op>, live: set<nat>)
    requires forall t :: t in live ==> Run(ops).Live(t)
    ensures |live| <= 2 && forall t :: t in live ==> t in Run(ops).queue
  {
    hide Run;
    RunInv(ops);
    AtMost(live, Run(ops).queue);
  }

  lemma {:induction false} AtMost(live: set<nat>, queue: seq<nat>)
    requires forall t :: t in live ==> t in queue
    ensures |live| <= |queue|
  {
    if queue != [] {
      AtMost(live - {queue[0]}, queue[1..]);
    } else {
      assert live == {};
    }
  }

  predicate NewcomerLives(s: State, meanwhile: set<nat>) {
    !s.down && s.admitted !in s.cancelled && s.admitted !in meanwhile ==> Admitted(s, meanwhile).Live(s.admitted)
  }

  /** An admission ends a live stream exactly when two newer ones are live with it: the
      one queued behind and the newcomer. It never ends the newcomer. */
  lemma EndsOnlyTheThird(ops: seq<Op>, meanwhile: set<nat>, t: nat)
    requires Run(ops).Live(t) && t !in meanwhile
    ensures var s := Run(ops);
      !Admitted(s, meanwhile).Live(t) <==> exists u :: t < u && s.Live(u)
    ensures NewcomerLives(Run(ops), meanwhile)
  {
    hide Run, Admitted, Retained;
    var s := Run(ops);
    RunInv(ops);
    RetainedKeepsOrder(s, s.queue);
    AdmittedIs(s, meanwhile);
    var kept := Retained(s, s.queue);
    assert t in kept;
    if exists u :: t < u && s.Live(u) {
      var u :| t < u && s.Live(u);
      assert u in kept;
    } else if |kept| == 2 {
      assert kept[1] in kept && kept[1] in s.queue && kept[1] < s.admitted;
      assert s.Live(kept[1]);
    }
  }

  function Admissions(ops: seq<Op>): nat {
    if ops == [] then 0 else Admissions(ops[..|ops| - 1]) + (if ops[|ops| - 1].Admit? then 1 else 0)
  }

  /** Nobody but the queue cancels `t`. */
  predicate Undisturbed(ops: seq<Op>, t: nat) {
    forall i :: 0 <= i < |ops| ==>
      match ops[i] case Admit(meanwhile) => t !in meanwhile case Finish(u) => u != t case Shutdown => false
  }

  lemma OneStep(ops: seq<Op>, op: Op, t: nat)
    requires Run(ops).Live(t) && Undisturbed([op], t)
    requires op.Admit? ==> Run(ops).admitted == t + 1
    ensures Run(ops + [op]).Live(t)
    ensures Run(ops + [op]).admitted == Run(ops).admitted + (if op.Admit? then 1 else 0)
  {
    hide Admitted, Run;
    RunOne(ops, op);
    assert [op][0] == op;
    if op.Admit? {
      EndsOnlyTheThird(ops, op.meanwhile, t);
      AdmittedCounts(Run(ops), op.meanwhile);
    }
  }

  lemma RunOne(ops: seq<Op>, op: Op)
    ensures Run(ops + [op]) == Apply(Run(ops), op)
  {
    assert (ops + [op])[..|ops|] == ops;
  }

  lemma AdmittedCounts(s: State, meanwhile: set<nat>)
    ensures Admitted(s, meanwhile).admitted == s.admitted + 1
  {
  }

  /** Left alone, a stream outlives the admission of one newer stream. */
  lemma {:induction false} OutlivesOneMore(ops: seq<Op>, more: seq<Op>, t: nat)
    requires Run(ops).Live(t) && Run(ops).admitted == t + 1
    requires Undisturbed(more, t) && Admissions(more) <= 1
    ensures Run(ops + more).Live(t) && Run(ops + more).admitted == t + 1 + Admissions(more)
    decreases |more|
  {
    hide Run;
    if more == [] {
      assert ops + more == ops;
    } else {
      var before, op := more[..|more| - 1], more[|more| - 1];
      assert Undisturbed(before, t);
      OutlivesOneMore(ops, before, t);
      assert ops + more == (ops + before) + [op];
      OneStep(ops + before, op, t);
    }
  }
}

/** What is bound to happen, in every interleaving: where a stream that keeps up ends,
    and how few own moves a stream and the shutdown waiter need. */
module TaskLiveness {
  import opened TaskModel
  import opened TaskProtocol
  import opened TaskInvariant
  import opened TaskTheorems

  // ----- streams that keep up -----

  /** Throughout the run the receiver is at most RING behind, and its client stays. */
  ghost predicate KeepsUp(w: World, actions: seq<Action>, sid: nat)
    decreases |actions|
  {
    && (sid in w.subs && w.subs[sid].id in w.tasks ==>
          |w.tasks[w.subs[sid].id].channel.log| - w.subs[sid].next <= RING)
    && (actions != [] && Enabled(w, actions[0]) ==>
          actions[0] != Stream(sid, Disconnect) && KeepsUp(Do(w, actions[0]), actions[1..], sid))
  }

  /** Not cut off: over, if at all, by the terminal event or by the channel's end, the
      latter before any terminal event was sent. */
  predicate Uncut(s: Subscriber) {
    && s.mode != Over(ByLag) && s.mode != Over(ByDisconnect)
    && (s.mode == Over(ByClose) ==> !HasTerminal(s.sent))
  }

  lemma MoveUncut(sid: nat, s: Subscriber, t: Task, a: StreamAction)
    requires SubOk(sid, s, t) && Uncut(s) && StreamEnabled(s, t, a) && !a.Disconnect?
    requires |t.channel.log| - s.next <= RING
    ensures Uncut(StreamStep(sid, s, t, a).0) && StreamStep(sid, s, t, a).0.id == s.id
  {
  }

  lemma StepUncut(w: World, a: Action, sid: nat)
    requires Inv(w) && Enabled(w, a) && a != Stream(sid, Disconnect)
    requires sid in w.subs && Uncut(w.subs[sid])
    requires |w.tasks[w.subs[sid].id].channel.log| - w.subs[sid].next <= RING
    ensures sid in Do(w, a).subs && Do(w, a).subs[sid].id == w.subs[sid].id && Uncut(Do(w, a).subs[sid])
  {
    if a.Stream? && a.sid == sid {
      MoveUncut(sid, w.subs[sid], w.tasks[w.subs[sid].id], a.stream);
    } else {
      SubKept(w, a, sid);
    }
  }

  lemma {:induction false} RunUncut(w: World, actions: seq<Action>, w': World, sid: nat)
    requires Inv(w) && Run(w, actions, w') && KeepsUp(w, actions, sid)
    requires sid in w.subs && Uncut(w.subs[sid])
    ensures Inv(w') && sid in w'.subs && w'.subs[sid].id == w.subs[sid].id && Uncut(w'.subs[sid])
    decreases |actions|
  {
    if actions != [] {
      StepUncut(w, actions[0], sid);
      Preserved(w, actions[0]);
      RunUncut(Do(w, actions[0]), actions[1..], w', sid);
    }
  }

  lemma FourReasons(r: Reason)
    ensures r == ByTerminal || r == ByLag || r == ByClose || r == ByDisconnect
  {
  }

  lemma UncutEnds(sid: nat, s: Subscriber, t: Task)
    requires SubOk(sid, s, t) && ValidHistory(t.published) && Uncut(s)
    ensures HasTerminal(t.published) && s.mode.Over? ==> s.mode == Over(ByTerminal) && s.sent == t.published
  {
    if s.mode == Over(ByTerminal) { TerminalIsAll(s.sent, t.published); }
    if s.mode.Over? { FourReasons(s.mode.reason); }
  }

  /** In every run in which a stream keeps up: once the task has its terminal event and
      the stream is over, it has sent every publication and ended with that event. */
  lemma StreamEndsWithTerminal(w: World, actions: seq<Action>, w': World, sid: nat)
    requires Reachable(w) && sid in w.subs && !w.subs[sid].mode.Over?
    requires Run(w, actions, w') && KeepsUp(w, actions, sid)
    ensures sid in w'.subs && w'.subs[sid].id in w'.tasks
    ensures var s := w'.subs[sid];
            var published := w'.tasks[s.id].published;
            HasTerminal(published) && s.mode.Over? ==> s.mode == Over(ByTerminal) && s.sent == published
  {
    ReachableInv(w);
    RunUncut(w, actions, w', sid);
    var s := w'.subs[sid];
    var t := w'.tasks[s.id];
    assert SubOk(sid, s, t) && TaskOk(t, w'.now);
    UncutEnds(sid, s, t);
  }

  /** While it keeps up with a finished task, a stream always has a move of its own that
      is not leaving. */
  lemma StreamNeverStuck(w: World, sid: nat)
    requires Reachable(w) && sid in w.subs && !w.subs[sid].mode.Over?
    requires w.subs[sid].id in w.tasks && HasTerminal(w.tasks[w.subs[sid].id].published)
    requires |w.tasks[w.subs[sid].id].channel.log| - w.subs[sid].next <= RING
    ensures Enabled(w, Stream(sid, NextMove(w.subs[sid]))) && !NextMove(w.subs[sid]).Disconnect?
  {
    ReachableInv(w);
    MoveAdvances(w, sid);
  }

  /** The moves one stream makes in a run. */
  function OwnMoves(actions: seq<Action>, sid: nat): nat {
    if actions == [] then 0
    else (if actions[0].Stream? && actions[0].sid == sid then 1 else 0) + OwnMoves(actions[1..], sid)
  }

  function ModeRank(m: Mode): nat {
    match m
    case Replaying => 2
    case Live => 1
    case Over(_) => 0
  }

  lemma MoveCosts(sid: nat, s: Subscriber, t: Task, a: StreamAction)
    requires StreamEnabled(s, t, a)
    ensures var s' := StreamStep(sid, s, t, a).0;
            |s.sent| - ModeRank(s.mode) + 1 <= |s'.sent| - ModeRank(s'.mode)
  {
  }

  lemma {:induction false} MovesAreSends(w: World, actions: seq<Action>, w': World, sid: nat)
    requires Inv(w) && Run(w, actions, w') && sid in w.subs
    ensures Inv(w') && sid in w'.subs
    ensures |w.subs[sid].sent| - ModeRank(w.subs[sid].mode) + OwnMoves(actions, sid) <=
            |w'.subs[sid].sent| - ModeRank(w'.subs[sid].mode)
    decreases |actions|
  {
    if actions != [] {
      var a := actions[0];
      if a.Stream? && a.sid == sid {
        MoveCosts(sid, w.subs[sid], w.tasks[w.subs[sid].id], a.stream);
      } else {
        SubKept(w, a, sid);
      }
      Preserved(w, a);
      MovesAreSends(Do(w, a), actions[1..], w', sid);
    }
  }

  /** In every run, a stream makes at most two moves more than there are publications
      left to send. */
  lemma StreamMovesAreBounded(w: World, actions: seq<Action>, w': World, sid: nat)
    requires Reachable(w) && sid in w.subs && Run(w, actions, w')
    ensures sid in w'.subs && w'.subs[sid].id in w'.tasks
    ensures |w.subs[sid].sent| + OwnMoves(actions, sid) <= |w'.tasks[w'.subs[sid].id].published| + 2
  {
    ReachableInv(w);
    MovesAreSends(w, actions, w', sid);
    assert SubOk(sid, w'.subs[sid], w'.tasks[w'.subs[sid].id]);
  }

  // ----- the shutdown waiter -----

  /** Shutdown has begun and every run is over, its notification paid. */
  ghost predicate Quiet(w: World) {
    !w.waiter.Off? && forall id :: id in w.tasks ==> w.tasks[id].pc.Ended? || w.tasks[id].pc.Abandoned?
  }

  lemma QuietCount(w: World)
    requires Inv(w) && Quiet(w)
    ensures w.count == 0 && !SomeoneNotifying(w) && !w.serving
  {
    assert Leases(w) == {};
  }

  lemma QuietStep(w: World, a: Action)
    requires Inv(w) && Quiet(w) && Enabled(w, a)
    ensures Quiet(Do(w, a))
    ensures !a.Drain? ==> Do(w, a).waiter == w.waiter
  {
    QuietCount(w);
    if a.Drain? {
      DrainFrame(w, a.drain);
    } else if !a.Act? {
      PcsKept(w, a);
    }
  }

  function WaiterRank(waiter: Waiter): nat {
    match waiter
    case Parked(_) => 3
    case Checking => 2
    case Arming => 5
    case Rechecking(_) => 4
    case Drained => 0
    case Off => 6
  }

  /** The waiter is never stuck: it has a move, and the move gets it closer. */
  lemma WaiterMoves(w: World)
    requires Inv(w) && Quiet(w) && !w.waiter.Drained?
    ensures exists a :: DrainEnabled(w, a)
    ensures forall a :: DrainEnabled(w, a) ==> WaiterRank(DoDrain(w, a).waiter) < WaiterRank(w.waiter)
  {
    QuietCount(w);
    var a := match w.waiter case Checking => Check case Arming => Arm case Rechecking(_) => Recheck case _ => Wake;
    assert DrainEnabled(w, a);
  }

  function WaiterSteps(actions: seq<Action>): nat {
    if actions == [] then 0 else (if actions[0].Drain? then 1 else 0) + WaiterSteps(actions[1..])
  }

  lemma DrainedStays(w: World, a: Action)
    requires Inv(w) && Quiet(w) && Enabled(w, a) && w.waiter.Drained?
    ensures Do(w, a).waiter.Drained?
  {
    QuietStep(w, a);
    if a.Drain? { QuietCount(w); }
  }

  lemma {:induction false} DrainedForGood(w: World, actions: seq<Action>, w': World)
    requires Inv(w) && Quiet(w) && w.waiter.Drained? && Run(w, actions, w')
    ensures w'.waiter.Drained?
    decreases |actions|
  {
    if actions != [] {
      DrainedStays(w, actions[0]);
      QuietStep(w, actions[0]);
      Preserved(w, actions[0]);
      DrainedForGood(Do(w, actions[0]), actions[1..], w');
    }
  }

  lemma {:induction false} StepsAreBounded(w: World, actions: seq<Action>, w': World)
    requires Inv(w) && Quiet(w) && Run(w, actions, w') && !w'.waiter.Drained?
    ensures WaiterSteps(actions) + WaiterRank(w'.waiter) <= WaiterRank(w.waiter)
    decreases |actions|
  {
    if actions != [] {
      var a := actions[0];
      if w.waiter.Drained? {
        DrainedForGood(w, actions, w');
      } else if a.Drain? {
        WaiterMoves(w);
      }
      QuietStep(w, a);
      Preserved(w, a);
      StepsAreBounded(Do(w, a), actions[1..], w');
    }
  }

  /** Once every run is over, the waiter is through after at most four own steps,
      whatever else goes on, and until then it always has a step to take. */
  lemma DrainIsBounded(w: World, actions: seq<Action>, w': World)
    requires Reachable(w) && Quiet(w) && Run(w, actions, w')
    ensures WaiterSteps(actions) >= 4 ==> w'.waiter.Drained?
    ensures w'.waiter.Drained? || exists a :: DrainEnabled(w', a)
  {
    ReachableInv(w);
    RunQuiet(w, actions, w');
    if !w'.waiter.Drained? {
      StepsAreBounded(w, actions, w');
      WaiterMoves(w');
    }
  }

  lemma {:induction false} RunQuiet(w: World, actions: seq<Action>, w': World)
    requires Inv(w) && Quiet(w) && Run(w, actions, w')
    ensures Inv(w') && Quiet(w')
    decreases |actions|
  {
    if actions != [] {
      QuietStep(w, actions[0]);
      Preserved(w, actions[0]);
      RunQuiet(Do(w, actions[0]), actions[1..], w');
    }
  }

  // ----- the run of a task -----

  function PcRank(pc: Pc): nat {
    match pc
    case Starting => 8
    case Spawning => 7
    case Waiting => 6
    case Cancelling => 6
    case Closing(_) => 5
    case Clearing => 4
    case Leaving => 3
    case Notifying => 2
    case _ => 0
  }

  function ReaderRank(r: Reader): nat {
    if r.phase.Holding? then 2 else if r.phase.Reading? then 1 else 0
  }

  function RunRank(t: Task): nat {
    10 * PcRank(t.pc) + ReaderRank(t.stdout) + ReaderRank(t.stderr)
  }

  /** A step that brings a run closer to its end: whatever the child did, it may exit now,
      and then the readers drain their pipes. */
  function Forward(t: Task, count: int): TaskAction {
    match t.pc
    case Starting => PublishStarted
    case Spawning => SpawnFails("")
    case Waiting => ChildExits(None)
    case Cancelling => KillDone
    case Closing(_) =>
      if t.stdout.phase.Holding? then PublishChunk(false)
      else if t.stdout.phase.Reading? then EndReader(false)
      else if t.stderr.phase.Holding? then PublishChunk(true)
      else if t.stderr.phase.Reading? then EndReader(true)
      else PublishTerminal
    case Clearing => Clear
    case Leaving => Release(count == 1)
    case _ => Notify
  }

  lemma ForwardWorks(t: Task, count: int, now: int)
    requires CoreOk(t, now) && PcRank(t.pc) > 0
    ensures var a := Forward(t, count);
            && TaskEnabled(t, a) && (a.Release? ==> a.last == (count == 1))
            && var t' := TaskStep(t, a, now);
            && RunRank(t') < RunRank(t)
            && (PcRank(t'.pc) == 0 ==> t'.pc.Ended?)
  {
  }

  /** Once it has its lease, a run can always come to its end by its own steps. */
  lemma {:induction false} RunCanFinish(w: World, id: Id) returns (actions: seq<Action>, w': World)
    requires Inv(w) && id in w.tasks && PcRank(w.tasks[id].pc) > 0
    ensures Run(w, actions, w') && id in w'.tasks && w'.tasks[id].pc.Ended?
    ensures forall a :: a in actions ==> a.Act? && a.id == id
    decreases RunRank(w.tasks[id])
  {
    assert TaskOk(w.tasks[id], w.now);
    ForwardWorks(w.tasks[id], w.count, w.now);
    var a := Act(id, Forward(w.tasks[id], w.count));
    Preserved(w, a);
    var next := Do(w, a);
    var rest;
    if next.tasks[id].pc.Ended? {
      rest, w' := [], next;
    } else {
      rest, w' := RunCanFinish(next, id);
    }
    actions := [a] + rest;
    RunCons(w, a, rest, w');
  }
}

/** Which end a run is reported with, in every interleaving: from the step that decided
    how it went to the record anybody may read afterwards. */
module TaskOutcomes {
  import opened TaskModel
  import opened TaskProtocol
  import opened TaskInvariant
  import opened TaskTheorems
  import opened Seqs

  /** The end of the run is decided: the event is about to be published, or it is the last
      of the history, if there still is a record. */
  ghost predicate Decided(t: Task, e: Event) {
    if t.pc.Closing? then t.pc.event == e
    else t.pc.After() && (t.record.Some? ==> HasTerminal(t.published) && t.published[|t.published| - 1] == e)
  }

  lemma TaskStepDecided(t: Task, a: TaskAction, now: int, e: Event)
    requires CoreOk(t, now) && Decided(t, e) && TaskEnabled(t, a)
    ensures Decided(TaskStep(t, a, now), e)
  {
    if Publishes(a) { EventInPlace(t, a, now); }
  }

  /** What others may do to a task, cancel requests apart. */
  ghost predicate Untouched(t: Task, t': Task) {
    && t'.pc == t.pc && t'.published == t.published && (t'.record == t.record || t'.record.None?)
    && t'.cancellable == t.cancellable && t'.listening == t.listening
    && t'.cancelSent == t.cancelSent && t'.cancelsWon == t.cancelsWon
  }

  lemma MoveUntouched(w: World, sid: nat, a: StreamAction, id: Id)
    requires MoveEnabled(w, sid, a) && id in w.tasks
    ensures id in DoMove(w, sid, a).tasks && Untouched(w.tasks[id], DoMove(w, sid, a).tasks[id])
  {
    StreamFrame(sid, w.subs[sid], w.tasks[w.subs[sid].id], a);
  }

  lemma OthersLeaveIt(w: World, a: Action, id: Id)
    requires Enabled(w, a) && id in w.tasks && (a.Act? ==> a.id != id)
    ensures id in Do(w, a).tasks
    ensures if a == Cancel(id) then Do(w, a).tasks[id] == CancelTask(w.tasks[id])
            else Untouched(w.tasks[id], Do(w, a).tasks[id])
  {
    if a.Stream? {
      MoveUntouched(w, a.sid, a.stream, id);
    } else if a.Drain? {
      DrainFrame(w, a.drain);
    }
  }

  lemma StepDecided(w: World, a: Action, id: Id, e: Event)
    requires TasksOk(w) && Enabled(w, a) && id in w.tasks && Decided(w.tasks[id], e)
    ensures id in Do(w, a).tasks && Decided(Do(w, a).tasks[id], e)
  {
    if a.Act? && a.id == id {
      assert TaskOk(w.tasks[id], w.now);
      TaskStepDecided(w.tasks[id], a.action, w.now, e);
    } else {
      OthersLeaveIt(w, a, id);
    }
  }

  lemma {:induction false} RunDecided(w: World, actions: seq<Action>, w': World, id: Id, e: Event)
    requires Inv(w) && Run(w, actions, w') && id in w.tasks && Decided(w.tasks[id], e)
    ensures Inv(w') && id in w'.tasks && Decided(w'.tasks[id], e)
    decreases |actions|
  {
    if actions != [] {
      StepDecided(w, actions[0], id, e);
      Preserved(w, actions[0]);
      RunDecided(Do(w, actions[0]), actions[1..], w', id, e);
    }
  }

  /** A record as a run leaves it: the last event, and the snapshot fields that tell how
      it went. */
  ghost predicate Reports(r: Record, last: Event, status: string, exitCode: Option<I32>, error: Option<string>) {
    && r.history != [] && r.history[|r.history| - 1] == last
    && r.snapshot.status == status && r.snapshot.exitCode == exitCode && r.snapshot.error == error
  }

  /** The steps that decide how a run ends. */
  predicate Decides(a: TaskAction) {
    a.ChildExits? || a.KillDone? || a.Timeout? || a.SpawnFails? || a.WaitFails?
  }

  lemma DecidedByStep(t: Task, a: TaskAction, now: int)
    requires Decides(a) && TaskEnabled(t, a)
    ensures var t' := TaskStep(t, a, now);
            && (a.ChildExits? ==> Decided(t', Event.Finished(a.code)))
            && (a.KillDone? ==> Decided(t', Event.Finished(None)))
            && (a.Timeout? ==> Decided(t', Event.TimedOut))
            && ((a.SpawnFails? || a.WaitFails?) ==> Decided(t', Event.Failed(a.error)))
  {
  }

  lemma RecordOfDecided(t: Task, e: Event, now: int)
    requires TaskOk(t, now) && Decided(t, e) && t.pc.After() && t.record.Some?
    ensures var r := t.record.value;
            && (e.Finished? ==> Reports(r, e, "finished", e.code, None))
            && (e.TimedOut? ==> Reports(r, e, "timed_out", None, None))
            && (e.Failed? ==> Reports(r, e, "failed", None, Some(e.error)))
  {
  }

  /** A run is reported as it went, whatever else goes on: a record that survives the
      terminal publication ends in the event of the step that decided the run, and its
      snapshot carries that step's code or error. */
  lemma RunIsReported(w: World, id: Id, a: TaskAction, actions: seq<Action>, w': World)
    requires Reachable(w) && Decides(a) && Enabled(w, Act(id, a))
    requires Run(Do(w, Act(id, a)), actions, w')
    requires id in w'.tasks && w'.tasks[id].pc.After() && w'.tasks[id].record.Some?
    ensures var r := w'.tasks[id].record.value;
            && (a.ChildExits? ==> Reports(r, Event.Finished(a.code), "finished", a.code, None))
            && (a.KillDone? ==> Reports(r, Event.Finished(None), "finished", None, None))
            && (a.Timeout? ==> Reports(r, Event.TimedOut, "timed_out", None, None))
            && (a.SpawnFails? || a.WaitFails? ==> Reports(r, Event.Failed(a.error), "failed", None, Some(a.error)))
  {
    ReachableInv(w);
    Preserved(w, Act(id, a));
    DecidedByStep(w.tasks[id], a, w.now);
    var e := if a.ChildExits? then Event.Finished(a.code)
      else if a.KillDone? then Event.Finished(None)
      else if a.Timeout? then Event.TimedOut
      else Event.Failed(a.error);
    RunDecided(Do(w, Act(id, a)), actions, w', id, e);
    assert TaskOk(w'.tasks[id], w'.now);
    RecordOfDecided(w'.tasks[id], e, w'.now);
  }

  // ----- output -----

  /** What one action reads from one of the pipes of a task. */
  function ReadBy(a: Action, id: Id, isErr: bool): seq<string> {
    if a.Act? && a.id == id && a.action.ReadChunk? && a.action.isErr == isErr then [a.action.data] else []
  }

  function ReadIn(actions: seq<Action>, id: Id, isErr: bool): seq<string> {
    if actions == [] then [] else ReadBy(actions[0], id, isErr) + ReadIn(actions[1..], id, isErr)
  }

  lemma TaskStepReads(t: Task, a: TaskAction, now: int, isErr: bool)
    requires CoreOk(t, now) && TaskEnabled(t, a)
    ensures ReaderOf(TaskStep(t, a, now), isErr).chunks ==
            ReaderOf(t, isErr).chunks + (if a.ReadChunk? && a.isErr == isErr then [a.data] else [])
  {
  }

  lemma OthersLeaveReaders(w: World, a: Action, id: Id)
    requires Enabled(w, a) && id in w.tasks && (a.Act? ==> a.id != id)
    ensures id in Do(w, a).tasks
    ensures Do(w, a).tasks[id].stdout == w.tasks[id].stdout && Do(w, a).tasks[id].stderr == w.tasks[id].stderr
  {
    if a.Stream? {
      StreamFrame(a.sid, w.subs[a.sid], w.tasks[w.subs[a.sid].id], a.stream);
    } else if a.Drain? {
      DrainFrame(w, a.drain);
    }
  }

  lemma StepReads(w: World, a: Action, id: Id, isErr: bool)
    requires TasksOk(w) && Enabled(w, a) && id in w.tasks
    ensures id in Do(w, a).tasks
    ensures ReaderOf(Do(w, a).tasks[id], isErr).chunks == ReaderOf(w.tasks[id], isErr).chunks + ReadBy(a, id, isErr)
  {
    var chunks := ReaderOf(w.tasks[id], isErr).chunks;
    if a.Act? && a.id == id {
      assert TaskOk(w.tasks[id], w.now);
      TaskStepReads(w.tasks[id], a.action, w.now, isErr);
    } else {
      OthersLeaveReaders(w, a, id);
      assert chunks + [] == chunks;
    }
  }

  lemma {:induction false} RunReads(w: World, actions: seq<Action>, w': World, id: Id, isErr: bool)
    requires Inv(w) && Run(w, actions, w') && id in w.tasks
    ensures Inv(w') && id in w'.tasks
    ensures ReaderOf(w'.tasks[id], isErr).chunks == ReaderOf(w.tasks[id], isErr).chunks + ReadIn(actions, id, isErr)
    decreases |actions|
  {
    var chunks := ReaderOf(w.tasks[id], isErr).chunks;
    if actions == [] {
      assert chunks + [] == chunks;
    } else {
      StepReads(w, actions[0], id, isErr);
      Preserved(w, actions[0]);
      RunReads(Do(w, actions[0]), actions[1..], w', id, isErr);
      Assoc(chunks, ReadBy(actions[0], id, isErr), ReadIn(actions[1..], id, isErr));
    }
  }

  /** From submission on: when the run is over, a surviving snapshot holds exactly what was
      read from each pipe, in order, and the history the same, chunk by chunk. */
  lemma OutputIsReported(w: World, id: Id, actions: seq<Action>, w': World)
    requires Reachable(w) && Enabled(w, Submit(id)) && Run(Do(w, Submit(id)), actions, w')
    requires id in w'.tasks && w'.tasks[id].pc.After() && w'.tasks[id].record.Some?
    ensures var r := w'.tasks[id].record.value;
            && r.snapshot.stdout == Join(ReadIn(actions, id, false))
            && r.snapshot.stderr == Join(ReadIn(actions, id, true))
            && StdoutChunks(r.history) == ReadIn(actions, id, false)
            && StderrChunks(r.history) == ReadIn(actions, id, true)
  {
    ReachableInv(w);
    Preserved(w, Submit(id));
    var start := Do(w, Submit(id));
    NothingReadYet(start, id, actions, w', false);
    NothingReadYet(start, id, actions, w', true);
    assert TaskOk(w'.tasks[id], w'.now);
    OutputOfEnded(w'.tasks[id], w'.now);
  }

  lemma NothingReadYet(w: World, id: Id, actions: seq<Action>, w': World, isErr: bool)
    requires Inv(w) && Run(w, actions, w') && id in w.tasks && ReaderOf(w.tasks[id], isErr).chunks == []
    ensures Inv(w') && id in w'.tasks && ReaderOf(w'.tasks[id], isErr).chunks == ReadIn(actions, id, isErr)
  {
    RunReads(w, actions, w', id, isErr);
    EmptyFront(ReaderOf(w.tasks[id], isErr).chunks, ReadIn(actions, id, isErr));
  }

  lemma EmptyFront(a: seq<string>, b: seq<string>)
    requires a == []
    ensures a + b == b
  {
  }

  lemma OutputOfEnded(t: Task, now: int)
    requires TaskOk(t, now) && t.pc.After() && t.record.Some?
    ensures var r := t.record.value;
            && r.snapshot.stdout == Join(t.stdout.chunks) && r.snapshot.stderr == Join(t.stderr.chunks)
            && StdoutChunks(r.history) == t.stdout.chunks && StderrChunks(r.history) == t.stderr.chunks
  {
    assert ReaderOk(t, false) && ReaderOk(t, true);
  }

  // ----- cancelled runs -----

  predicate TimesOut(actions: seq<Action>, id: Id) {
    Act(id, Timeout) in actions
  }

  /** From the moment the signal is taken: the child is being killed, or the end is
      decided as a cancelled one. */
  ghost predicate BeingCancelled(t: Task) {
    t.pc.Cancelling? || Decided(t, Event.Finished(None))
  }

  lemma StepCancelled(w: World, a: Action, id: Id)
    requires TasksOk(w) && Enabled(w, a) && a != Act(id, Timeout)
    requires id in w.tasks && BeingCancelled(w.tasks[id])
    ensures id in Do(w, a).tasks && BeingCancelled(Do(w, a).tasks[id])
  {
    if !w.tasks[id].pc.Cancelling? {
      StepDecided(w, a, id, Event.Finished(None));
    } else if a.Act? && a.id == id {
      CancellingStep(w.tasks[id], a.action, w.now);
    } else {
      OthersLeaveIt(w, a, id);
    }
  }

  lemma CancellingStep(t: Task, a: TaskAction, now: int)
    requires t.pc.Cancelling? && TaskEnabled(t, a) && !a.Timeout?
    ensures BeingCancelled(TaskStep(t, a, now))
  {
  }

  lemma {:induction false} RunCancelled(w: World, actions: seq<Action>, w': World, id: Id)
    requires Inv(w) && Run(w, actions, w') && !TimesOut(actions, id)
    requires id in w.tasks && BeingCancelled(w.tasks[id])
    ensures Inv(w') && id in w'.tasks && BeingCancelled(w'.tasks[id])
    decreases |actions|
  {
    if actions != [] {
      assert actions[0] in actions && forall a :: a in actions[1..] ==> a in actions;
      StepCancelled(w, actions[0], id);
      Preserved(w, actions[0]);
      RunCancelled(Do(w, actions[0]), actions[1..], w', id);
    }
  }

  /** A run whose runner took the cancel signal, and did not run out of time while
      killing the child, is reported as finished without an exit code. */
  lemma CancelIsReported(w: World, id: Id, actions: seq<Action>, w': World)
    requires Reachable(w) && Enabled(w, Act(id, TakeCancel))
    requires Run(Do(w, Act(id, TakeCancel)), actions, w') && !TimesOut(actions, id)
    requires id in w'.tasks && w'.tasks[id].pc.After() && w'.tasks[id].record.Some?
    ensures Reports(w'.tasks[id].record.value, Event.Finished(None), "finished", None, None)
  {
    ReachableInv(w);
    Preserved(w, Act(id, TakeCancel));
    RunCancelled(Do(w, Act(id, TakeCancel)), actions, w', id);
    assert TaskOk(w'.tasks[id], w'.now);
    RecordOfDecided(w'.tasks[id], Event.Finished(None), w'.now);
  }

  // ----- cancel requests -----

  /** While a run waits for its child, the first cancel request is accepted, and exactly
      an accepted one lets the runner take the signal. */
  ghost predicate SignalOk(t: Task) {
    && (t.pc.Registered? || t.pc.Starting? || t.pc.Spawning? || t.pc.Waiting? ==>
          t.listening && (t.cancellable <==> t.cancelsWon == 0))
    && (t.cancelSent <==> t.cancelsWon == 1)
    && (t.pc.Preparing? || t.pc.Recorded? ==> t.listening && t.cancelsWon == 0)
  }

  lemma StepSignalOk(t: Task, a: TaskAction, now: int)
    requires CoreOk(t, now) && SignalOk(t) && TaskEnabled(t, a)
    ensures SignalOk(TaskStep(t, a, now))
  {
  }

  lemma CancelSignalOk(t: Task, now: int)
    requires CoreOk(t, now) && SignalOk(t)
    ensures SignalOk(CancelTask(t))
  {
  }

  ghost predicate SignalsOk(w: World) {
    forall id :: id in w.tasks ==> SignalOk(w.tasks[id])
  }

  lemma StepSignals(w: World, a: Action, id: Id)
    requires TasksOk(w) && SignalsOk(w) && Enabled(w, a) && id in w.tasks
    ensures id in Do(w, a).tasks && SignalOk(Do(w, a).tasks[id])
  {
    var t := w.tasks[id];
    assert SignalOk(t) && TaskOk(t, w.now);
    if a.Act? && a.id == id {
      StepSignalOk(t, a.action, w.now);
    } else {
      OthersLeaveIt(w, a, id);
      CancelSignalOk(t, w.now);
    }
  }

  lemma TasksAfter(w: World, a: Action, id: Id)
    requires Enabled(w, a) && id in Do(w, a).tasks && id !in w.tasks
    ensures Do(w, a).tasks[id] == NewTask(w.now)
  {
    if a.Drain? { DrainFrame(w, a.drain); }
  }

  lemma {:induction false} RunSignals(w: World, actions: seq<Action>, w': World)
    requires Inv(w) && SignalsOk(w) && Run(w, actions, w')
    ensures SignalsOk(w')
    decreases |actions|
  {
    if actions != [] {
      forall id | id in Do(w, actions[0]).tasks
        ensures SignalOk(Do(w, actions[0]).tasks[id])
      {
        if id in w.tasks { StepSignals(w, actions[0], id); } else { TasksAfter(w, actions[0], id); }
      }
      Preserved(w, actions[0]);
      RunSignals(Do(w, actions[0]), actions[1..], w');
    }
  }

  /** A cancel request for a task that is registered and not yet decided is answered with
      true exactly if it is the first, and the runner can take a signal exactly if one was
      accepted. */
  lemma FirstCancelIsAccepted(w: World, id: Id)
    requires Reachable(w) && id in w.tasks
    requires var pc := w.tasks[id].pc; pc.Registered? || pc.Starting? || pc.Spawning? || pc.Waiting?
    ensures CancelSucceeds(w.tasks[id]) <==> w.tasks[id].cancelsWon == 0
    ensures Do(w, Cancel(id)).tasks[id].cancelsWon == 1
    ensures w.tasks[id].pc.Waiting? ==> (TaskEnabled(w.tasks[id], TakeCancel) <==> w.tasks[id].cancelsWon == 1)
  {
    ReachableSignals(w);
    ReachableInv(w);
    assert SignalOk(w.tasks[id]) && TaskOk(w.tasks[id], w.now);
    SignalMeans(w.tasks[id]);
  }

  lemma SignalMeans(t: Task)
    requires SignalOk(t) && (t.pc.Registered? || t.pc.Starting? || t.pc.Spawning? || t.pc.Waiting?)
    requires t.cancelsWon <= 1
    ensures CancelSucceeds(t) <==> t.cancelsWon == 0
    ensures CancelTask(t).cancelsWon == 1
    ensures t.pc.Waiting? ==> (TaskEnabled(t, TakeCancel) <==> t.cancelsWon == 1)
  {
  }

  lemma ReachableSignals(w: World)
    requires Reachable(w)
    ensures SignalsOk(w)
  {
    var w0: World, actions: seq<Action> :| Init(w0) && Run(w0, actions, w);
    InitOk(w0);
    RunSignals(w0, actions, w);
  }

  // ----- sweeping -----

  /** After a sweep no record past its deadline is stored; every other record, and all
      else about its task, is as it was. */
  lemma SweepRemovesExpired(w: World, id: Id)
    requires Enabled(w, Sweep) && id in w.tasks && w.tasks[id].record.Some?
    ensures var t, t' := w.tasks[id], Do(w, Sweep).tasks[id];
            if t.record.value.expires <= w.cutoff.value
            then t'.record.None? && t'.channel.closed && t'.channel.log == t.channel.log && t'.published == t.published
            else t' == t
  {
  }
}

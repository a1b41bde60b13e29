/** What the execution-task protocol promises in every interleaving: shape and
    finality of histories, faithful snapshots, gap-free event streams, a drain
    without lost wake-ups, retention of results and at most one cancellation. */
module TaskTheorems {
  import opened TaskModel
  import opened TaskProtocol
  import opened TaskInvariant

  // ----- histories and snapshots -----

  /** A stored history is Started, then output, then at most one terminal event
      in last place, and its snapshot says exactly what the history says. */
  lemma StoredHistory(w: World, id: Id)
    requires Reachable(w) && id in w.tasks && w.tasks[id].record.Some?
    ensures var t := w.tasks[id];
            var r := t.record.value;
            && r.history == t.published
            && ValidHistory(r.history)
            && r.snapshot == Summary(r.history)
            && r.status == StatusOf(r.history)
            && (r.snapshot.status == "running" <==> !HasTerminal(r.history))
            && (r.history != [] ==>
                  var last := r.history[|r.history| - 1];
                  && (r.snapshot.status == "finished" <==> last.Finished?)
                  && (r.snapshot.status == "timed_out" <==> last.TimedOut?)
                  && (r.snapshot.status == "failed" <==> last.Failed?)
                  && r.snapshot.exitCode == (if last.Finished? then last.code else None)
                  && r.snapshot.error == (if last.Failed? then Some(last.error) else None))
  {
    ReachableInv(w);
    assert TaskOk(w.tasks[id], w.now);
    TextsDiffer();
  }

  lemma TextsDiffer()
    ensures "running" != "finished" && "running" != "timed_out" && "running" != "failed"
    ensures "finished" != "timed_out" && "finished" != "failed" && "timed_out" != "failed"
  {
  }

  /** When a run is over and its record still stands, the history has its terminal
      event and the snapshot holds every chunk either reader ever read. */
  lemma NothingReadIsLost(w: World, id: Id)
    requires Reachable(w) && id in w.tasks && w.tasks[id].record.Some? && w.tasks[id].pc.After()
    ensures var t := w.tasks[id];
            var snapshot := t.record.value.snapshot;
            && HasTerminal(t.record.value.history)
            && snapshot.stdout == Join(t.stdout.chunks)
            && snapshot.stderr == Join(t.stderr.chunks)
  {
    ReachableInv(w);
    var t := w.tasks[id];
    assert TaskOk(t, w.now);
    assert ReaderOk(t, false) && ReaderOk(t, true);
    assert t.stdout.Emitted() == t.stdout.chunks && t.stderr.Emitted() == t.stderr.chunks;
  }

  /** What time may do to a task: publications and won cancellations only
      accumulate, an end is final, and so is the removal of the record. */
  ghost predicate TaskLater(t: Task, t': Task) {
    && t.published <= t'.published
    && (HasTerminal(t.published) ==> t'.published == t.published)
    && t.cancelsWon <= t'.cancelsWon
    && t'.createdAt == t.createdAt
    && (t.endedAt.Some? ==> t'.endedAt == t.endedAt)
    && (t.channel.closed ==> t'.channel.closed)
    && (t.record.Some? ==> t'.record.Some? || t'.channel.closed)
  }

  ghost predicate Later(w: World, w': World) {
    w.now <= w'.now && forall id :: id in w.tasks ==> id in w'.tasks && TaskLater(w.tasks[id], w'.tasks[id])
  }

  lemma TaskStepLater(t: Task, a: TaskAction, now: int)
    requires CoreOk(t, now) && TaskEnabled(t, a)
    ensures TaskLater(t, TaskStep(t, a, now))
  {
    if Publishes(a) {
      EventInPlace(t, a, now);
    }
  }

  lemma ReplaceLater(w: World, w': World, id: Id, t: Task)
    requires id in w.tasks && w'.tasks == w.tasks[id := t] && w.now == w'.now
    requires TaskLater(w.tasks[id], t)
    ensures Later(w, w')
  {
  }

  lemma SweepLater(w: World)
    requires TasksOk(w) && w.cutoff.Some?
    ensures Later(w, Do(w, Sweep))
  {
    forall id | id in w.tasks
      ensures TaskLater(w.tasks[id], SweepTask(w.tasks[id], w.cutoff.value))
    {
    }
  }

  /** An action on one task. */
  lemma TaskActionLater(w: World, a: Action)
    requires TasksOk(w) && Enabled(w, a) && (a.Act? || a.Cancel? || a.Subscribe?)
    ensures Later(w, Do(w, a))
  {
    match a
    case Act(id, action) =>
      TaskStepLater(w.tasks[id], action, w.now);
      ReplaceLater(w, DoAct(w, id, action), id, TaskStep(w.tasks[id], action, w.now));
    case Cancel(id) => ReplaceLater(w, Do(w, a), id, CancelTask(w.tasks[id]));
    case Subscribe(sid, id) => ReplaceLater(w, Do(w, a), id, Attach(w.tasks[id], sid));
  }

  lemma MoveLater(w: World, sid: nat, stream: StreamAction)
    requires MoveEnabled(w, sid, stream)
    ensures Later(w, DoMove(w, sid, stream))
  {
    var s := w.subs[sid];
    StreamFrame(sid, s, w.tasks[s.id], stream);
    ReplaceLater(w, DoMove(w, sid, stream), s.id, StreamStep(sid, s, w.tasks[s.id], stream).1);
  }

  lemma StepLater(w: World, a: Action)
    requires Inv(w) && Enabled(w, a)
    ensures Later(w, Do(w, a))
  {
    if a.Act? || a.Cancel? || a.Subscribe? {
      TaskActionLater(w, a);
    } else if a.Stream? {
      MoveLater(w, a.sid, a.stream);
    } else if a.Drain? {
      DrainFrame(w, a.drain);
    } else if a.Sweep? {
      SweepLater(w);
    }
  }

  lemma LaterTransitive(w1: World, w2: World, w3: World)
    requires Later(w1, w2) && Later(w2, w3)
    ensures Later(w1, w3)
  {
    forall id | id in w1.tasks
      ensures TaskLater(w1.tasks[id], w3.tasks[id])
    {
      assert TaskLater(w1.tasks[id], w2.tasks[id]) && TaskLater(w2.tasks[id], w3.tasks[id]);
    }
  }

  lemma {:induction false} RunLater(w: World, actions: seq<Action>, w': World)
    requires Inv(w) && Run(w, actions, w')
    ensures Later(w, w') && Inv(w')
    decreases |actions|
  {
    if actions == [] {
    } else {
      var next := Do(w, actions[0]);
      StepLater(w, actions[0]);
      Preserved(w, actions[0]);
      RunLater(next, actions[1..], w');
      LaterTransitive(w, next, w');
    }
  }

  /** Nothing is ever published after the terminal event, on any path. */
  lemma NothingAfterTerminal(w: World, actions: seq<Action>, w': World, id: Id)
    requires Reachable(w) && Run(w, actions, w')
    requires id in w.tasks && HasTerminal(w.tasks[id].published)
    ensures id in w'.tasks && w'.tasks[id].published == w.tasks[id].published
  {
    ReachableInv(w);
    RunLater(w, actions, w');
    assert TaskLater(w.tasks[id], w'.tasks[id]);
  }

  // ----- event streams -----

  /** Whenever it joined, a stream has sent a prefix of the publications; unless
      it lagged or was dropped by its client, it ends having sent them all. */
  lemma StreamIsFaithful(w: World, sid: nat)
    requires Reachable(w) && sid in w.subs
    ensures var s := w.subs[sid];
            && s.id in w.tasks
            && var published := w.tasks[s.id].published;
            && s.sent <= published
            && (s.mode == Over(ByTerminal) ==> s.sent == published && HasTerminal(s.sent))
            && (s.mode == Over(ByClose) ==> s.sent == published && w.tasks[s.id].record.None?)
  {
    ReachableInv(w);
    var s := w.subs[sid];
    var t := w.tasks[s.id];
    assert SubOk(sid, s, t) && TaskOk(t, w.now);
    if HasTerminal(s.sent) {
      TerminalIsAll(s.sent, t.published);
    }
  }

  /** Only its own moves change a stream. */
  lemma SubKept(w: World, a: Action, sid: nat)
    requires Enabled(w, a) && sid in w.subs && (a.Stream? ==> a.sid != sid)
    ensures sid in Do(w, a).subs && Do(w, a).subs[sid] == w.subs[sid]
  {
    if a.Drain? { DrainFrame(w, a.drain); }
  }

  /** A stream is cut for lag only when its receiver really was more than RING
      events behind. */
  lemma LagNeedsOverrun(w: World, a: Action, sid: nat)
    requires Enabled(w, a)
    requires sid in w.subs && w.subs[sid].mode != Over(ByLag)
    requires sid in Do(w, a).subs && Do(w, a).subs[sid].mode == Over(ByLag)
    ensures w.subs[sid].id in w.tasks
    ensures |w.tasks[w.subs[sid].id].channel.log| - w.subs[sid].next > RING
  {
    if a.Stream? && a.sid == sid {
      YieldNeverLags(sid, w.subs[sid], w.tasks[w.subs[sid].id], a.stream);
    } else {
      SubKept(w, a, sid);
    }
  }

  lemma YieldNeverLags(sid: nat, s: Subscriber, t: Task, a: StreamAction)
    requires StreamEnabled(s, t, a) && s.mode != Over(ByLag)
    ensures StreamStep(sid, s, t, a).0.mode == Over(ByLag) ==> |t.channel.log| - s.next > RING
  {
  }

  /** How far a stream is from the end of what is published. */
  ghost function Remaining(s: Subscriber, t: Task): int {
    2 * (|t.published| - |s.sent|) + (if s.mode.Replaying? then 1 else 0)
  }

  /** The move a stream makes by itself. */
  function NextMove(s: Subscriber): StreamAction {
    if s.mode.Live? then Receive else if |s.sent| < |s.replay| then Replay else GoLive
  }

  /** A stream behind the terminal event is not left waiting. */
  lemma NotStuck(sid: nat, s: Subscriber, t: Task)
    requires SubOk(sid, s, t) && !s.mode.Over? && HasTerminal(t.published)
    requires |t.channel.log| - s.next <= RING
    ensures StreamEnabled(s, t, NextMove(s))
    ensures s.mode.Live? ==> s.next < |t.channel.log|
  {
    assert s.next == |t.channel.log| ==> t.channel.log[s.start..s.next] == t.channel.log[s.start..];
  }

  lemma NextMoveProgress(sid: nat, s: Subscriber, t: Task)
    requires !s.mode.Over? && StreamEnabled(s, t, NextMove(s))
    requires |t.channel.log| - s.next <= RING
    requires s.mode.Live? ==> s.next < |t.channel.log|
    ensures var (s', t') := StreamStep(sid, s, t, NextMove(s));
            && s'.id == s.id && t'.published == t.published && t'.channel.log == t.channel.log && s'.next >= s.next
            && (s'.mode.Over? ==> s'.mode == Over(ByTerminal))
            && (!s'.mode.Over? ==> Remaining(s', t') < Remaining(s, t))
  {
  }

  /** In a valid history only the last event is terminal, so a prefix ending in
      one is everything. */
  lemma TerminalIsAll(sent: seq<Event>, published: seq<Event>)
    requires ValidHistory(published) && sent <= published && HasTerminal(sent)
    ensures sent == published
  {
    assert published[|sent| - 1] == sent[|sent| - 1];
  }

  lemma StreamAdvances(sid: nat, s: Subscriber, t: Task, now: int)
    requires SubOk(sid, s, t) && CoreOk(t, now) && !s.mode.Over?
    requires HasTerminal(t.published) && |t.channel.log| - s.next <= RING
    ensures StreamEnabled(s, t, NextMove(s))
    ensures var (s', t') := StreamStep(sid, s, t, NextMove(s));
            && s'.id == s.id && t'.published == t.published && t'.channel.log == t.channel.log && s'.next >= s.next
            && (if s'.mode.Over? then s'.mode == Over(ByTerminal) && s'.sent == t.published
                else 0 <= Remaining(s', t') < Remaining(s, t))
  {
    NotStuck(sid, s, t);
    NextMoveProgress(sid, s, t);
    StreamStepOk(sid, s, t, NextMove(s), now);
    var (s', t') := StreamStep(sid, s, t, NextMove(s));
    assert |s'.sent| <= |t'.published|;
    if s'.mode.Over? {
      TerminalIsAll(s'.sent, t.published);
    }
  }

  /** The first half of the induction below: one move in the world. */
  lemma MoveAdvances(w: World, sid: nat)
    requires Inv(w) && sid in w.subs && !w.subs[sid].mode.Over?
    requires HasTerminal(w.tasks[w.subs[sid].id].published)
    requires |w.tasks[w.subs[sid].id].channel.log| - w.subs[sid].next <= RING
    ensures var s := w.subs[sid];
            var t := w.tasks[s.id];
            var a := Stream(sid, NextMove(s));
            && Enabled(w, a)
            && var w' := Do(w, a);
            && Inv(w') && sid in w'.subs && w'.subs[sid].id == s.id
            && var s', t' := w'.subs[sid], w'.tasks[s.id];
            && t'.published == t.published && t'.channel.log == t.channel.log && s'.next >= s.next
            && (if s'.mode.Over? then s'.mode == Over(ByTerminal) && s'.sent == t.published
                else 0 <= Remaining(s', t') < Remaining(s, t))
  {
    var s := w.subs[sid];
    var t := w.tasks[s.id];
    assert SubOk(sid, s, t) && TaskOk(t, w.now);
    StreamAdvances(sid, s, t, w.now);
    Preserved(w, Stream(sid, NextMove(s)));
  }

  lemma RunCons(w: World, a: Action, rest: seq<Action>, w': World)
    requires Enabled(w, a) && Run(Do(w, a), rest, w')
    ensures Run(w, [a] + rest, w')
  {
    assert ([a] + rest)[1..] == rest;
  }

  /** Once the terminal event is published, a stream that is at most RING behind
      runs, by its own moves alone, to exactly that terminal event. */
  lemma {:induction false} StreamReachesTerminal(w: World, sid: nat) returns (actions: seq<Action>, w': World)
    requires Inv(w) && sid in w.subs && !w.subs[sid].mode.Over?
    requires HasTerminal(w.tasks[w.subs[sid].id].published)
    requires |w.tasks[w.subs[sid].id].channel.log| - w.subs[sid].next <= RING
    ensures Run(w, actions, w')
    ensures forall a :: a in actions ==> a.Stream? && a.sid == sid && !a.stream.Disconnect?
    ensures sid in w'.subs && w'.subs[sid].mode == Over(ByTerminal)
    ensures w'.subs[sid].sent == w.tasks[w.subs[sid].id].published
    decreases Remaining(w.subs[sid], w.tasks[w.subs[sid].id])
  {
    MoveAdvances(w, sid);
    var a := Stream(sid, NextMove(w.subs[sid]));
    var next := Do(w, a);
    var rest;
    if next.subs[sid].mode.Over? {
      rest, w' := [], next;
    } else {
      rest, w' := StreamReachesTerminal(next, sid);
    }
    actions := [a] + rest;
    RunCons(w, a, rest, w');
  }

  // ----- shutdown -----

  /** The active count is the number of live leases. */
  lemma CountIsLeases(w: World)
    requires Reachable(w)
    ensures w.count == |Leases(w)|
  {
    ReachableInv(w);
  }

  /** A parked shutdown waiter whose captured notification has not yet come is
      owed one: a task is active, or a releaser is about to notify. */
  lemma NoLostWakeup(w: World)
    requires Reachable(w) && w.waiter.Parked?
    ensures Enabled(w, Drain(Wake)) || w.count > 0 || SomeoneNotifying(w)
  {
    ReachableInv(w);
  }

  /** The sandbox is stopped only after every run is over. */
  lemma ShutdownAfterRunners(w: World, id: Id)
    requires Reachable(w) && !w.sandboxUp && id in w.tasks
    ensures w.tasks[id].pc.RunnerOver()
  {
    ReachableInv(w);
    assert w.tasks[id].pc.HasLease() ==> id in Leases(w);
  }

  /** Once every run is over and every notification paid, the waiter gets
      through by its own moves, wherever it was. */
  lemma {:induction false} DrainCompletes(w: World) returns (actions: seq<Action>, w': World)
    requires Inv(w) && !w.waiter.Off?
    requires forall id :: id in w.tasks ==> w.tasks[id].pc.Ended? || w.tasks[id].pc.Abandoned?
    ensures Run(w, actions, w') && w'.waiter.Drained?
    ensures forall action :: action in actions ==> action.Drain?
    decreases match w.waiter case Arming => 5 case Rechecking(_) => 4 case Parked(_) => 3 case Checking => 2 case Drained => 1 case Off => 0
  {
    assert Leases(w) == {};
    if w.waiter.Drained? {
      actions, w' := [], w;
    } else {
      var a := match w.waiter case Checking => Check case Arming => Arm case Rechecking(_) => Recheck case _ => Wake;
      Preserved(w, Drain(a));
      var next := Do(w, Drain(a));
      var rest;
      rest, w' := DrainCompletes(next);
      actions := [Drain(a)] + rest;
      RunCons(w, Drain(a), rest, w');
    }
  }

  // ----- retention and cancellation -----

  /** A terminal event published within RETENTION of creation is recorded, and
      stays readable for RETENTION from then on. */
  lemma ResultStaysReadable(w: World, id: Id, actions: seq<Action>, w': World)
    requires Reachable(w) && id in w.tasks && Enabled(w, Act(id, PublishTerminal))
    requires w.now < w.tasks[id].createdAt + RETENTION
    requires Run(Do(w, Act(id, PublishTerminal)), actions, w') && w'.now < w.now + RETENTION
    ensures id in w'.tasks && w'.tasks[id].record.Some?
    ensures HasTerminal(w'.tasks[id].record.value.history)
  {
    ReachableInv(w);
    var a := Act(id, PublishTerminal);
    var t := w.tasks[id];
    assert TaskOk(t, w.now);
    assert t.record.Some?;
    Preserved(w, a);
    var next := Do(w, a);
    var ended := next.tasks[id];
    assert ended.endedAt == Some(w.now);
    RunLater(next, actions, w');
    var t' := w'.tasks[id];
    assert TaskLater(ended, t') && TaskOk(t', w'.now) && TaskOk(ended, next.now);
    assert !t'.channel.closed;
  }

  /** A record that was removed never comes back. */
  lemma RemovedNeverReturns(w: World, id: Id, actions: seq<Action>, mid: World, later: seq<Action>, w': World)
    requires Reachable(w) && id in w.tasks && w.tasks[id].record.Some?
    requires Run(w, actions, mid) && id in mid.tasks && mid.tasks[id].record.None?
    requires Run(mid, later, w')
    ensures id in w'.tasks && w'.tasks[id].record.None?
  {
    ReachableInv(w);
    RunLater(w, actions, mid);
    RunLater(mid, later, w');
    assert TaskLater(w.tasks[id], mid.tasks[id]) && TaskLater(mid.tasks[id], w'.tasks[id]);
    assert TaskOk(w'.tasks[id], w'.now);
  }

  /** At most one cancel call per task is answered with true. */
  lemma CancelWinsOnce(w: World, id: Id, actions: seq<Action>, w': World)
    requires Reachable(w) && id in w.tasks && CancelSucceeds(w.tasks[id])
    requires Run(Do(w, Cancel(id)), actions, w')
    ensures id in w'.tasks && !CancelSucceeds(w'.tasks[id])
  {
    ReachableInv(w);
    var next := Do(w, Cancel(id));
    Preserved(w, Cancel(id));
    RunLater(next, actions, w');
    assert TaskLater(next.tasks[id], w'.tasks[id]) && TaskOk(w'.tasks[id], w'.now);
  }

  /** After `create` has returned, a cancellation entry means a live lease. */
  lemma CancelEntryHasLease(w: World, id: Id)
    requires Reachable(w) && id in w.tasks && w.tasks[id].cancellable && !w.tasks[id].pc.Creating()
    ensures id in Leases(w)
  {
    ReachableInv(w);
    assert TaskOk(w.tasks[id], w.now);
  }
}

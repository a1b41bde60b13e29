/** The inductive invariant of the execution-task protocol, task by task and
    subscriber by subscriber, and its preservation by every action. */
module TaskInvariant {
  import opened TaskModel
  import opened TaskProtocol

  /** The instant up to which the cleanup timer must leave the record alone. */
  function Deadline(t: Task): int {
    (if t.endedAt.Some? then t.endedAt.value else t.createdAt) + RETENTION
  }

  ghost predicate HistoryOk(t: Task) {
    && ValidHistory(t.published)
    && (t.pc.Before() ==> t.published == [])
    && (HasTerminal(t.published) ==> t.pc.After())
    && (t.pc.Closing? ==> IsTerminal(t.pc.event))
    && (t.endedAt.Some? <==> HasTerminal(t.published))
    && (t.record.Some? && !t.pc.Before() ==> t.published != [])
    && (t.record.Some? && t.pc.After() ==> HasTerminal(t.published))
  }

  ghost predicate RecordOk(t: Task, now: int) {
    && (t.record.Some? ==>
          && t.record.value.history == t.published
          && t.record.value.expires == Deadline(t)
          && !t.channel.closed)
    && (t.pc.Preparing? ==>
          t.record.None? && !t.channel.closed && t.pc.expires == t.createdAt + RETENTION)
    && (t.record.None? ==> t.channel.closed || t.pc.Preparing? || t.pc.Abandoned?)
    && (t.channel.closed ==> Deadline(t) <= now)
  }

  ghost predicate ReaderOk(t: Task, isErr: bool) {
    var r := ReaderOf(t, isErr);
    && (r.Live() ==> t.pc.Waiting? || t.pc.Cancelling? || t.pc.Closing?)
    && (t.pc.Before() || t.pc.Spawning? ==> r == Reader(NotStarted, []))
    && (r.phase.Holding? ==> r.chunks != [])
  }

  ghost predicate CancelOk(t: Task) {
    && (t.cancellable ==> t.cancelsWon == 0)
    && (t.cancellable ==> t.pc.Registered? || (t.pc.HasLease() && !t.pc.Leaving?))
    && (t.pc.Preparing? || t.pc.Recorded? || t.pc.Abandoned? ==> t.cancelsWon == 0)
    && t.cancelsWon <= 1
  }

  ghost predicate CoreOk(t: Task, now: int) {
    && HistoryOk(t)
    && RecordOk(t, now)
    && ReaderOk(t, false)
    && ReaderOk(t, true)
    && CancelOk(t)
  }

  /** While the record exists, its snapshot summarises the history and the
      history holds exactly the chunks the readers have handed over. */
  ghost predicate MirrorOk(t: Task) {
    t.record.Some? ==>
      && Agrees(t.record.value)
      && StdoutChunks(t.published) == t.stdout.Emitted()
      && StderrChunks(t.published) == t.stderr.Emitted()
  }

  ghost predicate TaskOk(t: Task, now: int) {
    CoreOk(t, now) && MirrorOk(t)
  }

  /** A stream that still holds its receiver sees, in its copied history and the
      channel log after its start, exactly what has been published. */
  ghost predicate AttachedOk(sid: nat, s: Subscriber, t: Task) {
    && sid in t.channel.receivers
    && s.start <= s.next <= |t.channel.log|
    && t.published == s.replay + t.channel.log[s.start..]
    && (s.mode.Replaying? ==> s.next == s.start && s.sent <= s.replay)
    && (s.mode.Live? ==> s.sent == s.replay + t.channel.log[s.start..s.next])
    && !HasTerminal(s.sent)
  }

  ghost predicate SubOk(sid: nat, s: Subscriber, t: Task) {
    && s.sent <= t.published
    && (t.record.Some? || t.channel.closed)
    && (!s.mode.Over? ==> AttachedOk(sid, s, t))
    && (s.mode == Over(ByTerminal) ==> HasTerminal(s.sent))
    && (s.mode == Over(ByClose) ==> t.record.None? && s.sent == t.published)
  }

  ghost function Leases(w: World): set<Id> {
    set id | id in w.tasks && w.tasks[id].pc.HasLease()
  }

  ghost predicate SomeoneNotifying(w: World) {
    exists id :: id in w.tasks && w.tasks[id].pc.Notifying?
  }

  ghost predicate WaiterOk(w: World) {
    && (!w.waiter.Off? ==> !w.serving && NoneCreating(w))
    && (w.waiter.Rechecking? ==> w.waiter.generation <= w.generation)
    && (w.waiter.Parked? ==>
          && w.waiter.generation <= w.generation
          && (w.waiter.generation == w.generation ==> w.count > 0 || SomeoneNotifying(w)))
    && (w.waiter.Drained? ==> w.count == 0)
    && (!w.sandboxUp ==> w.waiter.Drained?)
  }

  ghost predicate TasksOk(w: World) {
    forall id :: id in w.tasks ==> TaskOk(w.tasks[id], w.now)
  }

  ghost predicate SubsOk(w: World) {
    forall sid :: sid in w.subs ==> w.subs[sid].id in w.tasks && SubOk(sid, w.subs[sid], w.tasks[w.subs[sid].id])
  }

  ghost predicate Inv(w: World) {
    && TasksOk(w)
    && SubsOk(w)
    && w.count == |Leases(w)|
    && WaiterOk(w)
    && (w.cutoff.Some? ==> w.cutoff.value <= w.now)
  }

  // ----- one task -----

  lemma NewTaskOk(now: int)
    ensures TaskOk(NewTask(now), now)
  {
  }

  predicate Publishes(a: TaskAction) {
    a.PublishStarted? || a.PublishChunk? || a.PublishTerminal?
  }

  /** The event a publishing action publishes. */
  function EventOf(t: Task, a: TaskAction): Event
    requires Publishes(a) && TaskEnabled(t, a)
  {
    match a
    case PublishStarted => Event.Started
    case PublishChunk(isErr) =>
      ChunkEvent(isErr, ReaderOf(t, isErr).chunks[|ReaderOf(t, isErr).chunks| - 1])
    case PublishTerminal => t.pc.event
  }

  /** A publishing action comes in place: Started first and once, and nothing
      after a terminal event. */
  lemma EventInPlace(t: Task, a: TaskAction, now: int)
    requires CoreOk(t, now) && Publishes(a) && TaskEnabled(t, a)
    ensures !HasTerminal(t.published)
    ensures t.record.Some? ==> (EventOf(t, a) == Event.Started <==> t.published == [])
    ensures IsTerminal(EventOf(t, a)) <==> a.PublishTerminal?
  {
    if a.PublishChunk? {
      assert ReaderOk(t, a.isErr);
    }
  }

  lemma CoreStartedOk(t: Task, now: int)
    requires CoreOk(t, now) && t.pc.Starting?
    ensures CoreOk(TaskStep(t, PublishStarted, now), now)
  {
  }

  lemma CoreChunkOk(t: Task, isErr: bool, now: int)
    requires CoreOk(t, now) && TaskEnabled(t, PublishChunk(isErr))
    ensures CoreOk(TaskStep(t, PublishChunk(isErr), now), now)
  {
    EventInPlace(t, PublishChunk(isErr), now);
    assert ReaderOk(t, isErr);
  }

  lemma CoreTerminalOk(t: Task, now: int)
    requires CoreOk(t, now) && TaskEnabled(t, PublishTerminal)
    ensures CoreOk(TaskStep(t, PublishTerminal, now), now)
  {
    EventInPlace(t, PublishTerminal, now);
  }

  lemma CoreReaderOk(t: Task, a: TaskAction, now: int)
    requires CoreOk(t, now) && TaskEnabled(t, a) && (a.ReadChunk? || a.EndReader?)
    ensures CoreOk(TaskStep(t, a, now), now)
  {
    assert ReaderOk(t, a.isErr);
  }

  lemma CoreCreateOk(t: Task, a: TaskAction, now: int)
    requires CoreOk(t, now) && TaskEnabled(t, a)
    requires a.InsertRecord? || a.Abandon? || a.Register? || a.TakeLease?
    ensures CoreOk(TaskStep(t, a, now), now)
  {
  }

  lemma CoreLeaveOk(t: Task, a: TaskAction, now: int)
    requires CoreOk(t, now) && TaskEnabled(t, a)
    requires a.Clear? || a.Release? || a.Notify?
    ensures CoreOk(TaskStep(t, a, now), now)
  {
  }

  lemma CoreWaitOk(t: Task, a: TaskAction, now: int)
    requires CoreOk(t, now) && TaskEnabled(t, a)
    requires a.SpawnFails? || a.SpawnOk? || a.ChildExits? || a.TakeCancel? || a.KillDone? || a.WaitFails? || a.Timeout?
    ensures CoreOk(TaskStep(t, a, now), now)
  {
  }

  lemma CoreStepOk(t: Task, a: TaskAction, now: int)
    requires CoreOk(t, now) && TaskEnabled(t, a)
    ensures CoreOk(TaskStep(t, a, now), now)
  {
    match a
    case PublishStarted => CoreStartedOk(t, now);
    case PublishChunk(isErr) => CoreChunkOk(t, isErr, now);
    case PublishTerminal => CoreTerminalOk(t, now);
    case ReadChunk(_, _) => CoreReaderOk(t, a, now);
    case EndReader(_) => CoreReaderOk(t, a, now);
    case InsertRecord => CoreCreateOk(t, a, now);
    case Abandon => CoreCreateOk(t, a, now);
    case Register => CoreCreateOk(t, a, now);
    case TakeLease => CoreCreateOk(t, a, now);
    case Clear => CoreLeaveOk(t, a, now);
    case Release(_) => CoreLeaveOk(t, a, now);
    case Notify => CoreLeaveOk(t, a, now);
    case _ => CoreWaitOk(t, a, now);
  }

  /** Readers hand over exactly the chunk they publish. */
  lemma HandedOver(t: Task, a: TaskAction, side: bool, now: int)
    requires TaskEnabled(t, a)
    requires a.SpawnOk? ==> ReaderOf(t, side) == Reader(NotStarted, [])
    ensures ReaderOf(TaskStep(t, a, now), side).Emitted() ==
            if a == PublishChunk(side) then ReaderOf(t, side).Emitted() + [EventOf(t, a).data]
            else ReaderOf(t, side).Emitted()
  {
    var chunks := ReaderOf(t, side).chunks;
    if a == PublishChunk(side) {
      assert chunks == chunks[..|chunks| - 1] + [chunks[|chunks| - 1]];
    } else if a.ReadChunk? && a.isErr == side {
      assert (chunks + [a.data])[..|chunks|] == chunks;
    }
  }

  lemma RecordEffect(t: Task, a: TaskAction, now: int)
    requires CoreOk(t, now) && TaskEnabled(t, a) && t.record.Some?
    ensures var t' := TaskStep(t, a, now);
            if Publishes(a) then
              && t'.record == Some(Absorb(t.record.value, EventOf(t, a), now))
              && t'.published == t.published + [EventOf(t, a)]
            else t'.record == t.record && t'.published == t.published
  {
  }

  lemma MirrorGrows(t: Task, t': Task, e: Event, now: int)
    requires MirrorOk(t) && t.record.Some?
    requires t.record.value.history == t.published && !HasTerminal(t.published)
    requires t'.record == Some(Absorb(t.record.value, e, now)) && t'.published == t.published + [e]
    requires t'.stdout.Emitted() == if e.Stdout? then t.stdout.Emitted() + [e.data] else t.stdout.Emitted()
    requires t'.stderr.Emitted() == if e.Stderr? then t.stderr.Emitted() + [e.data] else t.stderr.Emitted()
    ensures MirrorOk(t')
  {
    AbsorbAgrees(t.record.value, e, now);
    ChunksAppend(t.published, e);
  }

  lemma MirrorPublishOk(t: Task, a: TaskAction, now: int)
    requires MirrorOk(t) && t.record.Some? && TaskEnabled(t, a) && Publishes(a)
    requires CoreOk(t, now)
    ensures MirrorOk(TaskStep(t, a, now))
  {
    EventInPlace(t, a, now);
    RecordEffect(t, a, now);
    HandedOver(t, a, false, now);
    HandedOver(t, a, true, now);
    MirrorGrows(t, TaskStep(t, a, now), EventOf(t, a), now);
  }

  lemma MirrorQuietOk(t: Task, a: TaskAction, now: int)
    requires MirrorOk(t) && t.record.Some? && TaskEnabled(t, a) && !Publishes(a)
    requires CoreOk(t, now)
    ensures MirrorOk(TaskStep(t, a, now))
  {
    RecordEffect(t, a, now);
    HandedOver(t, a, false, now);
    HandedOver(t, a, true, now);
  }

  lemma MirrorStepOk(t: Task, a: TaskAction, now: int)
    requires TaskOk(t, now) && TaskEnabled(t, a)
    ensures MirrorOk(TaskStep(t, a, now))
  {
    if t.record.None? {
      if a.InsertRecord? {
        NewRecordAgrees(t.pc.expires);
      }
    } else if Publishes(a) {
      MirrorPublishOk(t, a, now);
    } else {
      MirrorQuietOk(t, a, now);
    }
  }

  /** Every action of a task keeps that task's part of the invariant. */
  lemma TaskStepOk(t: Task, a: TaskAction, now: int)
    requires TaskOk(t, now) && TaskEnabled(t, a)
    ensures TaskOk(TaskStep(t, a, now), now)
  {
    CoreStepOk(t, a, now);
    MirrorStepOk(t, a, now);
  }

  lemma CancelTaskOk(t: Task, now: int)
    requires TaskOk(t, now)
    ensures TaskOk(CancelTask(t), now)
  {
  }

  /** Sweeping with a clock reading from the past only removes records whose
      deadline has passed. */
  lemma SweepTaskOk(t: Task, cutoff: int, now: int)
    requires TaskOk(t, now) && cutoff <= now
    ensures TaskOk(SweepTask(t, cutoff), now)
  {
  }

  lemma LaterOk(t: Task, now: int, later: int)
    requires TaskOk(t, now) && now <= later
    ensures TaskOk(t, later)
  {
  }

  lemma ReceiversOk(t: Task, receivers: set<nat>, now: int)
    requires TaskOk(t, now)
    ensures TaskOk(t.(channel := t.channel.(receivers := receivers)), now)
  {
  }

  // ----- one subscriber -----

  /** A publication reaches an attached stream through the channel: history and
      log grow together. */
  lemma SubPublish(sid: nat, s: Subscriber, t: Task, e: Event, now: int)
    requires SubOk(sid, s, t)
    ensures SubOk(sid, s, PublishTo(t, e, now))
  {
    if t.record.Some? && !s.mode.Over? {
      var log := t.channel.log;
      assert (log + [e])[s.start..] == log[s.start..] + [e];
      assert (log + [e])[s.start..s.next] == log[s.start..s.next];
      assert s.replay + (log[s.start..] + [e]) == t.published + [e];
    }
  }

  /** All of a task's step that a stream can see. */
  lemma StepForSubs(t: Task, a: TaskAction, now: int)
    requires TaskEnabled(t, a) && !a.InsertRecord?
    ensures var t' := TaskStep(t, a, now);
            var p := if Publishes(a) then PublishTo(t, EventOf(t, a), now) else t;
            t'.record == p.record && t'.channel == p.channel && t'.published == p.published
  {
  }

  lemma SubTaskStep(sid: nat, s: Subscriber, t: Task, a: TaskAction, now: int)
    requires SubOk(sid, s, t) && CoreOk(t, now) && TaskEnabled(t, a)
    ensures SubOk(sid, s, TaskStep(t, a, now))
  {
    if Publishes(a) {
      SubPublish(sid, s, t, EventOf(t, a), now);
    }
    StepForSubs(t, a, now);
  }

  lemma SubReceivers(sid: nat, s: Subscriber, t: Task, receivers: set<nat>)
    requires SubOk(sid, s, t)
    requires s.mode.Over? || sid in receivers
    ensures SubOk(sid, s, t.(channel := t.channel.(receivers := receivers)))
  {
  }

  lemma SubSweep(sid: nat, s: Subscriber, t: Task, cutoff: int)
    requires SubOk(sid, s, t)
    ensures SubOk(sid, s, SweepTask(t, cutoff))
  {
  }

  /** What a stream does next keeps its own promise, and touches its task only
      by leaving the receiver set. */
  lemma YieldOk(sid: nat, s: Subscriber, t: Task, e: Event, now: int)
    requires SubOk(sid, s, t) && CoreOk(t, now) && !s.mode.Over?
    requires s.mode.Replaying? ==> |s.sent| < |s.replay| && e == s.replay[|s.sent|]
    requires s.mode.Live? ==> s.next < |t.channel.log| && e == t.channel.log[s.next]
    ensures var (s', t') := Yield(sid, s.(next := if s.mode.Live? then s.next + 1 else s.next), t, e);
            SubOk(sid, s', t')
  {
    var log := t.channel.log;
    if s.mode.Live? {
      assert log[s.start..s.next + 1] == log[s.start..s.next] + [e];
      assert s.sent + [e] == s.replay + log[s.start..s.next + 1];
      assert log[s.start..] == log[s.start..s.next + 1] + log[s.next + 1..];
    }
    assert s.sent + [e] <= t.published;
  }

  lemma ReceiveOk(sid: nat, s: Subscriber, t: Task, now: int)
    requires SubOk(sid, s, t) && CoreOk(t, now) && StreamEnabled(s, t, Receive)
    ensures var (s', t') := StreamStep(sid, s, t, Receive);
            SubOk(sid, s', t')
  {
    var log := t.channel.log;
    if |log| - s.next <= RING {
      if s.next < |log| {
        YieldOk(sid, s, t, log[s.next], now);
      } else {
        assert log[s.start..s.next] == log[s.start..];
      }
    }
  }

  lemma StreamStepOk(sid: nat, s: Subscriber, t: Task, a: StreamAction, now: int)
    requires SubOk(sid, s, t) && CoreOk(t, now) && StreamEnabled(s, t, a)
    ensures var (s', t') := StreamStep(sid, s, t, a);
            SubOk(sid, s', t')
  {
    match a
    case Replay => YieldOk(sid, s, t, s.replay[|s.sent|], now);
    case GoLive => assert t.channel.log[s.start..s.next] == [];
    case Receive => ReceiveOk(sid, s, t, now);
    case Disconnect =>
  }

  lemma StreamFrame(sid: nat, s: Subscriber, t: Task, a: StreamAction)
    requires StreamEnabled(s, t, a)
    ensures var (s', t') := StreamStep(sid, s, t, a);
            s'.id == s.id && (t' == t || t' == Detach(t, sid))
  {
  }

  lemma SubscribeOk(sid: nat, id: Id, t: Task, now: int)
    requires CoreOk(t, now) && t.record.Some?
    ensures SubOk(sid, NewSubscriber(id, t), Attach(t, sid))
  {
    assert t.channel.log[|t.channel.log|..] == [];
  }

  // ----- all tasks and subscribers -----

  /** One task replaced by a good one, nothing else changed. */
  lemma ReplaceTask(w: World, w': World, id: Id, t: Task)
    requires TasksOk(w) && w'.now == w.now && w'.tasks == w.tasks[id := t] && TaskOk(t, w.now)
    ensures TasksOk(w')
  {
  }

  lemma TickTasks(w: World, seconds: nat)
    requires TasksOk(w)
    ensures TasksOk(Do(w, Tick(seconds)))
  {
    forall id | id in w.tasks
      ensures TaskOk(w.tasks[id], w.now + seconds)
    {
      LaterOk(w.tasks[id], w.now, w.now + seconds);
    }
  }

  lemma SweepTasks(w: World)
    requires TasksOk(w) && w.cutoff.Some? && w.cutoff.value <= w.now
    ensures TasksOk(Do(w, Sweep))
  {
    forall id | id in w.tasks
      ensures TaskOk(SweepTask(w.tasks[id], w.cutoff.value), w.now)
    {
      SweepTaskOk(w.tasks[id], w.cutoff.value, w.now);
    }
  }

  lemma MoveTasks(w: World, sid: nat, a: StreamAction)
    requires TasksOk(w) && SubsOk(w) && MoveEnabled(w, sid, a)
    ensures TasksOk(DoMove(w, sid, a))
  {
    var s := w.subs[sid];
    var t := w.tasks[s.id];
    StreamFrame(sid, s, t, a);
    ReceiversOk(t, t.channel.receivers - {sid}, w.now);
    ReplaceTask(w, DoMove(w, sid, a), s.id, StreamStep(sid, s, t, a).1);
  }

  lemma TasksPreserved(w: World, a: Action)
    requires Inv(w) && Enabled(w, a)
    ensures TasksOk(Do(w, a))
  {
    match a
    case Tick(seconds) => TickTasks(w, seconds);
    case Submit(id) =>
      NewTaskOk(w.now);
      ReplaceTask(w, Do(w, a), id, NewTask(w.now));
    case Act(id, action) =>
      TaskStepOk(w.tasks[id], action, w.now);
      ReplaceTask(w, DoAct(w, id, action), id, TaskStep(w.tasks[id], action, w.now));
    case Cancel(id) =>
      CancelTaskOk(w.tasks[id], w.now);
      ReplaceTask(w, Do(w, a), id, CancelTask(w.tasks[id]));
    case ReadClock =>
    case Sweep => SweepTasks(w);
    case Subscribe(sid, id) =>
      ReceiversOk(w.tasks[id], w.tasks[id].channel.receivers + {sid}, w.now);
      ReplaceTask(w, Do(w, a), id, Attach(w.tasks[id], sid));
    case Stream(sid, stream) => MoveTasks(w, sid, stream);
    case Drain(drain) => assert DoDrain(w, drain).tasks == w.tasks && DoDrain(w, drain).now == w.now;
  }

  lemma ActSubs(w: World, id: Id, action: TaskAction)
    requires TasksOk(w) && SubsOk(w) && ActEnabled(w, id, action)
    ensures SubsOk(DoAct(w, id, action))
  {
    forall sid | sid in w.subs && w.subs[sid].id == id
      ensures SubOk(sid, w.subs[sid], TaskStep(w.tasks[id], action, w.now))
    {
      SubTaskStep(sid, w.subs[sid], w.tasks[id], action, w.now);
    }
  }

  lemma SweepSubs(w: World)
    requires SubsOk(w) && w.cutoff.Some?
    ensures SubsOk(Do(w, Sweep))
  {
    forall sid | sid in w.subs
      ensures SubOk(sid, w.subs[sid], SweepTask(w.tasks[w.subs[sid].id], w.cutoff.value))
    {
      SubSweep(sid, w.subs[sid], w.tasks[w.subs[sid].id], w.cutoff.value);
    }
  }

  /** One stream and its task replaced; the other streams keep their receivers. */
  lemma ReplaceSub(w: World, w': World, sid: nat, s: Subscriber, t: Task, receivers: set<nat>)
    requires SubsOk(w) && s.id in w.tasks && SubOk(sid, s, t)
    requires t == w.tasks[s.id].(channel := w.tasks[s.id].channel.(receivers := receivers))
    requires w.tasks[s.id].channel.receivers - {sid} <= receivers
    requires w'.subs == w.subs[sid := s] && w'.tasks == w.tasks[s.id := t]
    ensures SubsOk(w')
  {
    forall other | other in w'.subs
      ensures w'.subs[other].id in w'.tasks && SubOk(other, w'.subs[other], w'.tasks[w'.subs[other].id])
    {
      if other != sid && w.subs[other].id == s.id {
        SubReceivers(other, w.subs[other], w.tasks[s.id], receivers);
      }
    }
  }

  lemma MoveSubs(w: World, sid: nat, a: StreamAction)
    requires TasksOk(w) && SubsOk(w) && MoveEnabled(w, sid, a)
    ensures SubsOk(DoMove(w, sid, a))
  {
    var s := w.subs[sid];
    var t := w.tasks[s.id];
    StreamStepOk(sid, s, t, a, w.now);
    StreamFrame(sid, s, t, a);
    var (s', t') := StreamStep(sid, s, t, a);
    ReplaceSub(w, DoMove(w, sid, a), sid, s', t', t'.channel.receivers);
  }

  lemma NewSubs(w: World, sid: nat, id: Id)
    requires TasksOk(w) && SubsOk(w) && Enabled(w, Subscribe(sid, id))
    ensures SubsOk(Do(w, Subscribe(sid, id)))
  {
    var t := w.tasks[id];
    SubscribeOk(sid, id, t, w.now);
    ReplaceSub(w, Do(w, Subscribe(sid, id)), sid, NewSubscriber(id, t), Attach(t, sid), t.channel.receivers + {sid});
  }

  lemma CancelSubs(w: World, id: Id)
    requires SubsOk(w) && id in w.tasks
    ensures SubsOk(Do(w, Cancel(id)))
  {
  }

  lemma SubmitSubs(w: World, id: Id)
    requires SubsOk(w) && id !in w.tasks
    ensures SubsOk(w.(tasks := w.tasks[id := NewTask(w.now)]))
  {
  }

  lemma DrainFrame(w: World, a: DrainAction)
    requires DrainEnabled(w, a)
    ensures var w' := DoDrain(w, a);
            w' == w.(waiter := w'.waiter, serving := w'.serving, sandboxUp := w'.sandboxUp)
  {
  }

  lemma SubsPreserved(w: World, a: Action)
    requires Inv(w) && Enabled(w, a)
    ensures SubsOk(Do(w, a))
  {
    match a
    case Tick(_) =>
    case Submit(id) => SubmitSubs(w, id);
    case Act(id, action) => ActSubs(w, id, action);
    case Cancel(id) => CancelSubs(w, id);
    case ReadClock =>
    case Sweep => SweepSubs(w);
    case Subscribe(sid, id) => NewSubs(w, sid, id);
    case Stream(sid, stream) => MoveSubs(w, sid, stream);
    case Drain(drain) => DrainFrame(w, drain);
  }

  // ----- leases and the shutdown waiter -----

  /** Two worlds with every task at the same place. */
  ghost predicate SamePcs(w: World, w': World) {
    w'.tasks.Keys == w.tasks.Keys && forall id :: id in w.tasks ==> w'.tasks[id].pc == w.tasks[id].pc
  }

  /** Only a task's own actions move it. */
  lemma PcsKept(w: World, a: Action)
    requires Enabled(w, a) && !a.Act? && !a.Submit?
    ensures SamePcs(w, Do(w, a))
    ensures Do(w, a).count == w.count && Do(w, a).generation == w.generation
  {
    match a
    case Stream(sid, stream) => StreamFrame(sid, w.subs[sid], w.tasks[w.subs[sid].id], stream);
    case Drain(drain) => DrainFrame(w, drain);
    case Tick(_) =>
    case Cancel(_) =>
    case ReadClock =>
    case Sweep =>
    case Subscribe(_, _) =>
  }

  lemma LeaseMoves(t: Task, action: TaskAction, now: int)
    requires TaskEnabled(t, action)
    ensures t.pc.HasLease() ==> !action.TakeLease?
    ensures TaskStep(t, action, now).pc.HasLease() == (action.TakeLease? || (t.pc.HasLease() && !action.Release?))
    ensures action.Release? ==> t.pc.HasLease()
    ensures TaskStep(t, action, now).pc.Creating() ==> t.pc.Creating()
    ensures action.TakeLease? ==> t.pc.Creating()
    ensures TaskStep(t, action, now).pc.Notifying? == ((action.Release? && action.last) || (t.pc.Notifying? && !action.Notify?))
  {
  }

  lemma ActLeases(w: World, id: Id, action: TaskAction)
    requires ActEnabled(w, id, action) && w.count == |Leases(w)|
    ensures DoAct(w, id, action).count == |Leases(DoAct(w, id, action))|
  {
    LeaseMoves(w.tasks[id], action, w.now);
    var before, after := Leases(w), Leases(DoAct(w, id, action));
    if action.TakeLease? {
      assert after == before + {id};
    } else if action.Release? {
      assert after == before - {id};
    } else {
      assert after == before;
    }
  }

  lemma CountPreserved(w: World, a: Action)
    requires Inv(w) && Enabled(w, a)
    ensures Do(w, a).count == |Leases(Do(w, a))|
  {
    if a.Act? {
      ActLeases(w, a.id, a.action);
    } else {
      if !a.Submit? { PcsKept(w, a); }
      assert Leases(Do(w, a)) == Leases(w);
      assert Do(w, a).count == w.count;
    }
  }

  /** A runner's step keeps the waiter's promise: whoever takes the count to zero
      owes a notification, and paying it makes every parked capture stale. */
  lemma ActWaiter(w: World, id: Id, action: TaskAction)
    requires WaiterOk(w) && w.count == |Leases(w)| && ActEnabled(w, id, action)
    ensures WaiterOk(DoAct(w, id, action))
  {
    var w' := DoAct(w, id, action);
    LeaseMoves(w.tasks[id], action, w.now);
    if action.Release? {
      assert id in Leases(w);
      if action.last { assert w'.tasks[id].pc.Notifying?; }
    } else if !action.Notify? && SomeoneNotifying(w) {
      var other :| other in w.tasks && w.tasks[other].pc.Notifying?;
      assert w'.tasks[other].pc.Notifying?;
    }
  }

  lemma DrainWaiter(w: World, a: DrainAction)
    requires WaiterOk(w) && w.count == |Leases(w)| && DrainEnabled(w, a)
    ensures WaiterOk(DoDrain(w, a))
  {
  }

  lemma SamePcsWaiter(w: World, w': World)
    requires WaiterOk(w) && SamePcs(w, w')
    requires w'.count == w.count && w'.generation == w.generation && w'.waiter == w.waiter
    requires w'.serving == w.serving && w'.sandboxUp == w.sandboxUp
    ensures WaiterOk(w')
  {
    if SomeoneNotifying(w) {
      var id :| id in w.tasks && w.tasks[id].pc.Notifying?;
      assert w'.tasks[id].pc.Notifying?;
    }
  }

  lemma WaiterPreserved(w: World, a: Action)
    requires Inv(w) && Enabled(w, a)
    ensures WaiterOk(Do(w, a))
  {
    if a.Act? {
      ActWaiter(w, a.id, a.action);
    } else if a.Drain? {
      DrainWaiter(w, a.drain);
    } else if !a.Submit? {
      PcsKept(w, a);
      SamePcsWaiter(w, Do(w, a));
    }
  }

  /** The invariant is inductive. */
  lemma Preserved(w: World, a: Action)
    requires Inv(w) && Enabled(w, a)
    ensures Inv(Do(w, a))
  {
    TasksPreserved(w, a);
    SubsPreserved(w, a);
    CountPreserved(w, a);
    WaiterPreserved(w, a);
    assert Do(w, a).cutoff.Some? ==> Do(w, a).cutoff.value <= Do(w, a).now;
  }

  lemma InitOk(w: World)
    requires Init(w)
    ensures Inv(w)
  {
    assert Leases(w) == {};
  }

  lemma {:induction false} RunPreserves(w: World, actions: seq<Action>, w': World)
    requires Inv(w) && Run(w, actions, w')
    ensures Inv(w')
    decreases |actions|
  {
    if actions != [] {
      Preserved(w, actions[0]);
      RunPreserves(Do(w, actions[0]), actions[1..], w');
    }
  }

  /** Every reachable world satisfies the invariant. */
  lemma ReachableInv(w: World)
    requires Reachable(w)
    ensures Inv(w)
  {
    var w0: World, actions: seq<Action> :| Init(w0) && Run(w0, actions, w);
    InitOk(w0);
    RunPreserves(w0, actions, w);
  }
}

/** Every interleaving of one execution service: submitters, runners, their two
    output readers, cancellers, the cleanup timer, event subscribers and the
    shutdown waiter. Each region the service runs under a lock, and each atomic
    operation, is one action; what the environment decides (process results,
    chunks read, timing) is a parameter of the action. */
module TaskProtocol {
  import opened TaskModel

  type Id = nat

  datatype Phase = NotStarted | Reading | Holding | Done

  /** One output reader; `chunks` is all it has read, the last one still
      unpublished while it is Holding. */
  datatype Reader = Reader(phase: Phase, chunks: seq<string>) {
    predicate Live() { phase.Reading? || phase.Holding? }

    function Emitted(): seq<string> {
      if phase.Holding? && chunks != [] then chunks[..|chunks| - 1] else chunks
    }
  }

  /** Where a task is: `create` up to Registered, then `run_task` under a lease,
      then the two halves of dropping the lease. */
  datatype Pc =
    | Preparing(expires: int)
    | Recorded
    | Registered
    | Abandoned
    | Starting
    | Spawning
    | Waiting
    | Cancelling
    | Closing(event: Event)
    | Clearing
    | Leaving
    | Notifying
    | Ended
  {
    predicate Creating() { Preparing? || Recorded? || Registered? }
    predicate Before() { Creating() || Abandoned? || Starting? }
    predicate During() { Spawning? || Waiting? || Cancelling? || Closing? }
    predicate After() { Clearing? || Leaving? || Notifying? || Ended? }
    predicate HasLease() { Starting? || During() || Clearing? || Leaving? }
    predicate RunnerOver() { Abandoned? || Notifying? || Ended? }
  }

  /** Everything that concerns one task id. `record` is its entry in the record
      map, `cancellable` its entry in the cancellation map, `listening` whether
      the runner still holds the receiving end. `published`, `createdAt`,
      `endedAt` and `cancelsWon` observe the run. */
  datatype Task = Task(
    pc: Pc, stdout: Reader, stderr: Reader,
    record: Option<Record>, channel: Channel,
    cancellable: bool, listening: bool, cancelSent: bool, cancelsWon: nat,
    published: seq<Event>, createdAt: int, endedAt: Option<int>)

  function NewTask(now: int): Task {
    Task(Preparing(now + RETENTION), Reader(NotStarted, []), Reader(NotStarted, []),
         None, Channel([], {}, false), false, true, false, 0, [], now, None)
  }

  /** Publishing is silently dropped once the record is gone. */
  function PublishTo(t: Task, e: Event, now: int): Task {
    if t.record.None? then t
    else t.(record := Some(Absorb(t.record.value, e, now)),
            channel := Send(t.channel, e),
            published := t.published + [e],
            endedAt := if IsTerminal(e) then Some(now) else t.endedAt)
  }

  datatype TaskAction =
    | InsertRecord
    | Abandon
    | Register
    | TakeLease
    | PublishStarted
    | SpawnFails(error: string)
    | SpawnOk
    | ReadChunk(isErr: bool, data: string)
    | PublishChunk(isErr: bool)
    | EndReader(isErr: bool)
    | ChildExits(code: Option<I32>)
    | TakeCancel
    | KillDone
    | WaitFails(error: string)
    | Timeout
    | PublishTerminal
    | Clear
    | Release(last: bool)
    | Notify

  function ReaderOf(t: Task, isErr: bool): Reader {
    if isErr then t.stderr else t.stdout
  }

  function WithReader(t: Task, isErr: bool, r: Reader): Task {
    if isErr then t.(stderr := r) else t.(stdout := r)
  }

  predicate TaskEnabled(t: Task, a: TaskAction) {
    match a
    case InsertRecord => t.pc.Preparing?
    case Abandon => t.pc.Preparing? || t.pc.Recorded?
    case Register => t.pc.Recorded?
    case TakeLease => t.pc.Registered?
    case PublishStarted => t.pc.Starting?
    case SpawnFails(_) => t.pc.Spawning?
    case SpawnOk => t.pc.Spawning?
    case ReadChunk(isErr, _) => ReaderOf(t, isErr).phase.Reading?
    case PublishChunk(isErr) => ReaderOf(t, isErr).phase.Holding? && ReaderOf(t, isErr).chunks != []
    case EndReader(isErr) => ReaderOf(t, isErr).phase.Reading?
    case ChildExits(_) => t.pc.Waiting?
    case TakeCancel => t.pc.Waiting? && t.cancelSent
    case KillDone => t.pc.Cancelling?
    case WaitFails(_) => t.pc.Waiting?
    case Timeout => t.pc.Waiting? || t.pc.Cancelling?
    case PublishTerminal => t.pc.Closing? && !t.stdout.Live() && !t.stderr.Live()
    case Clear => t.pc.Clearing?
    case Release(_) => t.pc.Leaving?
    case Notify => t.pc.Notifying?
  }

  function ChunkEvent(isErr: bool, data: string): Event {
    if isErr then Event.Stderr(data) else Event.Stdout(data)
  }

  function TaskStep(t: Task, a: TaskAction, now: int): Task
    requires TaskEnabled(t, a)
  {
    match a
    case InsertRecord => t.(pc := Recorded, record := Some(NewRecord(t.pc.expires)))
    case Abandon => t.(pc := Abandoned)
    case Register => t.(pc := Registered, cancellable := true)
    case TakeLease => t.(pc := Starting)
    case PublishStarted => PublishTo(t, Event.Started, now).(pc := Spawning)
    case SpawnFails(error) => t.(pc := Closing(Event.Failed(error)))
    case SpawnOk => t.(pc := Waiting, stdout := Reader(Reading, []), stderr := Reader(Reading, []))
    case ReadChunk(isErr, data) =>
      WithReader(t, isErr, Reader(Holding, ReaderOf(t, isErr).chunks + [data]))
    case PublishChunk(isErr) =>
      var r := ReaderOf(t, isErr);
      WithReader(PublishTo(t, ChunkEvent(isErr, r.chunks[|r.chunks| - 1]), now), isErr, r.(phase := Reading))
    case EndReader(isErr) => WithReader(t, isErr, ReaderOf(t, isErr).(phase := Done))
    case ChildExits(code) => t.(pc := Closing(Event.Finished(code)), listening := false)
    case TakeCancel => t.(pc := Cancelling, listening := false)
    case KillDone => t.(pc := Closing(Event.Finished(None)))
    case WaitFails(error) => t.(pc := Closing(Event.Failed(error)), listening := false)
    case Timeout => t.(pc := Closing(Event.TimedOut), listening := false)
    case PublishTerminal => PublishTo(t, t.pc.event, now).(pc := Clearing)
    case Clear => t.(pc := Leaving, cancellable := false)
    case Release(last) => t.(pc := if last then Notifying else Ended, listening := false)
    case Notify => t.(pc := Ended)
  }

  /** A cancel request: the entry is taken, and the signal counts only if the
      runner is still listening. */
  function CancelTask(t: Task): Task {
    if !t.cancellable then t
    else if t.listening then t.(cancellable := false, cancelSent := true, cancelsWon := t.cancelsWon + 1)
    else t.(cancellable := false)
  }

  predicate CancelSucceeds(t: Task) {
    t.cancellable && t.listening
  }

  /** Dropping an expired record drops the sending end of its channel. */
  function SweepTask(t: Task, cutoff: int): Task {
    if t.record.Some? && t.record.value.expires <= cutoff
    then t.(record := None, channel := t.channel.(closed := true))
    else t
  }

  datatype Reason = ByTerminal | ByLag | ByClose | ByDisconnect

  datatype Mode = Replaying | Live | Over(reason: Reason)

  /** One event stream: the history copied when subscribing, the receiver's
      position in the channel log, and what has been sent to the client. */
  datatype Subscriber = Subscriber(
    id: Id, replay: seq<Event>, start: nat, next: nat, mode: Mode, sent: seq<Event>)

  datatype Waiter =
    | Off
    | Checking
    | Arming
    | Rechecking(generation: nat)
    | Parked(generation: nat)
    | Drained

  datatype World = World(
    tasks: map<Id, Task>, subs: map<nat, Subscriber>,
    count: int, generation: nat, waiter: Waiter,
    now: int, cutoff: Option<int>, serving: bool, sandboxUp: bool)

  ghost predicate Init(w: World) {
    w.tasks == map[] && w.subs == map[] && w.count == 0 && w.waiter == Off
    && w.cutoff == None && w.serving && w.sandboxUp
  }

  datatype StreamAction = Replay | GoLive | Receive | Disconnect

  datatype DrainAction = StopServing | BeginDrain | Check | Arm | Recheck | Wake | StopSandbox

  datatype Action =
    | Tick(seconds: nat)
    | Submit(id: Id)
    | Act(id: Id, action: TaskAction)
    | Cancel(id: Id)
    | ReadClock
    | Sweep
    | Subscribe(sid: nat, id: Id)
    | Stream(sid: nat, stream: StreamAction)
    | Drain(drain: DrainAction)

  // ----- streams -----

  /** Subscribing copies the history and joins the channel in one locked read. */
  function NewSubscriber(id: Id, t: Task): Subscriber
    requires t.record.Some?
  {
    Subscriber(id, t.record.value.history, |t.channel.log|, |t.channel.log|, Replaying, [])
  }

  function Attach(t: Task, sid: nat): Task {
    t.(channel := t.channel.(receivers := t.channel.receivers + {sid}))
  }

  function Detach(t: Task, sid: nat): Task {
    t.(channel := t.channel.(receivers := t.channel.receivers - {sid}))
  }

  /** A stream can move unless it is over or `recv` would have to wait. */
  predicate StreamEnabled(s: Subscriber, t: Task, a: StreamAction) {
    match a
    case Replay => s.mode.Replaying? && |s.sent| < |s.replay|
    case GoLive => s.mode.Replaying? && |s.sent| == |s.replay|
    case Receive => s.mode.Live? && s.next <= |t.channel.log| && !Recv(t.channel, s.next).Pending?
    case Disconnect => !s.mode.Over?
  }

  /** The stream yields one event and stops, dropping its receiver, after a
      terminal one. */
  function Yield(sid: nat, s: Subscriber, t: Task, e: Event): (Subscriber, Task) {
    var s' := s.(sent := s.sent + [e]);
    if IsTerminal(e) then (s'.(mode := Over(ByTerminal)), Detach(t, sid)) else (s', t)
  }

  function StreamStep(sid: nat, s: Subscriber, t: Task, a: StreamAction): (Subscriber, Task)
    requires StreamEnabled(s, t, a)
  {
    match a
    case Replay => Yield(sid, s, t, s.replay[|s.sent|])
    case GoLive => (s.(mode := Live), t)
    case Receive =>
      (match Recv(t.channel, s.next)
       case Value(e) => Yield(sid, s.(next := s.next + 1), t, e)
       case Lagged => (s.(mode := Over(ByLag)), Detach(t, sid))
       case _ => (s.(mode := Over(ByClose)), Detach(t, sid)))
    case Disconnect => (s.(mode := Over(ByDisconnect)), Detach(t, sid))
  }

  // ----- shutdown -----

  ghost predicate NoneCreating(w: World) {
    forall id :: id in w.tasks ==> !w.tasks[id].pc.Creating()
  }

  /** The server drains its requests before shutdown begins; then `wait_for_idle`
      loads the count, captures the notifier, loads again, and parks. */
  ghost predicate DrainEnabled(w: World, a: DrainAction) {
    match a
    case StopServing => w.serving
    case BeginDrain => !w.serving && w.waiter.Off? && NoneCreating(w)
    case Check => w.waiter.Checking?
    case Arm => w.waiter.Arming?
    case Recheck => w.waiter.Rechecking?
    case Wake => w.waiter.Parked? && w.waiter.generation != w.generation
    case StopSandbox => w.waiter.Drained?
  }

  ghost function DoDrain(w: World, a: DrainAction): World
    requires DrainEnabled(w, a)
  {
    match a
    case StopServing => w.(serving := false)
    case BeginDrain => w.(waiter := Checking)
    case Check => w.(waiter := if w.count == 0 then Drained else Arming)
    case Arm => w.(waiter := Rechecking(w.generation))
    case Recheck => w.(waiter := if w.count == 0 then Drained else Parked(w.waiter.generation))
    case Wake => w.(waiter := Checking)
    case StopSandbox => w.(sandboxUp := false)
  }

  // ----- the whole service -----

  ghost predicate ActEnabled(w: World, id: Id, action: TaskAction) {
    && id in w.tasks && TaskEnabled(w.tasks[id], action)
    && (action.Release? ==> action.last == (w.count == 1))
  }

  ghost function DoAct(w: World, id: Id, action: TaskAction): World
    requires ActEnabled(w, id, action)
  {
    w.(tasks := w.tasks[id := TaskStep(w.tasks[id], action, w.now)],
       count := if action.TakeLease? then w.count + 1 else if action.Release? then w.count - 1 else w.count,
       generation := if action.Notify? then w.generation + 1 else w.generation)
  }

  ghost predicate MoveEnabled(w: World, sid: nat, a: StreamAction) {
    sid in w.subs && w.subs[sid].id in w.tasks && StreamEnabled(w.subs[sid], w.tasks[w.subs[sid].id], a)
  }

  ghost function DoMove(w: World, sid: nat, a: StreamAction): World
    requires MoveEnabled(w, sid, a)
  {
    var s := w.subs[sid];
    var (s', t') := StreamStep(sid, s, w.tasks[s.id], a);
    w.(subs := w.subs[sid := s'], tasks := w.tasks[s.id := t'])
  }

  ghost predicate Enabled(w: World, a: Action) {
    match a
    case Tick(_) => true
    case Submit(id) => w.serving && id !in w.tasks
    case Act(id, action) => ActEnabled(w, id, action)
    case Cancel(id) => id in w.tasks
    case ReadClock => true
    case Sweep => w.cutoff.Some?
    case Subscribe(sid, id) => sid !in w.subs && id in w.tasks && w.tasks[id].record.Some?
    case Stream(sid, stream) => MoveEnabled(w, sid, stream)
    case Drain(drain) => DrainEnabled(w, drain)
  }

  ghost function Do(w: World, a: Action): World
    requires Enabled(w, a)
  {
    match a
    case Tick(seconds) => w.(now := w.now + seconds)
    case Submit(id) => w.(tasks := w.tasks[id := NewTask(w.now)])
    case Act(id, action) => DoAct(w, id, action)
    case Cancel(id) => w.(tasks := w.tasks[id := CancelTask(w.tasks[id])])
    case ReadClock => w.(cutoff := Some(w.now))
    case Sweep =>
      w.(tasks := map id | id in w.tasks :: SweepTask(w.tasks[id], w.cutoff.value), cutoff := None)
    case Subscribe(sid, id) =>
      w.(subs := w.subs[sid := NewSubscriber(id, w.tasks[id])],
         tasks := w.tasks[id := Attach(w.tasks[id], sid)])
    case Stream(sid, stream) => DoMove(w, sid, stream)
    case Drain(drain) => DoDrain(w, drain)
  }

  /** `w'` is reached from `w` by performing the given actions in order. */
  ghost predicate Run(w: World, actions: seq<Action>, w': World)
    decreases |actions|
  {
    if actions == [] then w' == w
    else Enabled(w, actions[0]) && Run(Do(w, actions[0]), actions[1..], w')
  }

  ghost predicate Reachable(w: World) {
    exists w0: World, actions: seq<Action> :: Init(w0) && Run(w0, actions, w)
  }
}

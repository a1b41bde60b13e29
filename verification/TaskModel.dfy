/** The values the execution-task store works on: task events, the per-task
    record with its public snapshot, and the bounded broadcast channel through
    which live events reach subscribers. */
module TaskModel {

  datatype Option<+T> = None | Some(value: T)

  type I32 = n: int | -0x8000_0000 <= n < 0x8000_0000

  /** How long a record stays readable, in seconds. */
  const RETENTION := 300

  /** Slots in the broadcast ring of one task. */
  const RING := 128

  datatype Event =
    | Started
    | Stdout(data: string)
    | Stderr(data: string)
    | Finished(code: Option<I32>)
    | TimedOut
    | Failed(error: string)

  predicate IsTerminal(e: Event) {
    e.Finished? || e.TimedOut? || e.Failed?
  }

  predicate IsOutput(e: Event) {
    e.Stdout? || e.Stderr?
  }

  datatype Status = Running | Finished | TimedOut | Failed {
    function Text(): string {
      match this
      case Running => "running"
      case Finished => "finished"
      case TimedOut => "timed_out"
      case Failed => "failed"
    }
  }

  datatype Snapshot = Snapshot(
    status: string, exitCode: Option<I32>, stdout: string, stderr: string, error: Option<string>)

  datatype Record = Record(snapshot: Snapshot, status: Status, history: seq<Event>, expires: int)

  function NewRecord(expires: int): Record {
    Record(Snapshot(Status.Running.Text(), None, "", "", None), Status.Running, [], expires)
  }

  /** What publishing one event does to the record of its task. */
  function Absorb(r: Record, e: Event, now: int): Record {
    var updated :=
      match e
      case Started => r
      case Stdout(data) => r.(snapshot := r.snapshot.(stdout := r.snapshot.stdout + data))
      case Stderr(data) => r.(snapshot := r.snapshot.(stderr := r.snapshot.stderr + data))
      case Finished(code) =>
        r.(status := Status.Finished,
           snapshot := r.snapshot.(status := Status.Finished.Text(), exitCode := code),
           expires := now + RETENTION)
      case TimedOut =>
        r.(status := Status.TimedOut,
           snapshot := r.snapshot.(status := Status.TimedOut.Text()),
           expires := now + RETENTION)
      case Failed(error) =>
        r.(status := Status.Failed,
           snapshot := r.snapshot.(status := Status.Failed.Text(), error := Some(error)),
           expires := now + RETENTION);
    updated.(history := r.history + [e])
  }

  /** A broadcast channel. `log` holds every value the sender accepted; the ring
      keeps only the last RING of them readable. */
  datatype Channel = Channel(log: seq<Event>, receivers: set<nat>, closed: bool)

  /** A send without receivers is refused and leaves no trace in the channel. */
  function Send(c: Channel, e: Event): Channel {
    if c.receivers == {} then c else c.(log := c.log + [e])
  }

  datatype Received = Value(event: Event) | Lagged | Closed | Pending

  /** What `recv` gives a receiver whose next unread position is `next`. */
  function Recv(c: Channel, next: nat): Received
    requires next <= |c.log|
  {
    if |c.log| - next > RING then Lagged
    else if next < |c.log| then Value(c.log[next])
    else if c.closed then Closed
    else Pending
  }

  // ----- what a history means, independently of how it was accumulated -----

  /** The shape every history has: one Started first, output in between, and a
      terminal event only in last place. */
  ghost predicate ValidHistory(h: seq<Event>) {
    forall i :: 0 <= i < |h| ==>
      && (h[i] == Event.Started <==> i == 0)
      && (IsTerminal(h[i]) ==> i == |h| - 1)
  }

  predicate HasTerminal(h: seq<Event>) {
    h != [] && IsTerminal(h[|h| - 1])
  }

  function StdoutChunks(h: seq<Event>): seq<string> {
    if h == [] then []
    else StdoutChunks(h[..|h| - 1]) + (if h[|h| - 1].Stdout? then [h[|h| - 1].data] else [])
  }

  function StderrChunks(h: seq<Event>): seq<string> {
    if h == [] then []
    else StderrChunks(h[..|h| - 1]) + (if h[|h| - 1].Stderr? then [h[|h| - 1].data] else [])
  }

  function Join(chunks: seq<string>): string {
    if chunks == [] then "" else Join(chunks[..|chunks| - 1]) + chunks[|chunks| - 1]
  }

  function StatusOf(h: seq<Event>): Status {
    if h == [] then Status.Running
    else match h[|h| - 1]
      case Finished(_) => Status.Finished
      case TimedOut => Status.TimedOut
      case Failed(_) => Status.Failed
      case _ => Status.Running
  }

  /** The snapshot a reader of the history alone would write down. */
  function Summary(h: seq<Event>): Snapshot {
    Snapshot(
      StatusOf(h).Text(),
      if h != [] && h[|h| - 1].Finished? then h[|h| - 1].code else None,
      Join(StdoutChunks(h)),
      Join(StderrChunks(h)),
      if h != [] && h[|h| - 1].Failed? then Some(h[|h| - 1].error) else None)
  }

  /** Record and history tell the same story, in both status fields. */
  ghost predicate Agrees(r: Record) {
    && r.snapshot == Summary(r.history)
    && r.status == StatusOf(r.history)
  }

  lemma JoinAppend(chunks: seq<string>, c: string)
    ensures Join(chunks + [c]) == Join(chunks) + c
  {
    assert (chunks + [c])[..|chunks|] == chunks;
  }

  lemma ChunksAppend(h: seq<Event>, e: Event)
    ensures StdoutChunks(h + [e]) == if e.Stdout? then StdoutChunks(h) + [e.data] else StdoutChunks(h)
    ensures StderrChunks(h + [e]) == if e.Stderr? then StderrChunks(h) + [e.data] else StderrChunks(h)
  {
    assert (h + [e])[..|h|] == h;
  }

  /** Publishing keeps the record equal to the summary of its history, provided
      nothing follows a terminal event. */
  lemma AbsorbAgrees(r: Record, e: Event, now: int)
    requires Agrees(r) && !HasTerminal(r.history)
    ensures Agrees(Absorb(r, e, now))
    ensures Absorb(r, e, now).history == r.history + [e]
  {
    ChunksAppend(r.history, e);
    if e.Stdout? { JoinAppend(StdoutChunks(r.history), e.data); }
    if e.Stderr? { JoinAppend(StderrChunks(r.history), e.data); }
  }

  lemma NewRecordAgrees(expires: int)
    ensures Agrees(NewRecord(expires))
  {
  }
}

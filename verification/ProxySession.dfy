/** One proxied tool session: the tool writing to its two pipes, two forwarders
    sharing one connection under a mutex, and the supervising task that must end
    the conversation with a single EXIT. A frame write is atomic under the mutex;
    a failed write may leave part of its frame behind, and the connection stays
    dead from then on. */
module ProxySession {
  import opened Wire
  import opened ProxyIo

  const TOOL_START_FAILURE := 127

  datatype Status = Exited(code: int) | Signaled(signal: int) | Neither

  function ExitCode(status: Status): int {
    match status
    case Exited(code) => code
    case Signaled(signal) => 128 + signal
    case Neither => TOOL_START_FAILURE
  }

  predicate IsI32(n: int) { -0x8000_0000 <= n < 0x8000_0000 }

  datatype Forwarder = Idle | Holding(chunk: seq<byte>) | AtEof | Broke {
    predicate Over() { AtEof? || Broke? }
  }

  /** One output pipe and its forwarder: all the tool wrote, how much has been
      read, whether every writer has gone. */
  datatype Outlet = Outlet(written: seq<byte>, taken: nat, closed: bool, fwd: Forwarder)

  datatype Main =
    | Watching(outSeen: bool, errSeen: bool)
    | Reaping(outSeen: bool, errSeen: bool)
    | Settling(code: int, outSeen: bool, errSeen: bool)
    | Closed(code: int)
    | Aborted

  datatype Torn = Torn(frame: Frame, length: nat)

  /** `frames` were written whole; `torn` is the one failed write, if any. `ended` observes
      how the tool ended, once the server has seen it. */
  datatype Session = Session(
    out: Outlet, err: Outlet, main: Main, frames: seq<Frame>, torn: Option<Torn>, ended: Option<Status>)

  const START := Session(
    Outlet([], 0, false, Idle), Outlet([], 0, false, Idle), Watching(false, false), [], None, None)

  /** The shell's convention for a status: the exit code, 128 and the signal, or 127. */
  predicate Conveys(code: int, status: Status) {
    && (status.Exited? ==> code == status.code)
    && (status.Signaled? ==> code == 128 + status.signal)
    && (status.Neither? ==> code == 127)
  }

  function KindOf(isErr: bool): FrameKind { if isErr then Stderr else Stdout }

  function OutletOf(s: Session, isErr: bool): Outlet { if isErr then s.err else s.out }

  function WithOutlet(s: Session, isErr: bool, o: Outlet): Session {
    if isErr then s.(err := o) else s.(out := o)
  }

  predicate Seen(m: Main, isErr: bool) {
    (m.Watching? || m.Reaping? || m.Settling?) && if isErr then m.errSeen else m.outSeen
  }

  function See(m: Main, isErr: bool): Main
    requires m.Watching? || m.Reaping? || m.Settling?
  {
    match m
    case Watching(o, e) => if isErr then Watching(o, true) else Watching(true, e)
    case Reaping(o, e) => if isErr then Reaping(o, true) else Reaping(true, e)
    case Settling(c, o, e) => if isErr then Settling(c, o, true) else Settling(c, true, e)
  }

  /** How one write to the connection goes. */
  datatype Write = Sent | Tears(length: nat) | Refused

  predicate WriteEnabled(s: Session, f: Frame, w: Write) {
    match w
    case Sent => s.torn.None? && Sendable(f)
    case Tears(length) => s.torn.None? && Sendable(f) && length < |Encode(f)|
    case Refused => s.torn.Some? || |f.payload| > MAX_FRAME_BYTES
  }

  function DoWrite(s: Session, f: Frame, w: Write): Session {
    match w
    case Sent => s.(frames := s.frames + [f])
    case Tears(length) => s.(torn := Some(Torn(f, length)))
    case Refused => s
  }

  datatype Action =
    | ToolWrites(isErr: bool, data: seq<byte>)
    | PipeCloses(isErr: bool)
    | Reads(isErr: bool, n: nat)
    | ReadsEof(isErr: bool)
    | ReadFails(isErr: bool)
    | Forwards(isErr: bool, write: Write)
    | ChildExits(status: Status)
    | StdinFails(message: seq<byte>, write: Write)
    | Joins(isErr: bool)
    | ShutsDown
    | GivesUp
    | Reaped(status: Status)
    | Settles(isErr: bool)
    | SendsExit(write: Write)

  function ChunkFrame(s: Session, isErr: bool): Frame
    requires OutletOf(s, isErr).fwd.Holding?
  {
    Frame(KindOf(isErr), OutletOf(s, isErr).fwd.chunk)
  }

  function ExitFrame(code: int): Frame
    requires IsI32(code)
  {
    Frame(Exit, I32(code))
  }

  predicate Enabled(s: Session, a: Action) {
    match a
    case ToolWrites(isErr, _) => !OutletOf(s, isErr).closed
    case PipeCloses(isErr) => true
    case Reads(isErr, n) =>
      var o := OutletOf(s, isErr);
      o.fwd.Idle? && 0 < n <= STDIO_BUFFER && o.taken + n <= |o.written|
    case ReadsEof(isErr) =>
      var o := OutletOf(s, isErr);
      o.fwd.Idle? && o.closed && o.taken == |o.written|
    case ReadFails(isErr) => OutletOf(s, isErr).fwd.Idle?
    case Forwards(isErr, write) =>
      OutletOf(s, isErr).fwd.Holding? && WriteEnabled(s, ChunkFrame(s, isErr), write)
    case ChildExits(status) => s.main.Watching? && IsI32(ExitCode(status))
    case StdinFails(message, write) => s.main.Watching? && WriteEnabled(s, Frame(Error, message), write)
    case Joins(isErr) => s.main.Watching? && !Seen(s.main, isErr) && OutletOf(s, isErr).fwd.Over()
    case ShutsDown => s.main.Watching?
    case GivesUp => s.main.Watching? || s.main.Reaping?
    case Reaped(status) => s.main.Reaping? && IsI32(ExitCode(status))
    case Settles(isErr) =>
      s.main.Settling? && !Seen(s.main, isErr) && (isErr ==> s.main.outSeen) && OutletOf(s, isErr).fwd.Over()
    case SendsExit(write) =>
      s.main.Settling? && s.main.outSeen && s.main.errSeen && IsI32(s.main.code)
      && WriteEnabled(s, ExitFrame(s.main.code), write)
  }

  function Do(s: Session, a: Action): Session
    requires Enabled(s, a)
  {
    match a
    case ToolWrites(isErr, data) =>
      var o := OutletOf(s, isErr);
      WithOutlet(s, isErr, o.(written := o.written + data))
    case PipeCloses(isErr) => WithOutlet(s, isErr, OutletOf(s, isErr).(closed := true))
    case Reads(isErr, n) =>
      var o := OutletOf(s, isErr);
      WithOutlet(s, isErr, o.(fwd := Holding(o.written[o.taken..o.taken + n]), taken := o.taken + n))
    case ReadsEof(isErr) => WithOutlet(s, isErr, OutletOf(s, isErr).(fwd := AtEof))
    case ReadFails(isErr) => WithOutlet(s, isErr, OutletOf(s, isErr).(fwd := Broke))
    case Forwards(isErr, write) =>
      WithOutlet(DoWrite(s, ChunkFrame(s, isErr), write), isErr,
                 OutletOf(s, isErr).(fwd := if write.Sent? then Idle else Broke))
    case ChildExits(status) =>
      s.(main := Settling(ExitCode(status), s.main.outSeen, s.main.errSeen), ended := Some(status))
    case StdinFails(message, write) =>
      DoWrite(s, Frame(Error, message), write).(main := Reaping(s.main.outSeen, s.main.errSeen))
    case Joins(isErr) =>
      var m := See(s.main, isErr);
      s.(main := if OutletOf(s, isErr).fwd.AtEof? then m else Reaping(m.outSeen, m.errSeen))
    case ShutsDown => s.(main := Reaping(s.main.outSeen, s.main.errSeen))
    case GivesUp => s.(main := Aborted)
    case Reaped(status) =>
      s.(main := Settling(ExitCode(status), s.main.outSeen, s.main.errSeen), ended := Some(status))
    case Settles(isErr) =>
      s.(main := if OutletOf(s, isErr).fwd.AtEof? then See(s.main, isErr) else Aborted)
    case SendsExit(write) =>
      DoWrite(s, ExitFrame(s.main.code), write).(main := if write.Sent? then Closed(s.main.code) else Aborted)
  }

  ghost predicate Run(s: Session, actions: seq<Action>, s': Session)
    decreases |actions|
  {
    if actions == [] then s' == s
    else Enabled(s, actions[0]) && Run(Do(s, actions[0]), actions[1..], s')
  }

  ghost predicate Reachable(s: Session) {
    exists actions :: Run(START, actions, s)
  }

  // ----- the invariant -----

  /** What one outlet has contributed to the wire, plus what its forwarder holds,
      is what was read from the pipe. */
  ghost predicate OutletOk(o: Outlet, sent: seq<byte>) {
    && o.taken <= |o.written|
    && (o.fwd.Idle? ==> sent == o.written[..o.taken])
    && (o.fwd.Holding? ==> 0 < |o.fwd.chunk| <= STDIO_BUFFER && sent + o.fwd.chunk == o.written[..o.taken])
    && (o.fwd.AtEof? ==> o.closed && o.taken == |o.written| && sent == o.written)
    && (o.fwd.Broke? ==> sent <= o.written)
  }

  /** Frames the server sends before EXIT. */
  predicate IsBody(fs: seq<Frame>) {
    forall i :: 0 <= i < |fs| ==> fs[i].kind == Stdout || fs[i].kind == Stderr || fs[i].kind == Error
  }

  ghost predicate FramesOk(s: Session) {
    && AllSendable(s.frames)
    && (s.torn.Some? ==> Sendable(s.torn.value.frame) && s.torn.value.length < |Encode(s.torn.value.frame)|)
    && (if s.main.Closed?
        then IsI32(s.main.code) && s.frames != [] && IsBody(s.frames[..|s.frames| - 1])
             && s.frames[|s.frames| - 1] == ExitFrame(s.main.code)
        else IsBody(s.frames))
  }

  ghost predicate MainOk(s: Session) {
    && (Seen(s.main, false) ==> s.out.fwd.Over())
    && (Seen(s.main, true) ==> s.err.fwd.Over())
    && (s.main.Closed? ==> s.out.fwd.Over() && s.err.fwd.Over())
    && (s.main.Settling? || s.main.Closed? ==> s.ended.Some? && Conveys(s.main.code, s.ended.value))
  }

  ghost predicate Inv(s: Session) {
    && FramesOk(s)
    && MainOk(s)
    && OutletOk(s.out, Data(s.frames, Stdout))
    && OutletOk(s.err, Data(s.frames, Stderr))
  }

  /** Effect of one write on the frames and on what each outlet has sent. */
  lemma WriteOk(s: Session, f: Frame, w: Write)
    requires FramesOk(s) && !s.main.Closed? && WriteEnabled(s, f, w)
    ensures var s' := DoWrite(s, f, w);
            && AllSendable(s'.frames)
            && (s'.torn.Some? ==> Sendable(s'.torn.value.frame) && s'.torn.value.length < |Encode(s'.torn.value.frame)|)
            && s'.frames == (if w.Sent? then s.frames + [f] else s.frames)
    ensures forall kind: FrameKind :: Data(DoWrite(s, f, w).frames, kind) ==
              if w.Sent? && f.kind == kind then Data(s.frames, kind) + f.payload else Data(s.frames, kind)
  {
    forall kind: FrameKind
      ensures Data(s.frames + [f], kind) == if f.kind == kind then Data(s.frames, kind) + f.payload else Data(s.frames, kind)
    {
      DataAppend(s.frames, f, kind);
    }
  }

  lemma PipeStepOk(s: Session, a: Action)
    requires Inv(s) && Enabled(s, a)
    requires a.ToolWrites? || a.PipeCloses? || a.Reads? || a.ReadsEof? || a.ReadFails?
    ensures Inv(Do(s, a))
  {
    var o := OutletOf(s, a.isErr);
    match a
    case ToolWrites(_, data) => assert (o.written + data)[..o.taken] == o.written[..o.taken];
    case Reads(_, n) => assert o.written[..o.taken] + o.written[o.taken..o.taken + n] == o.written[..o.taken + n];
    case ReadsEof(_) => assert o.written[..o.taken] == o.written;
    case _ =>
  }

  lemma OutletSends(o: Outlet, sent: seq<byte>, w: Write)
    requires OutletOk(o, sent) && o.fwd.Holding?
    ensures OutletOk(o.(fwd := if w.Sent? then Idle else Broke), if w.Sent? then sent + o.fwd.chunk else sent)
  {
  }

  lemma ForwardsFrames(s: Session, isErr: bool, w: Write)
    requires FramesOk(s) && MainOk(s) && Enabled(s, Forwards(isErr, w))
    ensures FramesOk(Do(s, Forwards(isErr, w))) && MainOk(Do(s, Forwards(isErr, w)))
  {
    WriteOk(s, ChunkFrame(s, isErr), w);
  }

  lemma ForwardsOutlets(s: Session, isErr: bool, w: Write)
    requires Inv(s) && Enabled(s, Forwards(isErr, w))
    ensures var s' := Do(s, Forwards(isErr, w));
            OutletOk(s'.out, Data(s'.frames, Stdout)) && OutletOk(s'.err, Data(s'.frames, Stderr))
  {
    OutletSends(OutletOf(s, isErr), Data(s.frames, KindOf(isErr)), w);
    WriteOk(s, ChunkFrame(s, isErr), w);
  }

  lemma ForwardsOk(s: Session, isErr: bool, w: Write)
    requires Inv(s) && Enabled(s, Forwards(isErr, w))
    ensures Inv(Do(s, Forwards(isErr, w)))
  {
    ForwardsFrames(s, isErr, w);
    ForwardsOutlets(s, isErr, w);
  }

  lemma StdinFailsOk(s: Session, message: seq<byte>, w: Write)
    requires Inv(s) && Enabled(s, StdinFails(message, w))
    ensures Inv(Do(s, StdinFails(message, w)))
  {
    WriteOk(s, Frame(Error, message), w);
  }

  lemma SendsExitOk(s: Session, w: Write)
    requires Inv(s) && Enabled(s, SendsExit(w))
    ensures Inv(Do(s, SendsExit(w)))
  {
    WriteOk(s, ExitFrame(s.main.code), w);
    assert (s.frames + [ExitFrame(s.main.code)])[..|s.frames|] == s.frames;
  }

  lemma Preserved(s: Session, a: Action)
    requires Inv(s) && Enabled(s, a)
    ensures Inv(Do(s, a))
  {
    match a
    case Forwards(isErr, w) => ForwardsOk(s, isErr, w);
    case StdinFails(message, w) => StdinFailsOk(s, message, w);
    case SendsExit(w) => SendsExitOk(s, w);
    case ChildExits(_) =>
    case Joins(_) =>
    case ShutsDown =>
    case GivesUp =>
    case Reaped(_) =>
    case Settles(_) =>
    case _ => PipeStepOk(s, a);
  }

  lemma {:induction false} RunPreserves(s: Session, actions: seq<Action>, s': Session)
    requires Inv(s) && Run(s, actions, s')
    ensures Inv(s')
    decreases |actions|
  {
    if actions != [] {
      Preserved(s, actions[0]);
      RunPreserves(Do(s, actions[0]), actions[1..], s');
    }
  }

  lemma ReachableInv(s: Session)
    requires Reachable(s)
    ensures Inv(s)
  {
    var actions :| Run(START, actions, s);
    RunPreserves(START, actions, s);
  }
}

/** What a client can rely on, whatever the interleaving: EXIT is the last word,
    output arrives byte for byte, and the code is the server's. The one exception
    is proved with its exact condition: a stdin failure puts a diagnostic into
    the client's stderr. */
module ProxyTheorems {
  import opened Wire
  import opened ProxyIo
  import opened ProxySession
  import opened Seqs

  /** The bytes the server has put on the connection so far. */
  ghost function Bytes(s: Session): seq<byte>
    requires FramesOk(s)
  {
    EncodeAll(s.frames) + (if s.torn.Some? then Encode(s.torn.value.frame)[..s.torn.value.length] else [])
  }

  predicate HasExit(fs: seq<Frame>) {
    exists i :: 0 <= i < |fs| && fs[i].kind == Exit
  }

  lemma ExitPlace(s: Session, i: nat)
    requires FramesOk(s) && i < |s.frames| && s.frames[i].kind == Exit
    ensures s.main.Closed? && i == |s.frames| - 1
  {
    if s.main.Closed? {
      var body := s.frames[..|s.frames| - 1];
      assert forall j :: 0 <= j < |body| ==> s.frames[j] == body[j];
    }
  }

  /** At most one EXIT frame is ever sent, it is the last frame, and it carries
      the code the session closed with; a session is closed exactly when it has
      sent it. */
  lemma ExitIsLast(s: Session)
    requires Reachable(s)
    ensures s.main.Closed? <==> HasExit(s.frames)
    ensures forall i :: 0 <= i < |s.frames| && s.frames[i].kind == Exit ==> i == |s.frames| - 1
    ensures s.main.Closed? ==> IsI32(s.main.code) && s.frames[|s.frames| - 1] == ExitFrame(s.main.code)
  {
    ReachableInv(s);
    forall i | 0 <= i < |s.frames| && s.frames[i].kind == Exit
      ensures s.main.Closed? && i == |s.frames| - 1
    {
      ExitPlace(s, i);
    }
  }

  lemma ClosedIsFinal(s: Session, a: Action)
    requires Inv(s) && s.main.Closed? && Enabled(s, a)
    ensures var s' := Do(s, a);
            s'.main == s.main && s'.frames == s.frames && s'.torn == s.torn
  {
  }

  /** Nothing follows EXIT on the connection. */
  lemma {:induction false} NothingFollowsExit(s: Session, actions: seq<Action>, s': Session)
    requires Inv(s) && s.main.Closed? && Run(s, actions, s')
    ensures Inv(s') && Bytes(s') == Bytes(s)
    decreases |actions|
  {
    if actions != [] {
      Preserved(s, actions[0]);
      ClosedIsFinal(s, actions[0]);
      NothingFollowsExit(Do(s, actions[0]), actions[1..], s');
    }
  }

  lemma {:induction false} EncodeAllPrefix(a: seq<Frame>, b: seq<Frame>)
    requires AllSendable(a) && AllSendable(b) && a <= b
    ensures |EncodeAll(a)| <= |EncodeAll(b)|
  {
    if a != [] {
      EncodeAllPrefix(a[1..], b[1..]);
    }
  }

  /** Whatever prefix of the bytes has arrived, the client reads a prefix of the
      frames that were written whole. */
  lemma ClientReadsFrames(s: Session, got: seq<byte>)
    requires FramesOk(s) && got <= Bytes(s)
    ensures Frames(got) <= s.frames
  {
    if s.torn.None? {
      assert Bytes(s) == EncodeAll(s.frames);
      assert got == EncodeAll(s.frames)[..|got|];
      FramesOfCut(s.frames, |got|);
    } else {
      var f := s.torn.value.frame;
      var all := s.frames + [f];
      EncodeAllAppend(s.frames, f);
      assert got == EncodeAll(all)[..|got|];
      FramesOfCut(all, |got|);
      var fs := Frames(got);
      assert |EncodeAll(fs)| <= |got| < |EncodeAll(all)|;
      assert fs != all;
      assert fs == all[..|fs|] == s.frames[..|fs|];
    }
  }

  /** A client that returns a code has read an EXIT frame. */
  lemma {:induction false} CodeNeedsExit(fs: seq<Frame>)
    requires Receive(fs).code.Some?
    ensures HasExit(fs)
  {
    if fs[0].kind != Exit {
      CodeNeedsExit(fs[1..]);
      var i :| 0 <= i < |fs[1..]| && fs[1..][i].kind == Exit;
      assert fs[i + 1].kind == Exit;
    }
  }

  /** What appears on the client's stderr: tool output and server diagnostics,
      in frame order. */
  function Shown(fs: seq<Frame>): seq<byte> {
    if fs == [] then []
    else (if fs[0].kind == Stderr then fs[0].payload
          else if fs[0].kind == Error then Diagnostic(fs[0].payload) else []) + Shown(fs[1..])
  }

  predicate HasError(fs: seq<Frame>) {
    exists i :: 0 <= i < |fs| && fs[i].kind == Error
  }

  lemma {:induction false} ReceiveConversation(body: seq<Frame>, code: int)
    requires IsBody(body) && IsI32(code)
    ensures Receive(body + [ExitFrame(code)]) == Reply(Data(body, Stdout), Shown(body), Some(code))
  {
    if body == [] {
      I32RoundTrip(code);
      assert body + [ExitFrame(code)] == [ExitFrame(code)];
    } else {
      Snoc(body, ExitFrame(code));
      ReceiveConversation(body[1..], code);
    }
  }

  /** Diagnostics only ever lengthen what is shown. */
  lemma {:induction false} ShownIsStderr(fs: seq<Frame>)
    ensures |Shown(fs)| >= |Data(fs, Stderr)|
    ensures HasError(fs) ==> |Shown(fs)| > |Data(fs, Stderr)|
    ensures !HasError(fs) ==> Shown(fs) == Data(fs, Stderr)
  {
    if fs != [] {
      ShownIsStderr(fs[1..]);
      if HasError(fs) && fs[0].kind != Error {
        var i :| 0 <= i < |fs| && fs[i].kind == Error;
        assert fs[1..][i - 1].kind == Error;
      }
      if HasError(fs[1..]) {
        var i :| 0 <= i < |fs[1..]| && fs[1..][i].kind == Error;
        assert fs[i + 1].kind == Error;
      }
    }
  }

  /** The client has the whole conversation once it has a code. */
  lemma CodeMeansAll(s: Session, got: seq<byte>)
    requires Inv(s) && got <= Bytes(s) && Receive(Frames(got)).code.Some?
    ensures s.main.Closed? && Frames(got) == s.frames
  {
    ClientReadsFrames(s, got);
    CodeNeedsExit(Frames(got));
    var fs := Frames(got);
    var i :| 0 <= i < |fs| && fs[i].kind == Exit;
    assert s.frames[i].kind == Exit;
    ExitPlace(s, i);
  }

  lemma ErrorBeforeExit(body: seq<Frame>, exit: Frame)
    requires exit.kind == Exit
    ensures HasError(body + [exit]) <==> HasError(body)
  {
    var all := body + [exit];
    if HasError(all) {
      var i :| 0 <= i < |all| && all[i].kind == Error;
      assert body[i].kind == Error;
    }
    if HasError(body) {
      var i :| 0 <= i < |body| && body[i].kind == Error;
      assert all[i].kind == Error;
    }
  }

  /** What a client makes of a whole conversation. */
  lemma WholeConversation(body: seq<Frame>, code: int)
    requires IsBody(body) && IsI32(code)
    ensures var frames := body + [ExitFrame(code)];
            var r := Receive(frames);
            && r.code == Some(code)
            && r.out == Data(frames, Stdout)
            && (r.err == Data(frames, Stderr) <==> !HasError(frames))
  {
    ReceiveConversation(body, code);
    DataAppend(body, ExitFrame(code), Stdout);
    DataAppend(body, ExitFrame(code), Stderr);
    ShownIsStderr(body);
    ErrorBeforeExit(body, ExitFrame(code));
  }

  /** If both forwarders got to the end of their pipes and the client returns a
      code, its stdout is byte for byte what the tool wrote and the code tells how
      the tool ended. Its stderr is what the tool wrote exactly when the server did
      not report a stdin failure. */
  lemma ClientAgrees(s: Session, got: seq<byte>)
    requires Reachable(s) && FramesOk(s) && got <= Bytes(s)
    requires s.out.fwd.AtEof? && s.err.fwd.AtEof?
    requires Receive(Frames(got)).code.Some?
    ensures var reply := Receive(Frames(got));
            && s.main == Closed(reply.code.value)
            && s.ended.Some?
            && (match s.ended.value
                case Exited(c) => reply.code == Some(c)
                case Signaled(n) => reply.code == Some(128 + n)
                case Neither => reply.code == Some(127))
            && reply.out == s.out.written
            && (reply.err == s.err.written <==> !HasError(s.frames))
  {
    ReachableInv(s);
    CodeMeansAll(s, got);
    var body := s.frames[..|s.frames| - 1];
    assert s.frames == body + [ExitFrame(s.main.code)];
    WholeConversation(body, s.main.code);
  }

  // ----- what the tool did, action by action -----

  function WrittenBy(a: Action, isErr: bool): seq<byte> {
    if a.ToolWrites? && a.isErr == isErr then a.data else []
  }

  /** All the tool writes to one pipe in a run. */
  function WrittenIn(actions: seq<Action>, isErr: bool): seq<byte> {
    if actions == [] then [] else WrittenBy(actions[0], isErr) + WrittenIn(actions[1..], isErr)
  }

  /** The status the server sees in a run, if it comes to that; no other follows it. */
  function StatusIn(actions: seq<Action>): Option<Status> {
    if actions == [] then None
    else match actions[0]
      case ChildExits(status) => Some(status)
      case Reaped(status) => Some(status)
      case _ => StatusIn(actions[1..])
  }

  lemma StepWrites(s: Session, a: Action, isErr: bool)
    requires Enabled(s, a)
    ensures OutletOf(Do(s, a), isErr).written == OutletOf(s, isErr).written + WrittenBy(a, isErr)
  {
    var written := OutletOf(s, isErr).written;
    assert written + [] == written;
  }

  lemma {:induction false} RunWrites(s: Session, actions: seq<Action>, s': Session, isErr: bool)
    requires Run(s, actions, s')
    ensures OutletOf(s', isErr).written == OutletOf(s, isErr).written + WrittenIn(actions, isErr)
    decreases |actions|
  {
    var written := OutletOf(s, isErr).written;
    if actions == [] {
      assert written + [] == written;
    } else {
      StepWrites(s, actions[0], isErr);
      RunWrites(Do(s, actions[0]), actions[1..], s', isErr);
      Assoc(written, WrittenBy(actions[0], isErr), WrittenIn(actions[1..], isErr));
    }
  }

  /** Once the tool's end was seen, the supervisor neither watches nor reaps. */
  predicate SeenEnd(s: Session) {
    s.ended.Some? ==> !s.main.Watching? && !s.main.Reaping?
  }

  lemma {:induction false} RunEnds(s: Session, actions: seq<Action>, s': Session)
    requires Run(s, actions, s') && SeenEnd(s)
    ensures s'.ended == if s.ended.Some? then s.ended else StatusIn(actions)
    decreases |actions|
  {
    if actions != [] {
      RunEnds(Do(s, actions[0]), actions[1..], s');
    }
  }

  /** From the start of a session, in the terms of what happened: the client's stdout is
      what the tool wrote, its code tells the status seen, and its stderr is what the
      tool wrote exactly without a reported stdin failure. */
  lemma ClientSeesTheTool(actions: seq<Action>, s: Session, got: seq<byte>)
    requires Run(START, actions, s) && FramesOk(s) && got <= Bytes(s)
    requires s.out.fwd.AtEof? && s.err.fwd.AtEof?
    requires Receive(Frames(got)).code.Some?
    ensures var reply := Receive(Frames(got));
            && reply.out == WrittenIn(actions, false)
            && (reply.err == WrittenIn(actions, true) <==> !HasError(s.frames))
            && StatusIn(actions).Some?
            && (match StatusIn(actions).value
                case Exited(c) => reply.code == Some(c)
                case Signaled(n) => reply.code == Some(128 + n)
                case Neither => reply.code == Some(127))
  {
    ClientAgrees(s, got);
    RunWrites(START, actions, s, false);
    RunWrites(START, actions, s, true);
    RunEnds(START, actions, s);
    assert [] + WrittenIn(actions, false) == WrittenIn(actions, false);
    assert [] + WrittenIn(actions, true) == WrittenIn(actions, true);
  }

  /** An ERROR frame comes from nothing but a reported stdin failure. */
  lemma ErrorMeansStdinFailed(s: Session, a: Action)
    requires Inv(s) && Enabled(s, a)
    ensures HasError(Do(s, a).frames) <==> HasError(s.frames) || (a.StdinFails? && a.write.Sent?)
  {
    var s' := Do(s, a);
    if |s'.frames| > |s.frames| {
      var f := s'.frames[|s.frames|];
      assert s'.frames == s.frames + [f];
      assert f.kind == Error <==> a.StdinFails?;
    }
    if HasError(s.frames) {
      var i :| 0 <= i < |s.frames| && s.frames[i].kind == Error;
      assert s'.frames[i].kind == Error;
    }
  }

  /** A session in which the tool wrote nothing, stdin forwarding failed with a
      one-byte message, and the tool was killed. */
  const FAILED_STDIN := Session(
    Outlet([], 0, true, AtEof), Outlet([], 0, true, AtEof), Closed(137),
    [Frame(Error, [63]), Frame(Exit, [0, 0, 0, 137])], None, Some(Signaled(9)))

  lemma {:induction false} RunSnoc(s: Session, actions: seq<Action>, s': Session, a: Action)
    requires Run(s, actions, s') && Enabled(s', a)
    ensures Run(s, actions + [a], Do(s', a))
    decreases |actions|
  {
    Snoc(actions, a);
    if actions == [] {
      assert Run(Do(s, a), [], Do(s, a));
    } else {
      RunSnoc(Do(s, actions[0]), actions[1..], s', a);
    }
  }

  lemma Extend(s: Session, a: Action, s': Session)
    requires Reachable(s) && Enabled(s, a) && s' == Do(s, a)
    ensures Reachable(s')
  {
    var actions :| Run(START, actions, s);
    RunSnoc(START, actions, s, a);
  }

  lemma PipesDone(done: Outlet, s4: Session)
    requires done == Outlet([], 0, true, AtEof)
    requires s4 == Session(done, done, Watching(false, false), [], None, None)
    ensures Reachable(s4)
  {
    var open, closed := Outlet([], 0, false, Idle), Outlet([], 0, true, Idle);
    assert Run(START, [], START);
    var s1 := START.(out := closed);
    Extend(START, PipeCloses(false), s1);
    var s2 := s1.(err := closed);
    Extend(s1, PipeCloses(true), s2);
    var s3 := s2.(out := done);
    Extend(s2, ReadsEof(false), s3);
    Extend(s3, ReadsEof(true), s4);
  }

  lemma ToolKilled(s4: Session, s8: Session)
    requires Reachable(s4) && s4.main == Watching(false, false)
    requires s4.out.fwd.AtEof? && s4.err.fwd.AtEof? && s4.torn.None? && s4.frames == []
    requires s8 == s4.(main := Settling(137, true, true), frames := [Frame(Error, [63])], ended := Some(Signaled(9)))
    ensures Reachable(s8)
  {
    var s5 := s8.(main := Reaping(false, false), ended := s4.ended);
    Extend(s4, StdinFails([63], Sent), s5);
    var s6 := s8.(main := Settling(137, false, false));
    Extend(s5, Reaped(Signaled(9)), s6);
    var s7 := s8.(main := Settling(137, true, false));
    Extend(s6, Settles(false), s7);
    Extend(s7, Settles(true), s8);
  }

  lemma FailedStdinReachable()
    ensures Reachable(FAILED_STDIN)
  {
    var done := Outlet([], 0, true, AtEof);
    var s4 := Session(done, done, Watching(false, false), [], None, None);
    PipesDone(done, s4);
    var s8 := Session(done, done, Settling(137, true, true), [Frame(Error, [63])], None, Some(Signaled(9)));
    ToolKilled(s4, s8);
    assert FAILED_STDIN.frames == [Frame(Error, [63])] + [ExitFrame(137)];
    Extend(s8, SendsExit(Sent), FAILED_STDIN);
  }

  /** The unwanted case does occur: the client has a code, and a stderr the tool
      never wrote. */
  lemma DiagnosticReachesStderr()
    ensures Reachable(FAILED_STDIN) && FramesOk(FAILED_STDIN)
    ensures FAILED_STDIN.out.fwd.AtEof? && FAILED_STDIN.err.fwd.AtEof?
    ensures Frames(Bytes(FAILED_STDIN)) == FAILED_STDIN.frames
    ensures Receive(FAILED_STDIN.frames).code == Some(137)
    ensures Receive(FAILED_STDIN.frames).err != FAILED_STDIN.err.written
  {
    FailedStdinReachable();
    ReachableInv(FAILED_STDIN);
    var fs := FAILED_STDIN.frames;
    FramesOfEncoding(fs, []);
    assert Frames([]) == [] && fs + [] == fs;
    assert I32(137) == [0, 0, 0, 137];
    assert fs == [Frame(Error, [63])] + [ExitFrame(137)];
    WholeConversation([Frame(Error, [63])], 137);
    assert fs[0].kind == Error;
  }
}

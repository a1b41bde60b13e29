/** The procedures of both proxy ends that move bytes: frame readers and writers
    in either language, the OPEN sender, and the forwarding loops. Sources hand
    out data in arbitrary fragments; sinks may take less than offered, or fail. */
module ProxyIo {
  import opened Wire
  import opened OpenRequest
  import opened Seqs

  const STDIO_BUFFER := 32 * 1024

  function Flat(chunks: seq<seq<byte>>): seq<byte> {
    if chunks == [] then [] else chunks[0] + Flat(chunks[1..])
  }

  /** A stream that arrives in the given chunks and then ends. */
  class ByteSource {
    var chunks: seq<seq<byte>>

    ghost function Rest(): seq<byte>
      reads this
    {
      Flat(chunks)
    }

    constructor (chunks: seq<seq<byte>>)
      ensures this.chunks == chunks
    {
      this.chunks := chunks;
    }

    /** One read: at least one byte unless the stream is over, and never across
        a chunk boundary. */
    method Read(max: nat) returns (data: seq<byte>)
      requires max > 0
      modifies this
      ensures |data| <= max && data + Rest() == old(Rest())
      ensures data == [] <==> old(Rest()) == []
    {
      while chunks != [] && chunks[0] == []
        invariant Rest() == old(Rest())
        decreases |chunks|
      {
        chunks := chunks[1..];
      }
      if chunks == [] {
        return [];
      }
      var n := if |chunks[0]| < max then |chunks[0]| else max;
      data := chunks[0][..n];
      assert chunks[0] == data + chunks[0][n..];
      assert data + (chunks[0][n..] + Flat(chunks[1..])) == chunks[0] + Flat(chunks[1..]);
      chunks := [chunks[0][n..]] + chunks[1..];
    }

    /** The same bytes whatever the fragments; a short stream is consumed. */
    method ReadExact(n: nat) returns (ok: bool, data: seq<byte>)
      modifies this
      ensures ok <==> n <= |old(Rest())|
      ensures ok ==> data == old(Rest())[..n] && Rest() == old(Rest())[n..]
    {
      data := [];
      ghost var all := Rest();
      while |data| < n
        invariant |data| <= n && data + Rest() == all
        decreases n - |data|
      {
        var more := Read(n - |data|);
        if more == [] {
          assert Rest() == [];
          return false, data;
        }
        assert data + more + Rest() == all;
        data := data + more;
      }
      ok := true;
    }
  }

  datatype Attempt = Accept(n: nat) | Fault(n: nat)

  /** A destination whose writes go as scripted, and in full once the script is
      used up. */
  class ByteSink {
    var written: seq<byte>
    var script: seq<Attempt>

    ghost predicate Working()
      reads this
    {
      forall i :: 0 <= i < |script| ==> script[i].Accept? && script[i].n > 0
    }

    constructor (script: seq<Attempt>)
      ensures written == [] && this.script == script
    {
      this.script := script;
      written := [];
    }

    method Write(data: seq<byte>) returns (n: nat, ok: bool)
      modifies this
      ensures n <= |data| && written == old(written) + data[..n]
      ensures old(Working()) ==> Working() && ok && (data != [] ==> n > 0)
    {
      if script == [] {
        n, ok := |data|, true;
      } else {
        ok := script[0].Accept?;
        n := if script[0].n < |data| then script[0].n else |data|;
        script := script[1..];
      }
      written := written + data[..n];
    }

    /** Write until all is taken; a failure leaves a prefix behind. */
    method WriteAll(data: seq<byte>) returns (ok: bool)
      modifies this
      ensures old(written) <= written <= old(written) + data
      ensures ok ==> written == old(written) + data
      ensures old(Working()) ==> Working() && ok
    {
      var rest := data;
      ghost var before := written;
      while rest != []
        invariant |rest| <= |data| && rest == data[|data| - |rest|..]
        invariant written == before + data[..|data| - |rest|]
        invariant old(Working()) ==> Working()
        decreases |rest|
      {
        var n, accepted := Write(rest);
        assert before + data[..|data| - |rest|] + rest[..n] == before + data[..|data| - |rest| + n];
        if !accepted || n == 0 {
          return false;
        }
        rest := rest[n..];
      }
      ok := true;
    }
  }

  datatype ReadResult = Read(frame: Frame) | Failed

  /** The server's reader: kind, length, payload in three reads. */
  method ReadFrame(source: ByteSource) returns (r: ReadResult)
    modifies source
    ensures var d := Decode(old(source.Rest()));
            if d.Got? then r == Read(d.frame) && source.Rest() == d.rest else r == Failed
  {
    ghost var all := source.Rest();
    var ok, kind := source.ReadExact(1);
    if !ok { return Failed; }
    var length;
    ok, length := source.ReadExact(4);
    if !ok { return Failed; }
    assert length == all[1..5] && source.Rest() == all[5..];
    if FromU32(length) > MAX_FRAME_BYTES { return Failed; }
    var payload;
    ok, payload := source.ReadExact(FromU32(length));
    if !ok { return Failed; }
    assert payload == all[5..5 + FromU32(length)];
    r := Read(Frame(FromWire(kind[0]), payload));
  }

  /** The client's reader: a five-byte header, then the payload. */
  method ReadFrameGo(source: ByteSource) returns (r: ReadResult)
    modifies source
    ensures var d := Decode(old(source.Rest()));
            if d.Got? then r == Read(d.frame) && source.Rest() == d.rest else r == Failed
  {
    ghost var all := source.Rest();
    var ok, header := source.ReadExact(5);
    if !ok { return Failed; }
    assert header[1..] == all[1..5];
    var length := FromU32(header[1..]);
    if length > MAX_FRAME_BYTES { return Failed; }
    var payload;
    ok, payload := source.ReadExact(length);
    if !ok { return Failed; }
    assert payload == all[5..5 + length];
    r := Read(Frame(FromWire(header[0]), payload));
  }

  /** The server's writer. An oversized payload is refused before any byte. */
  method WriteFrame(sink: ByteSink, frame: Frame) returns (ok: bool)
    modifies sink
    ensures |frame.payload| > MAX_FRAME_BYTES ==> !ok && sink.written == old(sink.written)
    ensures |frame.payload| <= MAX_FRAME_BYTES ==>
              && old(sink.written) <= sink.written <= old(sink.written) + Encode(frame)
              && (ok ==> sink.written == old(sink.written) + Encode(frame))
    ensures old(sink.Working()) ==> sink.Working() && (ok <==> |frame.payload| <= MAX_FRAME_BYTES)
  {
    if |frame.payload| > MAX_FRAME_BYTES { return false; }
    ghost var before := sink.written;
    assert Encode(frame) == [ToWire(frame.kind)] + (U32(|frame.payload|) + frame.payload);
    ok := sink.WriteAll([ToWire(frame.kind)]);
    if !ok { return; }
    ok := sink.WriteAll(U32(|frame.payload|));
    if !ok { return; }
    assert sink.written == before + ([ToWire(frame.kind)] + U32(|frame.payload|));
    ok := sink.WriteAll(frame.payload);
  }

  /** The client's writer: the header as one piece. */
  method WriteFrameGo(sink: ByteSink, frame: Frame) returns (ok: bool)
    modifies sink
    ensures |frame.payload| > MAX_FRAME_BYTES ==> !ok && sink.written == old(sink.written)
    ensures |frame.payload| <= MAX_FRAME_BYTES ==>
              && old(sink.written) <= sink.written <= old(sink.written) + Encode(frame)
              && (ok ==> sink.written == old(sink.written) + Encode(frame))
    ensures old(sink.Working()) ==> sink.Working() && (ok <==> |frame.payload| <= MAX_FRAME_BYTES)
  {
    if |frame.payload| > MAX_FRAME_BYTES { return false; }
    ghost var before := sink.written;
    var header := [ToWire(frame.kind)] + U32(|frame.payload|);
    assert before + Encode(frame) == before + header + frame.payload;
    ok := sink.WriteAll(header);
    if !ok { return; }
    ok := sink.WriteAll(frame.payload);
  }

  // ----- opening a session -----

  method WriteField(sink: ByteSink, field: seq<byte>) returns (ok: bool)
    requires sink.Working()
    modifies sink
    ensures sink.Working()
    ensures ok <==> |field| <= MAX_FIELD_BYTES
    ensures ok ==> sink.written == old(sink.written) + EncodeField(field)
  {
    if |field| > MAX_FIELD_BYTES { return false; }
    ghost var before := sink.written;
    ok := sink.WriteAll(U32(|field|));
    ok := sink.WriteAll(field);
    assert before + U32(|field|) + field == before + EncodeField(field);
  }

  /** The request fits: every field, the argument count, and the whole payload. */
  predicate Fits(r: Request) {
    && |r.args| <= MAX_ARGUMENTS && |r.command| <= MAX_FIELD_BYTES && FieldsFit(r.args)
    && |EncodeOpen(r)| <= MAX_FRAME_BYTES
  }

  lemma {:induction false} EncodeFieldsAppend(fields: seq<seq<byte>>, field: seq<byte>)
    requires FieldsFit(fields) && |field| <= MAX_FIELD_BYTES
    ensures FieldsFit(fields + [field])
    ensures EncodeFields(fields + [field]) == EncodeFields(fields) + EncodeField(field)
  {
    Snoc(fields, field);
    if fields == [] {
      assert EncodeFields([field]) == EncodeField(field) + EncodeFields([]);
    } else {
      EncodeFieldsAppend(fields[1..], field);
      Assoc(EncodeField(fields[0]), EncodeFields(fields[1..]), EncodeField(field));
    }
  }

  /** A request that does not fit sends nothing. One that fits sends exactly one OPEN
      frame, or part of it if the connection fails. */
  method SendOpen(sink: ByteSink, request: Request) returns (ok: bool)
    modifies sink
    ensures !Fits(request) ==> !ok && sink.written == old(sink.written)
    ensures Fits(request) ==>
              var frame := Encode(Frame(Open, EncodeOpen(request)));
              && old(sink.written) <= sink.written <= old(sink.written) + frame
              && (ok ==> sink.written == old(sink.written) + frame)
    ensures old(sink.Working()) ==> (ok <==> Fits(request))
  {
    if |request.args| > MAX_ARGUMENTS { return false; }
    var payload := new ByteSink([]);
    ok := WriteField(payload, request.command);
    if !ok { return; }
    ok := payload.WriteAll(U32(|request.args|));
    ghost var head := EncodeField(request.command) + U32(|request.args|);
    assert payload.written == head;
    for i := 0 to |request.args|
      invariant fresh(payload) && payload.Working() && FieldsFit(request.args[..i])
      invariant payload.written == head + EncodeFields(request.args[..i])
      invariant sink.written == old(sink.written) && (old(sink.Working()) ==> sink.Working())
    {
      ok := WriteField(payload, request.args[i]);
      if !ok { return; }
      assert request.args[..i + 1] == request.args[..i] + [request.args[i]];
      EncodeFieldsAppend(request.args[..i], request.args[i]);
    }
    assert request.args[..|request.args|] == request.args;
    assert payload.written == EncodeOpen(request);
    ok := WriteFrameGo(sink, Frame(Open, payload.written));
  }

  /** What a fitting request with a non-empty UTF-8 command looks like at the
      server: one OPEN frame that parses back to it. */
  lemma OpenArrives(r: Request, rest: seq<byte>)
    requires Fits(r) && r.command != [] && IsUtf8(r.command)
    ensures var d := Decode(Encode(Frame(Open, EncodeOpen(r))) + rest);
            d == Got(Frame(Open, EncodeOpen(r)), rest) && Parse(d.frame.payload) == Ok(r)
  {
    DecodeEncode(Frame(Open, EncodeOpen(r)), rest);
    ParseOfEncoding(r);
  }

  // ----- forwarding input -----

  /** The payload bytes of the frames of one kind, in order. */
  function Data(fs: seq<Frame>, kind: FrameKind): seq<byte> {
    if fs == [] then []
    else (if fs[0].kind == kind then fs[0].payload else []) + Data(fs[1..], kind)
  }

  /** The leading STDIN frames. */
  function Leading(fs: seq<Frame>): (lead: seq<Frame>)
    ensures |lead| <= |fs|
  {
    if fs != [] && fs[0].kind == Stdin then [fs[0]] + Leading(fs[1..]) else []
  }

  /** The stream is closed in order: STDIN frames, then an empty STDIN_EOF. */
  predicate ClosesInOrder(fs: seq<Frame>) {
    |Leading(fs)| < |fs| && fs[|Leading(fs)|] == Frame(StdinEof, [])
  }

  lemma {:induction false} LeadingIsMaximal(fs: seq<Frame>)
    ensures Leading(fs) <= fs
    ensures forall i :: 0 <= i < |Leading(fs)| ==> fs[i].kind == Stdin
    ensures |Leading(fs)| < |fs| ==> fs[|Leading(fs)|].kind != Stdin
    ensures Data(Leading(fs), Stdin) <= Data(fs, Stdin)
  {
    if fs != [] && fs[0].kind == Stdin {
      LeadingIsMaximal(fs[1..]);
      assert Leading(fs)[1..] == Leading(fs[1..]);
    }
  }

  /** The bytes a stdin loop facing these frames hands on. */
  function Forwarded(fs: seq<Frame>): seq<byte> {
    Data(Leading(fs), Stdin)
  }

  lemma ForwardedStep(f: Frame, tail: seq<Frame>)
    ensures f.kind == Stdin ==> Forwarded([f] + tail) == f.payload + Forwarded(tail)
    ensures f.kind == Stdin ==> (ClosesInOrder([f] + tail) <==> ClosesInOrder(tail))
    ensures f.kind != Stdin ==> Forwarded([f] + tail) == []
    ensures f.kind != Stdin ==> (ClosesInOrder([f] + tail) <==> f == Frame(StdinEof, []))
  {
    var fs := [f] + tail;
    assert fs[1..] == tail;
    if f.kind == Stdin {
      var lead := [f] + Leading(tail);
      assert Leading(fs) == lead && lead[1..] == Leading(tail);
    }
  }

  /** Where the stdin loop can end, facing these frames. */
  ghost predicate StdinOutcome(fs: seq<Frame>, before: seq<byte>, after: seq<byte>, closed: bool) {
    && before <= after <= before + Forwarded(fs)
    && (closed ==> after == before + Forwarded(fs) && ClosesInOrder(fs))
  }

  /** The server's stdin loop: what reaches the tool is a prefix of the STDIN
      payloads before the first other frame, and all of them if the loop ends in
      order. Nothing after that frame is ever forwarded. */
  method ForwardStdin(source: ByteSource, stdin: ByteSink) returns (closed: bool)
    modifies source, stdin
    ensures StdinOutcome(Frames(old(source.Rest())), old(stdin.written), stdin.written, closed)
    ensures old(stdin.Working()) ==>
              var fs := Frames(old(source.Rest()));
              stdin.written == old(stdin.written) + Forwarded(fs) && (closed <==> ClosesInOrder(fs))
  {
    ghost var fs := Frames(source.Rest());
    ghost var total := stdin.written + Forwarded(fs);
    while true
      invariant old(stdin.written) <= stdin.written && stdin.written + Forwarded(Frames(source.Rest())) == total
      invariant ClosesInOrder(fs) <==> ClosesInOrder(Frames(source.Rest()))
      invariant old(stdin.Working()) ==> stdin.Working()
      decreases |source.Rest()|
    {
      var r := ReadFrame(source);
      if r.Failed? {
        AllOut(stdin.written, total);
        return false;
      }
      ghost var left := Frames(source.Rest());
      ForwardedStep(r.frame, left);
      if r.frame.kind != Stdin {
        AllOut(stdin.written, total);
        return r.frame.kind == StdinEof && r.frame.payload == [];
      }
      ghost var sent := stdin.written;
      var ok := stdin.WriteAll(r.frame.payload);
      StillWithin(sent, stdin.written, r.frame.payload, Forwarded(left), total);
      if !ok {
        return false;
      }
    }
  }

  lemma AllOut(written: seq<byte>, total: seq<byte>)
    requires written + [] == total
    ensures written == total
  {
    assert written + [] == written;
  }

  lemma StillWithin(sent: seq<byte>, now: seq<byte>, more: seq<byte>, left: seq<byte>, total: seq<byte>)
    requires sent <= now <= sent + more && sent + (more + left) == total
    ensures now <= total
    ensures now == sent + more ==> now + left == total
  {
    assert sent + more + left == total;
  }

  // ----- forwarding output -----

  /** `fs` carries `data` in frames of one kind, none empty and none larger than
      the buffer. */
  ghost predicate Carries(fs: seq<Frame>, kind: FrameKind, data: seq<byte>) {
    && AllSendable(fs)
    && (forall i :: 0 <= i < |fs| ==> fs[i].kind == kind && 0 < |fs[i].payload| <= STDIO_BUFFER)
    && Data(fs, kind) == data
  }

  lemma {:induction false} DataConcat(a: seq<Frame>, b: seq<Frame>, kind: FrameKind)
    ensures Data(a + b, kind) == Data(a, kind) + Data(b, kind)
  {
    if a == [] {
      assert a + b == b;
    } else {
      assert (a + b)[1..] == a[1..] + b;
      DataConcat(a[1..], b, kind);
      Assoc(if a[0].kind == kind then a[0].payload else [], Data(a[1..], kind), Data(b, kind));
    }
  }

  lemma DataAppend(fs: seq<Frame>, f: Frame, kind: FrameKind)
    ensures Data(fs + [f], kind) == if f.kind == kind then Data(fs, kind) + f.payload else Data(fs, kind)
  {
    DataConcat(fs, [f], kind);
    assert Data([f], kind) == (if f.kind == kind then f.payload else []) + Data([], kind);
  }

  lemma CarriesMore(fs: seq<Frame>, kind: FrameKind, data: seq<byte>, more: seq<byte>)
    requires Carries(fs, kind, data) && Canonical(kind) && 0 < |more| <= STDIO_BUFFER
    ensures Carries(fs + [Frame(kind, more)], kind, data + more)
    ensures EncodeAll(fs + [Frame(kind, more)]) == EncodeAll(fs) + Encode(Frame(kind, more))
  {
    EncodeAllAppend(fs, Frame(kind, more));
    DataAppend(fs, Frame(kind, more), kind);
  }

  /** The books of a forwarding loop, one chunk later. */
  lemma ForwardMore(
      fs: seq<Frame>, kind: FrameKind, sent: seq<byte>, data: seq<byte>, left: seq<byte>,
      total: seq<byte>, before: seq<byte>)
    requires Carries(fs, kind, sent) && Canonical(kind) && 0 < |data| <= STDIO_BUFFER
    requires sent + (data + left) == total
    ensures Carries(fs + [Frame(kind, data)], kind, sent + data)
    ensures (sent + data) + left == total && sent + data <= total
    ensures before + EncodeAll(fs + [Frame(kind, data)]) == before + EncodeAll(fs) + Encode(Frame(kind, data))
  {
    CarriesMore(fs, kind, sent, data);
    Assoc(sent, data, left);
    Assoc(before, EncodeAll(fs), Encode(Frame(kind, data)));
  }

  /** `fs` was written whole, with part of a frame carrying `torn` behind it; together
      they hold the beginning of `input`. */
  ghost predicate WroteFrames(
      fs: seq<Frame>, torn: seq<byte>, kind: FrameKind, input: seq<byte>, before: seq<byte>, after: seq<byte>)
    requires Canonical(kind)
  {
    && Carries(fs, kind, Data(fs, kind)) && |torn| <= STDIO_BUFFER
    && Data(fs, kind) + torn <= input
    && before + EncodeAll(fs) <= after <= before + EncodeAll(fs) + Encode(Frame(kind, torn))
  }

  /** The server's output loop: the pipe's bytes go out in frames of one kind, all of
      them unless a write fails; a failed write leaves part of one more frame, whose
      chunk comes next in the pipe. */
  method ForwardOutput(source: ByteSource, sink: ByteSink, kind: FrameKind)
    returns (ghost fs: seq<Frame>, ghost torn: seq<byte>, ok: bool)
    requires Canonical(kind)
    modifies source, sink
    ensures WroteFrames(fs, torn, kind, old(source.Rest()), old(sink.written), sink.written)
    ensures ok ==> sink.written == old(sink.written) + EncodeAll(fs) && Data(fs, kind) == old(source.Rest())
    ensures old(sink.Working()) ==> ok
  {
    fs, torn := [], [];
    ghost var before, sent, input := sink.written, [], source.Rest();
    while true
      invariant Carries(fs, kind, sent) && sent + source.Rest() == input
      invariant sink.written == before + EncodeAll(fs)
      invariant old(sink.Working()) ==> sink.Working()
      decreases |source.Rest()|
    {
      var data := source.Read(STDIO_BUFFER);
      if data == [] {
        AllOut(sent, input);
        return fs, [], true;
      }
      ForwardMore(fs, kind, sent, data, source.Rest(), input, before);
      ok := WriteFrame(sink, Frame(kind, data));
      if !ok {
        return fs, data, false;
      }
      fs, sent := fs + [Frame(kind, data)], sent + data;
    }
  }

  // ----- receiving the result -----

  datatype Option<+T> = None | Some(value: T)

  /** What the client prints and returns; no code means a local failure. */
  datatype Reply = Reply(out: seq<byte>, err: seq<byte>, code: Option<int>)

  /** "kekkai-rt-tool-proxy: " and a line end, around the server's message. */
  const DIAGNOSTIC_HEAD: seq<byte> :=
    [107, 101, 107, 107, 97, 105, 45, 114, 116, 45, 116, 111, 111, 108, 45, 112, 114, 111, 120, 121, 58, 32]

  function Diagnostic(message: seq<byte>): seq<byte> {
    DIAGNOSTIC_HEAD + message + [10]
  }

  lemma DiagnosticText(message: seq<byte>)
    ensures var head := "kekkai-rt-tool-proxy: ";
            && |Diagnostic(message)| == |head| + |message| + 1
            && (forall i :: 0 <= i < |head| ==> Diagnostic(message)[i] == head[i] as int)
            && Diagnostic(message)[|head|..] == message + ['\n' as int]
  {
    var head := "kekkai-rt-tool-proxy: ";
    assert |DIAGNOSTIC_HEAD| == |head|;
    assert Diagnostic(message) == DIAGNOSTIC_HEAD + (message + [10]);
  }

  /** The client's answer to a stream of frames that then ends. */
  function Receive(fs: seq<Frame>): Reply {
    if fs == [] then Reply([], [], None)
    else
      var f := fs[0];
      match f.kind
      case Stdout => var r := Receive(fs[1..]); r.(out := f.payload + r.out)
      case Stderr => var r := Receive(fs[1..]); r.(err := f.payload + r.err)
      case Error => var r := Receive(fs[1..]); r.(err := Diagnostic(f.payload) + r.err)
      case Exit => Reply([], [], if |f.payload| == 4 then Some(FromI32(f.payload)) else None)
      case _ => Reply([], [], None)
  }

  /** No server diagnostic among the frames. */
  predicate NoError(fs: seq<Frame>) {
    forall i :: 0 <= i < |fs| ==> fs[i].kind != Error
  }

  /** What has been printed since `start`, with `left` still to come, makes `all`. */
  ghost predicate Printed(start: seq<byte>, now: seq<byte>, left: seq<byte>, all: seq<byte>) {
    && start <= now <= start + all && now + left == start + all
    && (left == [] ==> now == start + all)
  }

  lemma PrintedStart(start: seq<byte>, all: seq<byte>)
    ensures Printed(start, start, all, all)
  {
    if all == [] { assert start + all == start; }
  }

  lemma PrintedMore(start: seq<byte>, was: seq<byte>, now: seq<byte>, part: seq<byte>, left: seq<byte>, all: seq<byte>)
    requires Printed(start, was, part + left, all) && was <= now <= was + part
    ensures start <= now <= start + all
    ensures now == was + part ==> Printed(start, now, left, all)
  {
    StillWithin(was, now, part, left, start + all);
    if left == [] { assert now + [] == now; }
  }

  /** One write to the client's stdout or stderr. */
  method Show(
      sink: ByteSink, data: seq<byte>, ghost start: seq<byte>, ghost left: seq<byte>, ghost all: seq<byte>,
      ghost sure: bool)
    returns (ok: bool)
    requires sure ==> Printed(start, sink.written, data + left, all)
    modifies sink
    ensures old(sink.Working()) ==> sink.Working() && ok
    ensures sure ==> start <= sink.written <= start + all && (ok ==> Printed(start, sink.written, left, all))
  {
    ghost var was := sink.written;
    ok := sink.WriteAll(data);
    if sure { PrintedMore(start, was, sink.written, data, left, all); }
  }

  /** Output so far on the client's stdout and stderr, and what was there before. */
  datatype Screen = Screen(out: seq<byte>, err: seq<byte>, out0: seq<byte>, err0: seq<byte>)

  /** The books of the client's loop while `left` is still to come; `sure` tells whether
      stderr is kept too. */
  ghost predicate Books(left: Reply, reply: Reply, sure: bool, s: Screen) {
    && left.code == reply.code
    && Printed(s.out0, s.out, left.out, reply.out)
    && (sure ==> Printed(s.err0, s.err, left.err, reply.err))
  }

  /** What the client is left with: prefixes of the reply, all of it with a code. */
  ghost predicate Result(code: Option<int>, reply: Reply, sure: bool, s: Screen) {
    && s.out0 <= s.out <= s.out0 + reply.out
    && (code.Some? ==> code == reply.code && s.out == s.out0 + reply.out)
    && (sure ==> s.err0 <= s.err <= s.err0 + reply.err && (code.Some? ==> s.err == s.err0 + reply.err))
  }

  /** And if nothing failed. */
  ghost predicate FullResult(code: Option<int>, reply: Reply, s: Screen) {
    code == reply.code && s.out == s.out0 + reply.out && s.err == s.err0 + reply.err
  }

  /** The body of the client's loop: one frame, after which it goes on or returns. */
  method Handle(
      frame: Frame, out: ByteSink, err: ByteSink, ghost tail: seq<Frame>, ghost reply: Reply, ghost sure: bool,
      ghost out0: seq<byte>, ghost err0: seq<byte>)
    returns (over: bool, code: Option<int>)
    requires out != err
    requires Books(Receive([frame] + tail), reply, sure, Screen(out.written, err.written, out0, err0))
    modifies out, err
    ensures old(out.Working()) ==> out.Working()
    ensures old(err.Working()) ==> err.Working()
    ensures var now := Screen(out.written, err.written, out0, err0);
            var safe := sure && (old(err.Working()) || frame.kind != Error);
            if over
            then Result(code, reply, safe, now)
              && (safe && old(out.Working()) && old(err.Working()) ==> FullResult(code, reply, now))
            else Books(Receive(tail), reply, safe, now)
  {
    ghost var left := Receive(tail);
    ReceiveStep(frame, tail);
    over, code := false, None;
    if frame.kind == Stdout {
      var ok := Show(out, frame.payload, out0, left.out, reply.out, true);
      over := !ok;
    } else if frame.kind == Stderr {
      var ok := Show(err, frame.payload, err0, left.err, reply.err, sure);
      over := !ok;
    } else if frame.kind == Error {
      var ignored := Show(err, Diagnostic(frame.payload), err0, left.err, reply.err, sure);
    } else {
      over := true;
      if frame.kind == Exit && |frame.payload| == 4 {
        code := Some(FromI32(frame.payload));
      }
    }
  }

  /** The client's output loop. A failed write of output ends it without a code, what was
      printed being a prefix; a failed write of a diagnostic is ignored, so stderr is
      vouched for only where it works or gets no diagnostic. */
  method ReceiveOutput(source: ByteSource, out: ByteSink, err: ByteSink) returns (code: Option<int>)
    requires out != err
    modifies source, out, err
    ensures var fs := Frames(old(source.Rest()));
            var now := Screen(out.written, err.written, old(out.written), old(err.written));
            && Result(code, Receive(fs), old(err.Working()) || NoError(fs), now)
            && (old(out.Working() && err.Working()) ==> FullResult(code, Receive(fs), now))
  {
    ghost var frames := Frames(source.Rest());
    ghost var reply, sure := Receive(frames), err.Working() || NoError(frames);
    ghost var out0, err0 := out.written, err.written;
    PrintedStart(out0, reply.out);
    PrintedStart(err0, reply.err);
    while true
      invariant frames == Frames(source.Rest())
      invariant Books(Receive(frames), reply, sure, Screen(out.written, err.written, out0, err0))
      invariant old(out.Working()) ==> out.Working()
      invariant old(err.Working()) ==> err.Working()
      invariant sure ==> old(err.Working()) || NoError(frames)
      decreases |source.Rest()|
    {
      ghost var unread := source.Rest();
      var r := ReadFrameGo(source);
      if r.Failed? {
        NoFrames(unread);
        return None;
      }
      FirstFrame(unread);
      frames := Frames(source.Rest());
      NoErrorStep(r.frame, frames);
      var over, result := Handle(r.frame, out, err, frames, reply, sure, out0, err0);
      if over {
        return result;
      }
    }
  }

  lemma NoFrames(bytes: seq<byte>)
    requires !Decode(bytes).Got?
    ensures Frames(bytes) == [] && Receive(Frames(bytes)) == Reply([], [], None)
  {
  }

  lemma FirstFrame(bytes: seq<byte>)
    requires Decode(bytes).Got?
    ensures Frames(bytes) == [Decode(bytes).frame] + Frames(Decode(bytes).rest)
  {
  }

  lemma NoErrorStep(f: Frame, tail: seq<Frame>)
    ensures NoError([f] + tail) <==> f.kind != Error && NoError(tail)
  {
    var fs := [f] + tail;
    assert fs[0] == f && forall i :: 0 <= i < |tail| ==> fs[i + 1] == tail[i];
    assert forall i :: 0 < i < |fs| ==> fs[i] == tail[i - 1];
  }

  lemma ReceiveStep(f: Frame, tail: seq<Frame>)
    ensures var r, r' := Receive([f] + tail), Receive(tail);
            match f.kind
            case Stdout => r == r'.(out := f.payload + r'.out)
            case Stderr => r == r'.(err := f.payload + r'.err)
            case Error => r == r'.(err := Diagnostic(f.payload) + r'.err)
            case Exit => r == Reply([], [], if |f.payload| == 4 then Some(FromI32(f.payload)) else None)
            case _ => r == Reply([], [], None)
  {
    assert ([f] + tail)[1..] == tail;
  }
}

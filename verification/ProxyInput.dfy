/** The client's stdin on its way to the tool's: the client's input loop, and what the
    server's loop makes of whatever arrives. */
module ProxyInput {
  import opened Wire
  import opened ProxyIo
  import opened Seqs

  const EOF_FRAME := Frame(StdinEof, [])

  /** Nothing but input frames, with `data` in them. */
  ghost predicate IsInput(fs: seq<Frame>, data: seq<byte>) {
    Carries(fs, Stdin, data)
  }

  lemma InputWithEof(fs: seq<Frame>, data: seq<byte>)
    requires IsInput(fs, data)
    ensures AllSendable(fs + [EOF_FRAME])
    ensures EncodeAll(fs + [EOF_FRAME]) == EncodeAll(fs) + Encode(EOF_FRAME)
  {
    EncodeAllAppend(fs, EOF_FRAME);
  }

  /** Where the input loop can end: part of some input frames and an EOF is written, the
      frames holding the beginning of the input, and all of it if the EOF went out. */
  ghost predicate InputOutcome(fs: seq<Frame>, input: seq<byte>, before: seq<byte>, after: seq<byte>) {
    && IsInput(fs, Data(fs, Stdin)) && Data(fs, Stdin) <= input
    && AllSendable(fs + [EOF_FRAME])
    && before <= after <= before + EncodeAll(fs + [EOF_FRAME])
    && (after == before + EncodeAll(fs + [EOF_FRAME]) ==> Data(fs, Stdin) == input)
  }

  /** `forwardInput`: input frames until the input ends, then an EOF; a failed write ends
      it early. */
  method ForwardInput(source: ByteSource, sink: ByteSink) returns (ghost fs: seq<Frame>, ok: bool)
    modifies source, sink
    ensures InputOutcome(fs, old(source.Rest()), old(sink.written), sink.written)
    ensures ok ==> sink.written == old(sink.written) + EncodeAll(fs + [EOF_FRAME])
    ensures old(sink.Working()) ==> ok
  {
    fs := [];
    ghost var before, sent, input := sink.written, [], source.Rest();
    while true
      invariant Carries(fs, Stdin, sent) && sent + source.Rest() == input
      invariant sink.written == before + EncodeAll(fs)
      invariant old(sink.Working()) ==> sink.Working()
      decreases |source.Rest()|
    {
      InputWithEof(fs, sent);
      var data := source.Read(STDIO_BUFFER);
      if data == [] {
        AllOut(sent, input);
        Assoc(before, EncodeAll(fs), Encode(EOF_FRAME));
        ok := WriteFrameGo(sink, EOF_FRAME);
        return;
      }
      ForwardMore(fs, Stdin, sent, data, source.Rest(), input, before);
      ok := WriteFrameGo(sink, Frame(Stdin, data));
      fs, sent := fs + [Frame(Stdin, data)], sent + data;
      if !ok {
        InputWithEof(fs, sent);
        assert |sink.written| < |before + EncodeAll(fs) + Encode(EOF_FRAME)|;
        Assoc(before, EncodeAll(fs), Encode(EOF_FRAME));
        return;
      }
    }
  }

  /** The server's view of input frames. */
  lemma {:induction false} InputIsLeading(fs: seq<Frame>, tail: seq<Frame>)
    requires forall i :: 0 <= i < |fs| ==> fs[i].kind == Stdin
    requires tail != [] ==> tail[0].kind != Stdin
    ensures Leading(fs + tail) == fs
  {
    if fs == [] {
      assert fs + tail == tail;
    } else {
      assert (fs + tail)[1..] == fs[1..] + tail;
      InputIsLeading(fs[1..], tail);
    }
  }

  lemma DataOfPrefix(a: seq<Frame>, b: seq<Frame>, kind: FrameKind)
    requires a <= b
    ensures Data(a, kind) <= Data(b, kind)
  {
    assert b == a + b[|a|..];
    DataConcat(a, b[|a|..], kind);
  }

  /** Whatever part of the client's bytes reaches the server, the tool is owed a prefix of
      the client's input, and the loop can end in order only if everything arrived. */
  lemma InputArrives(fs: seq<Frame>, data: seq<byte>, got: seq<byte>)
    requires IsInput(fs, data)
    requires AllSendable(fs + [EOF_FRAME]) && got <= EncodeAll(fs + [EOF_FRAME])
    ensures Forwarded(Frames(got)) <= data
    ensures ClosesInOrder(Frames(got)) <==> got == EncodeAll(fs + [EOF_FRAME])
    ensures ClosesInOrder(Frames(got)) ==> Forwarded(Frames(got)) == data
  {
    var all := fs + [EOF_FRAME];
    FramesOfCut(all, |got|);
    assert got == EncodeAll(all)[..|got|];
    var frames := Frames(got);
    if |frames| == |all| {
      assert frames == all;
      InputIsLeading(fs, [EOF_FRAME]);
    } else {
      assert frames == fs[..|frames|];
      assert frames + [] == frames;
      InputIsLeading(frames, []);
      DataOfPrefix(frames, fs, Stdin);
    }
    if got == EncodeAll(all) {
      FramesOfEncoding(all, []);
      assert got + [] == got && Frames([]) == [] && all + [] == all;
    }
  }

  /** The two loops end to end, whatever fails and whatever part of the bytes is
      delivered: the tool's stdin is a prefix of the client's, and all of it when the
      server accepts the end. */
  lemma InputReachesTool(
      input: seq<byte>, fs: seq<Frame>, written: seq<byte>, got: seq<byte>, stdin: seq<byte>, closed: bool)
    requires InputOutcome(fs, input, [], written)
    requires got <= written && StdinOutcome(Frames(got), [], stdin, closed)
    ensures stdin <= input
    ensures closed ==> stdin == input
  {
    var all := EncodeAll(fs + [EOF_FRAME]);
    assert [] + all == all;
    InputArrives(fs, Data(fs, Stdin), got);
    assert [] + Forwarded(Frames(got)) == Forwarded(Frames(got));
  }
}

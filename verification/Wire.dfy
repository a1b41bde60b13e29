/** The framed byte protocol between tool proxy server and client: fixed-width
    integers, frames, and what a reader makes of a byte stream. */
module Wire {
  import opened Seqs

  type byte = x: int | 0 <= x < 256

  const MAX_FRAME_BYTES := 1024 * 1024
  const MAX_FIELD_BYTES := 1024 * 1024
  const MAX_ARGUMENTS := 1024

  // ----- integers -----

  function U32(n: nat): (b: seq<byte>)
    requires n < 0x1_0000_0000
    ensures |b| == 4
  {
    [n / 256 / 256 / 256, n / 256 / 256 % 256, n / 256 % 256, n % 256]
  }

  function FromU32(b: seq<byte>): (n: nat)
    requires |b| == 4
    ensures n < 0x1_0000_0000
  {
    (((b[0] as int) * 256 + b[1]) * 256 + b[2]) * 256 + b[3]
  }

  lemma U32RoundTrip(n: nat)
    requires n < 0x1_0000_0000
    ensures FromU32(U32(n)) == n
  {
  }

  lemma FromU32RoundTrip(b: seq<byte>)
    requires |b| == 4
    ensures U32(FromU32(b)) == b
  {
    var top := (b[0] as int) * 256 + b[1];
    assert FromU32(b) / 256 == top * 256 + b[2];
    assert FromU32(b) / 256 / 256 == top;
  }

  /** Signed 32-bit values travel in two's complement. */
  function I32(n: int): seq<byte>
    requires -0x8000_0000 <= n < 0x8000_0000
  {
    U32(if n < 0 then n + 0x1_0000_0000 else n)
  }

  function FromI32(b: seq<byte>): int
    requires |b| == 4
  {
    var n := FromU32(b);
    if n >= 0x8000_0000 then n - 0x1_0000_0000 else n
  }

  lemma I32RoundTrip(n: int)
    requires -0x8000_0000 <= n < 0x8000_0000
    ensures |I32(n)| == 4 && FromI32(I32(n)) == n
  {
    U32RoundTrip(if n < 0 then n + 0x1_0000_0000 else n);
  }

  // ----- frame kinds -----

  datatype FrameKind = Open | Stdin | StdinEof | Stdout | Stderr | Exit | Error | Unknown(value: byte)

  function FromWire(value: byte): FrameKind {
    match value
    case 1 => Open
    case 2 => Stdin
    case 3 => StdinEof
    case 0x10 => Stdout
    case 0x11 => Stderr
    case 0x12 => Exit
    case 0x13 => Error
    case _ => Unknown(value)
  }

  function ToWire(kind: FrameKind): byte {
    match kind
    case Open => 1
    case Stdin => 2
    case StdinEof => 3
    case Stdout => 0x10
    case Stderr => 0x11
    case Exit => 0x12
    case Error => 0x13
    case Unknown(value) => value
  }

  /** An Unknown that does not hide one of the seven assigned numbers. */
  predicate Canonical(kind: FrameKind) {
    kind.Unknown? ==> kind.value !in {1, 2, 3, 0x10, 0x11, 0x12, 0x13}
  }

  /** A kind survives the wire exactly when it is canonical, and every wire
      number survives being read. */
  lemma KindRoundTrip(kind: FrameKind, value: byte)
    ensures FromWire(ToWire(kind)) == kind <==> Canonical(kind)
    ensures ToWire(FromWire(value)) == value && Canonical(FromWire(value))
  {
  }

  /** The numbers the protocol assigns. */
  lemma KindNumbers()
    ensures ToWire(Open) == 0x01 && ToWire(Stdin) == 0x02 && ToWire(StdinEof) == 0x03
    ensures ToWire(Stdout) == 0x10 && ToWire(Stderr) == 0x11 && ToWire(Exit) == 0x12 && ToWire(Error) == 0x13
  {
  }

  // ----- frames -----

  datatype Frame = Frame(kind: FrameKind, payload: seq<byte>)

  predicate Sendable(f: Frame) {
    Canonical(f.kind) && |f.payload| <= MAX_FRAME_BYTES
  }

  predicate AllSendable(fs: seq<Frame>) {
    forall i :: 0 <= i < |fs| ==> Sendable(fs[i])
  }

  function Encode(f: Frame): (b: seq<byte>)
    requires |f.payload| <= MAX_FRAME_BYTES
    ensures |b| == 5 + |f.payload|
  {
    [ToWire(f.kind)] + U32(|f.payload|) + f.payload
  }

  /** The layout: one byte of kind, the payload's length with the most significant byte
      first, the payload. */
  lemma FrameLayout(f: Frame)
    requires |f.payload| <= MAX_FRAME_BYTES
    ensures var b := Encode(f);
            && b[0] == ToWire(f.kind)
            && |f.payload| == 0x100_0000 * (b[1] as int) + 0x1_0000 * (b[2] as int) + 0x100 * (b[3] as int) + b[4] as int
            && b[5..] == f.payload
  {
    var n := |f.payload|;
    U32RoundTrip(n);
    assert Encode(f)[1..5] == U32(n);
  }

  function EncodeAll(fs: seq<Frame>): seq<byte>
    requires AllSendable(fs)
  {
    if fs == [] then [] else Encode(fs[0]) + EncodeAll(fs[1..])
  }

  datatype Decoded = Got(frame: Frame, rest: seq<byte>) | TooLong | EndOfStream

  /** Reading one frame off the front of a stream that then ends. */
  function Decode(b: seq<byte>): Decoded {
    if |b| < 5 then EndOfStream
    else
      var length := FromU32(b[1..5]);
      if length > MAX_FRAME_BYTES then TooLong
      else if |b| < 5 + length then EndOfStream
      else Got(Frame(FromWire(b[0]), b[5..5 + length]), b[5 + length..])
  }

  /** The frames a reader gets before it fails. */
  function Frames(b: seq<byte>): seq<Frame>
    decreases |b|
  {
    var d := Decode(b);
    if d.Got? then [d.frame] + Frames(d.rest) else []
  }

  /** How it fails. */
  function End(b: seq<byte>): Decoded
    decreases |b|
  {
    var d := Decode(b);
    if d.Got? then End(d.rest) else d
  }

  /** A frame is recovered whatever follows it: no encoding is a proper prefix
      of another. */
  lemma DecodeEncode(f: Frame, rest: seq<byte>)
    requires Sendable(f)
    ensures Decode(Encode(f) + rest) == Got(f, rest)
  {
    var b := Encode(f) + rest;
    assert b[1..5] == U32(|f.payload|);
    U32RoundTrip(|f.payload|);
    assert b[5..5 + |f.payload|] == f.payload;
    assert b[5 + |f.payload|..] == rest;
    KindRoundTrip(f.kind, 0);
  }

  /** Whatever is read was written: the bytes consumed are the encoding. */
  lemma EncodeDecode(b: seq<byte>)
    requires Decode(b).Got?
    ensures var Got(f, rest) := Decode(b);
            Sendable(f) && b == Encode(f) + rest
  {
    var Got(f, rest) := Decode(b);
    FromU32RoundTrip(b[1..5]);
    KindRoundTrip(f.kind, b[0]);
    assert b == [b[0]] + b[1..5] + b[5..5 + |f.payload|] + b[5 + |f.payload|..];
  }

  /** A strict prefix of one frame is an unexpected end of stream, never another
      frame. */
  lemma DecodeTruncated(f: Frame, k: nat)
    requires Sendable(f) && k < |Encode(f)|
    ensures Decode(Encode(f)[..k]) == EndOfStream
  {
    var b := Encode(f);
    if k >= 5 {
      assert b[..k][1..5] == b[1..5] == U32(|f.payload|);
      U32RoundTrip(|f.payload|);
    }
  }

  lemma FramesStep(f: Frame, rest: seq<byte>)
    requires Sendable(f)
    ensures Frames(Encode(f) + rest) == [f] + Frames(rest)
    ensures End(Encode(f) + rest) == End(rest)
  {
    DecodeEncode(f, rest);
  }

  /** `got` is what lies wholly within the first k bytes of the encoding. */
  ghost predicate WholeFrames(got: seq<Frame>, fs: seq<Frame>, k: nat)
    requires AllSendable(fs)
  {
    && got <= fs
    && |EncodeAll(got)| <= k
    && (|got| < |fs| ==> k < |EncodeAll(got)| + |Encode(fs[|got|])|)
  }

  lemma WholeFramesStep(got: seq<Frame>, fs: seq<Frame>, k: nat)
    requires AllSendable(fs) && fs != [] && |Encode(fs[0])| <= k
    requires WholeFrames(got, fs[1..], k - |Encode(fs[0])|)
    ensures WholeFrames([fs[0]] + got, fs, k)
  {
    var all := [fs[0]] + got;
    assert all[1..] == got;
    assert fs == [fs[0]] + fs[1..];
    assert forall i :: 0 <= i < |all| ==> all[i] == fs[i];
  }

  lemma NothingWhole(fs: seq<Frame>, k: nat)
    requires AllSendable(fs) && (fs != [] ==> k < |Encode(fs[0])|)
    ensures WholeFrames([], fs, k)
  {
    assert EncodeAll([]) == [];
  }

  /** Reading the concatenated encoding, cut anywhere, gives exactly the frames
      that lie wholly before the cut, then an end of stream. */
  lemma {:induction false} FramesOfCut(fs: seq<Frame>, k: nat)
    requires AllSendable(fs) && k <= |EncodeAll(fs)|
    ensures End(EncodeAll(fs)[..k]) == EndOfStream
    ensures WholeFrames(Frames(EncodeAll(fs)[..k]), fs, k)
  {
    var b := EncodeAll(fs)[..k];
    if fs == [] {
      NothingWhole(fs, k);
      assert b == [];
    } else if k < |Encode(fs[0])| {
      NothingWhole(fs, k);
      assert b == Encode(fs[0])[..k];
      DecodeTruncated(fs[0], k);
    } else {
      var k' := k - |Encode(fs[0])|;
      var tail := EncodeAll(fs[1..])[..k'];
      assert b == Encode(fs[0]) + tail;
      FramesOfCut(fs[1..], k');
      FramesStep(fs[0], tail);
      WholeFramesStep(Frames(tail), fs, k);
    }
  }

  /** The whole encoding gives back the whole list. */
  lemma {:induction false} FramesOfEncoding(fs: seq<Frame>, rest: seq<byte>)
    requires AllSendable(fs)
    ensures Frames(EncodeAll(fs) + rest) == fs + Frames(rest)
    ensures End(EncodeAll(fs) + rest) == End(rest)
  {
    if fs == [] {
      assert EncodeAll(fs) + rest == rest;
    } else {
      var tail := EncodeAll(fs[1..]) + rest;
      assert EncodeAll(fs) + rest == Encode(fs[0]) + tail;
      FramesStep(fs[0], tail);
      FramesOfEncoding(fs[1..], rest);
      HeadTail(fs, Frames(rest));
    }
  }

  lemma {:induction false} EncodeAllAppend(fs: seq<Frame>, f: Frame)
    requires AllSendable(fs) && Sendable(f)
    ensures AllSendable(fs + [f])
    ensures EncodeAll(fs + [f]) == EncodeAll(fs) + Encode(f)
  {
    Snoc(fs, f);
    if fs == [] {
      assert EncodeAll([f]) == Encode(f) + EncodeAll([]);
    } else {
      EncodeAllAppend(fs[1..], f);
      Assoc(Encode(fs[0]), EncodeAll(fs[1..]), Encode(f));
    }
  }
}

/** Splitting a text that arrives in chunks: each chunk is split together with the
    partial line before it, and the last piece is carried over. */
module SseChunks {
  import opened Sse

  function Concat(chunks: seq<string>): string {
    if chunks == [] then "" else chunks[0] + Concat(chunks[1..])
  }

  /** Chunk after chunk, with a partial line buffered. */
  function SplitChunks(buffer: string, chunks: seq<string>): Split
    decreases |chunks|
  {
    if chunks == [] then Split([], buffer)
    else
      var s := SplitLines(buffer + chunks[0]);
      Continue(s.lines, SplitChunks(s.rest, chunks[1..]))
  }

  /** How many chunk borders fall inside a CRLF. Empty chunks do not hide one. */
  function Cuts(chunks: seq<string>): nat {
    if chunks == [] then 0
    else (if CutsCrlf(chunks[0], Concat(chunks[1..])) then 1 else 0) + Cuts(chunks[1..])
  }

  predicate HasCr(text: string) { '\r' in text }

  lemma {:induction false} NoCrNoCuts(chunks: seq<string>)
    requires !HasCr(Concat(chunks))
    ensures Cuts(chunks) == 0
    decreases |chunks|
  {
    if chunks != [] {
      var rest := Concat(chunks[1..]);
      assert Concat(chunks) == chunks[0] + rest;
      assert forall c :: c in chunks[0] ==> c in chunks[0] + rest;
      assert forall c :: c in rest ==> c in chunks[0] + rest;
      NoCrNoCuts(chunks[1..]);
    }
  }

  lemma SplitBorder(current: string, q: string)
    ensures SplitFrom(current, "\r") == Split([current], "")
    ensures SplitFrom("", "\n" + q) == Split([""] + SplitFrom("", q).lines, SplitFrom("", q).rest)
    ensures SplitFrom(current, "\r\n" + q) == Split([current] + SplitFrom("", q).lines, SplitFrom("", q).rest)
  {
    assert "\r"[1..] == "" && SplitFrom("", "") == Split([], "");
    assert ("\n" + q)[1..] == q;
    assert ("\r\n" + q)[2..] == q && Terminator("\r\n" + q) == 2;
  }

  /** A split whose line end comes in the middle. */
  lemma SplitAround(current: string, p: string, q: string, whole: string, a: string)
    requires whole == p + ("\r\n" + q) && a == p + "\r"
    ensures var before := SplitFrom(current, p);
            && SplitFrom(current, a) == Split(before.lines + [before.rest], "")
            && SplitFrom(current, whole) ==
               Split(before.lines + ([before.rest] + SplitFrom("", q).lines), SplitFrom("", q).rest)
  {
    SplitResumes(current, p, "\r");
    SplitResumes(current, p, "\r\n" + q);
    SplitBorder(SplitFrom(current, p).rest, q);
  }

  lemma MiddleLine(x: seq<string>, m: string, y: seq<string>)
    ensures x + ([m] + y) == (x + [m]) + ([""] + y)[1..]
  {
  }

  /** A cut CRLF reads as two line ends: one extra, empty line. */
  lemma CutAddsLine(current: string, a: string, b: string)
    requires CutsCrlf(a, b)
    ensures var s := SplitFrom(current, a);
            var t := SplitFrom("", b);
            && s.rest == "" && t.lines != [] && t.lines[0] == ""
            && SplitFrom(current, a + b) == Split(s.lines + t.lines[1..], t.rest)
  {
    var p, q, whole := a[..|a| - 1], b[1..], a + b;
    assert a == p + "\r" && b == "\n" + q;
    assert whole == p + ("\r\n" + q);
    SplitAround(current, p, q, whole, a);
    SplitBorder("", q);
    MiddleLine(SplitFrom(current, p).lines, SplitFrom(current, p).rest, SplitFrom("", q).lines);
  }

  /** The number of lines is that of the whole text plus the cut CRLFs; what stays
      unterminated is the same. Without cuts the lines are the same too. */
  lemma {:induction false} ChunkedLines(buffer: string, chunks: seq<string>)
    requires OneLine(buffer)
    ensures var s := SplitChunks(buffer, chunks);
            var whole := SplitFrom(buffer, Concat(chunks));
            && |s.lines| == |whole.lines| + Cuts(chunks)
            && s.rest == whole.rest
            && (Cuts(chunks) == 0 ==> s == whole)
    decreases |chunks|
  {
    if chunks != [] {
      var a, b := chunks[0], Concat(chunks[1..]);
      SplitBuffered("", buffer, a);
      assert "" + buffer == buffer;
      var s := SplitFrom(buffer, a);
      SplitShape(buffer, a);
      ChunkedLines(s.rest, chunks[1..]);
      if CutsCrlf(a, b) { CutAddsLine(buffer, a, b); } else { SplitResumes(buffer, a, b); }
    }
  }

  /** Chunked and whole splitting agree exactly when no border cuts a CRLF. */
  lemma ChunkedSplitIsWhole(chunks: seq<string>)
    ensures SplitChunks("", chunks) == SplitLines(Concat(chunks)) <==> Cuts(chunks) == 0
  {
    ChunkedLines("", chunks);
  }
}

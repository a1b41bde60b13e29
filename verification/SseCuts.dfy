/** What cut CRLFs do to the events of the Node parser: a cut ends the block it falls
    in, so each block of the whole text comes apart into pieces. */
module SseCuts {
  import opened Sse
  import opened SseChunks
  import opened SseMeaning
  import opened Seqs

  /** A line of the whole text, and whether a chunk border cuts the CRLF after it. */
  datatype Marked = Marked(text: string, cut: bool)

  datatype MarkedSplit = MarkedSplit(lines: seq<Marked>, rest: string)

  function Unmarked(lines: seq<string>): seq<Marked> {
    seq(|lines|, i requires 0 <= i < |lines| => Marked(lines[i], false))
  }

  /** The last line has its CRLF cut; the parser sees the other half as an empty line,
      which is no line of the text. */
  function JoinAtCut(a: seq<Marked>, b: seq<Marked>): seq<Marked>
    requires a != [] && b != []
  {
    a[..|a| - 1] + [Marked(a[|a| - 1].text, true)] + b[1..]
  }

  /** The lines of the chunks' text, marked where a border cuts. */
  function MarkChunks(buffer: string, chunks: seq<string>): (m: MarkedSplit)
    decreases |chunks|
  {
    if chunks == [] then MarkedSplit([], buffer)
    else
      var s := SplitLines(buffer + chunks[0]);
      var more := MarkChunks(s.rest, chunks[1..]);
      var first := Unmarked(s.lines);
      MarkedSplit(
        if CutsCrlf(chunks[0], Concat(chunks[1..])) && first != [] && more.lines != []
        then JoinAtCut(first, more.lines)
        else first + more.lines,
        more.rest)
  }

  function Texts(lines: seq<Marked>): seq<string> {
    seq(|lines|, i requires 0 <= i < |lines| => lines[i].text)
  }

  /** What the parser reads: an empty line more after each cut one. */
  function Expand(lines: seq<Marked>): seq<string>
    decreases |lines|
  {
    if lines == [] then []
    else (if lines[0].cut then [lines[0].text, ""] else [lines[0].text]) + Expand(lines[1..])
  }

  // ----- the marks are right -----

  lemma {:induction false} ExpandAppend(a: seq<Marked>, b: seq<Marked>)
    ensures Expand(a + b) == Expand(a) + Expand(b)
    decreases |a|
  {
    if a == [] {
      assert a + b == b;
    } else {
      assert (a + b)[1..] == a[1..] + b;
      ExpandAppend(a[1..], b);
      Assoc(if a[0].cut then [a[0].text, ""] else [a[0].text], Expand(a[1..]), Expand(b));
    }
  }

  lemma {:induction false} ExpandUnmarked(lines: seq<string>)
    ensures Expand(Unmarked(lines)) == lines && Texts(Unmarked(lines)) == lines
    decreases |lines|
  {
    if lines != [] {
      assert Unmarked(lines)[1..] == Unmarked(lines[1..]);
      ExpandUnmarked(lines[1..]);
    }
  }

  lemma TextsAppend(a: seq<Marked>, b: seq<Marked>)
    ensures Texts(a + b) == Texts(a) + Texts(b)
  {
  }

  lemma ExpandOne(m: Marked)
    ensures Expand([m]) == if m.cut then [m.text, ""] else [m.text]
  {
    assert [m][1..] == [] && Expand([]) == [];
  }

  lemma ExpandAround(init: seq<Marked>, m: Marked, tail: seq<Marked>)
    ensures Expand(init + [m] + tail) ==
            Expand(init) + (if m.cut then [m.text, ""] else [m.text]) + Expand(tail)
  {
    ExpandOne(m);
    ExpandAppend(init, [m]);
    ExpandAppend(init + [m], tail);
  }

  lemma Halves(x: seq<string>, m: string, y: seq<string>)
    ensures x + [m, ""] + y == (x + [m]) + ([""] + y)
  {
  }

  lemma JoinedExpand(init: seq<Marked>, text: string, tail: seq<Marked>)
    ensures Expand(init + [Marked(text, true)] + tail) ==
            Expand(init + [Marked(text, false)]) + Expand([Marked("", false)] + tail)
  {
    ExpandAround(init, Marked(text, true), tail);
    ExpandAppend(init, [Marked(text, false)]);
    ExpandOne(Marked(text, false));
    ExpandAppend([Marked("", false)], tail);
    ExpandOne(Marked("", false));
    Halves(Expand(init), text, Expand(tail));
  }

  lemma JoinedTexts(init: seq<Marked>, text: string, tail: seq<Marked>)
    ensures Texts(init + [Marked(text, true)] + tail) ==
            Texts(init + [Marked(text, false)]) + Texts([Marked("", false)] + tail)[1..]
  {
  }

  lemma JoinedLines(a: seq<Marked>, b: seq<Marked>)
    requires a != [] && !a[|a| - 1].cut && b != [] && b[0] == Marked("", false)
    ensures Expand(JoinAtCut(a, b)) == Expand(a) + Expand(b)
    ensures Texts(JoinAtCut(a, b)) == Texts(a) + Texts(b)[1..]
  {
    var init, last, tail := a[..|a| - 1], a[|a| - 1], b[1..];
    assert last == Marked(last.text, false);
    assert a == init + [last] && b == [Marked("", false)] + tail;
    JoinedExpand(init, last.text, tail);
    JoinedTexts(init, last.text, tail);
  }

  /** A piece that starts with "\n" has an empty, uncut line first. */
  lemma {:induction false} LeadingNewline(chunks: seq<string>)
    requires Concat(chunks) != "" && Concat(chunks)[0] == '\n'
    ensures MarkChunks("", chunks).lines != [] && MarkChunks("", chunks).lines[0] == Marked("", false)
    decreases |chunks|
  {
    var a := chunks[0];
    assert "" + a == a;
    if a == "" {
      assert SplitLines("") == Split([], "");
      assert Unmarked([]) == [] && Concat(chunks) == Concat(chunks[1..]);
      LeadingNewline(chunks[1..]);
      assert MarkChunks("", chunks).lines == [] + MarkChunks("", chunks[1..]).lines;
    } else {
      assert a[0] == '\n';
      var s := SplitLines(a);
      assert Terminator(a) == 1 && s.lines[0] == "";
      NewlineFirst(a, chunks[1..]);
    }
  }

  lemma NewlineFirst(a: string, rest: seq<string>)
    requires a != "" && a[0] == '\n'
    ensures MarkChunks("", [a] + rest).lines != [] && MarkChunks("", [a] + rest).lines[0] == Marked("", false)
  {
    assert ([a] + rest)[1..] == rest && "" + a == a;
    var s := SplitLines(a);
    assert Terminator(a) == 1 && s.lines == [""] + SplitFrom("", a[1..]).lines;
    if CutsCrlf(a, Concat(rest)) {
      assert a[1..] != "" && a[1..][|a| - 2] == '\r';
      CutAddsLine("", a[1..], Concat(rest));
      EndsWithCr("", a[1..]);
    }
  }

  lemma EndsWithCr(current: string, text: string)
    requires text != "" && text[|text| - 1] == '\r'
    ensures SplitFrom(current, text).lines != [] && SplitFrom(current, text).rest == ""
  {
    CutAddsLine(current, text, "\n");
    var p := text[..|text| - 1];
    assert text == p + "\r";
    SplitAround(current, p, "", p + ("\r\n" + ""), text);
  }

  /** The marked lines are those of the whole text, and expanding them gives what the
      chunked split finds. */
  lemma {:induction false} MarksAreRight(buffer: string, chunks: seq<string>)
    requires OneLine(buffer)
    ensures var m := MarkChunks(buffer, chunks);
            && Split(Texts(m.lines), m.rest) == SplitFrom(buffer, Concat(chunks))
            && Split(Expand(m.lines), m.rest) == SplitChunks(buffer, chunks)
    decreases |chunks|
  {
    if chunks != [] {
      var a, b := chunks[0], Concat(chunks[1..]);
      SplitBuffered("", buffer, a);
      assert "" + buffer == buffer;
      var s := SplitFrom(buffer, a);
      SplitShape(buffer, a);
      MarksAreRight(s.rest, chunks[1..]);
      ExpandUnmarked(s.lines);
      var first, more := Unmarked(s.lines), MarkChunks(s.rest, chunks[1..]).lines;
      if CutsCrlf(a, b) {
        CutAddsLine(buffer, a, b);
        EndsWithCr(buffer, a);
        LeadingNewline(chunks[1..]);
        JoinedLines(first, more);
      } else {
        SplitResumes(buffer, a, b);
        ExpandAppend(first, more);
        TextsAppend(first, more);
      }
    }
  }

  // ----- pieces of blocks -----

  /** A block as the cuts leave it: the last piece is still open. */
  function Pieces(block: seq<Marked>): (pieces: seq<seq<string>>)
    ensures pieces != []
    decreases |block|
  {
    if block == [] then [[]]
    else
      var before, last := Pieces(block[..|block| - 1]), block[|block| - 1];
      var n := |before| - 1;
      before[..n] + [before[n] + [last.text]] + (if last.cut then [[]] else [])
  }

  function Done(block: seq<Marked>): seq<seq<string>> {
    Pieces(block)[..|Pieces(block)| - 1]
  }

  function LastPiece(block: seq<Marked>): seq<string> {
    Pieces(block)[|Pieces(block)| - 1]
  }

  datatype MarkedBlocks = MarkedBlocks(ended: seq<seq<Marked>>, open: seq<Marked>)

  function MarkedBlocksFrom(open: seq<Marked>, lines: seq<Marked>): MarkedBlocks
    decreases |lines|
  {
    if lines == [] then MarkedBlocks([], open)
    else if lines[0].text == "" then
      var more := MarkedBlocksFrom([], lines[1..]);
      MarkedBlocks([open] + more.ended, more.open)
    else MarkedBlocksFrom(open + [lines[0]], lines[1..])
  }

  /** The blocks of the text with their marks, the open one last. */
  function AllMarked(m: MarkedSplit): seq<seq<Marked>> {
    var blocks := MarkedBlocksFrom([], m.lines);
    blocks.ended + [if m.rest == "" then blocks.open else blocks.open + [Marked(m.rest, false)]]
  }

  function TextsOfAll(blocks: seq<seq<Marked>>): seq<seq<string>> {
    seq(|blocks|, i requires 0 <= i < |blocks| => Texts(blocks[i]))
  }

  function CutMeaning(blocks: seq<seq<Marked>>): seq<RawEvent>
    decreases |blocks|
  {
    if blocks == [] then [] else MeaningOfAll(Pieces(blocks[0])) + CutMeaning(blocks[1..])
  }

  lemma {:induction false} TextBlocks(open: seq<Marked>, lines: seq<Marked>)
    ensures var m := MarkedBlocksFrom(open, lines);
            BlocksFrom(Texts(open), Texts(lines)) == Blocks(TextsOfAll(m.ended), Texts(m.open))
    decreases |lines|
  {
    if lines != [] {
      assert Texts(lines)[1..] == Texts(lines[1..]);
      if lines[0].text == "" {
        TextBlocks([], lines[1..]);
        var more := MarkedBlocksFrom([], lines[1..]).ended;
        assert TextsOfAll([open] + more) == [Texts(open)] + TextsOfAll(more);
        assert Texts([]) == [];
      } else {
        assert Texts(open + [lines[0]]) == Texts(open) + [lines[0].text];
        TextBlocks(open + [lines[0]], lines[1..]);
      }
    }
  }

  lemma TextBlocksOfAll(m: MarkedSplit)
    ensures AllBlocks(Split(Texts(m.lines), m.rest)) == TextsOfAll(AllMarked(m))
  {
    assert Texts([]) == [];
    TextBlocks([], m.lines);
    var blocks := MarkedBlocksFrom([], m.lines);
    TextsAppend(blocks.open, [Marked(m.rest, false)]);
    assert Texts([Marked(m.rest, false)]) == [m.rest];
    var open := if m.rest == "" then blocks.open else blocks.open + [Marked(m.rest, false)];
    assert TextsOfAll(blocks.ended + [open]) == TextsOfAll(blocks.ended) + [Texts(open)];
  }

  lemma PieceGrows(block: seq<Marked>, m: Marked)
    ensures var all := block + [m];
            if m.cut
            then Done(all) == Done(block) + [LastPiece(block) + [m.text]] && LastPiece(all) == []
            else Done(all) == Done(block) && LastPiece(all) == LastPiece(block) + [m.text]
  {
    assert (block + [m])[..|block|] == block;
  }

  lemma PiecesMean(block: seq<Marked>)
    ensures MeaningOfAll(Pieces(block)) == MeaningOfAll(Done(block)) + Meaning(LastPiece(block))
  {
    LastOfAll(Pieces(block));
  }

  lemma LastOfAll(pieces: seq<seq<string>>)
    requires pieces != []
    ensures MeaningOfAll(pieces) == MeaningOfAll(pieces[..|pieces| - 1]) + Meaning(pieces[|pieces| - 1])
  {
    var init, last := pieces[..|pieces| - 1], pieces[|pieces| - 1];
    assert pieces == init + [last];
    MeaningAppend(init, [last]);
    MeaningOfOne(last);
  }

  /** The lines the parser reads after those of an open block. */
  lemma BlockOfExpanded(open: seq<string>, m: Marked, more: seq<string>)
    ensures m.text == "" && !m.cut ==>
              BlocksFrom(open, [m.text] + more) == Blocks([open] + BlocksFrom([], more).ended, BlocksFrom([], more).open)
    ensures m.text == "" && m.cut ==>
              BlocksFrom(open, [m.text, ""] + more) ==
              Blocks([open] + ([[]] + BlocksFrom([], more).ended), BlocksFrom([], more).open)
    ensures m.text != "" && !m.cut ==> BlocksFrom(open, [m.text] + more) == BlocksFrom(open + [m.text], more)
    ensures m.text != "" && m.cut ==>
              BlocksFrom(open, [m.text, ""] + more) ==
              Blocks([open + [m.text]] + BlocksFrom([], more).ended, BlocksFrom([], more).open)
  {
    assert ([m.text] + more)[1..] == more;
    var two := [m.text, ""] + more;
    assert two[1..] == [""] + more && ([""] + more)[1..] == more;
  }

  lemma MeaningCons(block: seq<string>, blocks: seq<seq<string>>)
    ensures MeaningOfAll([block] + blocks) == Meaning(block) + MeaningOfAll(blocks)
  {
    assert ([block] + blocks)[1..] == blocks;
  }

  /** What the chunked lines yield, besides the pieces of `open` already done. */
  ghost predicate YieldsPieces(open: seq<Marked>, lines: seq<Marked>) {
    var read := BlocksFrom(LastPiece(open), Expand(lines));
    var blocks := MarkedBlocksFrom(open, lines);
    && MeaningOfAll(Done(open)) + MeaningOfAll(read.ended) == CutMeaning(blocks.ended) + MeaningOfAll(Done(blocks.open))
    && read.open == LastPiece(blocks.open)
  }

  lemma EndOfBlock(open: seq<Marked>, lines: seq<Marked>)
    requires lines != [] && lines[0].text == "" && YieldsPieces([], lines[1..])
    ensures YieldsPieces(open, lines)
  {
    var rest := lines[1..];
    var read, blocks := BlocksFrom([], Expand(rest)), MarkedBlocksFrom([], rest);
    BlockOfExpanded(LastPiece(open), lines[0], Expand(rest));
    MeaningCons([], read.ended);
    assert Meaning([]) == [] && [] + MeaningOfAll(read.ended) == MeaningOfAll(read.ended);
    MeaningCons(LastPiece(open), read.ended);
    MeaningCons(LastPiece(open), [[]] + read.ended);
    PiecesMean(open);
    assert MeaningOfAll(Done([])) == [] && [] + MeaningOfAll(read.ended) == MeaningOfAll(read.ended);
    Assoc(MeaningOfAll(Done(open)), Meaning(LastPiece(open)), MeaningOfAll(read.ended));
    var all := [open] + blocks.ended;
    assert all[1..] == blocks.ended;
    Assoc(MeaningOfAll(Pieces(open)), CutMeaning(blocks.ended), MeaningOfAll(Done(blocks.open)));
  }

  lemma MiddleOfBlock(open: seq<Marked>, lines: seq<Marked>)
    requires lines != [] && lines[0].text != "" && YieldsPieces(open + [lines[0]], lines[1..])
    ensures YieldsPieces(open, lines)
  {
    var m, more := lines[0], Expand(lines[1..]);
    PieceGrows(open, m);
    BlockOfExpanded(LastPiece(open), m, more);
    if m.cut {
      var piece, ended := LastPiece(open) + [m.text], BlocksFrom([], more).ended;
      MeaningAppend(Done(open), [piece]);
      MeaningOfOne(piece);
      MeaningCons(piece, ended);
      Assoc(MeaningOfAll(Done(open)), Meaning(piece), MeaningOfAll(ended));
    }
  }

  lemma {:induction false} ExpandedYields(open: seq<Marked>, lines: seq<Marked>)
    ensures YieldsPieces(open, lines)
    decreases |lines|
  {
    if lines == [] {
      assert MeaningOfAll(Done(open)) + [] == [] + MeaningOfAll(Done(open));
    } else if lines[0].text == "" {
      ExpandedYields([], lines[1..]);
      EndOfBlock(open, lines);
    } else {
      ExpandedYields(open + [lines[0]], lines[1..]);
      MiddleOfBlock(open, lines);
    }
  }

  lemma {:induction false} CutMeaningAppend(blocks: seq<seq<Marked>>, last: seq<Marked>)
    ensures CutMeaning(blocks + [last]) == CutMeaning(blocks) + MeaningOfAll(Pieces(last))
    decreases |blocks|
  {
    var all := blocks + [last];
    if blocks == [] {
      assert all[1..] == [] && MeaningOfAll(Pieces(last)) + [] == [] + MeaningOfAll(Pieces(last));
    } else {
      assert all[1..] == blocks[1..] + [last];
      CutMeaningAppend(blocks[1..], last);
      Assoc(MeaningOfAll(Pieces(blocks[0])), CutMeaning(blocks[1..]), MeaningOfAll(Pieces(last)));
    }
  }

  /** What the Node parser yields from chunks: the meaning of the pieces. */
  lemma ChunkedParseIsCutMeaning(chunks: seq<string>)
    ensures ParseFrom(Node, START, SplitChunks("", chunks)) == CutMeaning(AllMarked(MarkChunks("", chunks)))
  {
    var m := MarkChunks("", chunks);
    MarksAreRight("", chunks);
    SplitParseIsMeaning(SplitChunks("", chunks));
    ExpandedYields([], m.lines);
    var read, blocks := BlocksFrom([], Expand(m.lines)), MarkedBlocksFrom([], m.lines);
    assert MeaningOfAll(Done([])) == [] && [] + MeaningOfAll(read.ended) == MeaningOfAll(read.ended);
    var open := if m.rest == "" then blocks.open else blocks.open + [Marked(m.rest, false)];
    var piece := if m.rest == "" then read.open else read.open + [m.rest];
    if m.rest != "" { PieceGrows(blocks.open, Marked(m.rest, false)); }
    assert LastPiece(open) == piece && Done(open) == Done(blocks.open);
    PiecesMean(open);
    CutMeaningAppend(blocks.ended, open);
    MeaningAppend(read.ended, [piece]);
    MeaningOfOne(piece);
    Assoc(CutMeaning(blocks.ended), MeaningOfAll(Done(open)), Meaning(piece));
  }

  // ----- when the pieces say what the block says -----

  function Carrying(pieces: seq<seq<string>>): nat
    decreases |pieces|
  {
    if pieces == [] then 0
    else (if DataValues(pieces[0]) == [] then 0 else 1) + Carrying(pieces[1..])
  }

  /** At most one piece holds data, and it has the name of the block. */
  predicate Harmless(block: seq<Marked>) {
    && Carrying(Pieces(block)) <= 1
    && forall i :: 0 <= i < |Pieces(block)| && DataValues(Pieces(block)[i]) != [] ==>
         EventName(Pieces(block)[i]) == EventName(Texts(block))
  }

  function DataOfAll(pieces: seq<seq<string>>): seq<string>
    decreases |pieces|
  {
    if pieces == [] then [] else DataValues(pieces[0]) + DataOfAll(pieces[1..])
  }

  lemma {:induction false} DataOfAllAppend(a: seq<seq<string>>, b: seq<seq<string>>)
    ensures DataOfAll(a + b) == DataOfAll(a) + DataOfAll(b)
    decreases |a|
  {
    if a == [] {
      assert a + b == b;
    } else {
      assert (a + b)[1..] == a[1..] + b;
      DataOfAllAppend(a[1..], b);
      Assoc(DataValues(a[0]), DataOfAll(a[1..]), DataOfAll(b));
    }
  }

  lemma DataOfOne(piece: seq<string>)
    ensures DataOfAll([piece]) == DataValues(piece)
  {
    assert [piece][1..] == [] && DataOfAll([]) == [] && DataValues(piece) + [] == DataValues(piece);
  }

  /** Cutting a block loses no data. */
  lemma {:induction false} PiecesHoldData(block: seq<Marked>)
    ensures DataOfAll(Pieces(block)) == DataValues(Texts(block))
    decreases |block|
  {
    if block == [] {
      DataOfOne([]);
    } else {
      var n := |block| - 1;
      var init, m := block[..n], block[n];
      assert block == init + [m];
      PiecesHoldData(init);
      PieceGrows(init, m);
      TextsAppend(init, [m]);
      var piece := LastPiece(init) + [m.text];
      assert Pieces(init) == Done(init) + [LastPiece(init)];
      DataOfAllAppend(Done(init), [LastPiece(init)]);
      DataOfOne(LastPiece(init));
      DataGrows(Done(init), LastPiece(init), m.text);
      DataValuesGrow(Texts(init), m.text);
      assert Texts(block) == Texts(init) + [m.text];
      if m.cut {
        assert Pieces(block) == (Done(init) + [piece]) + [[]];
        DataOfAllAppend(Done(init) + [piece], [[]]);
        DataOfOne([]);
      } else {
        assert Pieces(block) == Done(init) + [piece];
      }
    }
  }

  function LineData(line: string): seq<string> {
    if Field(line) == "data" then [TrimOne(RawValue(line))] else []
  }

  lemma DataValuesGrow(block: seq<string>, line: string)
    ensures DataValues(block + [line]) == DataValues(block) + LineData(line)
  {
    assert (block + [line])[..|block|] == block;
  }

  lemma DataGrows(done: seq<seq<string>>, piece: seq<string>, line: string)
    ensures DataOfAll(done + [piece + [line]]) == (DataOfAll(done) + DataValues(piece)) + LineData(line)
  {
    DataOfAllAppend(done, [piece + [line]]);
    DataOfOne(piece + [line]);
    DataValuesGrow(piece, line);
    Assoc(DataOfAll(done), DataValues(piece), LineData(line));
  }

  /** Counting what pieces yield. */
  lemma {:induction false} PiecesYield(pieces: seq<seq<string>>)
    ensures |MeaningOfAll(pieces)| == Carrying(pieces)
    ensures DataOfAll(pieces) == [] <==> Carrying(pieces) == 0
    decreases |pieces|
  {
    if pieces != [] { PiecesYield(pieces[1..]); }
  }

  lemma {:induction false} NothingCarried(pieces: seq<seq<string>>)
    requires Carrying(pieces) == 0
    ensures forall i :: 0 <= i < |pieces| ==> DataValues(pieces[i]) == []
    decreases |pieces|
  {
    if pieces != [] {
      var rest := pieces[1..];
      NothingCarried(rest);
      assert forall i :: 0 < i < |pieces| ==> pieces[i] == rest[i - 1];
    }
  }

  /** The piece at `k` is the only one with data. */
  ghost predicate OnlyAt(pieces: seq<seq<string>>, k: nat) {
    && k < |pieces| && DataValues(pieces[k]) == DataOfAll(pieces)
    && MeaningOfAll(pieces) == Meaning(pieces[k])
    && forall i :: 0 <= i < |pieces| && i != k ==> DataValues(pieces[i]) == []
  }

  lemma OnlyFirst(first: seq<string>, rest: seq<seq<string>>)
    requires Carrying(rest) == 0
    ensures OnlyAt([first] + rest, 0)
  {
    var pieces := [first] + rest;
    assert pieces[1..] == rest;
    NothingCarried(rest);
    PiecesYield(rest);
    assert DataValues(first) + [] == DataValues(first) && Meaning(first) + [] == Meaning(first);
    assert forall i :: 0 < i < |pieces| ==> pieces[i] == rest[i - 1];
  }

  lemma OnlyLater(first: seq<string>, rest: seq<seq<string>>, k: nat)
    requires DataValues(first) == [] && OnlyAt(rest, k)
    ensures OnlyAt([first] + rest, k + 1)
  {
    var pieces := [first] + rest;
    assert pieces[1..] == rest;
    assert [] + DataOfAll(rest) == DataOfAll(rest) && [] + MeaningOfAll(rest) == MeaningOfAll(rest);
    assert forall i :: 0 < i < |pieces| ==> pieces[i] == rest[i - 1];
  }

  /** A single piece with data yields all there is. */
  lemma {:induction false} OnePieceYields(pieces: seq<seq<string>>) returns (k: nat)
    requires Carrying(pieces) == 1
    ensures OnlyAt(pieces, k) && DataOfAll(pieces) != []
    decreases |pieces|
  {
    var first, rest := pieces[0], pieces[1..];
    assert pieces == [first] + rest;
    PiecesYield(pieces);
    if DataValues(first) == [] {
      k := OnePieceYields(rest);
      OnlyLater(first, rest, k);
      k := k + 1;
    } else {
      k := 0;
      OnlyFirst(first, rest);
    }
  }

  /** The pieces of a block yield at least as many events as the block, and the same
      exactly when the cuts are harmless. */
  lemma BlockCut(block: seq<Marked>)
    ensures |MeaningOfAll(Pieces(block))| >= |Meaning(Texts(block))|
    ensures MeaningOfAll(Pieces(block)) == Meaning(Texts(block)) <==> Harmless(block)
  {
    var pieces := Pieces(block);
    PiecesHoldData(block);
    PiecesYield(pieces);
    if Carrying(pieces) == 0 {
      NothingCarried(pieces);
    } else if Carrying(pieces) == 1 {
      var k := OnePieceYields(pieces);
      assert Meaning(pieces[k])[0].event == EventName(pieces[k]);
      assert Meaning(Texts(block))[0].event == EventName(Texts(block));
    }
  }

  lemma SplitEqual(a: seq<RawEvent>, b: seq<RawEvent>, x: seq<RawEvent>, y: seq<RawEvent>)
    requires |a| >= |b| && |x| >= |y|
    ensures a + x == b + y <==> a == b && x == y
  {
    if a + x == b + y {
      assert |a| == |b|;
      assert a == (a + x)[..|a|] && b == (b + y)[..|b|];
      assert x == (a + x)[|a|..] && y == (b + y)[|b|..];
    }
  }

  lemma {:induction false} CutsAreHarmless(blocks: seq<seq<Marked>>)
    ensures |CutMeaning(blocks)| >= |MeaningOfAll(TextsOfAll(blocks))|
    ensures CutMeaning(blocks) == MeaningOfAll(TextsOfAll(blocks)) <==>
            forall i :: 0 <= i < |blocks| ==> Harmless(blocks[i])
    decreases |blocks|
  {
    if blocks != [] {
      var rest := blocks[1..];
      assert TextsOfAll(blocks)[1..] == TextsOfAll(rest);
      BlockCut(blocks[0]);
      CutsAreHarmless(rest);
      SplitEqual(MeaningOfAll(Pieces(blocks[0])), Meaning(Texts(blocks[0])), CutMeaning(rest), MeaningOfAll(TextsOfAll(rest)));
      assert forall i :: 0 < i < |blocks| ==> blocks[i] == rest[i - 1];
      assert forall i :: 0 <= i < |rest| ==> rest[i] == blocks[i + 1];
    }
  }

  /** Every block comes out of its cuts with at most one piece that holds data, under
      the block's name. */
  predicate HarmlessCuts(chunks: seq<string>) {
    var blocks := AllMarked(MarkChunks("", chunks));
    forall i :: 0 <= i < |blocks| ==> Harmless(blocks[i])
  }

  /** Exactly when the events do not depend on the chunking. */
  lemma ChunkingIsHarmless(chunks: seq<string>)
    ensures ParseFrom(Node, START, SplitChunks("", chunks)) == Parse(Node, Concat(chunks)) <==> HarmlessCuts(chunks)
  {
    var m := MarkChunks("", chunks);
    MarksAreRight("", chunks);
    ChunkedParseIsCutMeaning(chunks);
    NodeParseIsMeaning(Concat(chunks));
    TextBlocksOfAll(m);
    CutsAreHarmless(AllMarked(m));
  }
}

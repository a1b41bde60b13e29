/** What a text means, without running a parser: its lines fall into blocks ended
    by empty lines, and each block with data is one event. */
module SseMeaning {
  import opened Sse

  datatype Blocks = Blocks(ended: seq<seq<string>>, open: seq<string>)

  function BlocksFrom(open: seq<string>, lines: seq<string>): Blocks
    decreases |lines|
  {
    if lines == [] then Blocks([], open)
    else if lines[0] == "" then
      var more := BlocksFrom([], lines[1..]);
      Blocks([open] + more.ended, more.open)
    else BlocksFrom(open + [lines[0]], lines[1..])
  }

  /** The values of the data fields, in order. */
  function DataValues(block: seq<string>): seq<string>
    decreases |block|
  {
    if block == [] then []
    else
      var last := block[|block| - 1];
      DataValues(block[..|block| - 1]) + (if Field(last) == "data" then [TrimOne(RawValue(last))] else [])
  }

  /** The value of the last event field, if any. */
  function EventName(block: seq<string>): string
    decreases |block|
  {
    if block == [] then MESSAGE
    else
      var last := block[|block| - 1];
      if Field(last) == "event" then TrimOne(RawValue(last)) else EventName(block[..|block| - 1])
  }

  function Meaning(block: seq<string>): seq<RawEvent> {
    if DataValues(block) == [] then [] else [RawEvent(EventName(block), JoinLines(DataValues(block)))]
  }

  function MeaningOfAll(blocks: seq<seq<string>>): seq<RawEvent>
    decreases |blocks|
  {
    if blocks == [] then [] else Meaning(blocks[0]) + MeaningOfAll(blocks[1..])
  }

  /** The blocks of a text, the open one last; an unterminated last line is part of
      it. */
  function AllBlocks(split: Split): seq<seq<string>> {
    var blocks := BlocksFrom([], split.lines);
    blocks.ended + [if split.rest == "" then blocks.open else blocks.open + [split.rest]]
  }

  /** The events of a text. */
  function TextMeaning(text: string): seq<RawEvent> {
    MeaningOfAll(AllBlocks(SplitLines(text)))
  }

  function StateOf(block: seq<string>): State {
    State(EventName(block), DataValues(block))
  }

  lemma LineExtendsBlock(block: seq<string>, line: string)
    requires line != ""
    ensures NodeLine(StateOf(block), line) == (StateOf(block + [line]), [])
  {
    assert (block + [line])[..|block|] == block;
    assert DataValues(block) + [] == DataValues(block);
    if IsComment(line) { assert Field(line) == ""; }
  }

  lemma {:induction false} LinesMean(open: seq<string>, lines: seq<string>)
    ensures var blocks := BlocksFrom(open, lines);
            Lines(Node, StateOf(open), lines) == (StateOf(blocks.open), MeaningOfAll(blocks.ended))
    decreases |lines|
  {
    if lines != [] {
      var rest := lines[1..];
      if lines[0] == "" {
        LinesMean([], rest);
        var more := BlocksFrom([], rest).ended;
        assert ([open] + more)[0] == open && ([open] + more)[1..] == more;
      } else {
        LineExtendsBlock(open, lines[0]);
        LinesMean(open + [lines[0]], rest);
        assert [] + Lines(Node, StateOf(open + [lines[0]]), rest).1 == Lines(Node, StateOf(open + [lines[0]]), rest).1;
      }
    }
  }

  lemma {:induction false} MeaningAppend(a: seq<seq<string>>, b: seq<seq<string>>)
    ensures MeaningOfAll(a + b) == MeaningOfAll(a) + MeaningOfAll(b)
    decreases |a|
  {
    if a == [] {
      assert a + b == b;
    } else {
      assert (a + b)[1..] == a[1..] + b;
      MeaningAppend(a[1..], b);
    }
  }

  lemma MeaningOfOne(block: seq<string>)
    ensures MeaningOfAll([block]) == Meaning(block)
  {
    assert [block][1..] == [] && MeaningOfAll([]) == [];
  }

  /** The Node parse of lines and an unterminated rest is what their blocks mean. */
  lemma SplitParseIsMeaning(split: Split)
    ensures ParseFrom(Node, START, split) == MeaningOfAll(AllBlocks(split))
  {
    LinesMean([], split.lines);
    var blocks := BlocksFrom([], split.lines);
    var open := if split.rest == "" then blocks.open else blocks.open + [split.rest];
    if split.rest != "" { LineExtendsBlock(blocks.open, split.rest); }
    MeaningAppend(blocks.ended, [open]);
    MeaningOfOne(open);
  }

  /** The Node parse of a text is what its blocks mean. */
  lemma NodeParseIsMeaning(text: string)
    ensures Parse(Node, text) == TextMeaning(text)
  {
    SplitParseIsMeaning(SplitLines(text));
  }
}

/** What the .NET parser makes of a text, block by block, and exactly when it agrees
    with the Node parser. */
module SseDialects {
  import opened Sse
  import opened SseMeaning

  /** The block has an event field. */
  predicate HasName(block: seq<string>) {
    exists i :: 0 <= i < |block| && Field(block[i]) == "event"
  }

  /** The .NET name of a block: its own last one, or the one carried into it. */
  function NetName(carried: string, block: seq<string>): string {
    if HasName(block) then TrimAll(EventName(block)) else carried
  }

  function TrimEach(values: seq<string>): seq<string> {
    seq(|values|, i requires 0 <= i < |values| => TrimAll(values[i]))
  }

  function NetMeaning(carried: string, block: seq<string>): seq<RawEvent> {
    if DataValues(block) == [] then []
    else [RawEvent(NetName(carried, block), JoinLines(TrimEach(DataValues(block))))]
  }

  /** A block without data passes its name on; data puts an end to that. */
  function Carry(carried: string, block: seq<string>): string {
    if DataValues(block) == [] then NetName(carried, block) else MESSAGE
  }

  function NetMeaningOfAll(carried: string, blocks: seq<seq<string>>): seq<RawEvent>
    decreases |blocks|
  {
    if blocks == [] then []
    else NetMeaning(carried, blocks[0]) + NetMeaningOfAll(Carry(carried, blocks[0]), blocks[1..])
  }

  // ----- the .NET parse is the .NET meaning -----

  function NetStateOf(carried: string, block: seq<string>): State {
    State(NetName(carried, block), TrimEach(DataValues(block)))
  }

  lemma TrimTwice(value: string)
    ensures TrimAll(TrimOne(value)) == TrimAll(value)
  {
  }

  lemma HasNameStep(block: seq<string>, line: string)
    ensures HasName(block + [line]) <==> HasName(block) || Field(line) == "event"
  {
    var all := block + [line];
    assert all[|block|] == line;
    if HasName(block) {
      var i :| 0 <= i < |block| && Field(block[i]) == "event";
      assert Field(all[i]) == "event";
    }
    if HasName(all) && Field(line) != "event" {
      var i :| 0 <= i < |all| && Field(all[i]) == "event";
      assert Field(block[i]) == "event";
    }
  }

  lemma NetLineExtends(carried: string, block: seq<string>, line: string)
    requires line != ""
    ensures NetLine(NetStateOf(carried, block), line) == (NetStateOf(carried, block + [line]), [])
  {
    var all := block + [line];
    assert all[..|block|] == block;
    HasNameStep(block, line);
    TrimTwice(RawValue(line));
    assert DataValues(block) + [] == DataValues(block);
    if IsComment(line) { assert Field(line) == ""; }
    var v := TrimOne(RawValue(line));
    assert TrimEach(DataValues(block) + [v]) == TrimEach(DataValues(block)) + [TrimAll(v)];
  }

  function CarryAll(carried: string, blocks: seq<seq<string>>): string
    decreases |blocks|
  {
    if blocks == [] then carried else CarryAll(Carry(carried, blocks[0]), blocks[1..])
  }

  lemma NetBlockEnds(carried: string, block: seq<string>)
    ensures NetLine(NetStateOf(carried, block), "") ==
            (NetStateOf(Carry(carried, block), []), NetMeaning(carried, block))
  {
    assert TrimEach([]) == [] && (TrimEach(DataValues(block)) == [] <==> DataValues(block) == []);
  }

  lemma {:induction false} NetLinesMean(carried: string, open: seq<string>, lines: seq<string>)
    ensures var blocks := BlocksFrom(open, lines);
            Lines(Net, NetStateOf(carried, open), lines) ==
            (NetStateOf(CarryAll(carried, blocks.ended), blocks.open), NetMeaningOfAll(carried, blocks.ended))
    decreases |lines|
  {
    if lines != [] {
      var rest := lines[1..];
      if lines[0] == "" {
        NetBlockEnds(carried, open);
        NetLinesMean(Carry(carried, open), [], rest);
        var more := BlocksFrom([], rest).ended;
        assert ([open] + more)[0] == open && ([open] + more)[1..] == more;
      } else {
        NetLineExtends(carried, open, lines[0]);
        NetLinesMean(carried, open + [lines[0]], rest);
        var found := Lines(Net, NetStateOf(carried, open + [lines[0]]), rest).1;
        assert [] + found == found;
      }
    }
  }

  lemma {:induction false} NetMeaningAppend(carried: string, blocks: seq<seq<string>>, last: seq<string>)
    ensures NetMeaningOfAll(carried, blocks + [last]) ==
            NetMeaningOfAll(carried, blocks) + NetMeaning(CarryAll(carried, blocks), last)
    decreases |blocks|
  {
    var all := blocks + [last];
    if blocks == [] {
      assert all[1..] == [];
    } else {
      assert all[1..] == blocks[1..] + [last];
      NetMeaningAppend(Carry(carried, blocks[0]), blocks[1..], last);
    }
  }

  /** The .NET parse of a text is the .NET meaning of its blocks. */
  lemma NetParseIsMeaning(text: string)
    ensures Parse(Net, text) == NetMeaningOfAll(MESSAGE, AllBlocks(SplitLines(text)))
  {
    var split := SplitLines(text);
    var blocks := BlocksFrom([], split.lines);
    assert TrimEach([]) == [] && NetStateOf(MESSAGE, []) == START;
    NetLinesMean(MESSAGE, [], split.lines);
    var carried := CarryAll(MESSAGE, blocks.ended);
    var open := if split.rest == "" then blocks.open else blocks.open + [split.rest];
    if split.rest != "" { NetLineExtends(carried, blocks.open, split.rest); }
    NetMeaningAppend(MESSAGE, blocks.ended, open);
    assert TrimEach(DataValues(open)) == [] <==> DataValues(open) == [];
  }

  // ----- when the dialects agree -----

  predicate Plain(value: string) {
    value != "" ==> value[0] != ' '
  }

  /** Every block with data has only plain values and a plain last name, and no name is
      carried into it unless it has its own. Blocks without data are free. */
  predicate Alike(carried: string, blocks: seq<seq<string>>)
    decreases |blocks|
  {
    blocks == [] ||
    (&& (DataValues(blocks[0]) != [] ==>
           && (forall i :: 0 <= i < |DataValues(blocks[0])| ==> Plain(DataValues(blocks[0])[i]))
           && (if HasName(blocks[0]) then Plain(EventName(blocks[0])) else carried == MESSAGE))
     && Alike(Carry(carried, blocks[0]), blocks[1..]))
  }

  lemma {:induction false} TrimPlain(value: string)
    ensures |TrimAll(value)| <= |value|
    ensures Plain(value) <==> TrimAll(value) == value
    ensures Plain(value) <==> |TrimAll(value)| == |value|
  {
    if value != "" && value[0] == ' ' { TrimPlain(value[1..]); }
  }

  lemma TrimEachTail(values: seq<string>)
    requires values != []
    ensures TrimEach(values) == [TrimAll(values[0])] + TrimEach(values[1..])
    ensures TrimEach(values)[1..] == TrimEach(values[1..])
  {
  }

  /** Trimming shows in the joined data unless every value is plain. */
  lemma {:induction false} JoinTrimmed(values: seq<string>)
    ensures |JoinLines(TrimEach(values))| <= |JoinLines(values)|
    ensures |JoinLines(TrimEach(values))| == |JoinLines(values)| <==>
            forall i :: 0 <= i < |values| ==> Plain(values[i])
    decreases |values|
  {
    if values != [] {
      var rest := values[1..];
      TrimPlain(values[0]);
      TrimEachTail(values);
      JoinTrimmed(rest);
      assert forall i :: 0 < i < |values| ==> values[i] == rest[i - 1];
      assert forall i :: 0 <= i < |rest| ==> rest[i] == values[i + 1];
    }
  }

  lemma {:induction false} PlainIsKept(values: seq<string>)
    requires forall i :: 0 <= i < |values| ==> Plain(values[i])
    ensures TrimEach(values) == values
  {
    forall i | 0 <= i < |values| ensures TrimAll(values[i]) == values[i] { TrimPlain(values[i]); }
  }

  lemma {:induction false} NamelessIsMessage(block: seq<string>)
    requires !HasName(block)
    ensures EventName(block) == MESSAGE
    decreases |block|
  {
    if block != [] {
      var n := |block| - 1;
      assert block == block[..n] + [block[n]];
      HasNameStep(block[..n], block[n]);
      NamelessIsMessage(block[..n]);
    }
  }

  lemma BlockAlike(carried: string, block: seq<string>)
    requires DataValues(block) != []
    ensures NetMeaning(carried, block) == Meaning(block) <==>
            && (forall i :: 0 <= i < |DataValues(block)| ==> Plain(DataValues(block)[i]))
            && (if HasName(block) then Plain(EventName(block)) else carried == MESSAGE)
  {
    var values := DataValues(block);
    JoinTrimmed(values);
    TrimPlain(EventName(block));
    if !HasName(block) { NamelessIsMessage(block); }
    if forall i :: 0 <= i < |values| ==> Plain(values[i]) { PlainIsKept(values); }
    var a, b := NetMeaning(carried, block), Meaning(block);
    assert a == b <==> a[0] == b[0];
  }

  /** One event in front on either side. */
  lemma SameHeads(a: RawEvent, b: RawEvent, x: seq<RawEvent>, y: seq<RawEvent>)
    ensures [a] + x == [b] + y <==> a == b && x == y
  {
    var s, t := [a] + x, [b] + y;
    assert s[0] == a && t[0] == b && s[1..] == x && t[1..] == y;
  }

  lemma {:induction false} MeaningsAlike(carried: string, blocks: seq<seq<string>>)
    ensures NetMeaningOfAll(carried, blocks) == MeaningOfAll(blocks) <==> Alike(carried, blocks)
    decreases |blocks|
  {
    if blocks != [] {
      var block, next := blocks[0], Carry(carried, blocks[0]);
      MeaningsAlike(next, blocks[1..]);
      if DataValues(block) == [] {
        var x, y := NetMeaningOfAll(next, blocks[1..]), MeaningOfAll(blocks[1..]);
        assert [] + x == x && [] + y == y;
      } else {
        BlockAlike(carried, block);
        SameHeads(NetMeaning(carried, block)[0], Meaning(block)[0],
                  NetMeaningOfAll(next, blocks[1..]), MeaningOfAll(blocks[1..]));
      }
    }
  }

  /** Exactly when both parsers read a text alike. */
  lemma ParsersAgree(text: string)
    ensures Parse(Net, text) == Parse(Node, text) <==> Alike(MESSAGE, AllBlocks(SplitLines(text)))
  {
    NetParseIsMeaning(text);
    NodeParseIsMeaning(text);
    MeaningsAlike(MESSAGE, AllBlocks(SplitLines(text)));
  }
}

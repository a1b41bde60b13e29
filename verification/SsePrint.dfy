/** How the server prints an event stream: one event field, one data field for each line
    of the data, an empty line; comments in between. */
module SsePrint {
  import opened Sse
  import opened SseChunks
  import opened Seqs

  /** The lines of a text whose line ends are line feeds. */
  function FeedLines(text: string): (lines: seq<string>)
    ensures lines != []
  {
    if text == "" then [""]
    else
      var rest := FeedLines(text[1..]);
      if text[0] == '\n' then [""] + rest else [[text[0]] + rest[0]] + rest[1..]
  }

  lemma JoinCons(first: string, rest: seq<string>)
    ensures JoinLines([first] + rest) == if rest == [] then first else first + "\n" + JoinLines(rest)
  {
    assert ([first] + rest)[1..] == rest;
  }

  /** Joining gives the text back. */
  lemma {:induction false} JoinFeedLines(text: string)
    ensures JoinLines(FeedLines(text)) == text
  {
    if text != "" {
      var c, rest := text[0], FeedLines(text[1..]);
      JoinFeedLines(text[1..]);
      if c == '\n' {
        JoinCons("", rest);
        assert "" + "\n" + text[1..] == text;
      } else {
        assert rest == [rest[0]] + rest[1..];
        JoinCons(rest[0], rest[1..]);
        JoinCons([c] + rest[0], rest[1..]);
        var tail := JoinLines(rest[1..]);
        assert [c] + rest[0] + "\n" + tail == [c] + (rest[0] + "\n" + tail);
        assert text == [c] + text[1..];
      }
    }
  }

  lemma {:induction false} FeedLinesAreLines(text: string)
    requires !HasCr(text)
    ensures forall i :: 0 <= i < |FeedLines(text)| ==> OneLine(FeedLines(text)[i])
  {
    if text != "" { FeedLinesAreLines(text[1..]); }
  }

  lemma {:induction false} OneFeedLine(line: string)
    requires OneLine(line)
    ensures FeedLines(line) == [line]
  {
    if line != "" {
      OneFeedLine(line[1..]);
      assert [line[0]] + line[1..] == line;
    }
  }

  /** A terminated line in front of a text. */
  lemma LineInFront(line: string, text: string)
    requires OneLine(line)
    ensures SplitLines(line + "\n" + text) == Continue([line], SplitLines(text))
  {
    assert line + "\n" + text == line + ("\n" + text);
    SplitBuffered("", line, "\n" + text);
    assert ("\n" + text)[1..] == text && Terminator("\n" + text) == 1;
    assert "" + line == line;
  }

  /** Joining keeps lines apart: the joined text, terminated, splits into them again. */
  lemma {:induction false} SplitJoined(lines: seq<string>)
    requires lines != [] && forall i :: 0 <= i < |lines| ==> OneLine(lines[i])
    ensures SplitLines(JoinLines(lines) + "\n") == Split(lines, "")
    decreases |lines|
  {
    var first, rest := lines[0], lines[1..];
    assert lines == [first] + rest;
    JoinCons(first, rest);
    if rest == [] {
      assert first + "\n" == first + "\n" + "" && SplitLines("") == Split([], "");
      LineInFront(first, "");
    } else {
      SplitJoined(rest);
      var tail := JoinLines(rest) + "\n";
      assert JoinLines(lines) + "\n" == first + "\n" + tail;
      LineInFront(first, tail);
    }
  }

  // ----- the printed form -----

  /** What the server writes: an event, or a keep-alive comment between events. */
  datatype Item = KeepAlive | Sent(name: string, data: string)

  predicate Printable(item: Item) {
    item.Sent? ==> OneLine(item.name) && !HasCr(item.data)
  }

  function PrintData(lines: seq<string>): string {
    if lines == [] then "\n" else "data: " + lines[0] + "\n" + PrintData(lines[1..])
  }

  function PrintItem(item: Item): string {
    match item
    case KeepAlive => ":\n\n"
    case Sent(name, data) => "event: " + name + "\n" + PrintData(FeedLines(data))
  }

  function PrintAll(items: seq<Item>): string {
    if items == [] then "" else PrintItem(items[0]) + PrintAll(items[1..])
  }

  function FieldLines(lines: seq<string>): seq<string> {
    if lines == [] then [""] else ["data: " + lines[0]] + FieldLines(lines[1..])
  }

  function ItemLines(item: Item): seq<string> {
    if item.KeepAlive? then [":", ""] else ["event: " + item.name] + FieldLines(FeedLines(item.data))
  }

  lemma Regroup(line: string, middle: string, text: string)
    ensures (line + "\n" + middle) + text == line + "\n" + (middle + text)
  {
  }

  lemma {:induction false} DataInFront(lines: seq<string>, text: string)
    requires forall i :: 0 <= i < |lines| ==> OneLine(lines[i])
    ensures SplitLines(PrintData(lines) + text) == Continue(FieldLines(lines), SplitLines(text))
    decreases |lines|
  {
    if lines == [] {
      assert "\n" + text == "" + "\n" + text;
      LineInFront("", text);
    } else {
      var line, more := "data: " + lines[0], PrintData(lines[1..]);
      Regroup(line, more, text);
      LineInFront(line, more + text);
      DataInFront(lines[1..], text);
      Assoc([line], FieldLines(lines[1..]), SplitLines(text).lines);
    }
  }

  lemma CommentInFront(text: string)
    ensures SplitLines(":\n\n" + text) == Continue([":", ""], SplitLines(text))
  {
    assert "\n" + text == "" + "\n" + text;
    LineInFront("", text);
    assert ":\n\n" + text == ":" + "\n" + ("\n" + text);
    LineInFront(":", "\n" + text);
  }

  lemma ItemInFront(item: Item, text: string)
    requires Printable(item)
    ensures SplitLines(PrintItem(item) + text) == Continue(ItemLines(item), SplitLines(text))
  {
    if item.KeepAlive? {
      CommentInFront(text);
    } else {
      var lines, line := FeedLines(item.data), "event: " + item.name;
      FeedLinesAreLines(item.data);
      Regroup(line, PrintData(lines), text);
      LineInFront(line, PrintData(lines) + text);
      DataInFront(lines, text);
      Assoc([line], FieldLines(lines), SplitLines(text).lines);
    }
  }

  // ----- no CR anywhere -----

  lemma NoCrConcat(a: string, b: string)
    requires !HasCr(a) && !HasCr(b)
    ensures !HasCr(a + b)
  {
  }

  lemma {:induction false} DataHasNoCr(lines: seq<string>)
    requires forall i :: 0 <= i < |lines| ==> OneLine(lines[i])
    ensures !HasCr(PrintData(lines))
    decreases |lines|
  {
    if lines != [] {
      DataHasNoCr(lines[1..]);
      NoCrConcat("data: ", lines[0]);
      NoCrConcat("data: " + lines[0], "\n");
      NoCrConcat("data: " + lines[0] + "\n", PrintData(lines[1..]));
    }
  }

  lemma ItemHasNoCr(item: Item)
    requires Printable(item)
    ensures !HasCr(PrintItem(item))
  {
    if item.Sent? {
      FeedLinesAreLines(item.data);
      DataHasNoCr(FeedLines(item.data));
      NoCrConcat("event: ", item.name);
      NoCrConcat("event: " + item.name, "\n");
      NoCrConcat("event: " + item.name + "\n", PrintData(FeedLines(item.data)));
    }
  }

  lemma {:induction false} PrintedHasNoCr(items: seq<Item>)
    requires forall item :: item in items ==> Printable(item)
    ensures !HasCr(PrintAll(items))
    decreases |items|
  {
    if items != [] {
      ItemHasNoCr(items[0]);
      PrintedHasNoCr(items[1..]);
      NoCrConcat(PrintItem(items[0]), PrintAll(items[1..]));
    }
  }
}

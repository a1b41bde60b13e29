/** What the two parsers make of a printed event stream, and where chunks and dialects
    matter. */
module SseTheorems {
  import opened Sse
  import opened SseChunks
  import opened SseDialects
  import opened SseParsers
  import opened SsePrint
  import opened Seqs

  /** The events of a stream, comments dropped. */
  function Payloads(items: seq<Item>): seq<RawEvent> {
    if items == [] then []
    else (if items[0].Sent? then [RawEvent(items[0].name, items[0].data)] else []) + Payloads(items[1..])
  }

  /** What a dialect leaves of a printed event: .NET trims the name and every line. */
  function Trimmed(d: Dialect, e: RawEvent): RawEvent {
    if d.Node? then e else RawEvent(TrimAll(e.event), JoinLines(TrimEach(FeedLines(e.data))))
  }

  function TrimmedAll(d: Dialect, events: seq<RawEvent>): seq<RawEvent> {
    if events == [] then [] else [Trimmed(d, events[0])] + TrimmedAll(d, events[1..])
  }

  /** A field line with the documented separator, colon and one space. */
  lemma FieldLine(name: string, value: string, line: string)
    requires line == name + ": " + value && ':' !in name
    ensures Field(line) == name && TrimOne(RawValue(line)) == value && TrimAll(RawValue(line)) == TrimAll(value)
    ensures !IsComment(line) || name == ""
  {
    var i := IndexOfColon(line);
    assert line[|name|] == ':';
    assert forall k :: 0 <= k < |name| ==> line[k] == name[k] && name[k] in name;
    assert forall k :: 0 <= k < i ==> line[k] == line[..i][k] && line[k] in line[..i];
    assert i == |name|;
    assert line[..i] == name && line[i + 1..] == [' '] + value;
    assert ([' '] + value)[1..] == value;
  }

  lemma OnePayload(d: Dialect, item: Item)
    ensures Payloads([item]) == if item.Sent? then [RawEvent(item.name, item.data)] else []
    ensures TrimmedAll(d, Payloads([item])) ==
            if item.Sent? then [Trimmed(d, RawEvent(item.name, item.data))] else []
  {
    assert [item][1..] == [] && Payloads([]) == [];
    var e := RawEvent(if item.Sent? then item.name else "", if item.Sent? then item.data else "");
    assert [e][1..] == [] && TrimmedAll(d, []) == [];
  }

  lemma PayloadsStep(d: Dialect, items: seq<Item>)
    requires items != []
    ensures TrimmedAll(d, Payloads(items)) ==
            TrimmedAll(d, Payloads([items[0]])) + TrimmedAll(d, Payloads(items[1..]))
  {
    OnePayload(d, items[0]);
    var rest := Payloads(items[1..]);
    if items[0].Sent? {
      var e := RawEvent(items[0].name, items[0].data);
      assert ([e] + rest)[1..] == rest;
    } else {
      assert [] + rest == rest;
    }
  }

  /** The values of data lines as a dialect keeps them. */
  function Kept(d: Dialect, lines: seq<string>): seq<string> {
    if d.Node? then lines else TrimEach(lines)
  }

  lemma KeptStep(d: Dialect, lines: seq<string>)
    requires lines != []
    ensures Kept(d, lines) == [if d.Node? then lines[0] else TrimAll(lines[0])] + Kept(d, lines[1..])
  {
    if d.Net? { TrimEachTail(lines); }
  }

  lemma BlockEnd(d: Dialect, s: State)
    requires s.data != []
    ensures Lines(d, s, [""]) == (START, [RawEvent(s.event, JoinLines(s.data))])
  {
    var found := [RawEvent(s.event, JoinLines(s.data))];
    assert [""][1..] == [] && Lines(d, START, []) == (START, []) && found + [] == found;
  }

  /** The data lines of an item and the empty line after them. */
  lemma {:induction false} DataReadBack(d: Dialect, s: State, lines: seq<string>)
    requires s.data + Kept(d, lines) != []
    ensures Lines(d, s, FieldLines(lines)) == (START, [RawEvent(s.event, JoinLines(s.data + Kept(d, lines)))])
    decreases |lines|
  {
    if lines == [] {
      assert s.data + Kept(d, lines) == s.data;
      BlockEnd(d, s);
    } else {
      var line := "data: " + lines[0];
      FieldLine("data", lines[0], line);
      KeptStep(d, lines);
      var value := if d.Node? then lines[0] else TrimAll(lines[0]);
      var next := State(s.event, s.data + [value]);
      assert Line(d, s, line) == (next, []);
      Assoc(s.data, [value], Kept(d, lines[1..]));
      DataReadBack(d, next, lines[1..]);
      FrontLine(d, s, line, FieldLines(lines[1..]));
    }
  }

  /** A line that yields nothing, in front of others. */
  lemma FrontLine(d: Dialect, s: State, line: string, rest: seq<string>)
    requires Line(d, s, line).1 == []
    ensures Lines(d, s, [line] + rest) == Lines(d, Line(d, s, line).0, rest)
  {
    assert ([line] + rest)[1..] == rest;
    var found := Lines(d, Line(d, s, line).0, rest).1;
    assert [] + found == found;
  }

  lemma ItemReadBack(d: Dialect, item: Item)
    ensures Lines(d, START, ItemLines(item)) == (START, TrimmedAll(d, Payloads([item])))
  {
    OnePayload(d, item);
    if item.Sent? {
      var line, lines := "event: " + item.name, FeedLines(item.data);
      FieldLine("event", item.name, line);
      var name := if d.Node? then item.name else TrimAll(item.name);
      FrontLine(d, START, line, FieldLines(lines));
      KeptStep(d, lines);
      DataReadBack(d, State(name, []), lines);
      assert [] + Kept(d, lines) == Kept(d, lines);
      JoinFeedLines(item.data);
    } else {
      TwoLines(d, START, ":", "");
    }
  }

  lemma TwoLines(d: Dialect, s: State, a: string, b: string)
    ensures var (s1, e1) := Line(d, s, a);
            var (s2, e2) := Line(d, s1, b);
            Lines(d, s, [a, b]) == (s2, e1 + e2)
  {
    var (s1, e1) := Line(d, s, a);
    assert [a, b][1..] == [b] && [b][1..] == [];
    assert Lines(d, Line(d, s1, b).0, []) == (Line(d, s1, b).0, []);
    assert Line(d, s1, b).1 + [] == Line(d, s1, b).1;
  }

  lemma ThreeLines(d: Dialect, s: State, a: string, b: string, c: string)
    ensures var (s1, e1) := Line(d, s, a);
            var (s2, e2) := Line(d, s1, b);
            var (s3, e3) := Line(d, s2, c);
            Lines(d, s, [a, b, c]) == (s3, e1 + (e2 + e3))
  {
    assert [a, b, c][1..] == [b, c];
    TwoLines(d, Line(d, s, a).0, b, c);
  }

  /** What either parser makes of a printed stream. */
  lemma {:induction false} PrintedParse(d: Dialect, items: seq<Item>)
    requires forall item :: item in items ==> Printable(item)
    ensures Parse(d, PrintAll(items)) == TrimmedAll(d, Payloads(items))
    decreases |items|
  {
    if items == [] {
      assert SplitLines("") == Split([], "");
      ParseFromEnd(d, START, "");
    } else {
      var rest := items[1..];
      ItemInFront(items[0], PrintAll(rest));
      ParseFromContinue(d, START, ItemLines(items[0]), SplitLines(PrintAll(rest)));
      ItemReadBack(d, items[0]);
      PrintedParse(d, rest);
      OnePayload(d, items[0]);
      PayloadsStep(d, items);
    }
  }

  lemma {:induction false} NodeTrimsNothing(events: seq<RawEvent>)
    ensures TrimmedAll(Node, events) == events
  {
    if events != [] { NodeTrimsNothing(events[1..]); }
  }

  /** Names and data printed by the server reach the Node client unchanged, however
      the stream is cut into chunks. */
  lemma NodeReadsPrinted(items: seq<Item>, chunks: seq<string>)
    requires forall item :: item in items ==> Printable(item)
    requires Concat(chunks) == PrintAll(items)
    ensures ParseFrom(Node, START, SplitChunks("", chunks)) == Payloads(items)
  {
    PrintedHasNoCr(items);
    WholeParse(chunks);
    PrintedParse(Node, items);
    NodeTrimsNothing(Payloads(items));
  }

  /** Neither the name nor any line of the data starts with a space. */
  predicate NoSpaceInFront(e: RawEvent) {
    Plain(e.event) && forall i :: 0 <= i < |FeedLines(e.data)| ==> Plain(FeedLines(e.data)[i])
  }

  lemma TrimsNothing(e: RawEvent)
    ensures Trimmed(Net, e) == e <==> NoSpaceInFront(e)
  {
    var lines := FeedLines(e.data);
    TrimPlain(e.event);
    JoinTrimmed(lines);
    JoinFeedLines(e.data);
    if forall i :: 0 <= i < |lines| ==> Plain(lines[i]) { PlainIsKept(lines); }
  }

  lemma {:induction false} NetTrimsNothing(events: seq<RawEvent>)
    ensures TrimmedAll(Net, events) == events <==> forall e :: e in events ==> NoSpaceInFront(e)
  {
    if events != [] {
      var e, rest := events[0], events[1..];
      TrimsNothing(e);
      NetTrimsNothing(rest);
      assert events == [e] + rest;
      assert forall x :: x in events <==> x == e || x in rest;
      var head, tail := Trimmed(Net, e), TrimmedAll(Net, rest);
      assert ([head] + tail)[0] == head && ([head] + tail)[1..] == tail;
      assert [head] + tail == events <==> head == e && tail == rest;
      assert head == e <==> NoSpaceInFront(e);
    }
  }

  /** The .NET client gets them unchanged exactly when none starts with a space. */
  lemma NetReadsPrinted(items: seq<Item>)
    requires forall item :: item in items ==> Printable(item)
    ensures Parse(Net, PrintAll(items)) == Payloads(items) <==>
            forall e :: e in Payloads(items) ==> NoSpaceInFront(e)
  {
    PrintedParse(Net, items);
    NetTrimsNothing(Payloads(items));
  }

  // ----- where chunks and dialects matter -----

  /** Two lines apart by a CRLF that a chunk border cuts. */
  lemma CutBetween(first: string, second: string, a: string, b: string)
    requires OneLine(first) && OneLine(second)
    requires a == first + "\r" && b == "\n" + (second + "\n")
    ensures SplitChunks("", [a, b]) == Split([first, "", second], "")
    ensures SplitLines(a + b) == Split([first, second], "")
    ensures Concat([a, b]) == a + b
  {
    assert [a, b][1..] == [b] && [b][1..] == [] && Concat([b]) == b + "" == b;
    assert SplitLines("") == Split([], "");
    OneLineSplit(first);
    var end := second + "\n";
    assert end + "" == end;
    LineInFront(second, "");
    assert a + b == first + ("\r\n" + end);
    SplitAround("", first, end, a + b, a);
    SplitBorder("", end);
    assert SplitLines(b) == Split(["", second], "");
    ChunkedPair(a, b);
  }

  lemma ChunkedPair(a: string, b: string)
    requires SplitLines(a).rest == ""
    ensures SplitChunks("", [a, b]) == Continue(SplitLines(a).lines, SplitLines(b))
  {
    var rest := SplitLines(b).rest;
    assert [a, b][1..] == [b] && [b][1..] == [];
    assert "" + a == a && "" + b == b;
    assert SplitChunks(rest, []) == Split([], rest);
    assert SplitLines(b).lines + [] == SplitLines(b).lines;
  }

  lemma OneLineSplit(line: string)
    requires OneLine(line)
    ensures SplitLines(line) == Split([], line)
  {
    SplitBuffered("", line, "");
    assert line + "" == line && "" + line == line;
  }

  /** What one named event with data reads as, with and without an empty line
      between its two fields. */
  lemma NameThenData(name: string, data: string, n: string, v: string)
    requires name == "event: " + n && data == "data: " + v
    requires TrimAll(n) == n && TrimAll(v) == v
    ensures ParseFrom(Node, START, Split([name, data], "")) == [RawEvent(n, v)]
    ensures ParseFrom(Node, START, Split([name, "", data], "")) == [RawEvent(MESSAGE, v)]
    ensures ParseFrom(Net, START, Split([name, "", data], "")) == [RawEvent(n, v)]
  {
    FieldLine("event", n, name);
    FieldLine("data", v, data);
    TwoLines(Node, START, name, data);
    ThreeLines(Node, START, name, "", data);
    ThreeLines(Net, START, name, "", data);
  }

  /** A CRLF cut by a chunk border ends the block early: the event loses its name. */
  lemma CutCrlfLosesName(n: string, v: string, a: string, b: string)
    requires OneLine(n) && OneLine(v) && TrimAll(n) == n && TrimAll(v) == v
    requires a == "event: " + n + "\r" && b == "\n" + ("data: " + v + "\n")
    ensures ParseFrom(Node, START, SplitChunks("", [a, b])) == [RawEvent(MESSAGE, v)]
    ensures Parse(Node, Concat([a, b])) == [RawEvent(n, v)]
  {
    CutBetween("event: " + n, "data: " + v, a, b);
    NameThenData("event: " + n, "data: " + v, n, v);
  }

  lemma LinesApart(first: string, second: string, end: string, middle: string, text: string)
    requires OneLine(first) && OneLine(second)
    requires end == second + "\n" + "" && middle == "" + "\n" + end && text == first + "\n" + middle
    ensures SplitLines(text) == Split([first, "", second], "")
  {
    assert SplitLines("") == Split([], "");
    LineInFront(second, "");
    LineInFront("", end);
    LineInFront(first, middle);
  }

  /** A name without data: Node forgets it, .NET gives it to the next event. */
  lemma NameWithoutData(n: string, v: string, text: string)
    requires OneLine(n) && OneLine(v) && TrimAll(n) == n && TrimAll(v) == v
    requires text == "event: " + n + "\n" + ("\n" + ("data: " + v + "\n"))
    ensures Parse(Node, text) == [RawEvent(MESSAGE, v)] && Parse(Net, text) == [RawEvent(n, v)]
  {
    var name, data := "event: " + n, "data: " + v;
    var end := data + "\n" + "";
    var middle := "" + "\n" + end;
    assert text == name + "\n" + middle;
    LinesApart(name, data, end, middle, text);
    NameThenData(name, data, n, v);
  }
}

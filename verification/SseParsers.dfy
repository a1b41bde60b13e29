/** The two client parsers in the form their sources have: the Node parser keeps a
    buffer and two variables across chunks, the .NET parser reads line by line. */
module SseParsers {
  import opened Sse
  import opened SseChunks
  import opened SseCuts
  import opened Seqs

  lemma ParseFromContinue(d: Dialect, s: State, lines: seq<string>, more: Split)
    ensures var (s1, e1) := Lines(d, s, lines);
            ParseFrom(d, s, Continue(lines, more)) == e1 + ParseFrom(d, s1, more)
  {
    LinesConcat(d, s, lines, more.lines);
    var (s1, e1) := Lines(d, s, lines);
    var (s2, e2) := Lines(d, s1, more.lines);
    Assoc(e1, e2, Finish(d, s2, more.rest));
  }

  lemma OneMoreLine(d: Dialect, s: State, lines: seq<string>, i: nat)
    requires i < |lines|
    ensures var (s1, e1) := Lines(d, s, lines[..i]);
            var (s2, e2) := Line(d, s1, lines[i]);
            Lines(d, s, lines[..i + 1]) == (s2, e1 + e2)
  {
    assert lines[..i + 1] == lines[..i] + [lines[i]];
    var (s1, e1) := Lines(d, s, lines[..i]);
    LinesConcat(d, s, lines[..i], [lines[i]]);
    var (s2, e2) := Line(d, s1, lines[i]);
    assert Lines(d, s1, [lines[i]]) == (s2, e2) by {
      assert Lines(d, s2, [lines[i]][1..]) == (s2, []);
      assert e2 + [] == e2;
    }
  }

  // ----- Node -----

  class NodeParser {
    var buffer: string
    var event: string
    var data: seq<string>

    ghost function Now(): State
      reads this
    {
      State(event, data)
    }

    constructor ()
      ensures buffer == "" && Now() == START
    {
      buffer, event, data := "", MESSAGE, [];
    }

    /** Yields the event collected so far, if it has data, and starts afresh. */
    method Dispatch() returns (result: Option<RawEvent>)
      modifies this
      ensures Now() == START && buffer == old(buffer)
      ensures result == if old(data) == [] then None else Some(RawEvent(old(event), JoinLines(old(data))))
    {
      if |data| == 0 {
        event := MESSAGE;
        return None;
      }
      result := Some(RawEvent(event, JoinLines(data)));
      event := MESSAGE;
      data := [];
    }

    method ProcessLine(line: string) returns (result: Option<RawEvent>)
      modifies this
      ensures (Now(), OptionList(result)) == NodeLine(old(Now()), line)
      ensures buffer == old(buffer)
    {
      if line == "" {
        result := Dispatch();
        return;
      }
      result := None;
      if line[0] == ':' {
        return;
      }
      var separator := IndexOfColon(line);
      var field := if separator == |line| then line else line[..separator];
      var value := if separator == |line| then "" else line[separator + 1..];
      if value != "" && value[0] == ' ' {
        value := value[1..];
      }
      assert line[..|line|] == line;
      if field == "event" {
        event := value;
      } else if field == "data" {
        data := data + [value];
      }
    }

    /** One chunk: splits buffer and chunk, keeps the last piece, handles the rest. */
    method Feed(chunk: string) returns (events: seq<RawEvent>)
      modifies this
      ensures var split := SplitLines(old(buffer) + chunk);
              buffer == split.rest && (Now(), events) == Lines(Node, old(Now()), split.lines)
    {
      var split := SplitLines(buffer + chunk);
      ghost var start := Now();
      buffer := split.rest;
      events := [];
      var i := 0;
      assert split.lines[..0] == [];
      while i < |split.lines|
        invariant i <= |split.lines| && buffer == split.rest
        invariant Lines(Node, start, split.lines[..i]) == (Now(), events)
      {
        OneMoreLine(Node, start, split.lines, i);
        var result := ProcessLine(split.lines[i]);
        events := events + OptionList(result);
        i := i + 1;
      }
      assert split.lines[..i] == split.lines;
    }

    /** End of stream: a partial last line counts, then pending data is yielded. */
    method Close() returns (events: seq<RawEvent>)
      modifies this
      ensures events == Finish(Node, old(Now()), old(buffer))
    {
      events := [];
      if |buffer| > 0 {
        var result := ProcessLine(buffer);
        events := events + OptionList(result);
      }
      var last := Dispatch();
      events := events + OptionList(last);
    }
  }

  function OptionList(o: Option<RawEvent>): seq<RawEvent> {
    if o.None? then [] else [o.value]
  }

  lemma ChunkStep(s: State, buffer: string, chunks: seq<string>)
    requires chunks != []
    ensures var split := SplitLines(buffer + chunks[0]);
            var (s1, e1) := Lines(Node, s, split.lines);
            ParseFrom(Node, s, SplitChunks(buffer, chunks)) ==
            e1 + ParseFrom(Node, s1, SplitChunks(split.rest, chunks[1..]))
  {
    var split := SplitLines(buffer + chunks[0]);
    ParseFromContinue(Node, s, split.lines, SplitChunks(split.rest, chunks[1..]));
  }

  lemma ParseFromEnd(d: Dialect, s: State, rest: string)
    ensures ParseFrom(d, s, Split([], rest)) == Finish(d, s, rest)
  {
    assert Lines(d, s, []) == (s, []);
  }

  lemma WholeParse(chunks: seq<string>)
    requires Cuts(chunks) == 0 || !HasCr(Concat(chunks))
    ensures ParseFrom(Node, START, SplitChunks("", chunks)) == Parse(Node, Concat(chunks))
  {
    if !HasCr(Concat(chunks)) { NoCrNoCuts(chunks); }
    ChunkedSplitIsWhole(chunks);
  }

  /** `parseSse`: the events are those of the chunked lines. They are those of the
      concatenated text exactly when the cuts are harmless, in particular when no CRLF
      is cut, or there is no CR at all. */
  method ParseSse(chunks: seq<string>) returns (events: seq<RawEvent>)
    ensures events == ParseFrom(Node, START, SplitChunks("", chunks))
    ensures events == Parse(Node, Concat(chunks)) <==> HarmlessCuts(chunks)
    ensures Cuts(chunks) == 0 || !HasCr(Concat(chunks)) ==> events == Parse(Node, Concat(chunks))
  {
    ghost var all := ParseFrom(Node, START, SplitChunks("", chunks));
    var parser := new NodeParser();
    var unread := chunks;
    events := [];
    while unread != []
      invariant all == events + ParseFrom(Node, parser.Now(), SplitChunks(parser.buffer, unread))
      decreases |unread|
    {
      ChunkStep(parser.Now(), parser.buffer, unread);
      var found := parser.Feed(unread[0]);
      unread := unread[1..];
      Assoc(events, found, ParseFrom(Node, parser.Now(), SplitChunks(parser.buffer, unread)));
      events := events + found;
    }
    ParseFromEnd(Node, parser.Now(), parser.buffer);
    var last := parser.Close();
    events := events + last;
    if Cuts(chunks) == 0 || !HasCr(Concat(chunks)) { WholeParse(chunks); }
    ChunkingIsHarmless(chunks);
  }

  // ----- .NET -----

  function LineLength(text: string): (n: nat)
    ensures n <= |text| && OneLine(text[..n])
    ensures n < |text| ==> text[n] == '\r' || text[n] == '\n'
  {
    if text == "" || text[0] == '\r' || text[0] == '\n' then 0 else 1 + LineLength(text[1..])
  }

  /** What `ReadLine` consumes, line end included. */
  function AfterLine(text: string): string {
    var n := LineLength(text);
    text[n..][Terminator(text[n..])..]
  }

  lemma {:induction false} FirstLine(current: string, text: string)
    ensures var n := LineLength(text);
            SplitFrom(current, text) ==
            if n == |text| then Split([], current + text)
            else Continue([current + text[..n]], SplitLines(AfterLine(text)))
    decreases |text|
  {
    var n := LineLength(text);
    if text == "" {
      assert current + text == current;
    } else if n == 0 {
      assert text[0..] == text && current + text[..0] == current;
    } else {
      assert Terminator(text) == 0;
      FirstLine(current + [text[0]], text[1..]);
      assert text[1..][..n - 1] == text[1..n] && text[1..][n - 1..] == text[n..];
      assert current + [text[0]] + text[1..n] == current + text[..n];
      assert current + [text[0]] + text[1..] == current + text;
    }
  }

  lemma ParseOneLine(s: State, line: string, more: Split)
    ensures var (s1, e1) := Line(Net, s, line);
            ParseFrom(Net, s, Continue([line], more)) == e1 + ParseFrom(Net, s1, more)
  {
    ParseFromContinue(Net, s, [line], more);
    OneMoreLine(Net, s, [line], 0);
    assert [line][..0] == [] && [line][..1] == [line];
    assert [] + Line(Net, s, line).1 == Line(Net, s, line).1;
  }

  lemma ParseLastLine(s: State, line: string)
    requires line != ""
    ensures var (s1, e1) := Line(Net, s, line);
            ParseFrom(Net, s, Split([], line)) == e1 + ParseFrom(Net, s1, Split([], ""))
  {
    var s1 := Line(Net, s, line).0;
    ParseFromEnd(Net, s, line);
    ParseFromEnd(Net, s1, "");
    assert [] + Finish(Net, s, line) == Finish(Net, s, line);
  }

  lemma NextNetLine(s: State, text: string)
    requires text != ""
    ensures var (s1, e1) := Line(Net, s, text[..LineLength(text)]);
            ParseFrom(Net, s, SplitLines(text)) == e1 + ParseFrom(Net, s1, SplitLines(AfterLine(text)))
    ensures |AfterLine(text)| < |text|
  {
    var n := LineLength(text);
    FirstLine("", text);
    if n == |text| {
      assert text[..n] == text && "" + text == text && text[n..] == "";
      assert SplitLines("") == Split([], "");
      ParseLastLine(s, text);
    } else {
      assert "" + text[..n] == text[..n];
      ParseOneLine(s, text[..n], SplitLines(AfterLine(text)));
    }
  }

  /** `TrimStart(' ')`. */
  method TrimStart(value: string) returns (trimmed: string)
    ensures trimmed == TrimAll(value)
  {
    trimmed := value;
    while trimmed != "" && trimmed[0] == ' '
      invariant TrimAll(trimmed) == TrimAll(value)
      decreases |trimmed|
    {
      trimmed := trimmed[1..];
    }
  }

  /** The body of the .NET loop: the variables after one line and what is yielded. */
  method HandleLine(line: string, eventName: string, data: seq<string>)
    returns (name: string, values: seq<string>, found: seq<RawEvent>)
    ensures (State(name, values), found) == NetLine(State(eventName, data), line)
  {
    name, values, found := eventName, data, [];
    if |line| == 0 {
      if |data| > 0 {
        found := [RawEvent(eventName, JoinLines(data))];
        name := MESSAGE;
        values := [];
      }
    } else if line[0] != ':' {
      var separator := IndexOfColon(line);
      var field := line[..separator];
      var value := "";
      if separator < |line| { value := TrimStart(line[separator + 1..]); }
      if field == "event" { name := value; }
      else if field == "data" { values := data + [value]; }
    }
  }

  /** `ParseSseAsync` over a whole decoded text. */
  method ParseSseAsync(text: string) returns (events: seq<RawEvent>)
    ensures events == Parse(Net, text)
  {
    events := [];
    var rest := text;
    var eventName, data := MESSAGE, [];
    while rest != ""
      invariant events + ParseFrom(Net, State(eventName, data), SplitLines(rest)) == Parse(Net, text)
      decreases |rest|
    {
      NextNetLine(State(eventName, data), rest);
      var line := rest[..LineLength(rest)];
      rest := AfterLine(rest);
      var name, values, found := HandleLine(line, eventName, data);
      Assoc(events, found, ParseFrom(Net, State(name, values), SplitLines(rest)));
      eventName, data, events := name, values, events + found;
    }
    assert SplitLines("") == Split([], "");
    ParseFromEnd(Net, State(eventName, data), "");
    if |data| > 0 { events := events + [RawEvent(eventName, JoinLines(data))]; }
  }
}

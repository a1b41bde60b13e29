/** Server-sent events, line by line: how a text splits into lines, and what each
    of the two client parsers (Node and .NET) does with one line. */
module Sse {

  datatype Option<+T> = None | Some(value: T)

  datatype RawEvent = RawEvent(event: string, data: string)

  const MESSAGE := "message"

  // ----- lines -----

  /** The complete lines of a text, and the unterminated rest. */
  datatype Split = Split(lines: seq<string>, rest: string)

  /** Length of the line terminator at the front: "\r\n", "\r" or "\n". */
  function Terminator(text: string): (n: nat)
    ensures n <= |text|
  {
    if text == [] then 0
    else if text[0] == '\r' then (if |text| > 1 && text[1] == '\n' then 2 else 1)
    else if text[0] == '\n' then 1
    else 0
  }

  /** Splitting with part of a line already read. */
  function SplitFrom(current: string, text: string): Split
    decreases |text|
  {
    if text == [] then Split([], current)
    else
      var n := Terminator(text);
      if n > 0 then
        var s := SplitFrom("", text[n..]);
        Split([current] + s.lines, s.rest)
      else SplitFrom(current + [text[0]], text[1..])
  }

  function SplitLines(text: string): Split {
    SplitFrom("", text)
  }

  /** Lines found so far, followed by what a continued text adds. */
  function Continue(lines: seq<string>, s: Split): Split {
    Split(lines + s.lines, s.rest)
  }

  /** A line end cut in two: the parts see two line ends where the whole has one. */
  predicate CutsCrlf(a: string, b: string) {
    a != [] && b != [] && a[|a| - 1] == '\r' && b[0] == '\n'
  }

  lemma HeadOfConcat(a: string, b: string)
    requires a != [] && !CutsCrlf(a, b)
    ensures Terminator(a + b) == Terminator(a)
    ensures Terminator(a) > 0 ==> (a + b)[Terminator(a)..] == a[Terminator(a)..] + b
    ensures (a + b)[0] == a[0] && (a + b)[1..] == a[1..] + b
  {
  }

  /** Splitting may stop and go on at any point that does not cut a CRLF. */
  lemma {:induction false} SplitResumes(current: string, a: string, b: string)
    requires !CutsCrlf(a, b)
    ensures SplitFrom(current, a + b) ==
            Continue(SplitFrom(current, a).lines, SplitFrom(SplitFrom(current, a).rest, b))
    decreases |a|
  {
    if a == [] {
      assert a + b == b;
    } else {
      HeadOfConcat(a, b);
      var n := Terminator(a);
      if n > 0 {
        SplitResumes("", a[n..], b);
        var s := SplitFrom("", a[n..]);
        var more := SplitFrom(s.rest, b);
        assert [current] + (s.lines + more.lines) == [current] + s.lines + more.lines;
      } else {
        SplitResumes(current + [a[0]], a[1..], b);
      }
    }
  }

  predicate OneLine(text: string) {
    forall i :: 0 <= i < |text| ==> text[i] != '\r' && text[i] != '\n'
  }

  /** A buffered partial line may as well be part of the text. */
  lemma {:induction false} SplitBuffered(current: string, buffer: string, text: string)
    requires OneLine(buffer)
    ensures SplitFrom(current, buffer + text) == SplitFrom(current + buffer, text)
    decreases |buffer|
  {
    if buffer == [] {
      assert buffer + text == text && current + buffer == current;
    } else {
      HeadOfConcat(buffer, text);
      assert current + buffer == current + [buffer[0]] + buffer[1..];
      SplitBuffered(current + [buffer[0]], buffer[1..], text);
    }
  }

  lemma {:induction false} SplitShape(current: string, text: string)
    requires OneLine(current)
    ensures OneLine(SplitFrom(current, text).rest)
    ensures forall i :: 0 <= i < |SplitFrom(current, text).lines| ==> OneLine(SplitFrom(current, text).lines[i])
    decreases |text|
  {
    if text != [] {
      var n := Terminator(text);
      if n > 0 { SplitShape("", text[n..]); } else { SplitShape(current + [text[0]], text[1..]); }
    }
  }

  // ----- one line at a time -----

  datatype State = State(event: string, data: seq<string>)

  const START := State(MESSAGE, [])

  function JoinLines(data: seq<string>): string {
    if data == [] then "" else if |data| == 1 then data[0] else data[0] + "\n" + JoinLines(data[1..])
  }

  function IndexOfColon(line: string): (i: nat)
    ensures i <= |line| && ':' !in line[..i] && (i < |line| ==> line[i] == ':')
  {
    if line == [] || line[0] == ':' then 0 else 1 + IndexOfColon(line[1..])
  }

  function Field(line: string): string { line[..IndexOfColon(line)] }

  /** What follows the first colon, untrimmed. */
  function RawValue(line: string): string {
    var i := IndexOfColon(line);
    if i < |line| then line[i + 1..] else ""
  }

  function TrimOne(value: string): string {
    if value != [] && value[0] == ' ' then value[1..] else value
  }

  function TrimAll(value: string): string {
    if value != [] && value[0] == ' ' then TrimAll(value[1..]) else value
  }

  predicate IsComment(line: string) { line != [] && line[0] == ':' }

  /** Node: an empty line dispatches and resets, a field line is remembered. */
  function NodeLine(s: State, line: string): (State, seq<RawEvent>) {
    if line == [] then (START, if s.data == [] then [] else [RawEvent(s.event, JoinLines(s.data))])
    else if IsComment(line) then (s, [])
    else if Field(line) == "event" then (s.(event := TrimOne(RawValue(line))), [])
    else if Field(line) == "data" then (s.(data := s.data + [TrimOne(RawValue(line))]), [])
    else (s, [])
  }

  /** .NET: the same, but every leading space goes, and an empty line without data
      resets nothing. */
  function NetLine(s: State, line: string): (State, seq<RawEvent>) {
    if line == [] then (if s.data == [] then (s, []) else (START, [RawEvent(s.event, JoinLines(s.data))]))
    else if IsComment(line) then (s, [])
    else if Field(line) == "event" then (s.(event := TrimAll(RawValue(line))), [])
    else if Field(line) == "data" then (s.(data := s.data + [TrimAll(RawValue(line))]), [])
    else (s, [])
  }

  datatype Dialect = Node | Net

  function Line(d: Dialect, s: State, line: string): (State, seq<RawEvent>) {
    if d.Node? then NodeLine(s, line) else NetLine(s, line)
  }

  /** Line after line: the state reached and the events yielded. */
  function Lines(d: Dialect, s: State, lines: seq<string>): (State, seq<RawEvent>)
    decreases |lines|
  {
    if lines == [] then (s, [])
    else
      var (s1, e1) := Line(d, s, lines[0]);
      var (s2, e2) := Lines(d, s1, lines[1..]);
      (s2, e1 + e2)
  }

  lemma {:induction false} LinesConcat(d: Dialect, s: State, a: seq<string>, b: seq<string>)
    ensures var (s1, e1) := Lines(d, s, a);
            var (s2, e2) := Lines(d, s1, b);
            Lines(d, s, a + b) == (s2, e1 + e2)
    decreases |a|
  {
    if a == [] {
      assert a + b == b;
      assert [] + Lines(d, s, b).1 == Lines(d, s, b).1;
    } else {
      assert (a + b)[1..] == a[1..] + b;
      var (s1, e1) := Line(d, s, a[0]);
      LinesConcat(d, s1, a[1..], b);
      var (s2, e2) := Lines(d, s1, a[1..]);
      var (s3, e3) := Lines(d, s2, b);
      assert e1 + (e2 + e3) == (e1 + e2) + e3;
    }
  }

  /** End of stream: an unterminated last line counts, then pending data is
      dispatched. */
  function Finish(d: Dialect, s: State, rest: string): seq<RawEvent> {
    var last := if rest == [] then s else Line(d, s, rest).0;
    if last.data == [] then [] else [RawEvent(last.event, JoinLines(last.data))]
  }

  /** What is yielded from a state on, given lines already split off. */
  function ParseFrom(d: Dialect, s: State, split: Split): seq<RawEvent> {
    var (last, events) := Lines(d, s, split.lines);
    events + Finish(d, last, split.rest)
  }

  /** The one-shot parse of a whole text. */
  function Parse(d: Dialect, text: string): seq<RawEvent> {
    ParseFrom(d, START, SplitLines(text))
  }
}

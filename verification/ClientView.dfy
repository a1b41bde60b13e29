/** From the task to the client: publications are printed, kept alive with comments, cut
    into chunks, parsed and decoded. */
module ClientView {
  import opened Sse
  import opened SseChunks
  import opened SseDialects
  import opened SsePrint
  import opened SseTheorems
  import TaskModel
  import TaskProtocol
  import TaskTheorems
  import EventText
  import EventReader

  type Event = TaskModel.Event

  function PrintEvent(e: Event): RawEvent {
    RawEvent(EventText.Name(e), EventText.Data(e))
  }

  function Printed(events: seq<Event>): seq<RawEvent> {
    if events == [] then [] else [PrintEvent(events[0])] + Printed(events[1..])
  }

  function Decode(d: Dialect, e: RawEvent): TaskModel.Option<Event> {
    if d.Node? then EventReader.DecodeNode(e.event, e.data) else EventReader.DecodeNet(e.event, e.data)
  }

  /** What the client hands on: every event decoded, up to the first it cannot read. */
  function DecodeAll(d: Dialect, events: seq<RawEvent>): seq<Event> {
    if events == [] then []
    else match Decode(d, events[0])
      case None => []
      case Some(e) => [e] + DecodeAll(d, events[1..])
  }

  lemma {:induction false} PrintedDecodes(d: Dialect, events: seq<Event>)
    ensures DecodeAll(d, Printed(events)) == events
  {
    if events != [] {
      EventReader.DecodesBack(events[0]);
      PrintedDecodes(d, events[1..]);
      assert [events[0]] + events[1..] == events;
    }
  }

  /** Single-line, and safe from every trimming. */
  predicate Tidy(e: RawEvent) {
    OneLine(e.event) && OneLine(e.data) && Plain(e.event) && Plain(e.data)
  }

  lemma {:induction false} PrintedIsTidy(events: seq<Event>)
    ensures forall e :: e in Printed(events) ==> Tidy(e)
  {
    if events != [] {
      EventText.DataIsOneLine(events[0]);
      EventText.NameIsPlain(events[0]);
      PrintedIsTidy(events[1..]);
    }
  }

  lemma {:induction false} PayloadOfItem(items: seq<Item>, item: Item)
    requires item in items && item.Sent?
    ensures RawEvent(item.name, item.data) in Payloads(items)
  {
    if item != items[0] { PayloadOfItem(items[1..], item); }
  }

  lemma TidyIsSafe(e: RawEvent)
    requires Tidy(e)
    ensures !HasCr(e.data) && NoSpaceInFront(e)
  {
    OneFeedLine(e.data);
  }

  lemma TidyItems(items: seq<Item>)
    requires forall e :: e in Payloads(items) ==> Tidy(e)
    ensures forall item :: item in items ==> Printable(item)
    ensures forall e :: e in Payloads(items) ==> NoSpaceInFront(e)
  {
    forall item | item in items ensures Printable(item) {
      if item.Sent? {
        PayloadOfItem(items, item);
        TidyIsSafe(RawEvent(item.name, item.data));
      }
    }
    forall e | e in Payloads(items) ensures NoSpaceInFront(e) { TidyIsSafe(e); }
  }

  /** Both clients read the printed events, whatever the keep-alives and the chunking. */
  lemma ClientsRead(events: seq<Event>, items: seq<Item>, chunks: seq<string>)
    requires Payloads(items) == Printed(events) && Concat(chunks) == PrintAll(items)
    ensures ParseFrom(Node, START, SplitChunks("", chunks)) == Printed(events)
    ensures Parse(Net, Concat(chunks)) == Printed(events)
  {
    PrintedIsTidy(events);
    TidyItems(items);
    NodeReadsPrinted(items, chunks);
    NetReadsPrinted(items);
  }

  /** Whatever the interleaving, the keep-alives and the chunking, both clients hand on,
      decoded, exactly the events the stream was sent: a prefix of what the task published,
      and all of it once the stream ended with the terminal event. */
  lemma ClientsSeeTheTask(w: TaskProtocol.World, sid: nat, items: seq<Item>, chunks: seq<string>)
    requires TaskProtocol.Reachable(w) && sid in w.subs
    requires Payloads(items) == Printed(w.subs[sid].sent) && Concat(chunks) == PrintAll(items)
    ensures var s := w.subs[sid];
            var node := DecodeAll(Node, ParseFrom(Node, START, SplitChunks("", chunks)));
            var net := DecodeAll(Net, Parse(Net, Concat(chunks)));
            && s.id in w.tasks
            && node == net == s.sent <= w.tasks[s.id].published
            && (s.mode == TaskProtocol.Over(TaskProtocol.ByTerminal) ==> node == w.tasks[s.id].published)
  {
    var sent := w.subs[sid].sent;
    ClientsRead(sent, items, chunks);
    PrintedDecodes(Node, sent);
    PrintedDecodes(Net, sent);
    TaskTheorems.StreamIsFaithful(w, sid);
  }
}

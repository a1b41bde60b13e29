/** The task store as the object it is, and the two procedures that drive it:
    one uncontended `run_task`, and the event stream of one subscriber. Each
    store method is one critical section of the service. */
module TaskStore {
  import opened TaskModel

  type Id = nat

  /** How a run went, as decided by the child process and its environment. */
  datatype Outcome = Exited(code: Option<I32>) | Cancelled | WaitError(error: string) | Expired

  datatype Launch = Refused(error: string) | Launched(output: seq<Event>, outcome: Outcome)

  /** The terminal event each path of a run ends in. */
  function TerminalOf(launch: Launch): Event {
    match launch
    case Refused(error) => Event.Failed(error)
    case Launched(_, Exited(code)) => Event.Finished(code)
    case Launched(_, Cancelled) => Event.Finished(None)
    case Launched(_, WaitError(error)) => Event.Failed(error)
    case Launched(_, Expired) => Event.TimedOut
  }

  function OutputOf(launch: Launch): seq<Event> {
    if launch.Launched? then launch.output else []
  }

  function Hangup(channels: map<Id, Channel>, removed: set<Id>): map<Id, Channel> {
    map id | id in channels :: if id in removed then channels[id].(closed := true) else channels[id]
  }

  /** A run's history always has the promised shape. */
  lemma RunHistoryValid(launch: Launch)
    requires forall e :: e in OutputOf(launch) ==> IsOutput(e)
    ensures var h := [Event.Started] + OutputOf(launch) + [TerminalOf(launch)];
            ValidHistory(h) && HasTerminal(h)
  {
    var output := OutputOf(launch);
    var h := [Event.Started] + output + [TerminalOf(launch)];
    forall i | 0 <= i < |h|
      ensures (h[i] == Event.Started <==> i == 0) && (IsTerminal(h[i]) ==> i == |h| - 1)
    {
      assert 0 < i < |h| - 1 ==> h[i] == output[i - 1] && output[i - 1] in output;
    }
  }

  class TaskStore {
    var inner: map<Id, Record>
    var channels: map<Id, Channel>
    var cancellations: set<Id>
    var count: int
    var generation: nat

    /** Every stored record has an open channel. */
    ghost predicate Valid()
      reads this
    {
      forall id :: id in inner ==> id in channels && !channels[id].closed
    }

    /** Every stored snapshot says what its history says. */
    ghost predicate Faithful()
      reads this
    {
      forall id :: id in inner ==> Agrees(inner[id])
    }

    constructor ()
      ensures Valid() && Faithful() && inner == map[] && channels == map[] && cancellations == {} && count == 0
    {
      inner, channels, cancellations, count, generation := map[], map[], {}, 0, 0;
    }

    method Create(id: Id, now: int)
      requires Valid() && id !in inner && id !in channels
      modifies this
      ensures Valid() && (old(Faithful()) ==> Faithful())
      ensures inner == old(inner)[id := NewRecord(now + RETENTION)]
      ensures channels == old(channels)[id := Channel([], {}, false)]
      ensures cancellations == old(cancellations) + {id} && count == old(count) + 1
      ensures generation == old(generation)
    {
      NewRecordAgrees(now + RETENTION);
      inner := inner[id := NewRecord(now + RETENTION)];
      channels := channels[id := Channel([], {}, false)];
      cancellations := cancellations + {id};
      count := count + 1;
    }

    /** Without a record the event is dropped. Snapshots stay faithful unless the
        event follows a terminal one, which the protocol rules out. */
    method Publish(id: Id, event: Event, now: int)
      requires Valid()
      modifies this`inner, this`channels
      ensures Valid()
      ensures old(Faithful() && (id in inner ==> !HasTerminal(inner[id].history))) ==> Faithful()
      ensures id !in old(inner) ==> inner == old(inner) && channels == old(channels)
      ensures id in old(inner) ==>
                && inner == old(inner)[id := Absorb(old(inner[id]), event, now)]
                && channels == old(channels)[id := Send(old(channels[id]), event)]
    {
      if id in inner {
        var task := inner[id];
        if Agrees(task) && !HasTerminal(task.history) { AbsorbAgrees(task, event, now); }
        match event {
          case Stdout(data) => task := task.(snapshot := task.snapshot.(stdout := task.snapshot.stdout + data));
          case Stderr(data) => task := task.(snapshot := task.snapshot.(stderr := task.snapshot.stderr + data));
          case Finished(code) =>
            task := task.(status := Status.Finished);
            task := task.(snapshot := task.snapshot.(status := task.status.Text(), exitCode := code));
            task := task.(expires := now + RETENTION);
          case TimedOut =>
            task := task.(status := Status.TimedOut);
            task := task.(snapshot := task.snapshot.(status := task.status.Text()));
            task := task.(expires := now + RETENTION);
          case Failed(error) =>
            task := task.(status := Status.Failed);
            task := task.(snapshot := task.snapshot.(status := task.status.Text(), error := Some(error)));
            task := task.(expires := now + RETENTION);
          case Started =>
        }
        task := task.(history := task.history + [event]);
        inner := inner[id := task];
        channels := channels[id := Send(channels[id], event)];
      }
    }

    /** The entry goes whatever happens; the answer is whether the runner was
        still listening. */
    method Cancel(id: Id, listening: bool) returns (accepted: bool)
      modifies this`cancellations
      ensures accepted == (id in old(cancellations) && listening)
      ensures cancellations == old(cancellations) - {id}
    {
      accepted := false;
      if id in cancellations {
        cancellations := cancellations - {id};
        accepted := listening;
      }
    }

    method ClearCancellation(id: Id)
      modifies this`cancellations
      ensures cancellations == old(cancellations) - {id}
    {
      cancellations := cancellations - {id};
    }

    /** History and receiver position are taken in one read, so whatever is
        published later is in the channel log from `position` on. */
    method Subscribe(id: Id, sid: nat) returns (history: Option<seq<Event>>, position: nat)
      requires Valid()
      modifies this`channels
      ensures Valid()
      ensures history == if id in inner then Some(inner[id].history) else None
      ensures id in inner ==> position == |channels[id].log|
      ensures id in inner ==>
                channels == old(channels)[id := old(channels[id]).(receivers := old(channels[id]).receivers + {sid})]
      ensures id !in inner ==> channels == old(channels)
    {
      history, position := None, 0;
      if id in inner {
        var c := channels[id];
        history, position := Some(inner[id].history), |c.log|;
        channels := channels[id := c.(receivers := c.receivers + {sid})];
      }
    }

    /** Exactly the records past their deadline go, and their channels close. */
    method Cleanup(now: int)
      requires Valid()
      modifies this`inner, this`channels
      ensures Valid() && (old(Faithful()) ==> Faithful())
      ensures forall id :: id in inner <==> id in old(inner) && old(inner)[id].expires > now
      ensures forall id :: id in inner ==> inner[id] == old(inner)[id]
      ensures channels == Hangup(old(channels), old(inner).Keys - inner.Keys)
    {
      ghost var inner0, channels0 := inner, channels;
      var pending := inner.Keys;
      ghost var removed := {};
      while pending != {}
        invariant pending <= inner.Keys && removed == inner0.Keys - inner.Keys
        invariant forall id :: id in inner ==> id in inner0 && inner[id] == inner0[id]
        invariant forall id :: id in inner0 && id !in pending ==> (id in inner <==> inner0[id].expires > now)
        invariant channels == Hangup(channels0, removed)
        decreases pending
      {
        var id :| id in pending;
        pending := pending - {id};
        if inner[id].expires <= now {
          inner := inner - {id};
          removed := removed + {id};
          channels := channels[id := channels[id].(closed := true)];
          assert channels == Hangup(channels0, removed);
        }
      }
    }

    /** Dropping a lease; the last one out wakes the shutdown waiter. */
    method DropLease()
      modifies this`count, this`generation
      ensures count == old(count) - 1
      ensures generation == if old(count) == 1 then old(generation) + 1 else old(generation)
    {
      var before := count;
      count := count - 1;
      if before == 1 {
        generation := generation + 1;
      }
    }

    /** What the two output readers publish between start and end, in the order
        they get to it. */
    method RelayOutput(id: Id, output: seq<Event>, now: int)
      requires Valid() && id in inner && inner[id].history == [Event.Started]
      requires forall e :: e in output ==> IsOutput(e)
      modifies this`inner, this`channels
      ensures Valid() && inner.Keys == old(inner).Keys
      ensures inner[id].history == [Event.Started] + output
      ensures forall other :: other in inner && other != id ==> inner[other] == old(inner)[other]
    {
      for i := 0 to |output|
        invariant Valid() && inner.Keys == old(inner).Keys
        invariant inner[id].history == [Event.Started] + output[..i]
        invariant forall other :: other in inner && other != id ==> inner[other] == old(inner)[other]
      {
        assert i > 0 ==> output[i - 1] in output;
        assert output[..i + 1] == output[..i] + [output[i]];
        Publish(id, output[i], now);
      }
      assert output[..|output|] == output;
    }

    /** How every path of a run ends: publish, drop the cancellation entry,
        return the lease. */
    method Conclude(id: Id, event: Event, now: int)
      requires Valid() && id in inner && IsTerminal(event)
      modifies this
      ensures Valid() && inner.Keys == old(inner).Keys
      ensures inner[id].history == old(inner)[id].history + [event]
      ensures inner[id].expires == now + RETENTION
      ensures forall other :: other in inner && other != id ==> inner[other] == old(inner)[other]
      ensures cancellations == old(cancellations) - {id} && count == old(count) - 1
    {
      Publish(id, event, now);
      ClearCancellation(id);
      DropLease();
    }

    /** One whole run against the store: Started, the output in order, and the terminal
        event of the path taken; the cancellation entry is gone and the lease returned. */
    method RunTask(id: Id, launch: Launch, now: int)
      requires Valid() && id in inner && inner[id].history == []
      requires forall e :: e in OutputOf(launch) ==> IsOutput(e)
      modifies this
      ensures Valid() && inner.Keys == old(inner).Keys
      ensures match launch
              case Refused(error) => inner[id].history == [Event.Started, Event.Failed(error)]
              case Launched(output, Exited(code)) =>
                inner[id].history == [Event.Started] + output + [Event.Finished(code)]
              case Launched(output, Cancelled) =>
                inner[id].history == [Event.Started] + output + [Event.Finished(None)]
              case Launched(output, WaitError(error)) =>
                inner[id].history == [Event.Started] + output + [Event.Failed(error)]
              case Launched(output, Expired) => inner[id].history == [Event.Started] + output + [Event.TimedOut]
      ensures inner[id].expires == now + RETENTION
      ensures forall other :: other in inner && other != id ==> inner[other] == old(inner)[other]
      ensures cancellations == old(cancellations) - {id} && count == old(count) - 1
    {
      Publish(id, Event.Started, now);
      if launch.Launched? {
        RelayOutput(id, launch.output, now);
      }
      assert inner[id].history == [Event.Started] + OutputOf(launch);
      Conclude(id, TerminalOf(launch), now);
    }
  }

  // ----- one event stream -----

  /** The events a receiver delivered before its first error. */
  function Delivered(incoming: seq<Received>): seq<Event> {
    if incoming == [] || !incoming[0].Value? then [] else [incoming[0].event] + Delivered(incoming[1..])
  }

  /** A sequence up to and including its first terminal event. */
  function UpToTerminal(events: seq<Event>): seq<Event> {
    if events == [] then []
    else if IsTerminal(events[0]) then [events[0]]
    else [events[0]] + UpToTerminal(events[1..])
  }

  predicate NoTerminal(events: seq<Event>) {
    forall e :: e in events ==> !IsTerminal(e)
  }

  lemma {:induction false} UpToTerminalAppend(a: seq<Event>, b: seq<Event>)
    requires NoTerminal(a)
    ensures UpToTerminal(a + b) == a + UpToTerminal(b)
  {
    if a == [] {
      assert a + b == b;
    } else {
      assert (a + b)[1..] == a[1..] + b;
      UpToTerminalAppend(a[1..], b);
    }
  }

  /** A valid history is not shortened. */
  lemma {:induction false} UpToTerminalWhole(h: seq<Event>)
    requires forall i :: 0 <= i < |h| - 1 ==> !IsTerminal(h[i])
    ensures UpToTerminal(h) == h
  {
    if |h| > 1 {
      UpToTerminalWhole(h[1..]);
    }
  }

  lemma {:induction false} DeliveredFrom(incoming: seq<Received>, i: nat)
    requires i <= |incoming| && forall j :: 0 <= j < i ==> incoming[j].Value?
    ensures Delivered(incoming) == Delivered(incoming[..i]) + Delivered(incoming[i..])
    ensures |Delivered(incoming[..i])| == i
    ensures i < |incoming| && incoming[i].Value? ==> Delivered(incoming[..i + 1]) == Delivered(incoming[..i]) + [incoming[i].event]
    decreases i
  {
    if i > 0 {
      assert incoming[..i][1..] == incoming[1..][..i - 1];
      assert incoming[1..][i - 1..] == incoming[i..];
      if i < |incoming| { assert incoming[..i + 1][1..] == incoming[1..][..i]; }
      DeliveredFrom(incoming[1..], i - 1);
    }
  }

  /** A replayed event that ends the stream. */
  lemma ReplayEnds(history: seq<Event>, i: nat, more: seq<Event>)
    requires i < |history| && NoTerminal(history[..i]) && IsTerminal(history[i])
    ensures UpToTerminal(history + more) == history[..i] + [history[i]]
  {
    var rest := history[i..] + more;
    assert history + more == history[..i] + rest;
    UpToTerminalAppend(history[..i], rest);
  }

  /** The stream after `i` received events, none terminal. */
  lemma RelaySoFar(history: seq<Event>, incoming: seq<Received>, i: nat, sent: seq<Event>)
    requires i <= |incoming| && forall j :: 0 <= j < i ==> incoming[j].Value?
    requires sent == history + Delivered(incoming[..i]) && NoTerminal(sent)
    ensures UpToTerminal(history + Delivered(incoming)) == sent + UpToTerminal(Delivered(incoming[i..]))
    ensures i < |incoming| && incoming[i].Value? ==>
              sent + [incoming[i].event] == history + Delivered(incoming[..i + 1])
  {
    DeliveredFrom(incoming, i);
    assert history + Delivered(incoming) == sent + Delivered(incoming[i..]);
    UpToTerminalAppend(sent, Delivered(incoming[i..]));
  }

  /** The event stream: replay the copied history, then relay what the receiver
      delivers, stopping after a terminal event or at the first receive error. */
  method Events(history: seq<Event>, incoming: seq<Received>) returns (sent: seq<Event>)
    ensures sent == UpToTerminal(history + Delivered(incoming))
  {
    sent := [];
    for i := 0 to |history|
      invariant sent == history[..i] && NoTerminal(sent)
    {
      sent := sent + [history[i]];
      if IsTerminal(history[i]) {
        ReplayEnds(history, i, Delivered(incoming));
        return;
      }
    }
    assert incoming[..0] == [] && history + [] == history == history[..|history|];
    var i := 0;
    while i < |incoming| && incoming[i].Value?
      invariant i <= |incoming| && forall j :: 0 <= j < i ==> incoming[j].Value?
      invariant sent == history + Delivered(incoming[..i]) && NoTerminal(sent)
    {
      RelaySoFar(history, incoming, i, sent);
      var event := incoming[i].event;
      sent := sent + [event];
      if IsTerminal(event) {
        return;
      }
      i := i + 1;
    }
    RelaySoFar(history, incoming, i, sent);
    assert sent + [] == sent;
  }
}

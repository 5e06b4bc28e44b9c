/**
 The in-flight tracking queue of the crawler: a FIFO with a one-slot output
 buffer and a set of URLs that were taken for output but not acknowledged.
 */
module WorkQueue {
  import opened Requests

  /** The locals of the manager loop. The Go map `active` only ever holds `true`. */
  datatype QueueState = QueueState(first: Option<Request>, waiting: seq<Request>, active: set<Url>)

  const EMPTY := QueueState(None, [], {})

  // What one turn of the manager loop does. Every turn starts by filling the
  // output slot, so a state seen by the loop's select is always filled.

  function Fill(q: QueueState): QueueState {
    if q.first.None? && |q.waiting| > 0 then
      QueueState(Some(q.waiting[0]), q.waiting[1..], q.active + {q.waiting[0].url})
    else q
  }

  function Push(q: QueueState, m: Request): QueueState {
    Fill(q.(waiting := q.waiting + [m]))
  }

  function Poll(q: QueueState): QueueState
    requires q.first.Some?
  {
    Fill(q.(first := None))
  }

  function Ack(q: QueueState, u: Url): QueueState {
    Fill(q.(active := q.active - {u}))
  }

  predicate IsActive(q: QueueState) {
    q.active != {} || |q.waiting| > 0
  }

  function Slot(q: QueueState): seq<Request> {
    if q.first.Some? then [q.first.value] else []
  }

  // Histories: what the queue's partners did, in order.

  datatype Ledger = Ledger(pushed: seq<Request>, polled: seq<Request>, acked: seq<Url>)

  const NOTHING := Ledger([], [], [])

  /** The clients push each URL once and acknowledge only what they polled. */
  ghost predicate Lawful(l: Ledger) {
    && Distinct(l.pushed)
    && Elements(l.acked) <= Named(l.polled)
  }

  /** FIFO order: pushed == polled ++ slot ++ waiting; `active` is what is out or in the slot and unacknowledged. */
  ghost predicate Agrees(q: QueueState, l: Ledger) {
    && l.pushed == l.polled + Slot(q) + q.waiting
    && (q.first.None? ==> q.waiting == [])
    && q.active == Named(l.polled + Slot(q)) - Elements(l.acked)
  }

  lemma PushAgrees(q: QueueState, l: Ledger, m: Request)
    requires Agrees(q, l) && Lawful(l) && m.url !in Named(l.pushed)
    ensures var l' := l.(pushed := l.pushed + [m]);
            Agrees(Push(q, m), l') && Lawful(l')
  {
    DistinctAppend(l.pushed, m);
    var q1 := Push(q, m);
    if q.first.None? {
      assert q.waiting + [m] == [m];
      assert q1.first == Some(m) && q1.waiting == [];
      NamedAppend(l.polled, [m]);
      NamedOne(m);
      assert l.polled + Slot(q) == l.polled == l.pushed;
      assert m.url !in Elements(l.acked);
    } else {
      assert l.pushed + [m] == l.polled + Slot(q1) + q1.waiting;
    }
  }

  lemma PollAgrees(q: QueueState, l: Ledger)
    requires Agrees(q, l) && Lawful(l) && q.first.Some?
    ensures var l' := l.(polled := l.polled + [q.first.value]);
            Agrees(Poll(q), l') && Lawful(l')
  {
    var m := q.first.value;
    var polled' := l.polled + [m];
    NamedAppend(l.polled, [m]);
    var q1 := Poll(q);
    if |q.waiting| > 0 {
      var n := q.waiting[0];
      assert q.waiting == [n] + q.waiting[1..];
      NamedAppend(polled', [n]);
      NamedOne(n);
      assert l.pushed == (polled' + [n]) + q.waiting[1..];
      DistinctSplit(polled' + [n], q.waiting[1..]);
      assert l.pushed == polled' + q.waiting;
      DistinctSplit(polled', q.waiting);
      assert n.url in Named(q.waiting);
      assert n.url !in Elements(l.acked);
      assert l.pushed == polled' + Slot(q1) + q1.waiting;
    } else {
      assert polled' + Slot(q1) == polled';
    }
  }

  lemma AckAgrees(q: QueueState, l: Ledger, u: Url)
    requires Agrees(q, l) && Lawful(l) && u in Named(l.polled)
    ensures var l' := l.(acked := l.acked + [u]);
            Agrees(Ack(q, u), l') && Lawful(l')
  {
    assert Elements(l.acked + [u]) == Elements(l.acked) + {u};
  }

  /** The termination detector is exact: inactive means every pushed URL was acknowledged. */
  lemma DetectorExact(q: QueueState, l: Ledger)
    requires Agrees(q, l) && Lawful(l)
    ensures !IsActive(q) <==> Named(l.pushed) == Elements(l.acked)
  {
    var out := l.polled + Slot(q);
    NamedAppend(out, q.waiting);
    NamedAppend(l.polled, Slot(q));
    if |q.waiting| > 0 {
      DistinctSplit(out, q.waiting);
      assert q.waiting[0].url in Named(q.waiting);
      assert q.waiting[0].url !in Elements(l.acked);
    } else {
      assert Named(q.waiting) == {};
    }
  }

  /** A full slot means the queue is active: its message cannot have been acknowledged yet. */
  lemma FullSlotIsActive(q: QueueState, l: Ledger)
    requires Agrees(q, l) && Lawful(l) && q.first.Some?
    ensures IsActive(q)
  {
    var m := q.first.value;
    assert l.pushed == l.polled + ([m] + q.waiting);
    DistinctSplit(l.polled, [m] + q.waiting);
    NamedAppend(l.polled, [m]);
    NamedOne(m);
    assert m in [m] + q.waiting;
    assert m.url !in Elements(l.acked);
    assert m.url in q.active;
  }

  lemma PollKeepsActive(q: QueueState, l: Ledger)
    requires Agrees(q, l) && Lawful(l) && q.first.Some?
    ensures IsActive(Poll(q))
  {
    FullSlotIsActive(q, l);
    DetectorExact(q, l);
    PollAgrees(q, l);
    DetectorExact(Poll(q), l.(polled := l.polled + [q.first.value]));
  }

  // A whole run of the manager loop, as the sequence of channel operations its select served.

  datatype Event = Pushed(m: Request) | Polled | Acked(u: Url)

  function StateAfter(events: seq<Event>): QueueState
    requires Served(events)
    decreases |events|, 1
  {
    if events == [] then EMPTY
    else
      var q := StateAfter(events[..|events| - 1]);
      match events[|events| - 1]
      case Pushed(m) => Push(q, m)
      case Polled => Poll(q)
      case Acked(u) => Ack(q, u)
  }

  /** The select can serve these operations in this order: a poll waits until the slot is full. */
  predicate Served(events: seq<Event>)
    decreases |events|, 0
  {
    events != [] ==>
      var before := events[..|events| - 1];
      && Served(before)
      && (events[|events| - 1].Polled? ==> StateAfter(before).first.Some?)
  }

  ghost function History(events: seq<Event>): Ledger
    requires Served(events)
  {
    if events == [] then NOTHING
    else
      var before := events[..|events| - 1];
      var l := History(before);
      match events[|events| - 1]
      case Pushed(m) => l.(pushed := l.pushed + [m])
      case Polled => l.(polled := l.polled + [StateAfter(before).first.value])
      case Acked(u) => l.(acked := l.acked + [u])
  }

  /** Each URL is pushed once, and acknowledged only after it was polled. */
  ghost predicate WellUsed(events: seq<Event>)
    requires Served(events)
  {
    events != [] ==>
      var before := events[..|events| - 1];
      && WellUsed(before)
      && match events[|events| - 1]
         case Pushed(m) => m.url !in Named(History(before).pushed)
         case Polled => true
         case Acked(u) => u in Named(History(before).polled)
  }

  /** Order and detection over every run of the manager. */
  lemma {:induction false} EveryRunIsExact(events: seq<Event>)
    requires Served(events) && WellUsed(events)
    ensures var q, l := StateAfter(events), History(events);
            && l.pushed == l.polled + Slot(q) + q.waiting
            && Agrees(q, l) && Lawful(l)
            && (!IsActive(q) <==> Named(l.pushed) == Elements(l.acked))
  {
    if events != [] {
      var before := events[..|events| - 1];
      EveryRunIsExact(before);
      var q, l := StateAfter(before), History(before);
      match events[|events| - 1]
      case Pushed(m) => PushAgrees(q, l, m);
      case Polled => PollAgrees(q, l);
      case Acked(u) => AckAgrees(q, l, u);
    }
    DetectorExact(StateAfter(events), History(events));
  }

  /** The manager goroutine's state; each method is one case of its select, followed by the next turn's fill. */
  class Queue {
    var first: Option<Request>
    var queue: seq<Request>
    var active: set<Url>

    function State(): QueueState
      reads this
    {
      QueueState(first, queue, active)
    }

    constructor ()
      ensures State() == EMPTY
    {
      first, queue, active := None, [], {};
    }

    method TakeFirst()
      modifies this
      ensures State() == Fill(old(State()))
    {
      if first == None && |queue| > 0 {
        first := Some(queue[0]);
        active := active + {queue[0].url};
        queue := queue[1..];
      }
    }

    method OnPush(m: Request)
      modifies this
      ensures State() == Push(old(State()), m)
    {
      queue := queue + [m];
      TakeFirst();
    }

    method OnPoll() returns (m: Request)
      requires first.Some?
      modifies this
      ensures Some(m) == old(first)
      ensures State() == Poll(old(State()))
    {
      m := first.value;
      first := None;
      TakeFirst();
    }

    method OnAck(u: Url)
      modifies this
      ensures State() == Ack(old(State()), u)
    {
      active := active - {u};
      TakeFirst();
    }

    method Count() returns (n: nat)
      ensures n == |State().waiting|
    {
      n := |queue|;
    }

    method Active() returns (b: bool)
      ensures b == IsActive(State())
    {
      b := |active| > 0 || |queue| > 0;
    }
  }
}

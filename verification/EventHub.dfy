/**
 The event hub: bounded queues that drop their oldest event when they are full.

 Publishing takes up to three steps on each queue, and a queue is locked only during one step, so
 other publishers and the consumer may act in between. Queues do not affect each other; the machine
 below is one queue with any number of publishers and its consumer.
 */
module EventHub {
  import opened Options

  type Event = int

  /** A size that is not positive means no bound. */
  predicate Full(queue: seq<Event>, size: int) {
    size > 0 && |queue| >= size
  }

  /** A publication that nobody interrupts. */
  function Published(queue: seq<Event>, size: int, event: Event): seq<Event> {
    if Full(queue, size) then queue[1..] + [event] else queue + [event]
  }

  // ---------- The hub as it runs ----------

  class BoundedQueue {
    const size: int
    var items: seq<Event>

    ghost predicate Valid()
      reads this
    {
      size > 0 ==> |items| <= size
    }

    constructor (size: int)
      ensures Valid()
      ensures this.size == size && items == []
    {
      this.size := size;
      items := [];
    }

    /** False when the queue is full. */
    method PutNowait(event: Event) returns (ok: bool)
      modifies this
      ensures old(Valid()) ==> Valid()
      ensures ok == !Full(old(items), size)
      ensures items == if ok then old(items) + [event] else old(items)
    {
      ok := !Full(items, size);
      if ok {
        items := items + [event];
      }
    }

    /** None when the queue is empty. */
    method GetNowait() returns (event: Option<Event>)
      modifies this
      ensures old(Valid()) ==> Valid()
      ensures event.None? <==> old(items) == []
      ensures old(items) == if event.None? then items else [event.value] + items
    {
      if items == [] {
        return None;
      }
      event := Some(items[0]);
      items := items[1..];
    }
  }

  class Hub {
    const queueSize: int
    var queues: set<BoundedQueue>

    constructor (queueSize: int)
      ensures this.queueSize == queueSize && queues == {}
    {
      this.queueSize := queueSize;
      queues := {};
    }

    method Publish(event: Event)
      requires forall q | q in queues :: q.Valid()
      modifies queues
      ensures forall q | q in queues :: q.Valid()
      ensures forall q | q in queues :: q.items == Published(old(q.items), q.size, event)
    {
      var subscribers := queues;
      while subscribers != {}
        invariant subscribers <= queues && forall q | q in queues :: q.Valid()
        invariant forall q | q in subscribers :: q.items == old(q.items)
        invariant forall q | q in queues - subscribers :: q.items == Published(old(q.items), q.size, event)
        decreases |subscribers|
      {
        var subscriber :| subscriber in subscribers;
        subscribers := subscribers - {subscriber};
        var ok := subscriber.PutNowait(event);
        if !ok {
          var oldest := subscriber.GetNowait();
          if oldest.Some? {
            ok := subscriber.PutNowait(event);
          }
        }
      }
    }

    method Subscribe() returns (subscriber: BoundedQueue)
      modifies this
      ensures fresh(subscriber) && subscriber.Valid() && subscriber.items == [] && subscriber.size == queueSize
      ensures queues == old(queues) + {subscriber}
    {
      subscriber := new BoundedQueue(queueSize);
      queues := queues + {subscriber};
    }

    method Unsubscribe(subscriber: BoundedQueue)
      modifies this
      ensures queues == old(queues) - {subscriber}
    {
      queues := queues - {subscriber};
    }
  }

  // ---------- Any interleaving on one queue ----------

  /** Before the first put; after it found the queue full; after the oldest event was taken; ended. */
  datatype Phase = ToPut | ToDrop | ToRetry | Put | Lost

  datatype Publisher = Publisher(event: Event, phase: Phase)

  /** An event that left the queue, to the consumer or to a publisher that dropped it. */
  datatype Taken = Taken(event: Event, received: bool)

  /** `puts` are all events that entered the queue, in that order. */
  datatype World = World(size: int, queue: seq<Event>, publishers: seq<Publisher>, puts: seq<Event>, taken: seq<Taken>)

  datatype Step = Start(event: Event) | Advance(publisher: nat) | Receive

  function Enter(w: World, i: nat): World
    requires i < |w.publishers|
  {
    var event := w.publishers[i].event;
    w.(queue := w.queue + [event], puts := w.puts + [event], publishers := w.publishers[i := Publisher(event, Put)])
  }

  function SetPhase(w: World, i: nat, phase: Phase): World
    requires i < |w.publishers|
  {
    w.(publishers := w.publishers[i := w.publishers[i].(phase := phase)])
  }

  function Take(w: World, received: bool): World
    requires w.queue != []
  {
    w.(queue := w.queue[1..], taken := w.taken + [Taken(w.queue[0], received)])
  }

  /** A step that is not possible changes nothing. */
  function Apply(w: World, step: Step): World {
    match step
    case Start(event) => w.(publishers := w.publishers + [Publisher(event, ToPut)])
    case Receive => if w.queue == [] then w else Take(w, true)
    case Advance(i) =>
      if i >= |w.publishers| then w
      else
        match w.publishers[i].phase
        case ToPut => if Full(w.queue, w.size) then SetPhase(w, i, ToDrop) else Enter(w, i)
        case ToDrop => if w.queue == [] then SetPhase(w, i, Lost) else SetPhase(Take(w, false), i, ToRetry)
        case ToRetry => if Full(w.queue, w.size) then SetPhase(w, i, Lost) else Enter(w, i)
        case Put => w
        case Lost => w
  }

  function Run(w: World, steps: seq<Step>): World
    decreases |steps|
  {
    if steps == [] then w else Run(Apply(w, steps[0]), steps[1..])
  }

  ghost function Events(taken: seq<Taken>): seq<Event> {
    if taken == [] then [] else [taken[0].event] + Events(taken[1..])
  }

  ghost function Received(taken: seq<Taken>): seq<Event> {
    if taken == [] then []
    else if taken[0].received then [taken[0].event] + Received(taken[1..])
    else Received(taken[1..])
  }

  ghost function CountPhases(publishers: seq<Publisher>, phases: set<Phase>): nat {
    if publishers == [] then 0 else (if publishers[0].phase in phases then 1 else 0) + CountPhases(publishers[1..], phases)
  }

  /** The queue is within its size, in put order, and every publisher put its event at most once. */
  ghost predicate Inv(w: World) {
    && (w.size > 0 ==> |w.queue| <= w.size)
    && w.puts == Events(w.taken) + w.queue
    && |w.puts| == CountPhases(w.publishers, {Put})
  }

  ghost predicate Empty(w: World) {
    w.queue == [] && w.publishers == [] && w.puts == [] && w.taken == []
  }

  lemma {:induction false} EventsAppend(taken: seq<Taken>, t: Taken)
    ensures Events(taken + [t]) == Events(taken) + [t.event]
  {
    if taken == [] {
      assert taken + [t] == [t];
    } else {
      assert (taken + [t])[1..] == taken[1..] + [t];
      EventsAppend(taken[1..], t);
    }
  }

  lemma {:induction false} CountChange(publishers: seq<Publisher>, i: nat, p: Publisher, phases: set<Phase>)
    requires i < |publishers|
    ensures CountPhases(publishers[i := p], phases) + (if publishers[i].phase in phases then 1 else 0) ==
            CountPhases(publishers, phases) + (if p.phase in phases then 1 else 0)
  {
    if i > 0 {
      assert publishers[i := p][1..] == publishers[1..][i - 1 := p];
      CountChange(publishers[1..], i - 1, p, phases);
    }
  }

  lemma {:induction false} CountAppend(publishers: seq<Publisher>, p: Publisher, phases: set<Phase>)
    ensures CountPhases(publishers + [p], phases) == CountPhases(publishers, phases) + if p.phase in phases then 1 else 0
  {
    if publishers == [] {
      assert publishers + [p] == [p];
    } else {
      assert (publishers + [p])[1..] == publishers[1..] + [p];
      CountAppend(publishers[1..], p, phases);
    }
  }

  lemma StepKeepsInv(w: World, step: Step)
    requires Inv(w)
    ensures Inv(Apply(w, step))
  {
    match step
    case Start(event) => CountAppend(w.publishers, Publisher(event, ToPut), {Put});
    case Receive =>
      if w.queue != [] {
        TakeKeepsOrder(w, true);
      }
    case Advance(i) =>
      if i < |w.publishers| {
        AdvanceKeepsInv(w, i);
      }
  }

  lemma TakeKeepsOrder(w: World, received: bool)
    requires w.queue != []
    ensures Events(Take(w, received).taken) + Take(w, received).queue == Events(w.taken) + w.queue
  {
    EventsAppend(w.taken, Taken(w.queue[0], received));
  }

  lemma EnterKeepsInv(w: World, i: nat)
    requires Inv(w) && i < |w.publishers| && w.publishers[i].phase != Put && !Full(w.queue, w.size)
    ensures Inv(Enter(w, i))
  {
    CountChange(w.publishers, i, Publisher(w.publishers[i].event, Put), {Put});
    assert Events(w.taken) + (w.queue + [w.publishers[i].event]) == (Events(w.taken) + w.queue) + [w.publishers[i].event];
  }

  lemma SetPhaseKeepsInv(w: World, i: nat, phase: Phase)
    requires Inv(w) && i < |w.publishers| && w.publishers[i].phase != Put && phase != Put
    ensures Inv(SetPhase(w, i, phase))
  {
    CountChange(w.publishers, i, w.publishers[i].(phase := phase), {Put});
  }

  lemma AdvanceKeepsInv(w: World, i: nat)
    requires Inv(w) && i < |w.publishers|
    ensures Inv(Apply(w, Advance(i)))
  {
    match w.publishers[i].phase
    case ToPut =>
      if Full(w.queue, w.size) {
        SetPhaseKeepsInv(w, i, ToDrop);
      } else {
        EnterKeepsInv(w, i);
      }
    case ToDrop =>
      if w.queue == [] {
        SetPhaseKeepsInv(w, i, Lost);
      } else {
        TakeKeepsOrder(w, false);
        SetPhaseKeepsInv(Take(w, false), i, ToRetry);
      }
    case ToRetry =>
      if Full(w.queue, w.size) {
        SetPhaseKeepsInv(w, i, Lost);
      } else {
        EnterKeepsInv(w, i);
      }
    case Put =>
    case Lost =>
  }

  lemma {:induction false} RunKeepsInv(w: World, steps: seq<Step>)
    requires Inv(w)
    ensures Inv(Run(w, steps))
    decreases |steps|
  {
    if steps != [] {
      StepKeepsInv(w, steps[0]);
      RunKeepsInv(Apply(w, steps[0]), steps[1..]);
    }
  }

  ghost predicate IsSubsequence(a: seq<Event>, b: seq<Event>) {
    a == [] || (b != [] && ((a[0] == b[0] && IsSubsequence(a[1..], b[1..])) || IsSubsequence(a, b[1..])))
  }

  lemma {:induction false} IsSubsequenceOfItself(a: seq<Event>)
    ensures IsSubsequence(a, a)
  {
    if a != [] {
      IsSubsequenceOfItself(a[1..]);
    }
  }

  lemma {:induction false} ReceivedIsSubsequence(taken: seq<Taken>, queue: seq<Event>)
    ensures IsSubsequence(Received(taken) + queue, Events(taken) + queue)
  {
    var all := Events(taken) + queue;
    if taken == [] {
      assert Received(taken) + queue == queue && all == queue;
      IsSubsequenceOfItself(queue);
    } else {
      ReceivedIsSubsequence(taken[1..], queue);
      assert all[1..] == Events(taken[1..]) + queue && all[0] == taken[0].event;
      if taken[0].received {
        assert (Received(taken) + queue)[1..] == Received(taken[1..]) + queue;
      }
    }
  }

  /**
   In every interleaving the queue stays within its size, what the consumer received followed by
   what is queued is a subsequence of the put order, and each publisher puts at most one event.
   */
  lemma InterleavingsKeepOrder(w: World, steps: seq<Step>)
    requires Empty(w)
    ensures var end := Run(w, steps);
            && (end.size > 0 ==> |end.queue| <= end.size)
            && IsSubsequence(Received(end.taken) + end.queue, end.puts)
            && |end.puts| == CountPhases(end.publishers, {Put})
  {
    RunKeepsInv(w, steps);
    ReceivedIsSubsequence(Run(w, steps).taken, Run(w, steps).queue);
  }

  /** A publisher that gives up lost its event at one of two moments: the queue was empty, or full again. */
  lemma LostIff(w: World, i: nat)
    requires i < |w.publishers| && w.publishers[i].phase != Lost
    ensures Apply(w, Advance(i)).publishers[i].phase == Lost <==>
              || (w.publishers[i].phase == ToDrop && w.queue == [])
              || (w.publishers[i].phase == ToRetry && Full(w.queue, w.size))
  {
  }

  /** Without interruption publishing ends with the new event last, and drops only the oldest of a full queue. */
  lemma UninterruptedPublish(w: World, i: nat)
    requires Inv(w) && i < |w.publishers| && w.publishers[i].phase == ToPut
    ensures var end := Run(w, [Advance(i), Advance(i), Advance(i)]);
            && i < |end.publishers| && end.publishers[i].phase == Put && end.queue != []
            && end.queue == Published(w.queue, w.size, w.publishers[i].event)
            && end.queue[|end.queue| - 1] == w.publishers[i].event
            && end.taken == w.taken + (if Full(w.queue, w.size) then [Taken(w.queue[0], false)] else [])
            && (w.size <= 0 || |w.queue| < w.size ==> end.queue == w.queue + [w.publishers[i].event])
            && (0 < w.size == |w.queue| ==> end.queue == w.queue[1..] + [w.publishers[i].event])
  {
    var w1 := Apply(w, Advance(i));
    var w2 := Apply(w1, Advance(i));
    var w3 := Apply(w2, Advance(i));
    var steps := [Advance(i), Advance(i), Advance(i)];
    assert steps[1..] == [Advance(i), Advance(i)] && steps[1..][1..] == [Advance(i)];
    assert Run(w3, []) == w3 && Run(w2, [Advance(i)]) == w3 && Run(w1, steps[1..]) == w3;
    if Full(w.queue, w.size) {
      assert w1 == SetPhase(w, i, ToDrop);
      assert w2 == SetPhase(Take(w1, false), i, ToRetry);
      assert w3 == Enter(w2, i);
    }
  }

  ghost function Receives(n: nat): seq<Step> {
    if n == 0 then [] else [Receive] + Receives(n - 1)
  }

  lemma {:induction false} DrainEmpties(w: World, rest: seq<Step>)
    ensures exists taken :: Run(w, Receives(|w.queue|) + rest) == Run(w.(queue := [], taken := taken), rest)
    decreases |w.queue|
  {
    var steps := Receives(|w.queue|) + rest;
    if w.queue == [] {
      assert steps == rest && w == w.(queue := [], taken := w.taken);
    } else {
      var w' := Apply(w, Receive);
      assert steps[0] == Receive && steps[1..] == Receives(|w'.queue|) + rest;
      DrainEmpties(w', rest);
      var taken :| Run(w', Receives(|w'.queue|) + rest) == Run(w'.(queue := [], taken := taken), rest);
      assert w'.(queue := [], taken := taken) == w.(queue := [], taken := taken);
    }
  }

  /** When the consumer drains the queue after it was found full, the new event is lost although there is room. */
  lemma DrainedQueueLosesEvent(w: World, i: nat)
    requires i < |w.publishers| && w.publishers[i].phase == ToPut && Full(w.queue, w.size)
    ensures var end := Run(w, [Advance(i)] + (Receives(|w.queue|) + [Advance(i)]));
            i < |end.publishers| && end.publishers[i].phase == Lost && end.queue == [] && end.puts == w.puts
  {
    var w1 := Apply(w, Advance(i));
    var rest := Receives(|w.queue|) + [Advance(i)];
    assert ([Advance(i)] + rest)[1..] == rest && w1 == SetPhase(w, i, ToDrop);
    DrainEmpties(w1, [Advance(i)]);
    var taken :| Run(w1, Receives(|w1.queue|) + [Advance(i)]) == Run(w1.(queue := [], taken := taken), [Advance(i)]);
    var w2 := w1.(queue := [], taken := taken);
    assert Run(w2, [Advance(i)]) == Run(Apply(w2, Advance(i)), []);
  }
}

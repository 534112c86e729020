/** The bounded or rendezvous channel between a node and the consumer of its applied entries
    (inc/toolings/msg_queue.hpp), as a monitor with any number of producers and consumers. */
module MessageQueue {
  import opened RaftTypes

  datatype Channel<T> = Channel(capacity: nat, items: seq<T>, closed: bool) {
    /** The predicate enqueue waits for before it pushes. */
    predicate MayPush() {
      (if capacity == 0 then items == [] else |items| < capacity) || closed
    }

    /** enqueue's push: a closed channel drops the value. */
    function Push(value: T): Channel<T> {
      if closed then this else this.(items := items + [value])
    }

    /** The predicate enqueue waits for before it returns. */
    predicate MayReturn() {
      capacity > 0 || items == [] || closed
    }

    predicate MayTake() {
      items != [] || closed
    }

    /** dequeue: a closed channel yields the default value, here None, even if it holds items. */
    function Take(): (Channel<T>, Option<T>)
      requires MayTake()
    {
      if closed then (this, None) else (this.(items := items[1..]), Some(items[0]))
    }

    /** try_dequeue: does not look at the closed flag. */
    function TryTake(): (Channel<T>, Option<T>) {
      if items == [] then (this, None) else (this.(items := items[1..]), Some(items[0]))
    }

    function Close(): Channel<T> {
      this.(closed := true)
    }
  }

  /** The class, one method per critical section between two waits. */
  class Queue<T> {
    const bufferSize: nat
    var queue: seq<T>
    var closed: bool

    ghost function View(): Channel<T>
      reads this
    {
      Channel(bufferSize, queue, closed)
    }

    constructor (bufferSize: nat)
      ensures View() == Channel(bufferSize, [], false)
    {
      this.bufferSize := bufferSize;
      queue, closed := [], false;
    }

    /** enqueue up to its push, entered when the wait for room is over. */
    method EnqueuePush(value: T) returns (mustWait: bool)
      requires View().MayPush()
      modifies this
      ensures View() == old(View()).Push(value)
      ensures mustWait == (!old(closed) && bufferSize == 0)
    {
      if closed {
        return false;
      }
      queue := queue + [value];
      mustWait := bufferSize == 0;
    }

    method Dequeue() returns (value: Option<T>)
      requires View().MayTake()
      modifies this
      ensures (View(), value) == old(View()).Take()
    {
      if closed {
        return None;
      }
      value := Some(queue[0]);
      queue := queue[1..];
    }

    method TryDequeue() returns (value: Option<T>)
      modifies this
      ensures (View(), value) == old(View()).TryTake()
    {
      if |queue| == 0 {
        return None;
      }
      value := Some(queue[0]);
      queue := queue[1..];
    }

    method CloseQueue()
      modifies this
      ensures View() == old(View()).Close()
    {
      closed := true;
    }
  }

  // ---------------------------------------------------------------- interleavings

  /** Where a producer thread stands inside enqueue; `ticket` is the position of its value among
      the accepted ones, None if it was dropped. */
  datatype Producer<T> =
    | Outside
    | Entering(value: T)
    | Leaving(value: T, ticket: Option<nat>)

  datatype Step<T> =
    | Enter(p: nat, value: T)
    | PushValue(p: nat)
    | Leave(p: nat)
    | TakeOne
    | TryTakeOne
    | CloseIt

  /** The channel, its producers, and everything accepted and consumed so far. */
  datatype System<T> = System(channel: Channel<T>, producers: map<nat, Producer<T>>, accepted: seq<T>, consumed: seq<T>)

  function At<T>(s: System<T>, p: nat): Producer<T> {
    if p in s.producers then s.producers[p] else Outside
  }

  predicate Enabled<T>(s: System<T>, step: Step<T>) {
    match step
    case Enter(p, _) => At(s, p).Outside?
    case PushValue(p) => At(s, p).Entering? && s.channel.MayPush()
    case Leave(p) => At(s, p).Leaving? && s.channel.MayReturn()
    case TakeOne => s.channel.MayTake()
    case TryTakeOne => true
    case CloseIt => true
  }

  function Consume<T>(s: System<T>, r: (Channel<T>, Option<T>)): System<T> {
    s.(channel := r.0, consumed := s.consumed + (if r.1.Some? then [r.1.value] else []))
  }

  function Perform<T>(s: System<T>, step: Step<T>): System<T>
    requires Enabled(s, step)
  {
    match step
    case Enter(p, value) => s.(producers := s.producers[p := Entering(value)])
    case PushValue(p) =>
      var value := At(s, p).value;
      if s.channel.closed
      then s.(producers := s.producers[p := Leaving(value, None)])
      else System(s.channel.Push(value), s.producers[p := Leaving(value, Some(|s.accepted|))],
                  s.accepted + [value], s.consumed)
    case Leave(p) => s.(producers := s.producers[p := Outside])
    case TakeOne => Consume(s, s.channel.Take())
    case TryTakeOne => Consume(s, s.channel.TryTake())
    case CloseIt => s.(channel := s.channel.Close())
  }

  function Execute<T>(capacity: nat, steps: seq<Step<T>>): Option<System<T>> {
    if steps == [] then Some(System(Channel(capacity, [], false), map[], [], [])) else
      var before := Execute(capacity, steps[..|steps| - 1]);
      var step := steps[|steps| - 1];
      if before.Some? && Enabled(before.value, step) then Some(Perform(before.value, step)) else None
  }

  ghost predicate Inv<T>(capacity: nat, s: System<T>) {
    && s.channel.capacity == capacity
    && s.consumed + s.channel.items == s.accepted
    && |s.channel.items| <= (if capacity == 0 then 1 else capacity)
    && forall p :: p in s.producers && s.producers[p].Leaving? && s.producers[p].ticket.Some? ==>
         var k := s.producers[p].ticket.value; k < |s.accepted| && s.accepted[k] == s.producers[p].value
  }

  /** Nothing is lost, duplicated or reordered inside the channel, and it never overfills: in every
      run, what was consumed followed by what is queued is what was accepted. */
  lemma {:induction false} QueueConserves<T>(capacity: nat, steps: seq<Step<T>>)
    requires Execute(capacity, steps).Some?
    ensures Inv(capacity, Execute(capacity, steps).value)
  {
    if steps != [] {
      var before := steps[..|steps| - 1];
      QueueConserves(capacity, before);
      StepConserves(capacity, Execute(capacity, before).value, steps[|steps| - 1]);
    }
  }

  lemma StepConserves<T>(capacity: nat, s: System<T>, step: Step<T>)
    requires Inv(capacity, s) && Enabled(s, step)
    ensures Inv(capacity, Perform(s, step))
  {
    if step.PushValue? && !s.channel.closed {
      assert s.consumed + (s.channel.items + [At(s, step.p).value]) == s.accepted + [At(s, step.p).value];
    } else if Perform(s, step).consumed != s.consumed {
      assert (s.consumed + [s.channel.items[0]]) + s.channel.items[1..] == s.consumed + s.channel.items;
    }
  }

  /** When an enqueue on an unbuffered channel returns before the channel is closed, its own value
      has been consumed. */
  lemma RendezvousDelivered<T>(steps: seq<Step<T>>, p: nat)
    requires Execute(0, steps).Some?
    requires var s := Execute(0, steps).value; Enabled(s, Leave(p)) && !s.channel.closed && At(s, p).ticket.Some?
    ensures var s := Execute(0, steps).value; var k := At(s, p).ticket.value;
            k < |s.consumed| && s.consumed[k] == At(s, p).value
  {
    QueueConserves(0, steps);
  }

  // ---------------------------------------------------------------- one producer

  /** The values a run's producers set out to enqueue, in order. */
  function Offered<T>(steps: seq<Step<T>>): seq<T> {
    if steps == [] then [] else
      var step := steps[|steps| - 1];
      Offered(steps[..|steps| - 1]) + (if step.Enter? then [step.value] else [])
  }

  ghost predicate OneProducer<T>(steps: seq<Step<T>>, p: nat) {
    forall k :: 0 <= k < |steps| && steps[k].Enter? ==> steps[k].p == p
  }

  /** With one producer the accepted values are the offered ones in order: all of them that reached
      the push while the channel is open, and some prefix of them once it is closed. */
  ghost predicate InOrder<T>(s: System<T>, offered: seq<T>, p: nat) {
    && s.accepted <= offered
    && (forall q :: q in s.producers && q != p ==> s.producers[q].Outside?)
    && (At(s, p).Entering? ==> offered != [] && offered[|offered| - 1] == At(s, p).value && |s.accepted| < |offered|)
    && (!s.channel.closed ==> |s.accepted| == |offered| - (if At(s, p).Entering? then 1 else 0))
  }

  lemma {:induction false} SingleProducerInOrder<T>(capacity: nat, steps: seq<Step<T>>, p: nat)
    requires Execute(capacity, steps).Some? && OneProducer(steps, p)
    ensures InOrder(Execute(capacity, steps).value, Offered(steps), p)
  {
    if steps != [] {
      var before := steps[..|steps| - 1];
      SingleProducerInOrder(capacity, before, p);
    }
  }

  /** A single producer's consumer sees exactly the first values offered, in order. */
  lemma ConsumedInOrder<T>(capacity: nat, steps: seq<Step<T>>, p: nat)
    requires Execute(capacity, steps).Some? && OneProducer(steps, p)
    ensures Execute(capacity, steps).value.consumed <= Offered(steps)
  {
    QueueConserves(capacity, steps);
    SingleProducerInOrder(capacity, steps, p);
  }

  // ---------------------------------------------------------------- what the consumer gets

  /** One more accepted value was consumed, the oldest one queued; nothing else changed. */
  ghost predicate HandedOver<T>(s: System<T>, s': System<T>) {
    && |s.consumed| < |s.accepted| && s'.consumed == s.accepted[..|s.consumed| + 1]
    && |s'.channel.items| == |s.channel.items| - 1 && s'.channel.items == s.channel.items[1..]
    && s'.channel.closed == s.channel.closed && s'.channel.capacity == s.channel.capacity
    && s'.accepted == s.accepted && s'.producers == s.producers
  }

  /** dequeue: waits exactly while the channel is open and empty, hands over the oldest value of an
      open channel, and nothing once it is closed. */
  lemma TakeOutcome<T>(capacity: nat, steps: seq<Step<T>>)
    requires Execute(capacity, steps).Some?
    ensures var s := Execute(capacity, steps).value;
            && (Enabled(s, TakeOne) <==> s.channel.closed || s.channel.items != [])
            && (!s.channel.closed && s.channel.items != [] ==> HandedOver(s, Perform(s, TakeOne)))
            && (s.channel.closed ==> Perform(s, TakeOne) == s)
  {
    QueueConserves(capacity, steps);
    var s := Execute(capacity, steps).value;
    if s.channel.items != [] { NextAccepted(s); }
  }

  /** try_dequeue never waits and hands over the oldest value whether the channel is open or not. */
  lemma TryTakeOutcome<T>(capacity: nat, steps: seq<Step<T>>)
    requires Execute(capacity, steps).Some?
    ensures var s := Execute(capacity, steps).value;
            && Enabled(s, TryTakeOne)
            && (s.channel.items != [] ==> HandedOver(s, Perform(s, TryTakeOne)))
            && (s.channel.items == [] ==> Perform(s, TryTakeOne) == s)
  {
    QueueConserves(capacity, steps);
    var s := Execute(capacity, steps).value;
    if s.channel.items != [] { NextAccepted(s); }
  }

  lemma NextAccepted<T>(s: System<T>)
    requires s.consumed + s.channel.items == s.accepted && s.channel.items != []
    ensures |s.consumed| < |s.accepted| && s.accepted[..|s.consumed| + 1] == s.consumed + [s.channel.items[0]]
  {
    assert s.accepted[|s.consumed|] == s.channel.items[0];
  }

  /** enqueue: its push waits exactly while the channel is open and as many accepted values are
      unconsumed as it may hold; an open channel accepts the value, a closed one drops it. */
  lemma PushOutcome<T>(capacity: nat, steps: seq<Step<T>>, p: nat)
    requires Execute(capacity, steps).Some? && At(Execute(capacity, steps).value, p).Entering?
    ensures var s := Execute(capacity, steps).value;
            && (Enabled(s, PushValue(p)) <==>
                  s.channel.closed || |s.accepted| - |s.consumed| < if capacity == 0 then 1 else capacity)
            && (Enabled(s, PushValue(p)) ==>
                  var s' := Perform(s, PushValue(p));
                  && s'.accepted == (if s.channel.closed then s.accepted else s.accepted + [At(s, p).value])
                  && s'.consumed == s.consumed && s'.channel.closed == s.channel.closed
                  && At(s', p).Leaving? && forall q :: q != p ==> At(s', q) == At(s, q))
  {
    QueueConserves(capacity, steps);
  }

  /** enqueue returns at once from a buffered or closed channel, and otherwise exactly when every
      accepted value was consumed. */
  lemma LeaveOutcome<T>(capacity: nat, steps: seq<Step<T>>, p: nat)
    requires Execute(capacity, steps).Some? && At(Execute(capacity, steps).value, p).Leaving?
    ensures var s := Execute(capacity, steps).value;
            && (Enabled(s, Leave(p)) <==> capacity > 0 || s.channel.closed || s.consumed == s.accepted)
            && (Enabled(s, Leave(p)) ==>
                  At(Perform(s, Leave(p)), p).Outside? && Perform(s, Leave(p)).(producers := s.producers) == s)
  {
    QueueConserves(capacity, steps);
    var s := Execute(capacity, steps).value;
    assert s.consumed == s.accepted <==> s.channel.items == [] by {
      assert |s.accepted| == |s.consumed| + |s.channel.items|;
      if s.channel.items == [] { assert s.consumed + [] == s.consumed; }
    }
  }

  /** close stops producers and dequeue; what is queued stays. */
  lemma CloseOutcome<T>(s: System<T>)
    ensures Enabled(s, CloseIt) && Perform(s, CloseIt).channel.closed && Perform(s, CloseIt).channel.items == s.channel.items
    ensures Perform(s, CloseIt).accepted == s.accepted && Perform(s, CloseIt).consumed == s.consumed
  {
  }

  lemma Extended<T>(capacity: nat, steps: seq<Step<T>>, step: Step<T>)
    requires Execute(capacity, steps).Some? && Enabled(Execute(capacity, steps).value, step)
    ensures Execute(capacity, steps + [step]) == Some(Perform(Execute(capacity, steps).value, step))
    ensures Offered(steps + [step]) == Offered(steps) + (if step.Enter? then [step.value] else [])
  {
    assert (steps + [step])[..|steps + [step]| - 1] == steps;
  }

  function Takes<T>(k: nat): seq<Step<T>> {
    seq(k, _ => TakeOne)
  }

  /** Progress: as many takes as an open channel holds items deliver everything it accepted. */
  lemma {:induction false} Drain<T>(capacity: nat, steps: seq<Step<T>>)
    requires Execute(capacity, steps).Some? && !Execute(capacity, steps).value.channel.closed
    ensures var s := Execute(capacity, steps).value; var steps' := steps + Takes(|s.channel.items|);
            && Execute(capacity, steps').Some? && Offered(steps') == Offered(steps)
            && var s' := Execute(capacity, steps').value;
               && s'.consumed == s'.accepted == s.accepted && s'.channel.items == []
               && s'.producers == s.producers && !s'.channel.closed
    decreases |Execute(capacity, steps).value.channel.items|
  {
    var s := Execute(capacity, steps).value;
    var k := |s.channel.items|;
    QueueConserves(capacity, steps);
    if k == 0 {
      assert steps + Takes(0) == steps;
      assert s.consumed + [] == s.consumed;
    } else {
      TakeOutcome(capacity, steps);
      Extended(capacity, steps, TakeOne);
      Drain(capacity, steps + [TakeOne]);
      assert (steps + [TakeOne]) + Takes(k - 1) == steps + Takes(k);
    }
  }

  /** An open channel with one producer, which is outside enqueue, and everything it offered consumed. */
  ghost predicate Settled<T>(capacity: nat, steps: seq<Step<T>>, p: nat) {
    && OpenRun(capacity, steps, p)
    && var s := Execute(capacity, steps).value; At(s, p).Outside? && s.consumed == Offered(steps)
  }

  ghost predicate OpenRun<T>(capacity: nat, steps: seq<Step<T>>, p: nat) {
    Execute(capacity, steps).Some? && !Execute(capacity, steps).value.channel.closed && OneProducer(steps, p)
  }

  /** An open run with nothing queued. */
  lemma Drained<T>(capacity: nat, steps: seq<Step<T>>, p: nat) returns (steps': seq<Step<T>>)
    requires OpenRun(capacity, steps, p)
    ensures steps <= steps' && OpenRun(capacity, steps', p) && Offered(steps') == Offered(steps)
    ensures var s, s' := Execute(capacity, steps).value, Execute(capacity, steps').value;
            At(s', p) == At(s, p) && s'.consumed == s'.accepted == s.accepted
  {
    Drain(capacity, steps);
    steps' := steps + Takes(|Execute(capacity, steps).value.channel.items|);
  }

  lemma Continue<T>(capacity: nat, steps: seq<Step<T>>, p: nat, step: Step<T>) returns (steps': seq<Step<T>>)
    requires OpenRun(capacity, steps, p) && Enabled(Execute(capacity, steps).value, step) && !step.CloseIt?
    requires step.Enter? ==> step.p == p
    ensures steps' == steps + [step] && OpenRun(capacity, steps', p)
    ensures Execute(capacity, steps').value == Perform(Execute(capacity, steps).value, step)
    ensures Offered(steps') == Offered(steps) + (if step.Enter? then [step.value] else [])
  {
    Extended(capacity, steps, step);
    steps' := steps + [step];
  }

  /** Whatever a single producer has set out to enqueue can be consumed. */
  lemma Settle<T>(capacity: nat, steps: seq<Step<T>>, p: nat) returns (steps': seq<Step<T>>)
    requires OpenRun(capacity, steps, p)
    ensures steps <= steps' && Settled(capacity, steps', p) && Offered(steps') == Offered(steps)
  {
    steps' := Drained(capacity, steps, p);
    if At(Execute(capacity, steps').value, p).Entering? {
      PushOutcome(capacity, steps', p);
      steps' := Continue(capacity, steps', p, PushValue(p));
      steps' := Drained(capacity, steps', p);
    }
    if At(Execute(capacity, steps').value, p).Leaving? {
      LeaveOutcome(capacity, steps', p);
      steps' := Continue(capacity, steps', p, Leave(p));
    }
    SingleProducerInOrder(capacity, steps', p);
  }

  /** And so can any further values. */
  lemma {:induction false} ConsumeAll<T>(capacity: nat, steps: seq<Step<T>>, p: nat, more: seq<T>) returns (steps': seq<Step<T>>)
    requires OpenRun(capacity, steps, p)
    ensures steps <= steps' && Settled(capacity, steps', p) && Offered(steps') == Offered(steps) + more
    decreases |more|
  {
    steps' := Settle(capacity, steps, p);
    if more != [] {
      var entered := Continue(capacity, steps', p, Enter(p, more[0]));
      steps' := ConsumeAll(capacity, entered, p, more[1..]);
      OneMore(Offered(steps), more);
    }
  }

  lemma OneMore<T>(a: seq<T>, more: seq<T>)
    requires more != []
    ensures (a + [more[0]]) + more[1..] == a + more
  {
  }
}

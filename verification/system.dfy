/**
 The two tasks and the channel between them, with the scheduler replaced by
 an explicit sequence of actions: a producer cycle, or a consumer attempt to
 take one record. A consumer attempt does nothing when the channel is empty
 (the task stays blocked) or when the task has deleted itself. The state
 also records every record that entered the channel and every record the
 consumer took, so that the channel's ordering can be stated.
 */
module System {
  import opened Types
  import opened Channel
  import Consumer
  import Producer

  datatype System = System(
    producer: Producer.ProducerState,
    queue: Queue,
    consumer: Consumer.ConsumerState,
    log: seq<Event>,
    sent: seq<Data>,      // every record whose send passed, in order
    received: seq<Data>)  // every record the consumer took, in order

  datatype Action =
    | Produce(sample: Producer.Sample)
    | Consume

  /** Start-up: the channel is created empty, the producer reads the tick
      count and the consumer reads its own priority. */
  function Boot(tick: nat, p0: nat): (s: System)
    ensures Inv(s) && s.consumer.running && |s.queue.items| == 0
  {
    System(Producer.Start(tick), Create(), Consumer.Start(p0), [], [], [])
  }

  /** What holds at every point: the channel is within capacity, the records
      that entered it are the ones taken followed by the ones still in it,
      the consumer's priorities are in range, and the consumer's state is
      what its loop makes of the records it took. */
  ghost predicate Inv(s: System) {
    && s.queue.Valid()
    && s.sent == s.received + s.queue.items
    && Consumer.Inv(s.consumer)
    && var r := Consumer.Run(Consumer.Start(s.consumer.initialPriority), s.received);
       r.state == s.consumer && r.consumed == |s.received|
  }

  /** One action. */
  function Apply(s: System, a: Action, period: nat): (r: System)
    requires s.queue.Valid() && period > 0
    ensures r.queue.Valid()
    ensures r.consumer.initialPriority == s.consumer.initialPriority
  {
    match a
    case Produce(x) =>
      var c := Producer.Cycle(s.producer, s.queue, x.id, x.value, x.work, period);
      var passed := |s.queue.items| < Capacity;
      s.(producer := c.producer, queue := c.queue, log := s.log + c.events,
         sent := if passed then s.sent + [Data(x.id, x.value)] else s.sent)
    case Consume =>
      if !s.consumer.running then s
      else match Receive(s.queue)
        case None => s
        case Some(t) =>
          var st := Consumer.Step(s.consumer, t.item);
          s.(queue := t.rest, consumer := st.state, log := s.log + st.events,
             received := s.received + [t.item])
  }

  /** The actions one after another. */
  function Execute(s: System, actions: seq<Action>, period: nat): (r: System)
    requires s.queue.Valid() && period > 0
    ensures r.queue.Valid()
    decreases |actions|
  {
    if |actions| == 0 then s else Execute(Apply(s, actions[0], period), actions[1..], period)
  }

  /** Every action keeps the invariant. */
  lemma ApplyPreservesInv(s: System, a: Action, period: nat)
    requires Inv(s) && period > 0
    ensures Inv(Apply(s, a, period))
  {
    match a
    case Produce(x) =>
    case Consume =>
      if s.consumer.running && |s.queue.items| > 0 {
        var t := Receive(s.queue).value;
        var p0 := s.consumer.initialPriority;
        Consumer.RunConcat(Consumer.Start(p0), s.received, [t.item]);
        assert [t.item][1..] == [];
      }
  }

  /** Any interleaving keeps the invariant. */
  lemma {:induction false} ExecutePreservesInv(s: System, actions: seq<Action>, period: nat)
    requires Inv(s) && period > 0
    ensures Inv(Execute(s, actions, period))
    decreases |actions|
  {
    if |actions| > 0 {
      ApplyPreservesInv(s, actions[0], period);
      ExecutePreservesInv(Apply(s, actions[0], period), actions[1..], period);
    }
  }

  /** From start-up, under any interleaving: the channel never holds more
      than five records; the consumer takes records in the order they were
      sent, each exactly once (what it took is a prefix of what was sent, and
      the rest is still in the channel); and the consumer's state and
      priorities are those its loop reaches over the records it took. */
  lemma FifoExactlyOnce(tick: nat, p0: nat, actions: seq<Action>, period: nat)
    requires period > 0
    ensures var r := Execute(Boot(tick, p0), actions, period);
      && |r.queue.items| <= Capacity
      && |r.received| <= |r.sent|
      && r.received == r.sent[..|r.received|]
      && r.queue.items == r.sent[|r.received|..]
      && r.consumer == Consumer.Run(Consumer.Start(p0), r.received).state
      && (r.consumer.priority == p0 || r.consumer.priority == p0 + 2)
  {
    var r := Execute(Boot(tick, p0), actions, period);
    ExecutePreservesInv(Boot(tick, p0), actions, period);
    assert r.sent[..|r.received|] == r.received;
    InitialPriorityKept(Boot(tick, p0), actions, period);
  }

  /** No action changes the consumer's captured initial priority. */
  lemma {:induction false} InitialPriorityKept(s: System, actions: seq<Action>, period: nat)
    requires s.queue.Valid() && period > 0
    ensures Execute(s, actions, period).consumer.initialPriority == s.consumer.initialPriority
    decreases |actions|
  {
    if |actions| > 0 {
      InitialPriorityKept(Apply(s, actions[0], period), actions[1..], period);
    }
  }

  /** Only producer cycles among the actions: the consumer takes no turn. */
  predicate ProducerOnly(actions: seq<Action>) {
    forall i :: 0 <= i < |actions| ==> actions[i].Produce?
  }

  lemma ProducerOnlyTail(actions: seq<Action>)
    requires |actions| > 0 && ProducerOnly(actions)
    ensures actions[0].Produce? && ProducerOnly(actions[1..])
  {
  }

  /** A producer cycle appends its record when there is room and drops it
      otherwise, whatever the consumer's state. */
  lemma ProduceTakes(s: System, x: Producer.Sample, period: nat)
    requires s.queue.Valid() && period > 0
    ensures Apply(s, Produce(x), period).queue.items == Take(s.queue.items + [Data(x.id, x.value)], Capacity)
  {
  }

  /** Once the consumer has deleted itself, or while it takes no turn, it
      takes nothing: its state and the records it took stay as they are, and
      the channel only grows at its tail. */
  lemma {:induction false} DeletedConsumerTakesNothing(s: System, actions: seq<Action>, period: nat)
    requires s.queue.Valid() && period > 0
    requires !s.consumer.running || ProducerOnly(actions)
    ensures var r := Execute(s, actions, period);
      && r.consumer == s.consumer
      && r.received == s.received
      && |s.queue.items| <= |r.queue.items|
      && r.queue.items[..|s.queue.items|] == s.queue.items
    decreases |actions|
  {
    if |actions| > 0 {
      var s1 := Apply(s, actions[0], period);
      if ProducerOnly(actions) {
        ProducerOnlyTail(actions);
      }
      DeletedConsumerTakesNothing(s1, actions[1..], period);
      assert s1.queue.items[..|s.queue.items|] == s.queue.items;
    }
  }

  /** The records the producer offers to the channel, in order. */
  function Offered(actions: seq<Action>): seq<Data>
    decreases |actions|
  {
    if |actions| == 0 then []
    else
      (match actions[0]
       case Produce(x) => [Data(x.id, x.value)]
       case Consume => [])
      + Offered(actions[1..])
  }

  /** At most the first `n` elements of `xs`. */
  function Take(xs: seq<Data>, n: nat): seq<Data> {
    if |xs| <= n then xs else xs[..n]
  }

  lemma TakeOfTake(xs: seq<Data>, ys: seq<Data>, n: nat)
    ensures Take(Take(xs, n) + ys, n) == Take(xs + ys, n)
  {
  }

  /** With the consumer deleted, or while it takes no turn, the channel keeps
      the first records offered up to its capacity and drops every later one. */
  lemma {:induction false} DeletedConsumerFillsThenDrops(s: System, actions: seq<Action>, period: nat)
    requires s.queue.Valid() && period > 0
    requires !s.consumer.running || ProducerOnly(actions)
    ensures Execute(s, actions, period).queue.items == Take(s.queue.items + Offered(actions), Capacity)
    decreases |actions|
  {
    if |actions| == 0 {
      assert s.queue.items + [] == s.queue.items;
    } else {
      match actions[0]
      case Consume =>
        // a consumer turn is only among the actions once the consumer is deleted
        assert Apply(s, Consume, period) == s;
        DeletedConsumerFillsThenDrops(s, actions[1..], period);
        assert Offered(actions) == Offered(actions[1..]);
      case Produce(x) =>
        var s1 := Apply(s, actions[0], period);
        var d := Data(x.id, x.value);
        assert Execute(s, actions, period) == Execute(s1, actions[1..], period);
        assert s1.consumer == s.consumer;
        if ProducerOnly(actions) {
          ProducerOnlyTail(actions);
        }
        DeletedConsumerFillsThenDrops(s1, actions[1..], period);
        ProduceTakes(s, x, period);
        TakeStep(s.queue.items, d, Offered(actions[1..]));
        assert Offered(actions) == [d] + Offered(actions[1..]);
    }
  }

  /** Offering one record and then more to a bounded channel is offering
      them all at once. */
  lemma TakeStep(q: seq<Data>, d: Data, rest: seq<Data>)
    ensures Take(Take(q + [d], Capacity) + rest, Capacity) == Take(q + ([d] + rest), Capacity)
  {
  }

  /** Six producer cycles in a row into an empty channel, whatever the
      consumer's state: the first five records are kept in order for a later
      receive, and the sixth is dropped: it never enters the channel nor
      counts as sent. */
  lemma SixthSendDropped(s: System, actions: seq<Action>, period: nat)
    requires Inv(s) && period > 0 && |s.queue.items| == 0
    requires |actions| == 6 && ProducerOnly(actions)
    ensures var r := Execute(s, actions, period);
      && |Offered(actions)| == 6
      && r.queue.items == Offered(actions)[..5]
      && r.sent == s.sent + Offered(actions)[..5]
  {
    var r := Execute(s, actions, period);
    var offered := Offered(actions);
    OfferedProduces(actions);
    DeletedConsumerFillsThenDrops(s, actions, period);
    assert s.queue.items + offered == offered;
    assert r.queue.items == offered[..5];
    ExecutePreservesInv(s, actions, period);
    DeletedConsumerTakesNothing(s, actions, period);
    assert s.sent == s.received;
  }

  /** Only producer cycles: every cycle offers its sampled record. */
  lemma {:induction false} OfferedProduces(actions: seq<Action>)
    requires ProducerOnly(actions)
    ensures |Offered(actions)| == |actions|
    ensures forall i :: 0 <= i < |actions| ==>
      Offered(actions)[i] == Data(actions[i].sample.id, actions[i].sample.value)
    decreases |actions|
  {
    if |actions| > 0 {
      ProducerOnlyTail(actions);
      OfferedProduces(actions[1..]);
      forall i | 0 <= i < |actions|
        ensures Offered(actions)[i] == Data(actions[i].sample.id, actions[i].sample.value)
      {
        if i > 0 {
          assert actions[i] == actions[1..][i - 1];
        }
      }
    }
  }
}

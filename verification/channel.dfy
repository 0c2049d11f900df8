/**
 The bounded FIFO channel `Queue1`: created with room for five records,
 written by the producer with a zero timeout (a full channel rejects the
 record at once) and read by the consumer from the head. Receiving from an
 empty channel blocks the consumer; here that is a receive that yields
 nothing and leaves the channel as it was.
 */
module Channel {
  import opened Types

  /** The capacity the channel is created with. */
  const Capacity: nat := 5

  datatype Queue = Queue(items: seq<Data>) {
    /** The channel never holds more records than its capacity. */
    predicate Valid() {
      |items| <= Capacity
    }
  }

  /** The freshly created channel. */
  function Create(): (q: Queue)
    ensures q.Valid() && |q.items| == 0
  {
    Queue([])
  }

  /** The outcome of a non-blocking send: the channel afterwards and whether
      the send passed. */
  datatype SendOutcome = SendOutcome(queue: Queue, passed: bool)

  /** A send with timeout 0: the record goes to the tail if there is room,
      otherwise the send fails and the channel is untouched. */
  function Send(q: Queue, d: Data): (r: SendOutcome)
    requires q.Valid()
    ensures r.queue.Valid()
    ensures r.passed <==> |q.items| < Capacity
    ensures r.passed ==> r.queue.items == q.items + [d]
    ensures !r.passed ==> r.queue == q
  {
    if |q.items| < Capacity then SendOutcome(Queue(q.items + [d]), true)
    else SendOutcome(q, false)
  }

  /** A record taken from the head and the channel that remains. */
  datatype Taken = Taken(item: Data, rest: Queue)

  /** A receive: `None` when the channel is empty (the consumer stays blocked),
      otherwise the head record and the remaining channel. */
  function Receive(q: Queue): (r: Option<Taken>)
    ensures r.None? <==> |q.items| == 0
    ensures r.Some? ==> [r.value.item] + r.value.rest.items == q.items
    ensures q.Valid() && r.Some? ==> r.value.rest.Valid()
  {
    if |q.items| == 0 then None else Some(Taken(q.items[0], Queue(q.items[1..])))
  }

  /** A record sent onto a channel comes out after everything that was
      already in it: draining the old contents leaves exactly the new record. */
  lemma {:induction false} SendThenDrain(q: Queue, d: Data)
    requires q.Valid() && |q.items| < Capacity
    ensures DrainAll(Send(q, d).queue) == q.items + [d]
  {
    DrainAllReturnsContents(Send(q, d).queue);
  }

  /** Receives repeated until the channel is empty, collecting the records in
      the order they come out. */
  function DrainAll(q: Queue): seq<Data>
    decreases |q.items|
  {
    match Receive(q)
    case None => []
    case Some(t) => [t.item] + DrainAll(t.rest)
  }

  /** Draining returns every record of the channel exactly once, head first:
      the channel is first-in first-out. */
  lemma {:induction false} DrainAllReturnsContents(q: Queue)
    ensures DrainAll(q) == q.items
    decreases |q.items|
  {
    match Receive(q)
    case None =>
    case Some(t) =>
      DrainAllReturnsContents(t.rest);
  }
}

/**
 The producer task `ExampleTask1`. Each cycle it builds a record from the
 two sampled inputs, offers it to the channel without waiting, logs it when
 the send passed, and then sleeps until one period after its previous wake
 mark. Time is counted in ticks; the period is a positive parameter, and
 the time a cycle's send and log take is a parameter too.
 */
module Producer {
  import opened Types
  import opened Channel

  /** The producer's timing state: its wake mark and the current tick. */
  datatype ProducerState = ProducerState(lastWake: nat, now: nat)

  /** The producer at its first cycle: the wake mark is the tick count read
      before the loop. */
  function Start(tick: nat): (p: ProducerState)
    ensures p.lastWake == tick && p.now == tick
  {
    ProducerState(tick, tick)
  }

  /** The outcome of delaying until a mark: the advanced mark and the tick at
      which the task runs again. */
  datatype Delay = Delay(mark: nat, resumeAt: nat)

  /** Delay until one period after the previous mark. The mark always moves
      by exactly one period; the task resumes at that mark, or at once if the
      mark already lies in the past. */
  function DelayUntil(mark: nat, period: nat, now: nat): (r: Delay)
    requires period > 0
    ensures r.mark - mark == period
    ensures r.resumeAt >= now && r.resumeAt >= r.mark
    ensures r.resumeAt == now || r.resumeAt == r.mark
  {
    var next := mark + period;
    Delay(next, if now < next then next else now)
  }

  datatype CycleResult = CycleResult(producer: ProducerState, queue: Queue, events: seq<Event>)

  /** One pass of the producer loop: sample, send with timeout 0, log on
      success, spend `work` ticks on the send and the log, and delay until
      the next mark. */
  function Cycle(p: ProducerState, q: Queue, id: UInt8, value: Int32, work: nat, period: nat): (r: CycleResult)
    requires q.Valid() && period > 0
    ensures r.queue.Valid()
    ensures r.producer.lastWake == p.lastWake + period
    ensures var d := Data(id, value);
      && (|q.items| < Capacity ==> r.queue.items == q.items + [d] && r.events == [Sent(d)])
      && (|q.items| == Capacity ==> r.queue == q && r.events == [])
  {
    var d := Data(id, value);
    var sent := Send(q, d);
    var delay := DelayUntil(p.lastWake, period, p.now + work);
    CycleResult(ProducerState(delay.mark, delay.resumeAt), sent.queue,
                if sent.passed then [Sent(d)] else [])
  }

  /** The inputs of one cycle: the sampled identifier and value and the ticks
      the cycle's work takes. */
  datatype Sample = Sample(id: UInt8, value: Int32, work: nat)

  /** The producer's endless loop over a sequence of cycles. After k cycles
      the wake mark is the start mark plus k periods, whatever was sampled
      and however long each cycle's work took. */
  function Cycles(p: ProducerState, q: Queue, samples: seq<Sample>, period: nat): (r: CycleResult)
    requires q.Valid() && period > 0
    ensures r.queue.Valid()
    ensures r.producer.lastWake == p.lastWake + |samples| * period
    decreases |samples|
  {
    if |samples| == 0 then CycleResult(p, q, [])
    else
      var c := Cycle(p, q, samples[0].id, samples[0].value, samples[0].work, period);
      var rest := Cycles(c.producer, c.queue, samples[1..], period);
      CycleResult(rest.producer, rest.queue, c.events + rest.events)
  }

  /** Two runs with the same inputs but different work times end on the same
      wake mark: the cadence does not drift with the work. */
  lemma WakeMarkIgnoresWork(p: ProducerState, p': ProducerState, q: Queue,
                            samples: seq<Sample>, samples': seq<Sample>, period: nat)
    requires q.Valid() && period > 0
    requires p.lastWake == p'.lastWake && |samples| == |samples'|
    ensures Cycles(p, q, samples, period).producer.lastWake ==
            Cycles(p', q, samples', period).producer.lastWake
  {
  }

  /** When every cycle's work fits inside the period and the producer starts
      on its mark, it resumes on its mark after every cycle: each wake is
      exactly one period after the previous one. */
  lemma {:induction false} ResumesOnMark(p: ProducerState, q: Queue, samples: seq<Sample>, period: nat)
    requires q.Valid() && period > 0 && p.now == p.lastWake
    requires forall i :: 0 <= i < |samples| ==> samples[i].work < period
    ensures var r := Cycles(p, q, samples, period).producer;
      r.now == r.lastWake && r.lastWake == p.lastWake + |samples| * period
    decreases |samples|
  {
    if |samples| > 0 {
      var c := Cycle(p, q, samples[0].id, samples[0].value, samples[0].work, period);
      assert c.producer.now == c.producer.lastWake;
      ResumesOnMark(c.producer, c.queue, samples[1..], period);
    }
  }

  /** From the tick count read before the loop, with every cycle's work
      inside the period: after k cycles the producer is awake exactly at the
      start tick plus k periods. */
  lemma CadenceFromStart(tick: nat, q: Queue, samples: seq<Sample>, period: nat)
    requires q.Valid() && period > 0
    requires forall i :: 0 <= i < |samples| ==> samples[i].work < period
    ensures var r := Cycles(Start(tick), q, samples, period).producer;
      r.now == r.lastWake == tick + |samples| * period
  {
    ResumesOnMark(Start(tick), q, samples, period);
  }
}

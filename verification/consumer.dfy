/**
 The consumer task `ExampleTask2`. The scheduler is abstracted away: the
 task's memory is an explicit state holding the priority captured at start,
 the tracked `newPriority`, the priority the scheduler was last told, and
 whether the task still exists. One received record is one `Step`; the
 task's endless loop is a fold of `Step` over the records it receives.
 */
module Consumer {
  import opened Types
  import opened Channel

  datatype ConsumerState = ConsumerState(
    initialPriority: nat,  // read once before the loop
    newPriority: nat,      // the tracked priority, only ever the initial one or two above it
    priority: nat,         // the priority last handed to the scheduler
    running: bool)         // false once the task has deleted itself

  /** A record on which the task deletes itself. */
  predicate Terminates(d: Data) {
    d.dataID == 0 || (d.dataID == 1 && d.dataValue == 2)
  }

  /** A record that asks for the priority boost. */
  predicate IsBoost(d: Data) {
    d.dataID == 1 && d.dataValue == 0
  }

  /** A record that asks for the priority to be restored. */
  predicate IsRestore(d: Data) {
    d.dataID == 1 && d.dataValue == 1
  }

  /** The boosted priority. */
  function Boosted(s: ConsumerState): nat {
    s.initialPriority + 2
  }

  /** What holds of the task's priorities while it runs: each is the initial
      priority or the boosted one, and the scheduler was never left boosted
      while the tracked priority is the initial one. */
  predicate Inv(s: ConsumerState) {
    && (s.newPriority == s.initialPriority || s.newPriority == Boosted(s))
    && (s.priority == s.initialPriority || s.priority == Boosted(s))
    && (s.newPriority == s.initialPriority ==> s.priority == s.initialPriority)
  }

  /** The task as it enters its loop, its priority read from the scheduler. */
  function Start(p0: nat): (s: ConsumerState)
    ensures s.running && Inv(s)
    ensures s.initialPriority == p0 && s.newPriority == p0 && s.priority == p0
  {
    ConsumerState(p0, p0, p0, true)
  }

  datatype StepResult = StepResult(state: ConsumerState, events: seq<Event>)

  /** One pass of the loop body after a successful receive of `d`. */
  function Step(s: ConsumerState, d: Data): (r: StepResult)
    requires s.running
    ensures r.state.initialPriority == s.initialPriority
    ensures |r.events| >= 1 && r.events[0] == Received(d)
    ensures r.state.running <==> !Terminates(d)
    ensures Inv(s) ==> Inv(r.state)
  {
    var logged := [Received(d)];
    if d.dataID == 0 then
      StepResult(s.(running := false), logged + [DeletingOnId])
    else if d.dataID == 1 then
      if d.dataValue == 0 then
        var p := s.initialPriority + 2;
        StepResult(s.(newPriority := p, priority := p), logged + [PriorityIncreased(p)])
      else if d.dataValue == 1 then
        if s.newPriority > s.initialPriority then
          StepResult(s.(priority := s.initialPriority), logged + [PriorityDecreased(s.initialPriority)])
        else
          StepResult(s, logged)
      else if d.dataValue == 2 then
        StepResult(s.(running := false), logged + [DeletingOnValue])
      else
        StepResult(s, logged)
    else
      StepResult(s, logged)
  }

  /** A terminating record ends the task after logging the receive and the
      deletion; priorities are not touched. */
  lemma TerminatingRecord(s: ConsumerState, d: Data)
    requires s.running && Terminates(d)
    ensures var r := Step(s, d);
      && !r.state.running
      && r.state.(running := true) == s
      && r.events == [Received(d), if d.dataID == 0 then DeletingOnId else DeletingOnValue]
  {
  }

  /** The boost sets the tracked and the actual priority to the initial
      priority + 2 whatever the state before, and applying it twice is the
      same as applying it once. */
  lemma BoostIdempotent(s: ConsumerState, d: Data)
    requires s.running && IsBoost(d)
    ensures var r := Step(s, d);
      && r.state.newPriority == Boosted(s) && r.state.priority == Boosted(s)
      && r.state.running
      && r.events == [Received(d), PriorityIncreased(Boosted(s))]
      && Step(r.state, d).state == r.state
  {
  }

  /** The restore lowers the actual priority to the initial one and logs the
      decrease exactly when the tracked priority is above the initial one;
      otherwise nothing but the receive happens. The tracked priority is never
      written back. */
  lemma RestoreExactlyWhenBoosted(s: ConsumerState, d: Data)
    requires s.running && IsRestore(d)
    ensures var r := Step(s, d);
      && r.state.newPriority == s.newPriority
      && r.state.running
      && (s.newPriority > s.initialPriority ==>
            r == StepResult(s.(priority := s.initialPriority), [Received(d), PriorityDecreased(s.initialPriority)]))
      && (s.newPriority <= s.initialPriority ==> r == StepResult(s, [Received(d)]))
  {
  }

  /** Any other record changes nothing; only its receipt is logged. */
  lemma OtherRecordOnlyLogged(s: ConsumerState, d: Data)
    requires s.running && !Terminates(d) && !IsBoost(d) && !IsRestore(d)
    ensures Step(s, d) == StepResult(s, [Received(d)])
  {
  }

  datatype RunResult = RunResult(state: ConsumerState, events: seq<Event>, consumed: nat)

  /** The task's loop over a stream of received records. It stops at the
      record on which it deletes itself; `consumed` counts the records it
      took, and the ones after them are never taken. */
  function Run(s: ConsumerState, rs: seq<Data>): (r: RunResult)
    ensures r.consumed <= |rs|
    ensures r.state.initialPriority == s.initialPriority
    ensures !s.running ==> r == RunResult(s, [], 0)
    ensures s.running && |rs| > 0 ==> r.consumed > 0
    ensures r.consumed < |rs| ==> !r.state.running
    ensures forall i :: 0 <= i < r.consumed - 1 ==> !Terminates(rs[i])
    ensures s.running ==> (r.state.running <==> r.consumed == 0 || !Terminates(rs[r.consumed - 1]))
    ensures Inv(s) ==> Inv(r.state)
    decreases |rs|
  {
    if |rs| == 0 || !s.running then RunResult(s, [], 0)
    else
      var first := Step(s, rs[0]);
      var rest := Run(first.state, rs[1..]);
      RunResult(rest.state, first.events + rest.events, rest.consumed + 1)
  }

  /** Running over `a + b` is running over `a` and then, from where that left
      the task, over `b`. */
  lemma {:induction false} RunConcat(s: ConsumerState, a: seq<Data>, b: seq<Data>)
    ensures var ra := Run(s, a);
      var rb := Run(ra.state, b);
      Run(s, a + b) == RunResult(rb.state, ra.events + rb.events, ra.consumed + rb.consumed)
    decreases |a|
  {
    if |a| == 0 {
      assert a + b == b;
    } else if s.running {
      var first := Step(s, a[0]);
      assert (a + b)[0] == a[0];
      assert (a + b)[1..] == a[1..] + b;
      RunConcat(first.state, a[1..], b);
      var ra := Run(first.state, a[1..]);
      var rb := Run(ra.state, b);
      assert Run(s, a) == RunResult(ra.state, first.events + ra.events, ra.consumed + 1);
      EventsAssociate(first.events, ra.events, rb.events);
    }
  }

  lemma EventsAssociate(x: seq<Event>, y: seq<Event>, z: seq<Event>)
    ensures x + (y + z) == (x + y) + z
  {
  }

  /** Some record of `rs` asks for the boost. */
  ghost predicate EverBoosted(rs: seq<Data>) {
    exists i :: 0 <= i < |rs| && IsBoost(rs[i])
  }

  /** Some record of `rs` asks for the boost and no restore comes after it. */
  ghost predicate BoostPending(rs: seq<Data>) {
    exists i :: 0 <= i < |rs| && IsBoost(rs[i]) && forall j :: i < j < |rs| ==> !IsRestore(rs[j])
  }

  /** Appending a record to a boost history. */
  lemma {:induction false} EverBoostedSnoc(front: seq<Data>, last: Data)
    ensures EverBoosted(front + [last]) <==> EverBoosted(front) || IsBoost(last)
  {
    var rs := front + [last];
    if EverBoosted(front) {
      var i :| 0 <= i < |front| && IsBoost(front[i]);
      assert rs[i] == front[i];
    }
    if IsBoost(last) {
      assert rs[|front|] == last;
    }
    if EverBoosted(rs) {
      var i :| 0 <= i < |rs| && IsBoost(rs[i]);
      if i < |front| {
        assert rs[i] == front[i];
      }
    }
  }

  /** Appending a record to a boost history: a boost leaves a boost pending,
      a restore cancels it, anything else keeps what was there. */
  lemma {:induction false} BoostPendingSnoc(front: seq<Data>, last: Data)
    ensures BoostPending(front + [last]) <==>
      IsBoost(last) || (!IsRestore(last) && BoostPending(front))
  {
    var rs := front + [last];
    if IsBoost(last) {
      assert IsBoost(rs[|front|]);
    } else if !IsRestore(last) && BoostPending(front) {
      var i :| 0 <= i < |front| && IsBoost(front[i]) && forall j :: i < j < |front| ==> !IsRestore(front[j]);
      assert IsBoost(rs[i]);
      forall j | i < j < |rs|
        ensures !IsRestore(rs[j])
      {
        if j < |front| {
          assert rs[j] == front[j];
        }
      }
    }
    if BoostPending(rs) {
      var i :| 0 <= i < |rs| && IsBoost(rs[i]) && forall j :: i < j < |rs| ==> !IsRestore(rs[j]);
      if i < |front| {
        assert rs[|front|] == last;
        assert !IsRestore(last);
        assert IsBoost(front[i]);
        forall j | i < j < |front|
          ensures !IsRestore(front[j])
        {
          assert front[j] == rs[j];
        }
      }
    }
  }

  /** Running over one more record is one more `Step` after the run so far. */
  lemma RunSnoc(s: ConsumerState, front: seq<Data>, last: Data)
    ensures var r := Run(s, front);
      r.state.running ==> Run(s, front + [last]).state == Step(r.state, last).state
  {
    RunConcat(s, front, [last]);
    assert [last][1..] == [];
  }

  /** From the start, over records that do not end the task: the tracked
      priority is boosted exactly when some boost was received, and the actual
      priority is boosted exactly when a boost was received with no restore
      after it. */
  lemma {:induction false} PriorityFollowsLastCommand(p0: nat, rs: seq<Data>)
    requires forall i :: 0 <= i < |rs| ==> !Terminates(rs[i])
    ensures var r := Run(Start(p0), rs);
      && r.state.running
      && r.consumed == |rs|
      && r.state.newPriority == (if EverBoosted(rs) then p0 + 2 else p0)
      && r.state.priority == (if BoostPending(rs) then p0 + 2 else p0)
    decreases |rs|
  {
    if |rs| > 0 {
      var front, last := rs[..|rs| - 1], rs[|rs| - 1];
      assert rs == front + [last];
      assert forall i :: 0 <= i < |front| ==> front[i] == rs[i];
      PriorityFollowsLastCommand(p0, front);
      RunSnoc(Start(p0), front, last);
      EverBoostedSnoc(front, last);
      BoostPendingSnoc(front, last);
    }
  }

  /** The tracked priority is never reset: once a boost has been received,
      every later restore lowers the priority again and logs the decrease
      again, however many restores came in between. */
  lemma {:induction false} RestoreRepeatsAfterBoost(p0: nat, rs: seq<Data>, i: nat, j: nat)
    requires forall k :: 0 <= k < |rs| ==> !Terminates(rs[k])
    requires i < j < |rs| && IsBoost(rs[i]) && IsRestore(rs[j])
    ensures var before := Run(Start(p0), rs[..j]).state;
      && before.running
      && Step(before, rs[j]).events == [Received(rs[j]), PriorityDecreased(p0)]
      && Step(before, rs[j]).state.priority == p0
  {
    var front := rs[..j];
    forall k | 0 <= k < |front|
      ensures !Terminates(front[k])
    {
      assert front[k] == rs[k];
    }
    PriorityFollowsLastCommand(p0, front);
    assert IsBoost(front[i]);
  }

  /** From the start and over any records, the priorities stay the initial
      one or two above it, also once the task has deleted itself. */
  lemma PrioritiesStayInRange(p0: nat, rs: seq<Data>)
    ensures var r := Run(Start(p0), rs).state;
      && (r.priority == p0 || r.priority == p0 + 2)
      && (r.newPriority == p0 || r.newPriority == p0 + 2)
  {
  }

  /** A single boost raises the priority to two above the start and logs the
      increase. */
  lemma ScenarioBoost(p0: nat)
    ensures var r := Run(Start(p0), [Data(1, 0)]);
      && r.state.priority == p0 + 2
      && r.events == [Received(Data(1, 0)), PriorityIncreased(p0 + 2)]
  {
  }

  /** A boost and then a restore: the priority ends where it started, and the
      increase and the decrease are both logged. */
  lemma ScenarioBoostThenRestore(p0: nat)
    ensures var r := Run(Start(p0), [Data(1, 0), Data(1, 1)]);
      && r.state.priority == p0
      && r.events == [Received(Data(1, 0)), PriorityIncreased(p0 + 2),
                      Received(Data(1, 1)), PriorityDecreased(p0)]
  {
  }

  /** A restore with no boost before it changes nothing and logs no decrease. */
  lemma ScenarioRestoreWithoutBoost(p0: nat)
    ensures var r := Run(Start(p0), [Data(1, 1)]);
      r.state == Start(p0) && r.events == [Received(Data(1, 1))]
  {
  }

  /** The tracked priority is never written back: after one boost, a second
      restore in a row lowers the priority and logs the decrease again. */
  lemma ScenarioRestoreTwice(p0: nat)
    ensures var r := Run(Start(p0), [Data(1, 0), Data(1, 1), Data(1, 1)]);
      && r.state.priority == p0
      && r.state.newPriority == p0 + 2
      && r.events == [Received(Data(1, 0)), PriorityIncreased(p0 + 2),
                      Received(Data(1, 1)), PriorityDecreased(p0),
                      Received(Data(1, 1)), PriorityDecreased(p0)]
  {
  }

  /** A record with identifier 0, or identifier 1 and value 2, ends the task
      after that one receive; nothing after it is taken. */
  lemma ScenarioDeleteFirst(p0: nat, d: Data, later: seq<Data>)
    requires Terminates(d)
    ensures var r := Run(Start(p0), [d] + later);
      && !r.state.running
      && r.consumed == 1
      && r.events == [Received(d), if d.dataID == 0 then DeletingOnId else DeletingOnValue]
  {
    RunConcat(Start(p0), [d], later);
    assert [d][1..] == [];
  }

  /** The loop of the task over what is in the channel: take the head, act on
      it, and go on until the task deletes itself or the channel is empty
      (where the task would block). It takes exactly the records the fold
      `Run` takes, and leaves the rest in the channel untouched. */
  method DrainQueue(s: ConsumerState, q: Queue) returns (t: ConsumerState, left: Queue, log: seq<Event>)
    ensures var r := Run(s, q.items);
      t == r.state && log == r.events && left.items == q.items[r.consumed..]
    ensures t.running ==> |left.items| == 0
  {
    t, left, log := s, q, [];
    ghost var taken: nat := 0;
    while t.running && |left.items| > 0
      invariant taken <= |q.items| && left.items == q.items[taken..]
      invariant var rest := Run(t, left.items);
        Run(s, q.items) == RunResult(rest.state, log + rest.events, taken + rest.consumed)
      decreases |left.items|
    {
      var got := Receive(left);
      var step := Step(t, got.value.item);
      assert left.items[1..] == q.items[taken + 1..];
      t, left, log := step.state, got.value.rest, log + step.events;
      taken := taken + 1;
    }
  }
}

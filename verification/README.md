# Producer/consumer over a bounded FreeRTOS queue — a Dafny model

This project models the decision logic of the two FreeRTOS tasks in
`problem1.c`, with every RTOS call replaced by explicit state:

- **`Types`** — the record `Data_t` (an 8-bit identifier and a 32-bit signed
  value, as subset types of `int`) and one abstract event tag per console line
  the tasks print.
- **`Channel`** — the queue `Queue1`: a sequence of records bounded by the
  capacity 5 it is created with. A send with timeout 0 appends at the tail or,
  on a full queue, fails and leaves it untouched. A receive takes the head; on
  an empty queue it yields nothing (the consumer stays blocked).
- **`Consumer`** — `ExampleTask2` as a state machine. Its state is the
  priority read once at start (`initialPriority`), the tracked `newPriority`,
  the priority last handed to the scheduler, and whether the task still
  exists. `Step` is one pass of the loop body for one received record;
  `Run` folds `Step` over a stream of records and stops at the record on
  which the task deletes itself; `DrainQueue` is the loop written as a loop
  over a channel's contents.
- **`Producer`** — `ExampleTask1`: each cycle samples the inputs, sends
  without waiting, logs on success and then delays until one period after
  its previous wake mark. The period is a positive parameter; the ticks each
  cycle's work takes are a parameter too.
- **`System`** — both tasks and the channel, with the scheduler replaced by
  an explicit sequence of actions (a producer cycle or a consumer attempt to
  take one record), so FIFO order, exactly-once delivery and drop-on-full
  can be stated over every interleaving.

The consumer's quirk is kept: `newPriority` is never written back to the
initial priority after a restore, so after one boost every later
`(1, 1)` record sets the priority to the initial one again and logs
"Priority Decreased" again, even when the priority is already there.

## Model

| member | source | states |
|---|---|---|
| Channel.Create | problem1.c:40 | the channel is created empty and within its capacity |
| Channel.Send | problem1.c:76-80 | a zero-timeout send passes exactly when fewer than 5 records are queued; a passed send appends the record at the tail; a failed send leaves the channel unchanged; the capacity bound is kept |
| Channel.Receive | problem1.c:102 | a receive yields nothing exactly when the channel is empty, and otherwise yields the head with the remaining records behind it |
| Channel.DrainAllReturnsContents | problem1.c:102 | receiving until empty returns every queued record exactly once, head first |
| Channel.SendThenDrain | problem1.c:76 | a record sent onto a non-full channel comes out after all records already in it |
| Consumer.Start | problem1.c:95-97 | at loop entry the tracked and actual priorities both equal the priority read from the scheduler, and the task is running |
| Consumer.Step | problem1.c:102-139 | every received record is logged first; the task stops exactly on identifier 0 or on identifier 1 with value 2; the initial priority never changes; the priority invariant is kept |
| Consumer.TerminatingRecord | problem1.c:110-138 | a terminating record deletes the task, logs the receipt and the matching deletion message, and touches no priority |
| Consumer.BoostIdempotent | problem1.c:118-123 | `(1, 0)` sets tracked and actual priority to initial + 2 from any state, logs the increase, and a second `(1, 0)` leaves the state as the first left it |
| Consumer.RestoreExactlyWhenBoosted | problem1.c:125-132 | `(1, 1)` with tracked `newPriority` above the initial priority sets only the actual priority to the initial one and logs exactly the receipt and the decrease; otherwise state and log are as for an ignored record; `newPriority` itself is never changed |
| Consumer.OtherRecordOnlyLogged | problem1.c:110-139 | a record that is not a termination, boost or restore leaves the state unchanged and only its receipt is logged |
| Consumer.Run | problem1.c:99-142 | the loop takes records up to and including the first terminating one and no further; records after it are never taken; the priority invariant is kept |
| Consumer.RunConcat | problem1.c:99-142 | running over two streams back to back is running over their concatenation |
| Consumer.PriorityFollowsLastCommand | problem1.c:96-132 | over non-terminating records from the start, tracked priority is initial + 2 exactly when some `(1, 0)` was received, and actual priority is initial + 2 exactly when a `(1, 0)` was received with no `(1, 1)` after it |
| Consumer.RestoreRepeatsAfterBoost | problem1.c:121-131 | once any `(1, 0)` has been received, every later `(1, 1)` lowers the priority and logs the decrease again |
| Consumer.PrioritiesStayInRange | problem1.c:96-130 | from the start, over any records, tracked and actual priority are each the initial one or initial + 2 |
| Consumer.ScenarioBoost | problem1.c:118-123 | the stream `[(1, 0)]` ends at initial + 2 with the increase logged |
| Consumer.ScenarioBoostThenRestore | problem1.c:118-131 | the stream `[(1, 0), (1, 1)]` ends at the initial priority with increase then decrease logged |
| Consumer.ScenarioRestoreWithoutBoost | problem1.c:125-132 | the stream `[(1, 1)]` changes nothing and logs no decrease |
| Consumer.ScenarioRestoreTwice | problem1.c:121-131 | the stream `[(1, 0), (1, 1), (1, 1)]` logs the decrease twice and keeps tracked priority at initial + 2 |
| Consumer.ScenarioDeleteFirst | problem1.c:110-138 | a terminating first record ends the task after one receive, whatever follows |
| Consumer.DrainQueue | problem1.c:99-142 | the loop over a channel takes exactly the records the fold takes, produces the same state and log, leaves the untaken records in the channel, and stops with an empty channel if the task is still running |
| Producer.DelayUntil | problem1.c:82-83 | the wake mark moves by exactly one period; the task resumes at the new mark, or at once when the mark already lies in the past |
| Producer.Cycle | problem1.c:69-84 | one cycle appends the sampled record and logs "Sent" when the channel has room, leaves channel and log untouched when it is full, and advances the wake mark by one period |
| Producer.Cycles | problem1.c:69-84 | the producer's loop keeps the channel within capacity, and after k cycles its wake mark is the start mark plus k periods, whatever was sampled and however long each cycle's work took |
| Producer.WakeMarkIgnoresWork | problem1.c:82-83 | runs with different sampled inputs and work times reach the same wake mark after the same number of cycles |
| Producer.ResumesOnMark | problem1.c:82-83 | when every cycle's work is shorter than the period, the producer wakes exactly on its mark after every cycle |
| Producer.CadenceFromStart | problem1.c:66-83 | starting from the tick count read before the loop, with every cycle's work shorter than the period, after k cycles the producer is awake exactly at the start tick plus k periods |
| System.Boot | problem1.c:40-48 | start-up gives an empty channel, a running consumer, and a state satisfying the system invariant |
| System.Apply | problem1.c:69-142 | any producer or consumer action keeps the channel within capacity and the consumer's initial priority |
| System.ApplyPreservesInv | problem1.c:76-105 | one action keeps: sent records = taken records followed by queued ones, priorities in range, consumer state = the fold over the records taken |
| System.ExecutePreservesInv | problem1.c:76-105 | every interleaving of actions keeps the system invariant |
| System.FifoExactlyOnce | problem1.c:76-102 | from start-up under any interleaving: at most 5 queued records; the records taken are a prefix of those sent, in order and each once; the rest are still queued; consumer priority is initial or initial + 2 |
| System.InitialPriorityKept | problem1.c:96 | no action changes the consumer's captured initial priority |
| System.DeletedConsumerTakesNothing | problem1.c:110-138 | once the consumer has deleted itself, or while it takes no turn, its state and the records it took never change, and the channel only grows at the tail |
| System.DeletedConsumerFillsThenDrops | problem1.c:40-80 | with the consumer deleted or taking no turn, the channel holds the first offered records up to capacity 5 and drops every later one |
| System.SixthSendDropped | problem1.c:40-80 | six producer cycles in a row into an empty channel, whatever the consumer's state, keep the first five records in order and drop the sixth, which never counts as sent |

## Left out

- Scheduler bring-up, task creation parameters (stack size, task priorities 2 and 1) and `vTaskStartScheduler` (problem1.c:47-54): the scheduler is replaced by an explicit sequence of producer and consumer actions in `System.Execute`; preemption inside a task's loop body is not modelled.
- The globals `G_DataID` and `G_DataValue` (problem1.c:10-11): they are written by code outside this file; each producer cycle takes the sampled pair as an input (`Producer.Sample`).
- Console output (problem1.c:78, 104, 112, 123, 131, 136): each `printf` of the two tasks is an abstract `Event` tag carrying the printed values; formatting is not modelled.
- The halt when the queue cannot be created (problem1.c:41-44): `Channel.Create` always succeeds, so the failure message printed at problem1.c:42 is left out with the halt.
- Inside `vTaskPrioritySet`: clamping to `configMAX_PRIORITIES` is not modelled; the requested priority is the priority. Priorities are unbounded naturals, so `UBaseType_t` wrap-around of `initialPriority + 2` is not modelled.
- Inside `vTaskDelayUntil` and `pdMS_TO_TICKS`: the tick-rate conversion of 500 ms is an abstract positive period, ticks are unbounded naturals (no `TickType_t` wrap-around), and the resume tick follows the routine's documented behaviour rather than its code.
- Blocking with `portMAX_DELAY` (problem1.c:102): a consumer action on an empty channel does nothing, which stands for the task staying blocked.
- `vTaskDelete` of the running task (problem1.c:113, 137): the task's `running` flag becomes false and `Consumer.Step` requires a running task; memory reclamation is not modelled.

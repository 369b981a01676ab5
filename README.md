# Adaptive lottery scheduling, modelled in Dafny

The repository simulates a lottery CPU scheduler. It reads a batch of
(arrival, burst) records and replays them one time unit at a time.

Each round works like this:
- the time slice is the floor average of the remaining burst times in the
  ready queue;
- every queued process at or below that average is a short job with 10
  tickets, every other process a long job with 1 ticket;
- a random draw in [1, T], where T is the total weight, picks the first
  process whose running weight exceeds the draw;
- the winner runs one unit at a time until its slice is used up, it
  completes, or a new process arrives.

At the end the program reports the total and the maximum turnaround and
waiting times.

There are two versions, modelled separately because they differ:

- `assignment.c`, module `Adaptive`. Records are sorted in place by
  insertion sort. The ready queue is a linked list. The clock starts at the
  earliest arrival. A process's weight is its tickets. When the queue drains
  while arrivals are pending, the clock jumps to the next arrival.
- `lottery.py`, module `Lottery`. Records are sorted with the list sort. The
  ready queue is a deque. The clock starts at 0. Weight is tickets plus
  waiting time. A late arrival starts with the waiting time it missed. The
  run stops as soon as the queue is empty, even when processes have not yet
  arrived.

Shared modules:
- `Tickets` holds running sums, the cumulative-scan draw, and the proof that
  the draw picks each member with probability weight / T. It also holds the
  sum and maximum facts of the report.
- `Queues` holds the ready queue as a sequence of record indices.

In both models:
- the records are an `array` of datatype values, updated in place;
- the ready queue is a `seq<nat>` of indices into that array, in queue order;
- the scheduler state is a class whose methods follow the source's loops;
- each class has an invariant `Valid()`, which puts every record in exactly
  one state: not yet admitted, queued, or completed. For `Lottery` a queued
  record satisfies the equation wait + units run = time since its origin;
  for `Adaptive` it satisfies the inequality arrival + units run <= clock;
- each loop method is proved against a function of the state at its start
  (`TickOutcome`, `SliceOutcome`, `Allocated`, `Pick`, ...), and lemmas prove
  what the source promises about those functions;
- the random value is a parameter: round r uses `rolls(r)`, and the draw is
  `roll % T + 1`, the value `rand() % T + 1` and `randint(1, T)` produce.

## Model

| member | source | states |
|---|---|---|
| Tickets.Pick | assignment.c:421-440 | the cumulative scan returns a position in the queue |
| Tickets.TicketFor | assignment.c:387-395 | the rule both schedulers share: at least one ticket, SHORT_JOB_TICKETS exactly when the remaining time is at or below the average, and LONG_JOB_TICKETS above it |
| Tickets.PickFirst | assignment.c:424-437 | the pick is the first member whose running total is strictly greater than the draw; when no running total is, it is the head |
| Tickets.PickIs | assignment.c:430-434 | a member whose running total is the first to exceed the draw is the one picked |
| Tickets.PickNone | assignment.c:424 | a draw that no running total exceeds (the top draw T) picks the head |
| Tickets.PickInBand | assignment.c:421-440 | for a draw in [1, T], the member picked is one whose band of running totals holds the draw (the head's band also takes the top draw) |
| Tickets.PickBand | assignment.c:421-440 | for a draw in [1, T], member k is picked exactly when the draw lies in k's band: both directions |
| Tickets.PickCount | assignment.c:423-437 | of the T possible draws in [1, T], exactly w[k] pick member k, so each member's chance is its weight over T |
| Tickets.HeadDraws | assignment.c:423-437 | the draws that pick the head: those below its tickets, plus the top draw |
| Tickets.BandDraws | assignment.c:423-437 | the draws that pick a member after the head: the half-open band between the running totals before and after it |
| Tickets.Drawn | assignment.c:423 | the member a raw random value selects through the draw roll % T + 1 is a position in the queue |
| Tickets.FloorAverageAtLeastOne | assignment.c:362-375 | the floor average of positive remaining times is at least one, so every slice runs at least one tick |
| Tickets.SomeAtOrBelowFloorAverage | assignment.c:388-391 | some member is at or below the floor average |
| Tickets.SumAtLeastLength | assignment.c:406-413 | positive weights sum to at least the queue length, so T >= 1 |
| Tickets.MaximumStep | assignment.c:171-175 | updating the running maximum on a strictly larger value keeps it the maximum of -1 and the values seen |
| Tickets.SumPointwise | lottery.py:148-150 | sums of pointwise sums add up |
| Tickets.SumChange | assignment.c:108 | changing one value changes the sum by exactly the difference |
| Tickets.SumZeroTail | lottery.py:148-150 | zeros past position n add nothing: the sum is the sum of the first n values |
| Queues.RangeMembers | assignment.c:112-127 | the run of admitted indices holds exactly the indices from a up to b |
| Queues.DistinctAppend | assignment.c:118-120 | appending fresh indices above every queued index keeps the queue free of duplicates |
| Queues.RemoveAtMembers | lottery.py:6-9 | removing position n removes exactly that record and keeps the queue free of duplicates |
| Adaptive.SortProcesses | assignment.c:290-302 | the records end sorted by arrival and are a permutation of the input; records numbered in input order keep that order among equal arrivals |
| Adaptive.SinkFrom | assignment.c:293-300 | the inner loop moves the record at ci below every record that arrives strictly later, so the first ci + 1 records are sorted, as a permutation that keeps equal-arrival order; the records after ci are untouched |
| Adaptive.CompareAndSwap | assignment.c:294-299 | the new array is the old one with neighbours c - 1 and c exchanged when the later one arrives strictly earlier, and unchanged otherwise; the sinking invariant, the multiset and the order of ties are kept, and the records after ci are untouched |
| Adaptive.SinkStep | assignment.c:293-299 | the value-level step behind CompareAndSwap |
| Adaptive.SwapKeepsTies | assignment.c:293-299 | exchanging neighbours with different arrivals keeps equal-arrival records in order |
| Adaptive.LengthQueue | assignment.c:335-341 | the length walk counts members up to the first one without remaining time: it never exceeds the queue, every counted member has work left, and the walk stops only at a member with none |
| Adaptive.LengthQueueWhole | assignment.c:335-341 | when every member has work left, the walk counts the whole queue |
| Adaptive.TotalTickets | assignment.c:406-413 | the recursive ticket total equals the running sum of the queue's tickets |
| Adaptive.AllocatedTickets | assignment.c:382-398 | allocating against the floor average gives every member the tickets its short/long rule names, and changes no timing field |
| Adaptive.AllocationPositive | assignment.c:382-398 | every member then holds at least one ticket, and it holds SHORT_JOB_TICKETS exactly when its remaining time is at or below the average |
| Adaptive.SomeShortJob | assignment.c:382-398 | every allocation makes at least one short job |
| Adaptive.FirstIndex | assignment.c:447-464 | the position of the first occurrence of a record in the queue |
| Adaptive.WithoutFirst | assignment.c:447-464 | unlinking removes exactly the first occurrence of the record and keeps the others' order; a record not in the queue leaves it unchanged |
| Adaptive.TickKeepsState | assignment.c:108-139 | one tick keeps the invariant: the winner runs one unit (and when done it is completed and removed), the clock advances, and exactly the arrived records join the queue |
| Adaptive.DrainKeepsState | assignment.c:153-158 | jumping the clock to the next arrival and queueing that one record keeps the invariant |
| Adaptive.SliceStep | assignment.c:107-144 | one more tick either ends the slice, on completion or arrival, with the outcome SliceOutcome describes, or carries the loop on |
| Adaptive.RoundKeepsInput | assignment.c:96-144 | a round takes at least one tick, advances the clock and changes no record's number, arrival or burst |
| Adaptive.AllFinished | assignment.c:95-159 | with queue and feed exhausted, every record is completed with exit >= arrival + burst, turnaround = exit - arrival and wait = turnaround - burst |
| Adaptive.TotalBurstPermutation | assignment.c:290-302 | reordering the records keeps their total burst |
| Adaptive.FinishedTotals | assignment.c:161-170 | over completed records the turnarounds add up to the waits plus the bursts, and the total wait is not negative |
| Adaptive.AdmitEnd | assignment.c:112-127 | the admission scan from the feed cursor stops at the first record that has not arrived by the clock, and every record it passes has arrived |
| Adaptive.SliceStateKeeps | assignment.c:107-144 | a slice of at least one tick, as SliceState computes it, keeps the invariant, advances the clock, and takes off exactly as much work as the clock advances; no record's input changes |
| Adaptive.RoundStateKeeps | assignment.c:96-144 | a round, as RoundState computes it, keeps the invariant, advances the clock, and takes off exactly as much work as the clock advances; no record's input changes |
| Adaptive.RunStateStep | assignment.c:95-159 | a round followed by the drain keeps the invariant, leaves a non-empty queue or an exhausted feed, advances the clock, strictly lowers the work left, and continues the run from the next round |
| Adaptive.RunStateFacts | assignment.c:95-159 | the run RunState computes ends with an empty queue and an exhausted feed, the invariant kept, the clock no earlier and every record's input unchanged |
| Adaptive.RunStateEnd | assignment.c:95 | the run stops only once the queue and the feed are both exhausted |
| Adaptive.RunStateRecord | assignment.c:129-137 | each record of the run's outcome has completed, with its input kept |
| Adaptive.RunStateFinished | assignment.c:95-159 | every record of the run's outcome has completed with its input kept, and no work is left |
| Adaptive.SliceOutcomeIsSliceState | assignment.c:107-144 | the outcome the tick loop reaches is exactly the state SliceState computes |
| Adaptive.RoundOutcomeIsRoundState | assignment.c:96-144 | the outcome of allocation, draw and slice is exactly the state RoundState computes |
| Adaptive.ScheduledTotals | assignment.c:95-170 | on sorted, unstarted records the run leaves every record completed with its input kept, the turnarounds add up to the waits plus the total burst, and no wait total is negative |
| Adaptive.LoneSlice | assignment.c:107-144 | a lone record with 4 units left, queued at time 2, runs a slice of 4 to completion at 6 with turnaround 4 and no wait, emptying the queue |
| Adaptive.LoneRecord | assignment.c:76-144 | one record (arrival 2, burst 4) completes at 6 with turnaround 4 and wait 0, whatever the draws |
| Adaptive.Simulator.constructor | assignment.c:76-92 | the clock starts at the earliest arrival; the first record and every record sharing its arrival are queued in order, and the next record arrives later; the state is Initial of the records |
| Adaptive.Simulator.Enqueue | assignment.c:311-314 | the record joins at the tail of the queue |
| Adaptive.Simulator.DeleteProcess | assignment.c:447-464 | the record is unlinked from the queue at its first occurrence, the others keep their order, and deleting the head leaves the rest |
| Adaptive.Simulator.AvgRemaining | assignment.c:362-375 | the result is the floor average of the members' remaining times, and it is at least one |
| Adaptive.Simulator.AllocateTickets | assignment.c:382-398 | the records become Allocated of the old records: members at or below the average get 10 tickets and the short mark, others 1 ticket and the long mark; the invariant holds |
| Adaptive.Simulator.GetWinner | assignment.c:421-440 | the result is the queue position Drawn gives for the queue's tickets and the raw random value |
| Adaptive.Simulator.Admit | assignment.c:112-127 | exactly the records of the feed that have arrived by the clock are appended in order, and the feed cursor moves past them |
| Adaptive.Simulator.RunOneUnit | assignment.c:108-109 | the winner loses one unit of remaining time and the clock advances by one |
| Adaptive.Simulator.Complete | assignment.c:129-137 | the winner gets exit = clock, turnaround = exit - arrival and wait = turnaround - burst, and leaves the queue |
| Adaptive.Simulator.Tick | assignment.c:108-139 | the invariant is kept, the tick has the outcome TickOutcome states, and the total remaining work drops by one |
| Adaptive.Simulator.RunSlice | assignment.c:107-144 | the invariant is kept, the slice ends with the outcome SliceOutcome states, and the remaining work drops by the ticks run |
| Adaptive.Simulator.RunRound | assignment.c:96-144 | the winner is the member drawn from the allocation against the floor average, the slice of that length runs with SliceOutcome, and the new state is RoundState of the old one |
| Adaptive.Simulator.Drain | assignment.c:153-158 | an empty queue with records pending gets the next record and the clock jumps to its arrival; otherwise nothing changes |
| Adaptive.Simulator.Step | assignment.c:96-158 | a round and the drain keep the invariant and leave a non-empty queue or an exhausted feed; the work left drops by the ticks run, at least one; the new state is DrainState of RoundState of the old one |
| Adaptive.Simulator.Rounds | assignment.c:95-159 | the loop runs exactly as many ticks as there was work, and its final state is RunState of the state it started from |
| Adaptive.Simulator.Run | assignment.c:95-159 | the loop ends with queue and feed exhausted and every record completed with its input kept, after exactly as many ticks as there was work, the clock no earlier; the final state is RunState of the starting state, which fixes every exit, turnaround and wait time |
| Adaptive.Simulator.Totals | assignment.c:161-178 | the running sums of turnaround and waiting time, and their maxima from -1 |
| Adaptive.ParsedJobsFacts | assignment.c:242-249 | the parser numbers record i as i, from 0, and gives it its line's arrival and burst; with a positive burst the record is unstarted |
| Adaptive.Load | assignment.c:63-73 | the records are the parsed ones (numbered from 0, as the parser numbers them), sorted by arrival in stable order, unstarted, and with remaining work equal to the input's total burst |
| Adaptive.Execute | assignment.c:76-178 | the records the run leaves are exactly Scheduled of the sorted records, the ticks run are the work there was, and the totals are the sums and maxima over the final records |
| Adaptive.Schedule | assignment.c:63-178 | the whole program on parsed input: no lines is the error exit; otherwise the final records are exactly Scheduled of the parsed ones in stable arrival order (so every exit, turnaround and wait is pinned), each completed with its input kept, and the reported values are the sums and maxima of their turnaround and waiting times; exactly the input's total burst is run, turnarounds add up to waits plus that total, no wait total is negative, and the maxima are real values (turnaround >= 1, wait >= 0) |
| Lottery.ParsedFacts | lottery.py:47-54 | parsed nodes are fresh, numbered 1, 2, ... in input order, and carry their line's arrival and burst |
| Lottery.InsertShape | lottery.py:57 | insertion puts the record after every record arriving strictly earlier and before the rest, shifting those by one |
| Lottery.InsertFacts | lottery.py:57 | inserting into a sorted list keeps it sorted and adds exactly that record |
| Lottery.InsertTies | lottery.py:57 | inserting a record numbered below all others keeps equal arrivals in number order |
| Lottery.SortFacts | lottery.py:57 | the sort orders by arrival and is a permutation |
| Lottery.SortStable | lottery.py:57 | the sort is stable: equal arrivals stay in process-number order |
| Lottery.SortKeepsBursts | lottery.py:57 | the sort keeps the total burst |
| Lottery.SortedInput | lottery.py:47-57 | the sorted parsed records are sorted, stable, fresh and have work to do |
| Lottery.WithoutNth | lottery.py:6-9 | rotating left n, dropping the head and rotating right n removes exactly position n |
| Lottery.AllocatedWeights | lottery.py:84-95 | after allocation each member's weight is its rule's tickets plus its waiting time, and no input or timing field changes |
| Lottery.SomeShortJob | lottery.py:84-91 | every allocation makes at least one short job |
| Lottery.AllocatedKeepsState | lottery.py:84-91 | allocation keeps the invariant |
| Lottery.WeightsPositive | lottery.py:84-95 | after allocation every member's weight is at least one, so the draw range is not empty |
| Lottery.AllocatedRemaining | lottery.py:84-91 | allocation leaves the work left unchanged |
| Lottery.TickedFacts | lottery.py:108-137 | a tick changes only the winner's remaining time, by the units run, and no record's input |
| Lottery.TickKeepsState | lottery.py:108-138 | one tick keeps the invariant and takes exactly one unit off the total remaining work |
| Lottery.SliceStep | lottery.py:107-141 | one more tick either ends the slice, on completion or arrival, with SliceOutcome, or carries the loop on |
| Lottery.SliceEnd | lottery.py:108 | a loop that used up the slice ends with SliceOutcome |
| Lottery.RoundProgress | lottery.py:73-141 | a round does at least one unit of work, takes exactly that many units off the work left, only advances the index pointer and changes no record's input |
| Lottery.TurnaroundTotal | lottery.py:147-150 | the reported turnarounds add up to the total burst plus the total waiting time |
| Lottery.FinalTurnarounds | lottery.py:71-148 | once the queue is empty, each admitted record is completed with reported turnaround = exit - origin (the clock's 0 for the first group, the arrival for the others); each record never admitted reports its burst with no wait; no wait is negative |
| Lottery.AdmitEnd | lottery.py:119-132 | the admission scan from the index pointer stops at the first record that has not arrived by the clock, and every record it passes has arrived |
| Lottery.Ticks | lottery.py:108-141 | the ticks a slice runs: with a positive slice and work left, at least one and at most both the slice and the work left, and more than one only when the next arrival is at least that many ticks away |
| Lottery.TicksIs | lottery.py:108-141 | a tick count that stops at the slice's end, at completion or at the first tick reaching the next arrival is exactly the count Ticks gives |
| Lottery.RunKeepsState | lottery.py:108-138 | running the winner n units, admitting the arrived records and removing a completed winner keeps the invariant and takes exactly n units off the work left |
| Lottery.RanStateKeeps | lottery.py:108-141 | the state after the winner runs n units keeps the invariant, the clock advances by n, the work left drops by n, the pointer only advances, the next pending record has not arrived, and no record's input changes |
| Lottery.SliceStateKeeps | lottery.py:108-141 | a slice, as SliceState computes it, keeps the invariant, advances the clock, takes off exactly as much work as the clock advances, and leaves the next pending record not yet arrived |
| Lottery.RoundStateKeeps | lottery.py:73-141 | a round, as RoundState computes it, keeps the invariant, advances the clock, and takes off exactly as much work as the clock advances; no record's input changes |
| Lottery.RoundStateIsSlice | lottery.py:73-141 | a round is the slice of the floor average run by the drawn member over the allocated records |
| Lottery.RunStateStep | lottery.py:71-141 | a round keeps the invariant, advances the clock, strictly lowers the work left, and continues the run from the next round |
| Lottery.RunStateFacts | lottery.py:71-141 | the run RunState computes ends with an empty queue, the invariant kept, the clock advanced by the work done, the pointer only advanced, and every record's input unchanged |
| Lottery.RunStateEnd | lottery.py:71 | the run stops only once the queue is empty |
| Lottery.RunStateRecord | lottery.py:71-141 | each record of the run's outcome keeps its input, and a record never admitted is unchanged |
| Lottery.SliceOutcomeTicks | lottery.py:108-141 | the ticks the slice loop runs are the ones Ticks gives, and the pointer it leaves is where the admission scan stops |
| Lottery.SliceStateIsRan | lottery.py:108-141 | a slice is the winner running the ticks Ticks gives, with the records arrived by then admitted |
| Lottery.RanStateIs | lottery.py:108-138 | the records and queue a run of n units leaves are exactly those RanState computes |
| Lottery.SliceOutcomeIsSliceState | lottery.py:108-141 | the outcome the slice loop reaches is exactly the state SliceState computes |
| Lottery.DoneWork | lottery.py:143-150 | once the queue is empty, the work done is exactly the total burst of the records admitted |
| Lottery.FreshRemaining | lottery.py:47-54 | before the run the work left is the total burst |
| Lottery.SimulatedEnd | lottery.py:60-141 | the run from the state before the loop ends with the invariant, an empty queue, all records kept, the clock equal to the work done, and the next pending record not yet arrived |
| Lottery.SimulatedRecord | lottery.py:60-141 | each record the run leaves keeps its input |
| Lottery.SimulatedClock | lottery.py:68-141 | the clock the run ends at is the total burst of the records admitted, because it starts at 0 and runs only while the queue is not empty |
| Lottery.LoneStart | lottery.py:60-68 | a lone record arriving at 2 is queued before the loop with the clock at 0 |
| Lottery.LoneSlice | lottery.py:108-141 | allotted ten tickets, that record runs its 4 units in one slice and exits at 4, emptying the queue |
| Lottery.LoneRecord | lottery.py:47-150 | the whole script on one record (arrival 2, burst 4) leaves it short with exit 4, a reported turnaround of 4 and no wait, whatever the draws |
| Lottery.ReportFacts | lottery.py:143-154 | on the final records the turnarounds add up to the input's burst plus the total wait, and neither total is negative |
| Lottery.StopsWithArrivalPending | lottery.py:71 | with records (arrival 0, burst 1) and (arrival 5, burst 1), the first tick empties the queue at time 1 with the second record never admitted, so the loop ends |
| Lottery.Simulation.constructor | lottery.py:60-68 | exactly the records sharing the earliest arrival are queued in order, the index pointer moves past them, and the clock starts at 0; the state is Initial of the records |
| Lottery.Simulation.DeleteNth | lottery.py:6-9 | the queue loses exactly position n and keeps the order of the rest |
| Lottery.Simulation.RunAndAge | lottery.py:109-115 | the winner's remaining time drops by one, the clock advances, and every other queued record waits one more unit |
| Lottery.Simulation.AgeOthers | lottery.py:112-115 | the records become Aged of the old records: each queue member other than the winner, in queue order, waits one more unit, and no other record changes |
| Lottery.AgedMembers | lottery.py:112-115 | over a queue of distinct records, ageing adds one unit of waiting time to exactly the members other than the winner and leaves every other record as it was |
| Lottery.Simulation.Admit | lottery.py:119-132 | every record from the pointer on that has arrived by the clock gets wait = clock - arrival, is appended, and moves the pointer past it; arrived says whether any did |
| Lottery.Simulation.Complete | lottery.py:135-137 | the winner gets exit = clock and is removed from its position in the queue |
| Lottery.Simulation.Tick | lottery.py:109-138 | the invariant is kept and the tick has the outcome TickOutcome states |
| Lottery.Simulation.AverageRemaining | lottery.py:73-82 | the result is the floor average of the members' remaining times, and it is at least one |
| Lottery.Simulation.AllocateTickets | lottery.py:84-91 | the records become Allocated: members at or below the average get 10 tickets and isShort, others 1 ticket and not isShort; the invariant holds |
| Lottery.Simulation.TicketsInSystem | lottery.py:93-95 | the result is the sum over the queue of tickets plus waiting time |
| Lottery.Simulation.PickWinner | lottery.py:99-105 | the result is the first position whose running weight is strictly greater than the winning ticket, or 0 |
| Lottery.Simulation.Prepare | lottery.py:73-91 | the slice is the floor average, the tickets are allocated against it, and every weight is then positive |
| Lottery.Simulation.Draw | lottery.py:93-105 | the winner's position is the one Drawn gives for the queue's weights and the raw random value |
| Lottery.Simulation.SliceTick | lottery.py:108-141 | one tick of the slice either stops it with SliceOutcome or continues with the state SliceSoFar describes |
| Lottery.Simulation.RunSlice | lottery.py:107-141 | the invariant is kept and the slice ends with the outcome SliceOutcome states |
| Lottery.Simulation.RunRound | lottery.py:73-141 | the winner is the position drawn from the weights after allocation, and its slice of the floor average runs with SliceOutcome |
| Lottery.Simulation.Round | lottery.py:73-141 | a round keeps the invariant, does at least one unit of work, advances the clock by exactly that, leaves the next pending record not yet arrived, only advances the pointer and changes no record's input; the new state is RoundState of the old one |
| Lottery.Simulation.Rounds | lottery.py:71-141 | the loop advances the clock by exactly the work done, and its final state is RunState of the state it started from |
| Lottery.Simulation.Run | lottery.py:71-141 | the loop ends with an empty queue; records never admitted are exactly as before; no input changes; ticks is the work done and the clock advances by exactly that; a record still pending after a non-empty start has not arrived; the final state is RunState of the starting state, which fixes every exit and wait time |
| Lottery.Simulation.Metrics | lottery.py:143-154 | the sums of burst + wait and of wait over all records, and their maxima from -1 |
| Lottery.Start | lottery.py:47-68 | the parsed records, sorted into a fresh array in stable arrival order with their total burst kept, and the simulation built over them: its invariant holds, exactly the earliest-arrival group, at least one record when there is input, is queued, and the state is Initial of the sorted records |
| Lottery.Simulate | lottery.py:47-154 | the whole script on parsed input: the records, pointer and clock the loop leaves are exactly Simulated of the parsed records in stable arrival order, which fixes every exit and wait time; the clock ends at the total burst of the admitted records and the next pending record has not arrived by then; the final records keep their inputs, they satisfy the loop invariant with an empty queue (completed, or never admitted); the admitted records include the whole earliest-arrival group, which is at least one record when there is input and ends just before the first later arrival, so that group is always run to completion; and the reported values are the sums of burst + wait and of wait and their maxima over them; turnarounds add up to the input's total burst plus the total wait, the wait total is not negative, and with at least one record the maxima are real values |

## Left out

- Input and output are not modelled. This covers reading the file name and the file, printing the process table and the averages, and `__str__` (assignment.c:49-69, 180-191, 347-354; lottery.py:26-32, 38-40, 159-164). Both models take the input as an already-parsed sequence of (arrival, burst) pairs.
- `fileParse` and `mathCeil` (assignment.c:202-283) parse bytes and round floats up. They are replaced by that parsed input, with every burst at least 1.
- `srand`, `rand` and `randint` are a random source. Each round's raw value is a parameter.
- The float averages (assignment.c:162-163, 185-186; lottery.py:156-157) are floating point; assignment.c also adds the integer times into float totals. The integer sums and maxima they are computed from are modelled. With no records lottery.py divides by zero at line 156; `Lottery.Simulate` still returns its sums and maxima there.
- `malloc`, `realloc` and `freeProcesses` are memory management. The sentinel record that ends the record array becomes the array's length.
- The drain reads the sentinel's uninitialised arrival time when the feed is exhausted (assignment.c:154-157). The model ends the run cleanly there instead.
- `getTailFromQueue` (assignment.c:485-490) walks to the tail of the linked list. In a sequence the tail is the last element, so `Adaptive.Simulator.Enqueue` appends.
- `getLengthProcesses` (assignment.c:322-327) counts records up to the sentinel. It appears as the array length, or as the array length minus the feed cursor.
- Python's `list.sort` is library code. `Lottery.SortByArrival` stands in for it as a stable insertion sort on values, so the model claims only the stability and ordering the language guarantees.
- Python's object identity (`p is not q[winner]`) is modelled as index identity. The queue holds distinct indices, so the two agree.
- C `int` and `size_t` overflow is not modelled: Dafny integers are unbounded. The model assumes no overflow in the sum of remaining times and its division by the queue length (assignment.c:362-375), in the ticket total (assignment.c:406-413), in the running totals of turnaround and waiting time (assignment.c:161-175), or in the clock.
- Bursts of at least 1 are a precondition of both models; the source accepts other values. In lottery.py a queue whose remaining times average below 1, such as a lone record with burst 0, gets a slice of 0 (lottery.py:81-82); the slice loop of line 108 then takes no tick, so the run never ends. A burst-0 record that wins a longer slice runs below 0 and never meets the completion test of line 135. In assignment.c the length walk of `getLengthQueue` stops at the first record with no remaining time (assignment.c:337). A burst-0 record at the head of the initial queue ends the main loop at once (line 95). One that becomes the head later, when the records before it complete, makes the empty-queue test of line 153 fire before the loop test: the queue is replaced by the next pending record (line 154), the clock jumps to its arrival, and every record still queued is dropped without an exit time. Behind the head such a record shortens the count that `getAvgRemainingTime` divides by (lines 364, 374), while the sum still covers the whole list. A burst-0 record that wins runs to -1 and misses the completion test of line 130.
- `test/generate_testcase.py` writes random test files. It is I/O plus a random generator, with no logic to model.
- `Lottery.Simulation.Run`: it does not claim that every record completes, because lottery.py does not. With a gap between arrivals the queue empties first and the loop ends (see `Lottery.StopsWithArrivalPending`).

/** The older lottery scheduler of lottery.py: every queued process holds
    tickets plus its waiting time as lottery weight, later arrivals start with
    a waiting-time credit, the clock starts at 0, and the run stops as soon as
    the ready queue is empty. */
module Lottery {
  import opened Tickets
  import opened Queues

  /** One process node; rb is the remaining burst time. The scheduler never
      writes turnaround: the report computes burst + wait instead. */
  datatype Process = Process(num: int, arrival: int, burst: int, rb: int,
                             exit: int, wait: int, turnaround: int,
                             tickets: int, isShort: bool)

  /** A process node as its constructor builds it. */
  function NewProcess(num: int, arrival: int, burst: int): Process
  {
    Process(num, arrival, burst, burst, 0, 0, 0, 0, false)
  }

  /** Not yet admitted: still as its constructor built it. */
  predicate Fresh(p: Process)
  {
    p == NewProcess(p.num, p.arrival, p.burst)
  }

  /** The parsed input: one node per (arrival, burst) line, numbered from 1
      in input order. */
  function Parsed(input: seq<(int, int)>): (s: seq<Process>)
    ensures |s| == |input|
  {
    seq(|input|, i requires 0 <= i < |input| => NewProcess(i + 1, input[i].0, input[i].1))
  }

  predicate SameInput(a: Process, b: Process)
  {
    a.num == b.num && a.arrival == b.arrival && a.burst == b.burst
  }

  // ---------------------------------------------------------------- sorting

  predicate SortedByArrival(s: seq<Process>)
  {
    forall i, j :: 0 <= i < j < |s| ==> s[i].arrival <= s[j].arrival
  }

  predicate NumberedInOrder(s: seq<Process>)
  {
    forall i, j :: 0 <= i < j < |s| ==> s[i].num < s[j].num
  }

  /** Records with equal arrival appear in increasing process number. */
  predicate TiesInNumberOrder(s: seq<Process>)
  {
    forall i, j :: 0 <= i < j < |s| && s[i].arrival == s[j].arrival ==> s[i].num < s[j].num
  }

  /** The parsed nodes are fresh, numbered 1, 2, ... in input order, and carry
      their line's arrival and burst. */
  lemma ParsedFacts(input: seq<(int, int)>)
    ensures NumberedInOrder(Parsed(input))
    ensures forall i :: 0 <= i < |input| ==>
              Fresh(Parsed(input)[i]) && Parsed(input)[i].num == i + 1 &&
              Parsed(input)[i].arrival == input[i].0 && Parsed(input)[i].burst == input[i].1
  {
  }

  /** p placed ahead of the first record that does not arrive before it. */
  function Insert(p: Process, s: seq<Process>): seq<Process>
  {
    if s == [] || p.arrival <= s[0].arrival then [p] + s
    else [s[0]] + Insert(p, s[1..])
  }

  /** The sort by arrival time of line 57, as an insertion sort that puts each
      record ahead of the later input records of equal arrival. */
  function SortByArrival(s: seq<Process>): seq<Process>
  {
    if s == [] then [] else Insert(s[0], SortByArrival(s[1..]))
  }

  /** Where Insert puts p: after every record arriving strictly earlier. */
  function InsertPos(p: Process, s: seq<Process>): (m: nat)
    ensures m <= |s|
  {
    if s == [] || p.arrival <= s[0].arrival then 0 else 1 + InsertPos(p, s[1..])
  }

  /** Insert places p at InsertPos, the records before it arriving strictly
      earlier and the one after it no earlier, and shifts the rest by one. */
  lemma {:induction false} InsertShape(p: Process, s: seq<Process>)
    ensures |Insert(p, s)| == |s| + 1 && Insert(p, s)[InsertPos(p, s)] == p
    ensures forall a :: 0 <= a < InsertPos(p, s) ==> Insert(p, s)[a] == s[a]
    ensures forall a :: InsertPos(p, s) < a <= |s| ==> Insert(p, s)[a] == s[a - 1]
    ensures forall j :: 0 <= j < InsertPos(p, s) ==> s[j].arrival < p.arrival
    ensures InsertPos(p, s) < |s| ==> p.arrival <= s[InsertPos(p, s)].arrival
  {
    if !(s == [] || p.arrival <= s[0].arrival) {
      var t := s[1..];
      InsertShape(p, t);
      var m := InsertPos(p, t);
      var u := Insert(p, s);
      assert InsertPos(p, s) == m + 1;
      assert u == [s[0]] + Insert(p, t);
      forall a | 0 <= a < m + 1 ensures u[a] == s[a] {
        if a > 0 {
          assert u[a] == Insert(p, t)[a - 1] && s[a] == t[a - 1];
        }
      }
      forall a | m + 1 < a <= |s| ensures u[a] == s[a - 1] {
        assert u[a] == Insert(p, t)[a - 1] && s[a - 1] == t[a - 2];
      }
      forall j | 0 < j < m + 1 ensures s[j].arrival < p.arrival {
        assert s[j] == t[j - 1];
      }
      if m + 1 < |s| {
        assert s[m + 1] == t[m];
      }
    } else {
      assert Insert(p, s) == [p] + s;
    }
  }

  lemma {:induction false} InsertFacts(p: Process, s: seq<Process>)
    ensures multiset(Insert(p, s)) == multiset(s) + multiset{p}
    ensures SortedByArrival(s) ==> SortedByArrival(Insert(p, s))
  {
    if s != [] && p.arrival > s[0].arrival {
      assert s == [s[0]] + s[1..];
      InsertFacts(p, s[1..]);
    }
    if SortedByArrival(s) {
      InsertSorted(p, s);
    }
  }

  lemma InsertSorted(p: Process, s: seq<Process>)
    requires SortedByArrival(s)
    ensures SortedByArrival(Insert(p, s))
  {
    InsertShape(p, s);
    var m := InsertPos(p, s);
    var u := Insert(p, s);
    forall a, b | 0 <= a < b < |u| ensures u[a].arrival <= u[b].arrival {
      if b == m + 1 {
        assert u[b] == s[m];
      }
    }
  }

  /** Inserting a record numbered below all others keeps ties in number
      order. */
  lemma InsertTies(p: Process, s: seq<Process>)
    requires TiesInNumberOrder(s)
    requires forall j :: 0 <= j < |s| ==> p.num < s[j].num
    ensures TiesInNumberOrder(Insert(p, s))
  {
    InsertShape(p, s);
    var m := InsertPos(p, s);
    var u := Insert(p, s);
    forall a, b | 0 <= a < b < |u| && u[a].arrival == u[b].arrival ensures u[a].num < u[b].num {
      if a != m && b != m {
        var a', b' := if a < m then a else a - 1, if b < m then b else b - 1;
        assert u[a] == s[a'] && u[b] == s[b'];
      }
    }
  }

  /** The sort orders by arrival and is a permutation. */
  lemma {:induction false} SortFacts(s: seq<Process>)
    ensures SortedByArrival(SortByArrival(s))
    ensures multiset(SortByArrival(s)) == multiset(s)
  {
    if s != [] {
      assert s == [s[0]] + s[1..];
      SortFacts(s[1..]);
      InsertFacts(s[0], SortByArrival(s[1..]));
    }
  }

  /** The sort is stable: records numbered in input order come out with
      equal arrivals in number order. */
  lemma {:induction false} SortStable(s: seq<Process>)
    requires NumberedInOrder(s)
    ensures TiesInNumberOrder(SortByArrival(s))
  {
    if s != [] {
      var t := s[1..];
      assert NumberedInOrder(t) by {
        forall a, b | 0 <= a < b < |t| ensures t[a].num < t[b].num {
          assert t[a] == s[a + 1] && t[b] == s[b + 1];
        }
      }
      SortStable(t);
      SortFacts(t);
      var r := SortByArrival(t);
      HeadBelow(s);
      assert forall j :: 0 <= j < |r| ==> r[j] in multiset(r);
      InsertTies(s[0], r);
    }
  }

  lemma HeadBelow(s: seq<Process>)
    requires NumberedInOrder(s) && s != []
    ensures forall x :: x in s[1..] ==> s[0].num < x.num
  {
    forall x | x in s[1..] ensures s[0].num < x.num {
      var m :| 0 <= m < |s| - 1 && s[1..][m] == x;
      assert s[m + 1] == x;
    }
  }

  function BurstsOf(s: seq<Process>): seq<int>
  {
    seq(|s|, i requires 0 <= i < |s| => s[i].burst)
  }

  /** The sort keeps the total burst. */
  lemma {:induction false} SortKeepsBursts(s: seq<Process>)
    ensures Sum(BurstsOf(SortByArrival(s))) == Sum(BurstsOf(s))
  {
    if s != [] {
      SortKeepsBursts(s[1..]);
      InsertBursts(s[0], SortByArrival(s[1..]));
      assert BurstsOf(s) == [s[0].burst] + BurstsOf(s[1..]);
      SumCons(s[0].burst, BurstsOf(s[1..]));
    }
  }

  lemma {:induction false} InsertBursts(p: Process, s: seq<Process>)
    ensures Sum(BurstsOf(Insert(p, s))) == p.burst + Sum(BurstsOf(s))
  {
    if s == [] || p.arrival <= s[0].arrival {
      assert BurstsOf([p] + s) == [p.burst] + BurstsOf(s);
      SumCons(p.burst, BurstsOf(s));
    } else {
      InsertBursts(p, s[1..]);
      assert BurstsOf(Insert(p, s)) == [s[0].burst] + BurstsOf(Insert(p, s[1..]));
      assert BurstsOf(s) == [s[0].burst] + BurstsOf(s[1..]);
      SumCons(s[0].burst, BurstsOf(Insert(p, s[1..])));
      SumCons(s[0].burst, BurstsOf(s[1..]));
    }
  }

  // -------------------------------------------------------------- deque

  /** deque.rotate(-n): n steps to the left. */
  function RotateLeft(d: seq<nat>, n: nat): seq<nat>
    requires n <= |d|
  {
    d[n..] + d[..n]
  }

  /** deque.rotate(n): n steps to the right. */
  function RotateRight(d: seq<nat>, n: nat): seq<nat>
    requires n <= |d|
  {
    d[|d| - n..] + d[..|d| - n]
  }

  /** delete_nth: rotating the n-th entry to the front, popping it and
      rotating back removes exactly that entry and keeps the others in
      order. */
  function WithoutNth(d: seq<nat>, n: nat): (r: seq<nat>)
    requires n < |d|
    ensures r == d[..n] + d[n + 1..]
  {
    var popped := RotateLeft(d, n)[1..];
    assert popped == d[n + 1..] + d[..n];
    RotateRight(popped, n)
  }

  // ------------------------------------------------- queue views and sums

  function RemainingOf(s: seq<Process>, q: seq<nat>): seq<int>
    requires IndicesIn(q, |s|)
  {
    seq(|q|, k requires 0 <= k < |q| => s[q[k]].rb)
  }

  /** Lottery weight of each member: its tickets plus its waiting time. */
  function WeightsOf(s: seq<Process>, q: seq<nat>): seq<int>
    requires IndicesIn(q, |s|)
  {
    seq(|q|, k requires 0 <= k < |q| => s[q[k]].tickets + s[q[k]].wait)
  }

  /** Lines 78-82: the floor average of the remaining times; the sum is never
      negative, so Python's floor division agrees with Dafny's. */
  function FloorAverage(s: seq<Process>, q: seq<nat>): int
    requires IndicesIn(q, |s|) && q != []
  {
    Sum(RemainingOf(s, q)) / |q|
  }

  /** A queued record after allocation: at or below the average it is a
      short job with SHORT_JOB_TICKETS, above it a long job with
      LONG_JOB_TICKETS. */
  function Allot(p: Process, avg: int): Process
  {
    p.(tickets := TicketFor(p.rb, avg), isShort := p.rb <= avg)
  }

  /** The records after the allocation loop of lines 85-91. */
  function Allocated(s: seq<Process>, q: seq<nat>, avg: int): (r: seq<Process>)
    ensures |r| == |s|
  {
    seq(|s|, i requires 0 <= i < |s| => if i in q then Allot(s[i], avg) else s[i])
  }

  /** After allocation the weight of each member is its rule's tickets plus
      its waiting time, and no input or timing field has changed. */
  lemma AllocatedWeights(s: seq<Process>, q: seq<nat>, avg: int)
    requires IndicesIn(q, |s|)
    ensures forall k :: 0 <= k < |q| ==>
              WeightsOf(Allocated(s, q, avg), q)[k] == TicketFor(s[q[k]].rb, avg) + s[q[k]].wait
    ensures forall i :: 0 <= i < |s| ==>
              SameInput(Allocated(s, q, avg)[i], s[i]) && Allocated(s, q, avg)[i].rb == s[i].rb &&
              Allocated(s, q, avg)[i].wait == s[i].wait && Allocated(s, q, avg)[i].exit == s[i].exit
  {
    forall k | 0 <= k < |q| ensures WeightsOf(Allocated(s, q, avg), q)[k] == TicketFor(s[q[k]].rb, avg) + s[q[k]].wait {
      assert q[k] in q;
    }
  }

  /** Some member is at or below the floor average, so every allocation
      makes at least one short job. */
  lemma SomeShortJob(s: seq<Process>, q: seq<nat>)
    requires IndicesIn(q, |s|) && q != []
    ensures exists k :: 0 <= k < |q| && Allocated(s, q, FloorAverage(s, q))[q[k]].isShort
  {
    var r := RemainingOf(s, q);
    SomeAtOrBelowFloorAverage(r);
    var k :| 0 <= k < |r| && r[k] <= Sum(r) / |r|;
    assert q[k] in q;
    assert Allocated(s, q, FloorAverage(s, q))[q[k]].isShort;
  }

  function RemainingAll(s: seq<Process>): seq<int>
  {
    seq(|s|, i requires 0 <= i < |s| => s[i].rb)
  }

  /** The work left over all records. */
  function TotalRemaining(s: seq<Process>): int
  {
    Sum(RemainingAll(s))
  }

  // ------------------------------------------------------ record states

  /** Where a record's clock starts: 0 for the records queued before the
      loop, since the clock starts at 0 whatever they arrive at, and the
      arrival for every record admitted later. */
  function Origin(p: Process, i: nat, initial: nat): int
  {
    if i < initial then 0 else p.arrival
  }

  /** Queued elapsed units after its origin: the units it has run plus the
      units it has waited make up all of them. */
  predicate Queued(p: Process, elapsed: int)
  {
    1 <= p.rb <= p.burst && p.wait >= 0 && p.exit == 0 && p.wait + (p.burst - p.rb) == elapsed
  }

  /** Completed: no work left, and the exit lies burst + wait units after its
      origin. */
  predicate Completed(p: Process, origin: int)
  {
    p.rb == 0 && p.wait >= 0 && p.exit - origin == p.burst + p.wait
  }

  predicate RecordState(s: seq<Process>, q: seq<nat>, ptr: nat, time: int, initial: nat, i: nat)
    requires i < |s|
  {
    if ptr <= i then Fresh(s[i]) && s[i].burst >= 1
    else if i in q then Queued(s[i], time - Origin(s[i], i, initial))
    else Completed(s[i], Origin(s[i], i, initial))
  }

  /** The invariant of the round loop: the records stay sorted, the queue
      holds distinct admitted records, and every record is in the state its
      position and membership say. */
  predicate SimState(s: seq<Process>, q: seq<nat>, ptr: nat, time: int, initial: nat)
  {
    && SortedByArrival(s)
    && initial <= ptr <= |s|
    && IndicesIn(q, ptr)
    && Distinct(q)
    && (forall i :: 0 <= i < |s| ==> RecordState(s, q, ptr, time, initial, i))
  }

  lemma QueueQueued(s: seq<Process>, q: seq<nat>, ptr: nat, time: int, initial: nat)
    requires SimState(s, q, ptr, time, initial)
    ensures forall k :: 0 <= k < |q| ==> s[q[k]].rb >= 1 && s[q[k]].wait >= 0
  {
    forall k | 0 <= k < |q| ensures s[q[k]].rb >= 1 && s[q[k]].wait >= 0 {
      assert RecordState(s, q, ptr, time, initial, q[k]);
    }
  }

  lemma RemainingNonNegative(s: seq<Process>, q: seq<nat>, ptr: nat, time: int, initial: nat)
    requires SimState(s, q, ptr, time, initial)
    ensures TotalRemaining(s) >= 0
  {
    forall i | 0 <= i < |s| ensures RemainingAll(s)[i] >= 0 {
      assert RecordState(s, q, ptr, time, initial, i);
    }
    SumNonNegative(RemainingAll(s));
  }

  /** Allocation keeps the invariant. */
  lemma AllocatedKeepsState(s: seq<Process>, q: seq<nat>, ptr: nat, time: int, initial: nat, avg: int)
    requires SimState(s, q, ptr, time, initial)
    ensures SimState(Allocated(s, q, avg), q, ptr, time, initial)
  {
    var r := Allocated(s, q, avg);
    QueueBelow(q, ptr);
    forall i | 0 <= i < |s| ensures RecordState(r, q, ptr, time, initial, i) {
      assert RecordState(s, q, ptr, time, initial, i);
    }
  }

  /** After allocation every member's weight is at least one. */
  lemma WeightsPositive(s: seq<Process>, q: seq<nat>, ptr: nat, time: int, initial: nat, avg: int)
    requires SimState(s, q, ptr, time, initial)
    ensures Positive(WeightsOf(Allocated(s, q, avg), q))
  {
    QueueQueued(s, q, ptr, time, initial);
    AllocatedWeights(s, q, avg);
  }

  // ------------------------------------------------------- one tick

  /** The records after the winner w has run n units while every other
      queued record waited n units. */
  function Ran(s: seq<Process>, q: seq<nat>, w: nat, n: int): (r: seq<Process>)
    ensures |r| == |s|
  {
    seq(|s|, i requires 0 <= i < |s| =>
      if i == w then s[i].(rb := s[i].rb - n)
      else if i in q then s[i].(wait := s[i].wait + n)
      else s[i])
  }

  /** The records after admitting f0 .. f1 - 1 at time t: each starts with
      the waiting-time credit t - arrival. */
  function Arrive(s: seq<Process>, f0: nat, f1: nat, t: int): (r: seq<Process>)
    ensures |r| == |s|
  {
    seq(|s|, i requires 0 <= i < |s| =>
      if f0 <= i < f1 then s[i].(wait := t - s[i].arrival) else s[i])
  }

  /** The completed winner's exit time is set. */
  function Exited(s: seq<Process>, w: nat, t: int): (r: seq<Process>)
    requires w < |s|
    ensures |r| == |s|
  {
    s[w := s[w].(exit := t)]
  }

  /** The records after the winner w ran n units while the other queued
      records waited, the records f0 .. f1 - 1 were admitted at time t, and,
      when done, the winner got its exit time t: only the winner's remaining
      time changes, by n, and no record's input changes. */
  function Ticked(s: seq<Process>, q: seq<nat>, w: nat, n: int, f0: nat, f1: nat, t: int, done: bool): (r: seq<Process>)
    requires w < |s|
    ensures |r| == |s|
  {
    var r := Arrive(Ran(s, q, w, n), f0, f1, t);
    if done then Exited(r, w, t) else r
  }

  /** A tick changes only the winner's remaining time, by n, and no
      record's input. */
  lemma TickedFacts(s: seq<Process>, q: seq<nat>, w: nat, n: int, f0: nat, f1: nat, t: int, done: bool)
    requires w < |s|
    ensures forall i :: 0 <= i < |s| ==> SameInput(Ticked(s, q, w, n, f0, f1, t, done)[i], s[i])
    ensures forall i :: 0 <= i < |s| ==>
              Ticked(s, q, w, n, f0, f1, t, done)[i].rb == if i == w then s[i].rb - n else s[i].rb
  {
  }

  /** The records from f0 up to f1 have arrived by time t, and the record at
      f1, if any, has not. */
  predicate Admitted(s: seq<Process>, f0: nat, f1: nat, t: int)
  {
    && f0 <= f1 <= |s|
    && (forall i :: f0 <= i < f1 ==> s[i].arrival <= t)
    && (f1 < |s| ==> s[f1].arrival > t)
  }

  lemma SortedPair(s: seq<Process>, i: nat, j: nat)
    requires SortedByArrival(s) && i <= j < |s|
    ensures s[i].arrival <= s[j].arrival
  {
  }

  lemma AdmittedSameInput(s: seq<Process>, s': seq<Process>, f0: nat, f1: nat, t: int)
    requires |s| == |s'| && forall i :: 0 <= i < |s| ==> SameInput(s'[i], s[i])
    ensures Admitted(s', f0, f1, t) <==> Admitted(s, f0, f1, t)
  {
  }

  lemma SortedSameInput(s: seq<Process>, s': seq<Process>)
    requires |s| == |s'| && forall i :: 0 <= i < |s| ==> SameInput(s'[i], s[i])
    ensures SortedByArrival(s') <==> SortedByArrival(s)
  {
  }

  /** The tick as a function of the state at its start: winner position k
      ran one unit, the others waited one, the records f .. f' - 1 were
      admitted at the new time, and a winner out of work got its exit and
      left the queue at its position. */
  predicate TickOutcome(s: seq<Process>, q: seq<nat>, f: nat, time: int, k: nat,
                        s': seq<Process>, q': seq<nat>, f': nat, time': int, done: bool, arrived: bool)
  {
    && k < |q| && q[k] < |s|
    && time' == time + 1
    && Admitted(s, f, f', time')
    && (arrived <==> f' > f)
    && (done <==> s[q[k]].rb == 1)
    && s' == Ticked(s, q, q[k], 1, f, f', time', done)
    && q' == (if done then WithoutNth(q + Range(f, f'), k) else q + Range(f, f'))
  }

  lemma QueueBelow(q: seq<nat>, f: nat)
    requires IndicesIn(q, f)
    ensures forall x :: x in q ==> x < f
  {
    forall x | x in q ensures x < f {
      var j :| 0 <= j < |q| && q[j] == x;
    }
  }

  /** Appending the admitted run keeps the queue distinct and admitted. */
  lemma AppendQueue(q: seq<nat>, f: nat, f': nat)
    requires IndicesIn(q, f) && Distinct(q) && f <= f'
    ensures IndicesIn(q + Range(f, f'), f') && Distinct(q + Range(f, f'))
    ensures forall x :: x in q + Range(f, f') <==> x in q || f <= x < f'
  {
    RangeMembers(f, f');
    QueueBelow(q, f);
    DistinctAppend(q, Range(f, f'), f);
    var d := q + Range(f, f');
    forall j | 0 <= j < |d| ensures d[j] < f' {
      assert d[j] in d;
    }
  }

  /** Appending the admitted run and removing the completed winner at
      position k keeps the queue distinct and admitted, and removes exactly
      the winner. */
  lemma RemovedQueue(q: seq<nat>, f: nat, k: nat, f': nat)
    requires IndicesIn(q, f) && Distinct(q) && f <= f' && k < |q|
    ensures IndicesIn(WithoutNth(q + Range(f, f'), k), f') && Distinct(WithoutNth(q + Range(f, f'), k))
    ensures forall x :: x in WithoutNth(q + Range(f, f'), k) <==> (x in q && x != q[k]) || f <= x < f'
  {
    AppendQueue(q, f, f');
    var d := q + Range(f, f');
    assert d[k] == q[k];
    RemoveAtMembers(d, k);
    var r := WithoutNth(d, k);
    assert q[k] < f;
    forall x ensures x in r <==> (x in q && x != q[k]) || f <= x < f' {
      assert x in r <==> x in d && x != d[k];
    }
    forall j | 0 <= j < |r| ensures r[j] < f' {
      assert r[j] in r;
    }
  }

  /** The queue after a tick: members stay distinct and admitted. */
  lemma TickQueue(q: seq<nat>, f: nat, k: nat, f': nat, done: bool, q': seq<nat>)
    requires IndicesIn(q, f) && Distinct(q) && f <= f' && k < |q|
    requires q' == (if done then WithoutNth(q + Range(f, f'), k) else q + Range(f, f'))
    ensures IndicesIn(q', f') && Distinct(q')
    ensures forall x :: x in q' <==> (x in q && !(done && x == q[k])) || f <= x < f'
  {
    if done {
      RemovedQueue(q, f, k, f');
    } else {
      AppendQueue(q, f, f');
    }
  }

  /** The records after the winner at position k ran n units while the
      others waited and the records f .. f' - 1 were admitted at the new
      time: each is in the state its membership says. */
  lemma TickRecords(s: seq<Process>, q: seq<nat>, f: nat, time: int, initial: nat, k: nat, n: int,
                    s': seq<Process>, q': seq<nat>, f': nat, t: int, done: bool)
    requires SimState(s, q, f, time, initial) && k < |q| && t == time + n
    requires 1 <= n <= s[q[k]].rb
    requires Admitted(s, f, f', t)
    requires done <==> s[q[k]].rb == n
    requires s' == Ticked(s, q, q[k], n, f, f', t, done)
    requires forall x :: x in q' <==> (x in q && !(done && x == q[k])) || f <= x < f'
    ensures forall i :: 0 <= i < |s'| ==> RecordState(s', q', f', t, initial, i)
  {
    var w := q[k];
    assert w in q;
    forall i | 0 <= i < |s| ensures RecordState(s', q', f', t, initial, i) {
      assert RecordState(s, q, f, time, initial, i);
    }
  }

  /** Running the winner at position k for n units, between one and its
      remaining time, with the admissions of the new time keeps the
      invariant and takes n units off the work left. */
  lemma RunKeepsState(s: seq<Process>, q: seq<nat>, f: nat, time: int, initial: nat, k: nat, n: int,
                      s': seq<Process>, q': seq<nat>, f': nat, t: int, done: bool)
    requires SimState(s, q, f, time, initial) && k < |q| && q[k] < |s| && t == time + n
    requires 1 <= n <= s[q[k]].rb
    requires Admitted(s, f, f', t)
    requires done <==> s[q[k]].rb == n
    requires s' == Ticked(s, q, q[k], n, f, f', t, done)
    requires q' == (if done then WithoutNth(q + Range(f, f'), k) else q + Range(f, f'))
    ensures SimState(s', q', f', t, initial)
    ensures TotalRemaining(s') == TotalRemaining(s) - n
  {
    TickedFacts(s, q, q[k], n, f, f', t, done);
    TickQueue(q, f, k, f', done, q');
    TickRecords(s, q, f, time, initial, k, n, s', q', f', t, done);
    SortedSameInput(s, s');
    SumChange(RemainingAll(s), RemainingAll(s'), q[k]);
  }

  /** One tick keeps the invariant. */
  lemma TickKeepsState(s: seq<Process>, q: seq<nat>, f: nat, time: int, initial: nat, k: nat,
                       s': seq<Process>, q': seq<nat>, f': nat, time': int, done: bool, arrived: bool)
    requires SimState(s, q, f, time, initial)
    requires TickOutcome(s, q, f, time, k, s', q', f', time', done, arrived)
    ensures SimState(s', q', f', time', initial)
    ensures TotalRemaining(s') == TotalRemaining(s) - 1
  {
    assert RecordState(s, q, f, time, initial, q[k]);
    assert q[k] in q;
    RunKeepsState(s, q, f, time, initial, k, 1, s', q', f', time', done);
  }

  // ------------------------------------------------------- one round

  /** Midway through the tick loop after sec ticks that neither completed
      the winner nor admitted a record. */
  predicate SliceSoFar(s: seq<Process>, q: seq<nat>, f: nat, time: int, k: nat, sec: int,
                       s': seq<Process>, q': seq<nat>, f': nat, time': int)
  {
    && k < |q| && q[k] < |s|
    && 0 <= sec < s[q[k]].rb
    && q' == q && f' == f && time' == time + sec
    && s' == Ran(s, q, q[k], sec)
    && (sec > 0 ==> Admitted(s, f, f, time'))
  }

  /** How the tick loop of a round ends, from the state at its start, for
      winner position k and the given slice: the winner has run ticks units,
      between one and the slice, while every other member waited as long;
      the records admitted arrived by the end, and after more than one tick
      arrived at the end itself; a winner out of work got its exit and left
      the queue; and a round cut short ended on a completion or an
      admission. */
  predicate SliceOutcome(s: seq<Process>, q: seq<nat>, f: nat, time: int, k: nat, slice: int,
                         s': seq<Process>, q': seq<nat>, f': nat, time': int, ticks: int)
  {
    && k < |q| && q[k] < |s|
    && 1 <= ticks <= slice && ticks <= s[q[k]].rb
    && time' == time + ticks
    && Admitted(s, f, f', time')
    && (ticks > 1 ==> forall i :: f <= i < f' ==> s[i].arrival == time')
    && s' == Ticked(s, q, q[k], ticks, f, f', time', s[q[k]].rb == ticks)
    && q' == (if s[q[k]].rb == ticks then WithoutNth(q + Range(f, f'), k) else q + Range(f, f'))
    && (ticks < slice ==> s[q[k]].rb == ticks || f' > f)
  }

  /** One more unit for the winner and one more wait for the others. */
  lemma RanStep(s: seq<Process>, q: seq<nat>, w: nat, n: int)
    requires w < |s|
    ensures Ran(Ran(s, q, w, n), q, w, 1) == Ran(s, q, w, n + 1)
  {
  }

  lemma TickedStep(s: seq<Process>, q: seq<nat>, w: nat, n: int, f0: nat, f1: nat, t: int, done: bool)
    requires w < |s|
    ensures Ticked(Ran(s, q, w, n), q, w, 1, f0, f1, t, done) == Ticked(s, q, w, n + 1, f0, f1, t, done)
  {
    RanStep(s, q, w, n);
  }

  /** Sorted records that arrive by time t but not before it all arrive at t. */
  lemma ArrivedTogether(s: seq<Process>, f0: nat, f1: nat, t: int)
    requires SortedByArrival(s) && Admitted(s, f0, f1, t)
    requires f0 < |s| ==> s[f0].arrival > t - 1
    ensures forall i :: f0 <= i < f1 ==> s[i].arrival == t
  {
  }

  lemma SliceStart(s: seq<Process>, q: seq<nat>, f: nat, time: int, initial: nat, k: nat)
    requires SimState(s, q, f, time, initial) && k < |q|
    ensures SliceSoFar(s, q, f, time, k, 0, s, q, f, time)
  {
    assert RecordState(s, q, f, time, initial, q[k]);
    assert q[k] in q;
    assert Ran(s, q, q[k], 0) == s;
  }

  /** One more tick either ends the loop with its outcome or carries it on. */
  lemma SliceStep(s: seq<Process>, q: seq<nat>, f: nat, time: int, k: nat, slice: int, sec: int,
                  s1: seq<Process>, q1: seq<nat>, f1: nat, t1: int,
                  s2: seq<Process>, q2: seq<nat>, f2: nat, t2: int, done: bool, arrived: bool)
    requires sec < slice && SortedByArrival(s)
    requires SliceSoFar(s, q, f, time, k, sec, s1, q1, f1, t1)
    requires TickOutcome(s1, q1, f1, t1, k, s2, q2, f2, t2, done, arrived)
    ensures done || arrived ==> SliceOutcome(s, q, f, time, k, slice, s2, q2, f2, t2, sec + 1)
    ensures !(done || arrived) ==> SliceSoFar(s, q, f, time, k, sec + 1, s2, q2, f2, t2)
  {
    var w := q[k];
    TickedStep(s, q, w, sec, f, f2, t2, done);
    assert done <==> s[w].rb == sec + 1;
    AdmittedSameInput(s, s1, f, f2, t2);
    if sec > 0 {
      assert f < |s1| ==> s1[f].arrival == s[f].arrival;
      ArrivedTogether(s, f, f2, t2);
    }
    if !(done || arrived) {
      assert Range(f, f) == [];
      assert q2 == q;
    }
  }

  /** A loop that used up the whole slice ends with that outcome. */
  lemma SliceEnd(s: seq<Process>, q: seq<nat>, f: nat, time: int, k: nat, slice: int,
                 s': seq<Process>, q': seq<nat>, f': nat, time': int)
    requires slice >= 1
    requires SliceSoFar(s, q, f, time, k, slice, s', q', f', time')
    ensures SliceOutcome(s, q, f, time, k, slice, s', q', f', time', slice)
  {
    assert Range(f, f) == [];
    assert q' == q + Range(f, f);
    assert Arrive(s', f, f, time') == s';
  }

  /** A round does at least one unit of work, takes exactly that many units
      off the work left, admits only forward and changes no record's input. */
  lemma RoundProgress(s: seq<Process>, q: seq<nat>, f: nat, time: int, k: nat, slice: int,
                      s': seq<Process>, q': seq<nat>, f': nat, time': int, ticks: int)
    ensures SliceOutcome(s, q, f, time, k, slice, s', q', f', time', ticks) ==>
              && |s'| == |s|
              && TotalRemaining(s') == TotalRemaining(s) - ticks
              && ticks >= 1 && f' >= f
              && (forall i :: 0 <= i < |s| ==> SameInput(s'[i], s[i]))
  {
    if SliceOutcome(s, q, f, time, k, slice, s', q', f', time', ticks) {
      TickedFacts(s, q, q[k], ticks, f, f', time', s[q[k]].rb == ticks);
      SumChange(RemainingAll(s), RemainingAll(s'), q[k]);
    }
  }

  /** The report of lines 147-154: the turnaround of each record is its
      burst plus its waiting time. */
  function ReportedTurnarounds(s: seq<Process>): seq<int>
  {
    seq(|s|, i requires 0 <= i < |s| => s[i].burst + s[i].wait)
  }

  function WaitsOf(s: seq<Process>): seq<int>
  {
    seq(|s|, i requires 0 <= i < |s| => s[i].wait)
  }

  /** The turnarounds sum to the total burst plus the total waiting time. */
  lemma TurnaroundTotal(s: seq<Process>)
    ensures Sum(ReportedTurnarounds(s)) == Sum(BurstsOf(s)) + Sum(WaitsOf(s))
  {
    SumPointwise(BurstsOf(s), WaitsOf(s), ReportedTurnarounds(s));
  }

  /** Once the queue is empty, a record that was admitted has completed and
      its reported turnaround is its exit less its origin (its exit time
      itself for the records queued at the start); a record never admitted
      reports its burst and no waiting. */
  lemma FinalTurnarounds(s: seq<Process>, ptr: nat, time: int, initial: nat)
    requires SimState(s, [], ptr, time, initial)
    ensures forall i :: 0 <= i < ptr ==>
              s[i].rb == 0 && ReportedTurnarounds(s)[i] == s[i].exit - Origin(s[i], i, initial)
    ensures forall i :: ptr <= i < |s| ==>
              s[i].wait == 0 && ReportedTurnarounds(s)[i] == s[i].burst
    ensures forall i :: 0 <= i < |s| ==> s[i].wait >= 0
  {
    forall i | 0 <= i < ptr
      ensures s[i].rb == 0 && ReportedTurnarounds(s)[i] == s[i].exit - Origin(s[i], i, initial)
    {
      assert RecordState(s, [], ptr, time, initial, i);
    }
    forall i | ptr <= i < |s| ensures s[i].wait == 0 && ReportedTurnarounds(s)[i] == s[i].burst {
      assert RecordState(s, [], ptr, time, initial, i);
    }
    forall i | 0 <= i < |s| ensures s[i].wait >= 0 {
      assert RecordState(s, [], ptr, time, initial, i);
    }
  }

  /** Allocation leaves the work left unchanged. */
  lemma AllocatedRemaining(s: seq<Process>, q: seq<nat>, avg: int)
    requires IndicesIn(q, |s|)
    ensures TotalRemaining(Allocated(s, q, avg)) == TotalRemaining(s)
  {
    AllocatedWeights(s, q, avg);
    assert RemainingAll(Allocated(s, q, avg)) == RemainingAll(s);
  }

  /** Two records as their constructor built them with the same input are
      the same record. */
  lemma FreshSame(a: Process, b: Process)
    requires Fresh(a) && Fresh(b) && SameInput(a, b)
    ensures a == b
  {
  }

  /** The records after the members of p other than w, taken in order, have
      each waited one more unit. */
  function Aged(s: seq<Process>, p: seq<nat>, w: nat): (r: seq<Process>)
    ensures |r| == |s|
    decreases |p|
  {
    if p == [] then s
    else
      var a := Aged(s, p[..|p| - 1], w);
      var x := p[|p| - 1];
      if x != w && x < |a| then a[x := a[x].(wait := a[x].wait + 1)] else a
  }

  /** Over a queue of distinct records, ageing adds one unit of waiting time
      to exactly the members other than w. */
  lemma {:induction false} AgedMembers(s: seq<Process>, p: seq<nat>, w: nat)
    requires Distinct(p)
    ensures forall i :: 0 <= i < |s| ==>
              Aged(s, p, w)[i] == if i != w && i in p then s[i].(wait := s[i].wait + 1) else s[i]
  {
    if p != [] {
      var p', x := p[..|p| - 1], p[|p| - 1];
      assert p == p' + [x];
      assert Distinct(p') by {
        forall k, l | 0 <= k < l < |p'| ensures p'[k] != p'[l] {
          assert p'[k] == p[k] && p'[l] == p[l];
        }
      }
      assert x !in p' by {
        forall k | 0 <= k < |p'| ensures p'[k] != x {
          assert p'[k] == p[k];
        }
      }
      AgedMembers(s, p', w);
      forall i | 0 <= i < |s|
        ensures Aged(s, p, w)[i] == if i != w && i in p then s[i].(wait := s[i].wait + 1) else s[i]
      {
        assert i in p <==> i in p' || i == x;
      }
    }
  }

  /** Running the winner and then ageing the others is one unit of Ran. */
  lemma AgedRan(s: seq<Process>, q: seq<nat>, w: nat)
    requires w < |s| && Distinct(q)
    ensures Aged(s[w := s[w].(rb := s[w].rb - 1)], q, w) == Ran(s, q, w, 1)
  {
    AgedMembers(s[w := s[w].(rb := s[w].rb - 1)], q, w);
  }

  // ------------------------------------------------------ the run as a function

  /** The script's state between steps: the records, the ready queue as
      record indices, the index pointer and the clock. */
  datatype State = State(procs: seq<Process>, q: seq<nat>, ptr: nat, time: int)

  predicate ValidState(st: State, initial: nat)
  {
    SimState(st.procs, st.q, st.ptr, st.time, initial)
  }

  /** States agreeing field by field are equal. */
  lemma StateEq(a: State, b: State)
    requires a.procs == b.procs && a.q == b.q && a.ptr == b.ptr && a.time == b.time
    ensures a == b
  {
  }

  /** Where the admission scan of time t stops: the first record from f on
      that has not arrived by t. */
  function AdmitEnd(s: seq<Process>, f: nat, t: int): (e: nat)
    requires f <= |s|
    ensures Admitted(s, f, e, t)
    decreases |s| - f
  {
    if f < |s| && s[f].arrival <= t then AdmitEnd(s, f + 1, t) else f
  }

  /** Admitted fixes where the scan stops. */
  lemma AdmittedIsAdmitEnd(s: seq<Process>, f0: nat, f1: nat, t: int)
    requires Admitted(s, f0, f1, t)
    ensures f1 == AdmitEnd(s, f0, t)
  {
  }

  /** How many ticks the loop of lines 108-141 runs: the whole slice,
      unless the winner's remaining time rb runs out first, or the next
      record arrives first, gap units from now (at the earliest after one
      tick). */
  function Ticks(slice: int, rb: int, gap: int): (n: int)
    ensures slice >= 1 && rb >= 1 ==> 1 <= n <= slice && n <= rb
    ensures n <= slice && n <= rb && (n <= gap || n <= 1)
  {
    var untilArrival := if gap <= 1 then 1 else gap;
    var untilDone := if rb < untilArrival then rb else untilArrival;
    if slice < untilDone then slice else untilDone
  }

  /** A tick count that stops only where the loop would stop is Ticks. */
  lemma TicksIs(slice: int, rb: int, gap: int, ticks: int)
    requires 1 <= ticks <= slice && ticks <= rb
    requires ticks > 1 ==> gap >= ticks
    requires ticks < slice ==> rb == ticks || gap <= ticks
    ensures Ticks(slice, rb, gap) == ticks
  {
  }

  /** The ticks of the winner w's slice: the next record, if any, arrives
      gap units after the clock; with none left the slice bounds the run. */
  function SliceTicks(st: State, w: nat, slice: int): int
    requires w < |st.procs| && st.ptr <= |st.procs|
  {
    Ticks(slice, st.procs[w].rb,
          if st.ptr == |st.procs| then slice else st.procs[st.ptr].arrival - st.time)
  }

  /** The winner at queue position k runs n units while the others wait,
      the records up to f are admitted at the new clock, and a winner out of
      work gets its exit and leaves the queue. */
  function RanState(st: State, k: nat, n: int, f: nat): State
    requires k < |st.q| && st.q[k] < |st.procs| && st.ptr <= f
  {
    var done := st.procs[st.q[k]].rb == n;
    State(Ticked(st.procs, st.q, st.q[k], n, st.ptr, f, st.time + n, done),
          if done then WithoutNth(st.q + Range(st.ptr, f), k) else st.q + Range(st.ptr, f),
          f, st.time + n)
  }

  /** The tick loop of lines 108-141 for the winner at queue position k:
      the winner runs SliceTicks units and the records arrived by the new
      clock are admitted. */
  function SliceState(st: State, k: nat, slice: int): State
    requires k < |st.q| && st.q[k] < |st.procs| && st.ptr <= |st.procs|
  {
    var n := SliceTicks(st, st.q[k], slice);
    RanState(st, k, n, AdmitEnd(st.procs, st.ptr, st.time + n))
  }

  /** One round of the main loop, lines 73-141: tickets are allocated
      around the floor average, the roll picks the winner by weight, and
      the winner runs its slice of the average length. */
  function RoundState(st: State, roll: nat): State
    requires IndicesIn(st.q, |st.procs|) && st.q != [] && st.ptr <= |st.procs|
    requires Positive(WeightsOf(Allocated(st.procs, st.q, FloorAverage(st.procs, st.q)), st.q))
  {
    var avg := FloorAverage(st.procs, st.q);
    var a := Allocated(st.procs, st.q, avg);
    SliceState(State(a, st.q, st.ptr, st.time), Drawn(WeightsOf(a, st.q), roll), avg)
  }

  /** The main loop, lines 71-141, from round r on: rounds until the queue
      is empty, round r drawing rolls(r). */
  function RunState(st: State, initial: nat, rolls: nat -> nat, r: nat): State
    requires ValidState(st, initial)
    decreases TotalRemaining(st.procs)
  {
    if st.q == [] then st
    else
      RoundStateKeeps(st, initial, rolls(r));
      RunState(RoundState(st, rolls(r)), initial, rolls, r + 1)
  }

  /** Lines 60-68: the clock at 0 and the records sharing the earliest
      arrival queued. */
  function Initial(s: seq<Process>): State
  {
    if s == [] then State(s, [], 0, 0)
    else
      var f := AdmitEnd(s, 0, s[0].arrival);
      State(s, Range(0, f), f, 0)
  }

  /** The whole script on sorted fresh records: the state it ends in. */
  function Simulated(s: seq<Process>, rolls: nat -> nat): State
    requires SortedByArrival(s) && forall i :: 0 <= i < |s| ==> Fresh(s[i]) && s[i].burst >= 1
  {
    InitialKeeps(s);
    RunState(Initial(s), Initial(s).ptr, rolls, 0)
  }

  /** Running the winner n units, between one and its remaining time,
      with the admissions of the new clock, keeps the invariant, takes n
      units of work, and leaves the next record unarrived. */
  lemma RanStateKeeps(st: State, initial: nat, k: nat, n: int, f: nat)
    requires ValidState(st, initial) && k < |st.q| && st.q[k] < |st.procs|
    requires 1 <= n <= st.procs[st.q[k]].rb && Admitted(st.procs, st.ptr, f, st.time + n)
    ensures var r := RanState(st, k, n, f);
            && ValidState(r, initial) && r.time == st.time + n
            && TotalRemaining(r.procs) == TotalRemaining(st.procs) - n
            && |r.procs| == |st.procs| && r.ptr >= st.ptr
            && (r.ptr < |r.procs| ==> r.procs[r.ptr].arrival > r.time)
            && (forall i :: 0 <= i < |st.procs| ==> SameInput(r.procs[i], st.procs[i]))
  {
    var s, q, t := st.procs, st.q, st.time + n;
    var done := s[q[k]].rb == n;
    var s' := Ticked(s, q, q[k], n, st.ptr, f, t, done);
    var q' := if done then WithoutNth(q + Range(st.ptr, f), k) else q + Range(st.ptr, f);
    RanStateIs(s, q, st.ptr, st.time, k, n, s', q', f, t);
    RunKeepsState(s, q, st.ptr, st.time, initial, k, n, s', q', f, t, done);
    TickedFacts(s, q, q[k], n, st.ptr, f, t, done);
  }

  /** A slice of at least one unit keeps the invariant, takes as much work
      as the clock advances, and leaves the next record unarrived. */
  lemma SliceStateKeeps(st: State, initial: nat, k: nat, slice: int)
    requires ValidState(st, initial) && k < |st.q| && slice >= 1
    ensures st.q[k] < |st.procs| && st.ptr <= |st.procs|
    ensures var n := SliceState(st, k, slice);
            && ValidState(n, initial) && n.time > st.time
            && TotalRemaining(n.procs) == TotalRemaining(st.procs) - (n.time - st.time)
            && |n.procs| == |st.procs| && n.ptr >= st.ptr
            && (n.ptr < |n.procs| ==> n.procs[n.ptr].arrival > n.time)
            && (forall i :: 0 <= i < |st.procs| ==> SameInput(n.procs[i], st.procs[i]))
  {
    QueueBelow(st.q, st.ptr);
    assert st.q[k] in st.q;
    assert RecordState(st.procs, st.q, st.ptr, st.time, initial, st.q[k]);
    var ticks := SliceTicks(st, st.q[k], slice);
    var f := AdmitEnd(st.procs, st.ptr, st.time + ticks);
    SliceStateIsRan(st, k, slice, ticks, f);
    RanStateKeeps(st, initial, k, ticks, f);
  }

  /** A round keeps the invariant, takes exactly as many units of work as
      the clock advances, at least one, and leaves the next record
      unarrived. */
  lemma RoundStateKeeps(st: State, initial: nat, roll: nat)
    requires ValidState(st, initial) && st.q != []
    ensures IndicesIn(st.q, |st.procs|) && st.ptr <= |st.procs|
    ensures Positive(WeightsOf(Allocated(st.procs, st.q, FloorAverage(st.procs, st.q)), st.q))
    ensures TotalRemaining(st.procs) >= 0
    ensures var n := RoundState(st, roll);
            && ValidState(n, initial) && n.time > st.time
            && TotalRemaining(n.procs) == TotalRemaining(st.procs) - (n.time - st.time)
            && |n.procs| == |st.procs| && n.ptr >= st.ptr
            && (n.ptr < |n.procs| ==> n.procs[n.ptr].arrival > n.time)
            && (forall i :: 0 <= i < |st.procs| ==> SameInput(n.procs[i], st.procs[i]))
  {
    var s, q := st.procs, st.q;
    QueueBelow(q, st.ptr);
    var avg := FloorAverage(s, q);
    var a := Allocated(s, q, avg);
    WeightsPositive(s, q, st.ptr, st.time, initial, avg);
    AllocatedKeepsState(s, q, st.ptr, st.time, initial, avg);
    AllocatedRemaining(s, q, avg);
    AllocatedWeights(s, q, avg);
    QueueQueued(s, q, st.ptr, st.time, initial);
    FloorAverageAtLeastOne(RemainingOf(s, q));
    var k := Drawn(WeightsOf(a, q), roll);
    RoundStateIsSlice(st, roll);
    SliceStateKeeps(State(a, q, st.ptr, st.time), initial, k, avg);
    RemainingNonNegative(s, q, st.ptr, st.time, initial);
    var n := RoundState(st, roll);
    forall i | 0 <= i < |s| ensures SameInput(n.procs[i], s[i]) {
      assert SameInput(n.procs[i], a[i]) && SameInput(a[i], s[i]);
    }
  }

  /** A round is the slice of the drawn winner over the allotted records. */
  lemma RoundStateIsSlice(st: State, roll: nat)
    requires IndicesIn(st.q, |st.procs|) && st.q != [] && st.ptr <= |st.procs|
    requires Positive(WeightsOf(Allocated(st.procs, st.q, FloorAverage(st.procs, st.q)), st.q))
    ensures var avg := FloorAverage(st.procs, st.q);
            var a := Allocated(st.procs, st.q, avg);
            var k := Drawn(WeightsOf(a, st.q), roll);
            && k < |st.q| && st.q[k] < |a|
            && RoundState(st, roll) == SliceState(State(a, st.q, st.ptr, st.time), k, avg)
  {
    var avg := FloorAverage(st.procs, st.q);
    var a := Allocated(st.procs, st.q, avg);
    var k := Drawn(WeightsOf(a, st.q), roll);
    var x, y := RoundState(st, roll), SliceState(State(a, st.q, st.ptr, st.time), k, avg);
    assert x.ptr == y.ptr && x.time == y.time;
    assert x.q == y.q;
    assert x.procs == y.procs;
    StateEq(x, y);
  }

  /** The state before the loop satisfies the invariant with the first
      group queued. */
  lemma InitialKeeps(s: seq<Process>)
    requires SortedByArrival(s) && forall i :: 0 <= i < |s| ==> Fresh(s[i]) && s[i].burst >= 1
    ensures Initial(s).procs == s && Initial(s).time == 0
    ensures Initial(s).q == Range(0, Initial(s).ptr)
    ensures ValidState(Initial(s), Initial(s).ptr) && FirstGroup(s, Initial(s).ptr)
  {
    var st := Initial(s);
    var f := st.ptr;
    RangeFacts(0, f);
    RangeMembers(0, f);
    if s != [] {
      assert f >= 1;
      assert forall i :: 0 <= i < f ==> s[i].arrival == s[0].arrival by {
        forall i | 0 <= i < f ensures s[i].arrival == s[0].arrival {
          SortedPair(s, 0, i);
        }
      }
    }
    forall i | 0 <= i < |s| ensures RecordState(s, st.q, f, 0, f, i) {
    }
  }

  /** A round is one step of the run. */
  lemma RunStateStep(st: State, initial: nat, rolls: nat -> nat, r: nat)
    requires ValidState(st, initial) && st.q != []
    ensures IndicesIn(st.q, |st.procs|) && st.ptr <= |st.procs|
    ensures Positive(WeightsOf(Allocated(st.procs, st.q, FloorAverage(st.procs, st.q)), st.q))
    ensures var n := RoundState(st, rolls(r));
            && ValidState(n, initial) && |n.procs| == |st.procs| && n.time > st.time
            && 0 <= TotalRemaining(n.procs) == TotalRemaining(st.procs) - (n.time - st.time)
            && n.ptr >= st.ptr
            && (n.ptr < |n.procs| ==> n.procs[n.ptr].arrival > n.time)
            && (forall i :: 0 <= i < |st.procs| ==> SameInput(n.procs[i], st.procs[i]))
            && RunState(st, initial, rolls, r) == RunState(n, initial, rolls, r + 1)
  {
    RoundStateKeeps(st, initial, rolls(r));
    var n := RoundState(st, rolls(r));
    RemainingNonNegative(n.procs, n.q, n.ptr, n.time, initial);
  }

  /** The run ends with an empty queue and the invariant kept; the clock
      has advanced by exactly the work done, the pointer only forward, no
      record's input has changed, and after at least one round the next
      record has not arrived by the final clock. */
  lemma {:induction false} RunStateFacts(st: State, initial: nat, rolls: nat -> nat, r: nat)
    requires ValidState(st, initial)
    ensures var e := RunState(st, initial, rolls, r);
            && ValidState(e, initial) && e.q == []
            && |e.procs| == |st.procs| && e.ptr >= st.ptr
            && TotalRemaining(st.procs) - TotalRemaining(e.procs) == e.time - st.time
            && (st.q != [] && e.ptr < |e.procs| ==> e.procs[e.ptr].arrival > e.time)
            && (forall i :: 0 <= i < |st.procs| ==> SameInput(e.procs[i], st.procs[i]))
    decreases TotalRemaining(st.procs)
  {
    if st.q != [] {
      RunStateStep(st, initial, rolls, r);
      var n := RoundState(st, rolls(r));
      RunStateFacts(n, initial, rolls, r + 1);
      var e := RunState(n, initial, rolls, r + 1);
      assert e == RunState(st, initial, rolls, r);
      assert forall i :: 0 <= i < |st.procs| ==> SameInput(e.procs[i], n.procs[i]) && SameInput(n.procs[i], st.procs[i]);
    }
  }

  /** Where the run e from st stops: the queue empty, the invariant kept,
      the clock advanced by the work done, the pointer no earlier, and after
      at least one round the next record not yet arrived. */
  lemma RunStateEnd(st: State, initial: nat, rolls: nat -> nat, e: State)
    requires ValidState(st, initial) && e == RunState(st, initial, rolls, 0)
    ensures ValidState(e, initial) && e.q == [] && |e.procs| == |st.procs| && e.ptr >= st.ptr
    ensures TotalRemaining(st.procs) - TotalRemaining(e.procs) == e.time - st.time
    ensures st.q != [] && e.ptr < |e.procs| ==> e.procs[e.ptr].arrival > e.time
  {
    RunStateFacts(st, initial, rolls, 0);
  }

  /** Record i of the run e from st keeps its input. */
  lemma RunStateRecord(st: State, initial: nat, rolls: nat -> nat, e: State, i: int)
    requires ValidState(st, initial) && e == RunState(st, initial, rolls, 0) && 0 <= i < |st.procs|
    ensures i < |e.procs| && SameInput(e.procs[i], st.procs[i])
  {
    RunStateFacts(st, initial, rolls, 0);
  }

  /** The tick loop stops after SliceTicks ticks, with the scan of the new
      clock where AdmitEnd puts it. */
  lemma SliceOutcomeTicks(s: seq<Process>, q: seq<nat>, f: nat, time: int, k: nat,
                          slice: int, s': seq<Process>, q': seq<nat>, f': nat,
                          time': int, ticks: int)
    requires f <= |s|
    requires SliceOutcome(s, q, f, time, k, slice, s', q', f', time', ticks)
    ensures ticks == SliceTicks(State(s, q, f, time), q[k], slice)
    ensures f' == AdmitEnd(s, f, time + ticks)
  {
    var gap := if f == |s| then slice else s[f].arrival - time;
    assert ticks > 1 ==> gap >= ticks by {
      if f < |s| && f < f' {
        assert s[f].arrival <= time';
      }
    }
    assert ticks < slice ==> s[q[k]].rb == ticks || gap <= ticks by {
      if f < f' {
        assert s[f].arrival <= time';
      }
    }
    TicksIs(slice, s[q[k]].rb, gap, ticks);
    AdmittedIsAdmitEnd(s, f, f', time');
  }

  /** SliceState is RanState at its own tick count and scan end. */
  lemma SliceStateIsRan(st: State, k: nat, slice: int, n: int, f: nat)
    requires k < |st.q| && st.q[k] < |st.procs| && st.ptr <= |st.procs|
    requires n == SliceTicks(st, st.q[k], slice) && f == AdmitEnd(st.procs, st.ptr, st.time + n)
    ensures st.ptr <= f && SliceState(st, k, slice) == RanState(st, k, n, f)
  {
    var x, y := SliceState(st, k, slice), RanState(st, k, n, f);
    assert x.ptr == y.ptr && x.time == y.time;
    assert x.q == y.q;
    assert x.procs == y.procs;
    StateEq(x, y);
  }

  /** RanState names the records and queue a run of n units leaves. */
  lemma RanStateIs(s: seq<Process>, q: seq<nat>, f: nat, time: int, k: nat, n: int,
                   s': seq<Process>, q': seq<nat>, f': nat, time': int)
    requires k < |q| && q[k] < |s| && f <= f' && time' == time + n
    requires s' == Ticked(s, q, q[k], n, f, f', time', s[q[k]].rb == n)
    requires q' == (if s[q[k]].rb == n then WithoutNth(q + Range(f, f'), k) else q + Range(f, f'))
    ensures RanState(State(s, q, f, time), k, n, f') == State(s', q', f', time')
  {
    var x, y := RanState(State(s, q, f, time), k, n, f'), State(s', q', f', time');
    assert x.ptr == y.ptr && x.time == y.time;
    assert x.q == y.q;
    assert x.procs == y.procs;
    StateEq(x, y);
  }

  /** The tick loop's outcome is the one SliceState computes. */
  lemma SliceOutcomeIsSliceState(s: seq<Process>, q: seq<nat>, f: nat, time: int, k: nat,
                                 slice: int, s': seq<Process>, q': seq<nat>, f': nat,
                                 time': int, ticks: int)
    requires f <= |s|
    requires SliceOutcome(s, q, f, time, k, slice, s', q', f', time', ticks)
    ensures State(s', q', f', time') == SliceState(State(s, q, f, time), k, slice)
  {
    SliceOutcomeTicks(s, q, f, time, k, slice, s', q', f', time', ticks);
    var st := State(s, q, f, time);
    SliceStateIsRan(st, k, slice, ticks, f');
    RanStateIs(s, q, f, time, k, ticks, s', q', f', time');
    var x, y := State(s', q', f', time'), SliceState(st, k, slice);
    assert x.ptr == y.ptr && x.time == y.time && x.q == y.q && x.procs == y.procs;
    StateEq(x, y);
  }

  // ------------------------------------------------------------ simulator

  /** The module-level state of lottery.py: the sorted records, the ready
      queue as record indices in queue order, the index pointer (the first
      record not yet admitted) and the clock. */
  class Simulation {
    const processes: array<Process>
    var q: seq<nat>
    var indexPtr: nat
    var currentTime: int
    /** How many records the admission before the loop queued. */
    ghost var initial: nat

    ghost predicate Valid()
      reads this, processes
    {
      SimState(processes[..], q, indexPtr, currentTime, initial)
    }

    /** The state as the functional model sees it. */
    ghost function Snapshot(): State
      reads this, processes
    {
      State(processes[..], q, indexPtr, currentTime)
    }

    /** Lines 60-68: every record sharing the earliest arrival is queued, in
        order, and the clock starts at 0. */
    constructor (processes: array<Process>)
      requires SortedByArrival(processes[..])
      requires forall i :: 0 <= i < processes.Length ==> Fresh(processes[i]) && processes[i].burst >= 1
      ensures this.processes == processes && Valid()
      ensures currentTime == 0 && q == Range(0, indexPtr) && initial == indexPtr
      ensures processes.Length > 0 ==> indexPtr >= 1
      ensures forall i :: 0 <= i < indexPtr ==> processes[i].arrival == processes[0].arrival
      ensures indexPtr < processes.Length ==> processes[indexPtr].arrival > processes[0].arrival
      ensures Snapshot() == Initial(processes[..])
    {
      this.processes := processes;
      q := [];
      indexPtr := 0;
      new;
      var i := 0;
      while i < processes.Length
        invariant 0 <= indexPtr <= i <= processes.Length
        invariant q == Range(0, indexPtr)
        invariant forall j :: 0 <= j < indexPtr ==> processes[j].arrival == processes[0].arrival
        invariant forall j :: indexPtr <= j < i ==> processes[j].arrival > processes[0].arrival
      {
        if indexPtr < i {
          SortedPair(processes[..], indexPtr, i);
        }
        if processes[i].arrival == processes[0].arrival {
          q := q + [i];
          indexPtr := indexPtr + 1;
        } else {
          SortedPair(processes[..], 0, i);
        }
        i := i + 1;
      }
      currentTime := 0;
      initial := indexPtr;
      RangeMembers(0, indexPtr);
      RangeFacts(0, indexPtr);
      forall i | 0 <= i < processes.Length
        ensures RecordState(processes[..], q, indexPtr, currentTime, initial, i)
      {
      }
      if processes.Length > 0 {
        AdmittedIsAdmitEnd(processes[..], 0, indexPtr, processes[0].arrival);
      }
    }

    /** delete_nth(q, n): rotate left n, pop the head, rotate right n. */
    method DeleteNth(n: nat)
      requires n < |q|
      modifies this`q
      ensures q == old(q)[..n] + old(q)[n + 1..]
    {
      ghost var d := q;
      q := RotateLeft(q, n);
      q := q[1..];
      q := RotateRight(q, n);
      assert q == WithoutNth(d, n);
    }

    /** Lines 109-115: the winner at position k runs one unit, the clock
        advances, and every other member of the queue waits one unit. */
    method RunAndAge(k: nat)
      requires k < |q| && IndicesIn(q, processes.Length) && Distinct(q)
      modifies processes, this`currentTime
      ensures currentTime == old(currentTime) + 1
      ensures processes[..] == Ran(old(processes[..]), q, q[k], 1)
    {
      ghost var s := processes[..];
      var w := q[k];
      processes[w] := processes[w].(rb := processes[w].rb - 1);
      assert processes[..] == s[w := s[w].(rb := s[w].rb - 1)];
      currentTime := currentTime + 1;
      AgeOthers(w);
      AgedRan(s, q, w);
    }

    /** Lines 112-115: every member of the queue other than w waits one
        more unit, in queue order. */
    method AgeOthers(w: nat)
      requires IndicesIn(q, processes.Length)
      modifies processes
      ensures processes[..] == Aged(old(processes[..]), q, w)
    {
      ghost var s0 := processes[..];
      var j := 0;
      while j < |q|
        invariant 0 <= j <= |q|
        invariant processes[..] == Aged(s0, q[..j], w)
      {
        var x := q[j];
        ghost var a := Aged(s0, q[..j], w);
        assert q[..j + 1][..j] == q[..j];
        if x != w {
          processes[x] := processes[x].(wait := processes[x].wait + 1);
          assert processes[..] == a[x := a[x].(wait := a[x].wait + 1)];
        }
        j := j + 1;
      }
      assert q[..j] == q;
    }

    /** Lines 119-132: every record from the index pointer on whose arrival
        is at or before the clock gets the waiting time clock - arrival, is
        appended to the queue, and moves the pointer past it; the records
        being sorted, these are the longest such run after the pointer. */
    method Admit() returns (arrived: bool)
      requires SortedByArrival(processes[..]) && indexPtr <= processes.Length
      modifies processes, this`q, this`indexPtr
      ensures Admitted(old(processes[..]), old(indexPtr), indexPtr, currentTime)
      ensures q == old(q) + Range(old(indexPtr), indexPtr)
      ensures processes[..] == Arrive(old(processes[..]), old(indexPtr), indexPtr, currentTime)
      ensures arrived <==> indexPtr > old(indexPtr)
    {
      ghost var s0 := processes[..];
      var start := indexPtr;
      arrived := false;
      var i := start;
      while i < processes.Length
        invariant start <= indexPtr <= i <= processes.Length
        invariant q == old(q) + Range(start, indexPtr)
        invariant forall j :: start <= j < indexPtr ==> s0[j].arrival <= currentTime
        invariant forall j :: indexPtr <= j < i ==> s0[j].arrival > currentTime
        invariant forall j :: 0 <= j < processes.Length ==>
                    processes[j] == if start <= j < indexPtr then s0[j].(wait := currentTime - s0[j].arrival) else s0[j]
        invariant arrived <==> indexPtr > start
      {
        if indexPtr < i {
          SortedPair(s0, indexPtr, i);
        }
        if currentTime >= processes[i].arrival {
          processes[i] := processes[i].(wait := currentTime - processes[i].arrival);
          q := q + [i];
          indexPtr := indexPtr + 1;
          arrived := true;
        }
        i := i + 1;
      }
      assert processes[..] == Arrive(s0, start, indexPtr, currentTime);
    }

    /** Lines 135-137: the finished winner at position k gets its exit time
        and is deleted from the queue. */
    method Complete(k: nat)
      requires k < |q| && IndicesIn(q, processes.Length)
      modifies processes, this`q
      ensures processes[..] == Exited(old(processes[..]), old(q)[k], currentTime)
      ensures q == WithoutNth(old(q), k)
    {
      processes[q[k]] := processes[q[k]].(exit := currentTime);
      DeleteNth(k);
    }

    /** One tick, lines 109-138, keeps the invariant and has the outcome
        TickOutcome describes. */
    method Tick(k: nat) returns (done: bool, arrived: bool)
      requires Valid() && k < |q|
      modifies processes, this`q, this`indexPtr, this`currentTime
      ensures Valid()
      ensures TickOutcome(old(processes[..]), old(q), old(indexPtr), old(currentTime), k,
                          processes[..], q, indexPtr, currentTime, done, arrived)
    {
      ghost var s0, q0, f0, t0 := processes[..], q, indexPtr, currentTime;
      var w := q[k];
      assert w in q;
      RunAndAge(k);
      ghost var s1 := processes[..];
      SortedSameInput(s0, s1);
      arrived := Admit();
      ghost var s2, f1 := processes[..], indexPtr;
      AdmittedSameInput(s0, s1, f0, f1, currentTime);
      AppendQueue(q0, f0, f1);
      assert q[k] == w;
      done := processes[w].rb == 0;
      if done {
        Complete(k);
      }
      assert processes[..] == Ticked(s0, q0, w, 1, f0, f1, currentTime, done);
      TickKeepsState(s0, q0, f0, t0, initial, k, processes[..], q, indexPtr, currentTime, done, arrived);
    }

    /** Lines 73-82: the floor average of the members' remaining times,
        which is at least one. */
    method AverageRemaining() returns (avg: int)
      requires Valid() && q != []
      ensures avg == FloorAverage(processes[..], q)
      ensures avg >= 1
    {
      QueueQueued(processes[..], q, indexPtr, currentTime, initial);
      ghost var w := RemainingOf(processes[..], q);
      var sum := 0;
      var i := 0;
      while i < |q|
        invariant 0 <= i <= |q|
        invariant sum == Sum(w[..i])
      {
        SumStep(w, i);
        sum := sum + processes[q[i]].rb;
        i := i + 1;
      }
      assert w[..i] == w;
      avg := sum / |q|;
      FloorAverageAtLeastOne(w);
    }

    /** Lines 85-91: each member at or below the average gets
        SHORT_JOB_TICKETS and is marked short, every other member gets
        LONG_JOB_TICKETS and is marked long. */
    method AllocateTickets(avg: int)
      requires Valid()
      modifies processes
      ensures Valid()
      ensures processes[..] == Allocated(old(processes[..]), q, avg)
    {
      ghost var s0 := processes[..];
      var k := 0;
      while k < |q|
        invariant 0 <= k <= |q|
        invariant forall i :: 0 <= i < processes.Length ==>
                    processes[i] == if i in q[..k] then Allot(s0[i], avg) else s0[i]
      {
        var x := q[k];
        assert q[..k + 1] == q[..k] + [x];
        if processes[x].rb <= avg {
          processes[x] := processes[x].(tickets := SHORT_JOB_TICKETS, isShort := true);
        } else {
          processes[x] := processes[x].(tickets := LONG_JOB_TICKETS, isShort := false);
        }
        k := k + 1;
      }
      assert q[..k] == q;
      assert processes[..] == Allocated(s0, q, avg);
      AllocatedKeepsState(s0, q, indexPtr, currentTime, initial, avg);
    }

    /** Lines 94-95: the total lottery weight of the queue. */
    method TicketsInSystem() returns (total: int)
      requires IndicesIn(q, processes.Length)
      ensures total == Sum(WeightsOf(processes[..], q))
    {
      ghost var w := WeightsOf(processes[..], q);
      total := 0;
      var i := 0;
      while i < |q|
        invariant 0 <= i <= |q|
        invariant total == Sum(w[..i])
      {
        SumStep(w, i);
        total := total + processes[q[i]].tickets + processes[q[i]].wait;
        i := i + 1;
      }
      assert w[..i] == w;
    }

    /** Lines 99-105: the position of the first member whose running weight
        exceeds the winning ticket, or 0 when none does. */
    method PickWinner(winningTicket: int) returns (k: nat)
      requires IndicesIn(q, processes.Length) && q != []
      ensures k < |q|
      ensures k == Pick(WeightsOf(processes[..], q), winningTicket)
    {
      ghost var w := WeightsOf(processes[..], q);
      k := 0;
      var counter := 0;
      var i := 0;
      while i < |q|
        invariant 0 <= i <= |q|
        invariant counter == Sum(w[..i])
        invariant forall j :: 0 <= j < i ==> Upto(w, j) <= winningTicket
      {
        SumStep(w, i);
        counter := counter + processes[q[i]].tickets + processes[q[i]].wait;
        if counter > winningTicket {
          PickIs(w, winningTicket, i);
          k := i;
          return;
        }
        i := i + 1;
      }
      PickNone(w, winningTicket);
    }

    /** Tick number sec + 1 of the slice that started in the state s0, q0,
        f0, t0: it either ends the loop (on a completion or an admission,
        lines 135-141) with the slice's outcome or carries the loop on. */
    method SliceTick(ghost s0: seq<Process>, ghost q0: seq<nat>, ghost f0: nat, ghost t0: int,
                     k: nat, slice: int, sec: int) returns (stop: bool)
      requires Valid() && sec < slice
      requires SliceSoFar(s0, q0, f0, t0, k, sec, processes[..], q, indexPtr, currentTime)
      requires SortedByArrival(s0)
      modifies processes, this`q, this`indexPtr, this`currentTime
      ensures Valid()
      ensures stop ==> SliceOutcome(s0, q0, f0, t0, k, slice, processes[..], q, indexPtr, currentTime, sec + 1)
      ensures !stop ==> SliceSoFar(s0, q0, f0, t0, k, sec + 1, processes[..], q, indexPtr, currentTime)
    {
      ghost var s1, q1, f1, t1 := processes[..], q, indexPtr, currentTime;
      var done, isNewProcessArrived := Tick(k);
      SliceStep(s0, q0, f0, t0, k, slice, sec, s1, q1, f1, t1,
                processes[..], q, indexPtr, currentTime, done, isNewProcessArrived);
      stop := done || isNewProcessArrived;
    }

    /** The tick loop of lines 108-141 for the winner at position k: up to
        slice ticks, stopping after the one that completes the winner or
        admits a record. */
    method RunSlice(k: nat, slice: int) returns (ticks: int)
      requires Valid() && k < |q| && slice >= 1
      modifies processes, this`q, this`indexPtr, this`currentTime
      ensures Valid()
      ensures SliceOutcome(old(processes[..]), old(q), old(indexPtr), old(currentTime), k, slice,
                           processes[..], q, indexPtr, currentTime, ticks)
    {
      ghost var s0, q0, f0, t0 := processes[..], q, indexPtr, currentTime;
      SliceStart(s0, q0, f0, t0, initial, k);
      var sec := 0;
      var stop := false;
      while sec < slice && !stop
        invariant Valid()
        invariant 0 <= sec <= slice
        invariant !stop ==> SliceSoFar(s0, q0, f0, t0, k, sec, processes[..], q, indexPtr, currentTime)
        invariant stop ==> SliceOutcome(s0, q0, f0, t0, k, slice, processes[..], q, indexPtr, currentTime, sec)
      {
        stop := SliceTick(s0, q0, f0, t0, k, slice, sec);
        sec := sec + 1;
      }
      ticks := sec;
      if !stop {
        SliceEnd(s0, q0, f0, t0, k, slice, processes[..], q, indexPtr, currentTime);
      }
    }

    /** Lines 73-91: the floor average becomes the slice and the tickets
        are allocated against it; every member then has positive weight. */
    method Prepare() returns (avg: int)
      requires Valid() && q != []
      modifies processes
      ensures Valid()
      ensures avg == FloorAverage(old(processes[..]), q) && avg >= 1
      ensures processes[..] == Allocated(old(processes[..]), q, avg)
      ensures Positive(WeightsOf(processes[..], q))
    {
      ghost var s0 := processes[..];
      avg := AverageRemaining();
      AllocateTickets(avg);
      WeightsPositive(s0, q, indexPtr, currentTime, initial, avg);
    }

    /** Lines 94-105: with T the total weight, the draw 1 + roll % T stands
        for randint(1, T) and picks the winner's position. */
    method Draw(roll: nat) returns (k: nat)
      requires IndicesIn(q, processes.Length) && q != [] && Positive(WeightsOf(processes[..], q))
      ensures k == Drawn(WeightsOf(processes[..], q), roll)
    {
      var ticketsInSys := TicketsInSystem();
      SumAtLeastLength(WeightsOf(processes[..], q));
      var winningTicket := 1 + roll % ticketsInSys;
      k := PickWinner(winningTicket);
    }

    /** One round, lines 73-141: the slice is the floor average, tickets are
        allocated against it, the draw picks the winner's position, and the
        winner runs its slice. */
    method RunRound(roll: nat) returns (k: nat, ticks: int)
      requires Valid() && q != []
      modifies processes, this`q, this`indexPtr, this`currentTime
      ensures Valid()
      ensures IndicesIn(old(q), processes.Length) && old(q) != []
      ensures var a := Allocated(old(processes[..]), old(q), FloorAverage(old(processes[..]), old(q)));
              && Positive(WeightsOf(a, old(q)))
              && k == Drawn(WeightsOf(a, old(q)), roll)
              && SliceOutcome(a, old(q), old(indexPtr), old(currentTime), k, FloorAverage(old(processes[..]), old(q)),
                              processes[..], q, indexPtr, currentTime, ticks)
    {
      QueueBelow(q, indexPtr);
      var timeSlice := Prepare();
      k := Draw(roll);
      ticks := RunSlice(k, timeSlice);
    }

    /** A round as the main loop sees it: at least one unit of work done,
        the pointer only advances, and no record's input changes. */
    method Round(roll: nat) returns (ticks: int)
      requires Valid() && q != []
      modifies processes, this`q, this`indexPtr, this`currentTime
      ensures Valid()
      ensures ticks >= 1 && TotalRemaining(processes[..]) == old(TotalRemaining(processes[..])) - ticks
      ensures currentTime == old(currentTime) + ticks
      ensures indexPtr >= old(indexPtr)
      ensures indexPtr < processes.Length ==> processes[indexPtr].arrival > currentTime
      ensures forall i :: 0 <= i < processes.Length ==> SameInput(processes[i], old(processes[i]))
      ensures IndicesIn(old(q), processes.Length) && old(indexPtr) <= processes.Length
      ensures Positive(WeightsOf(Allocated(old(processes[..]), old(q), FloorAverage(old(processes[..]), old(q))), old(q)))
      ensures Snapshot() == RoundState(old(Snapshot()), roll)
    {
      ghost var s0, q0, f0, t0 := processes[..], q, indexPtr, currentTime;
      var k;
      k, ticks := RunRound(roll);
      ghost var avg := FloorAverage(s0, q0);
      ghost var a := Allocated(s0, q0, avg);
      ghost var s1 := processes[..];
      assert SliceOutcome(a, q0, f0, t0, k, avg, s1, q, indexPtr, currentTime, ticks);
      RoundProgress(a, q0, f0, t0, k, avg, s1, q, indexPtr, currentTime, ticks);
      AllocatedRemaining(s0, q0, avg);
      AllocatedWeights(s0, q0, avg);
      forall i | 0 <= i < processes.Length ensures SameInput(processes[i], old(processes[i])) {
        assert SameInput(s1[i], a[i]) && SameInput(a[i], s0[i]);
      }
      SliceOutcomeIsSliceState(a, q0, f0, t0, k, avg, s1, q, indexPtr, currentTime, ticks);
      assert Admitted(a, f0, indexPtr, currentTime);
    }

    /** The main loop of line 71: rounds while the queue is non-empty, round
        r drawing with rolls(r). The outcome is the one RunState computes,
        with the clock advanced by exactly the work done. */
    method Rounds(rolls: nat -> nat) returns (ticks: int, rounds: nat)
      requires Valid()
      modifies processes, this`q, this`indexPtr, this`currentTime
      ensures Valid()
      ensures ticks == old(TotalRemaining(processes[..])) - TotalRemaining(processes[..])
      ensures currentTime == old(currentTime) + ticks
      ensures Snapshot() == RunState(old(Snapshot()), initial, rolls, 0)
    {
      ghost var st0 := Snapshot();
      ticks, rounds := 0, 0;
      RemainingNonNegative(processes[..], q, indexPtr, currentTime, initial);
      while |q| != 0
        invariant Valid()
        invariant ticks + TotalRemaining(processes[..]) == TotalRemaining(st0.procs)
        invariant currentTime == st0.time + ticks
        invariant TotalRemaining(processes[..]) >= 0
        invariant RunState(Snapshot(), initial, rolls, rounds) == RunState(st0, initial, rolls, 0)
        decreases TotalRemaining(processes[..])
      {
        RunStateStep(Snapshot(), initial, rolls, rounds);
        var t := Round(rolls(rounds));
        ticks := ticks + t;
        rounds := rounds + 1;
        RemainingNonNegative(processes[..], q, indexPtr, currentTime, initial);
      }
      assert RunState(Snapshot(), initial, rolls, rounds) == Snapshot();
    }

    /** The whole loop: it stops with an empty queue even when records are
        still unadmitted, and those are left exactly as they were; after at
        least one round the record at the pointer has not arrived by the
        final clock. */
    method Run(rolls: nat -> nat) returns (ticks: int, rounds: nat)
      requires Valid()
      modifies processes, this`q, this`indexPtr, this`currentTime
      ensures Valid() && q == []
      ensures indexPtr >= old(indexPtr)
      ensures forall i :: 0 <= i < processes.Length ==> SameInput(processes[i], old(processes[i]))
      ensures forall i :: indexPtr <= i < processes.Length ==> processes[i] == old(processes[i])
      ensures ticks == old(TotalRemaining(processes[..])) - TotalRemaining(processes[..])
      ensures currentTime == old(currentTime) + ticks
      ensures old(q) != [] && indexPtr < processes.Length ==> processes[indexPtr].arrival > currentTime
      ensures Snapshot() == RunState(old(Snapshot()), initial, rolls, 0)
    {
      ghost var st0 := Snapshot();
      ticks, rounds := Rounds(rolls);
      RunStateEnd(st0, initial, rolls, Snapshot());
      forall i | 0 <= i < processes.Length ensures SameInput(processes[i], old(processes[i])) {
        RunStateRecord(st0, initial, rolls, Snapshot(), i);
      }
      forall i | indexPtr <= i < processes.Length ensures processes[i] == old(processes[i]) {
        assert RecordState(processes[..], q, indexPtr, currentTime, initial, i);
        assert RecordState(st0.procs, st0.q, st0.ptr, st0.time, initial, i);
        FreshSame(processes[i], old(processes[i]));
      }
    }

    /** Lines 147-154: the sums and maxima, from -1, of the reported
        turnarounds (burst plus wait) and of the waiting times. */
    method Metrics() returns (sumTAT: int, sumWT: int, maxTAT: int, maxWT: int)
      ensures sumTAT == Sum(ReportedTurnarounds(processes[..]))
      ensures sumWT == Sum(WaitsOf(processes[..]))
      ensures IsMaximum(maxTAT, ReportedTurnarounds(processes[..]))
      ensures IsMaximum(maxWT, WaitsOf(processes[..]))
    {
      ghost var ts, ws := ReportedTurnarounds(processes[..]), WaitsOf(processes[..]);
      sumTAT, sumWT := 0, 0;
      maxTAT, maxWT := -1, -1;
      var i := 0;
      while i < processes.Length
        invariant 0 <= i <= processes.Length
        invariant sumTAT == Sum(ts[..i]) && sumWT == Sum(ws[..i])
        invariant IsMaximum(maxTAT, ts[..i]) && IsMaximum(maxWT, ws[..i])
      {
        var p := processes[i];
        var processTAT := p.burst + p.wait;
        assert ts[i] == processTAT && ws[i] == p.wait;
        SumStep(ts, i);
        SumStep(ws, i);
        MaximumStep(maxTAT, ts, i);
        MaximumStep(maxWT, ws, i);
        sumTAT := sumTAT + processTAT;
        sumWT := sumWT + p.wait;
        if processTAT > maxTAT {
          maxTAT := processTAT;
        }
        if p.wait > maxWT {
          maxWT := p.wait;
        }
        i := i + 1;
      }
      assert ts[..i] == ts && ws[..i] == ws;
    }
  }

  /** The sorted records of a well-formed input meet the constructor's
      demands: sorted by arrival, fresh, with work to do. */
  lemma SortedInput(input: seq<(int, int)>)
    requires forall i :: 0 <= i < |input| ==> input[i].1 >= 1
    ensures |SortByArrival(Parsed(input))| == |input|
    ensures SortedByArrival(SortByArrival(Parsed(input)))
    ensures TiesInNumberOrder(SortByArrival(Parsed(input)))
    ensures forall j :: 0 <= j < |input| ==>
              Fresh(SortByArrival(Parsed(input))[j]) && SortByArrival(Parsed(input))[j].burst >= 1
  {
    var s := Parsed(input);
    var r := SortByArrival(s);
    SortFacts(s);
    ParsedFacts(input);
    SortStable(s);
    assert |r| == |multiset(r)| == |multiset(s)| == |s|;
    forall j | 0 <= j < |r| ensures Fresh(r[j]) && r[j].burst >= 1 {
      assert r[j] in multiset(r);
      assert r[j] in s;
      var m :| 0 <= m < |s| && s[m] == r[j];
    }
  }

  /** The report on the final records of a run over the records s: the
      turnarounds add up to the total burst plus the total wait, the waits
      to no less than zero, and each turnaround is at least one unit. */
  lemma ReportFacts(s: seq<Process>, final: seq<Process>, ptr: nat, time: int, initial: nat)
    requires SimState(final, [], ptr, time, initial) && |final| == |s|
    requires forall i :: 0 <= i < |s| ==> SameInput(final[i], s[i]) && s[i].burst >= 1
    ensures BurstsOf(final) == BurstsOf(s)
    ensures Sum(ReportedTurnarounds(final)) == Sum(BurstsOf(s)) + Sum(WaitsOf(final))
    ensures Sum(WaitsOf(final)) >= 0
    ensures forall i :: 0 <= i < |s| ==> WaitsOf(final)[i] >= 0 && ReportedTurnarounds(final)[i] >= 1
  {
    TurnaroundTotal(final);
    assert BurstsOf(final) == BurstsOf(s);
    FinalTurnarounds(final, ptr, time, initial);
    SumNonNegative(WaitsOf(final));
  }

  /** With the queue empty, the work done is the burst of every admitted
      record: those have completed and the rest are untouched. */
  lemma DoneWork(s: seq<Process>, ptr: nat, time: int, initial: nat)
    requires SimState(s, [], ptr, time, initial)
    ensures Sum(BurstsOf(s)) - TotalRemaining(s) == Sum(BurstsOf(s[..ptr]))
  {
    var done := seq(|s|, i requires 0 <= i < |s| => if i < ptr then s[i].burst else 0);
    forall i | 0 <= i < |s| ensures BurstsOf(s)[i] == RemainingAll(s)[i] + done[i] {
      assert RecordState(s, [], ptr, time, initial, i);
    }
    SumPointwise(RemainingAll(s), done, BurstsOf(s));
    SumZeroTail(done, ptr);
    assert done[..ptr] == BurstsOf(s[..ptr]);
  }

  /** Records with the same inputs have the same bursts. */
  lemma SameBursts(a: seq<Process>, b: seq<Process>)
    requires |a| == |b| && forall i :: 0 <= i < |a| ==> SameInput(a[i], b[i])
    ensures BurstsOf(a) == BurstsOf(b)
  {
  }

  /** On fresh records the work left is the total burst. */
  lemma FreshRemaining(s: seq<Process>)
    requires forall i :: 0 <= i < |s| ==> Fresh(s[i])
    ensures TotalRemaining(s) == Sum(BurstsOf(s))
  {
    assert RemainingAll(s) == BurstsOf(s);
  }

  /** Where the whole script leaves the records s: the queue empty, the
      invariant kept, and the record at the pointer, if any, not yet arrived
      by the final clock. */
  lemma SimulatedEnd(s: seq<Process>, rolls: nat -> nat)
    requires SortedByArrival(s) && forall i :: 0 <= i < |s| ==> Fresh(s[i]) && s[i].burst >= 1
    ensures var e := Simulated(s, rolls);
            && ValidState(e, Initial(s).ptr) && e.q == [] && |e.procs| == |s|
            && TotalRemaining(s) - TotalRemaining(e.procs) == e.time
            && (e.ptr < |e.procs| ==> e.procs[e.ptr].arrival > e.time)
  {
    InitialKeeps(s);
    var st := Initial(s);
    RangeFacts(0, st.ptr);
    RunStateEnd(st, st.ptr, rolls, Simulated(s, rolls));
  }

  /** The whole script leaves the input of record i unchanged. */
  lemma SimulatedRecord(s: seq<Process>, rolls: nat -> nat, i: int)
    requires SortedByArrival(s) && forall i :: 0 <= i < |s| ==> Fresh(s[i]) && s[i].burst >= 1
    requires 0 <= i < |s|
    ensures i < |Simulated(s, rolls).procs| && SameInput(Simulated(s, rolls).procs[i], s[i])
  {
    InitialKeeps(s);
    RunStateRecord(Initial(s), Initial(s).ptr, rolls, Simulated(s, rolls), i);
  }

  /** The final clock of the whole script is the total burst of the
      records it admitted: it never idles. */
  lemma SimulatedClock(s: seq<Process>, rolls: nat -> nat)
    requires SortedByArrival(s) && forall i :: 0 <= i < |s| ==> Fresh(s[i]) && s[i].burst >= 1
    ensures var e := Simulated(s, rolls);
            e.ptr <= |e.procs| && e.time == Sum(BurstsOf(e.procs[..e.ptr]))
  {
    var e := Simulated(s, rolls);
    SimulatedEnd(s, rolls);
    forall i | 0 <= i < |s| ensures SameInput(e.procs[i], s[i]) {
      SimulatedRecord(s, rolls, i);
    }
    DoneWork(e.procs, e.ptr, e.time, Initial(s).ptr);
    FreshRemaining(s);
    SameBursts(e.procs, s);
  }

  /** The first n records are the group sharing the earliest arrival, which
      holds at least one record when there are any. */
  predicate FirstGroup(s: seq<Process>, n: nat)
  {
    && n <= |s|
    && (|s| > 0 ==> 1 <= n)
    && (forall i :: 0 <= i < n ==> s[i].arrival == s[0].arrival)
    && (n < |s| ==> s[n].arrival > s[0].arrival)
  }

  /** A fresh array holding the records in order. */
  method ToArray(records: seq<Process>) returns (a: array<Process>)
    ensures fresh(a) && a[..] == records
  {
    a := new Process[|records|](i requires 0 <= i < |records| => records[i]);
  }

  /** Lines 47-68: the parsed records, sorted into an array, with the
      earliest-arrival group queued. */
  method Start(input: seq<(int, int)>) returns (sim: Simulation, ghost sorted: seq<Process>)
    requires forall i :: 0 <= i < |input| ==> input[i].1 >= 1
    ensures fresh(sim) && fresh(sim.processes) && sim.Valid()
    ensures sim.processes[..] == sorted
    ensures multiset(sorted) == multiset(Parsed(input))
    ensures SortedByArrival(sorted) && TiesInNumberOrder(sorted)
    ensures forall i :: 0 <= i < |sorted| ==> Fresh(sorted[i]) && sorted[i].burst >= 1
    ensures FirstGroup(sorted, sim.initial)
    ensures sim.Snapshot() == Initial(sorted) && sim.initial == Initial(sorted).ptr
    ensures Sum(BurstsOf(sorted)) == Sum(BurstsOf(Parsed(input)))
  {
    var records := SortByArrival(Parsed(input));
    sorted := records;
    SortedInput(input);
    SortFacts(Parsed(input));
    SortKeepsBursts(Parsed(input));
    var processes := ToArray(records);
    sim := new Simulation(processes);
    assert FirstGroup(processes[..], sim.initial);
  }

  /** The whole script on already-parsed lines, lines 47-154: the records
      are numbered and sorted, the earliest group is queued, rounds run
      until the queue is empty, round r drawing with rolls(r), and the
      report is taken. The ghost outputs are the sorted records and the
      records the loop leaves: the sorted records are the parsed ones in
      stable arrival order, the final records keep their inputs and satisfy
      the loop invariant with an empty queue, and the report is the sums and
      maxima over them. From those, the reported turnarounds add up to the
      total burst plus the total waiting time, no waiting time is negative,
      and with at least one record the maxima are real values, not the -1
      they start from. */
  method Simulate(input: seq<(int, int)>, rolls: nat -> nat)
    returns (sumTAT: int, sumWT: int, maxTAT: int, maxWT: int,
             ghost sorted: seq<Process>, ghost final: seq<Process>,
             ghost ptr: nat, ghost time: int, ghost initial: nat)
    requires forall i :: 0 <= i < |input| ==> input[i].1 >= 1
    ensures multiset(sorted) == multiset(Parsed(input))
    ensures SortedByArrival(sorted) && TiesInNumberOrder(sorted)
    ensures forall i :: 0 <= i < |sorted| ==> Fresh(sorted[i]) && sorted[i].burst >= 1
    ensures State(final, [], ptr, time) == Simulated(sorted, rolls)
    ensures |final| == |sorted| && forall i :: 0 <= i < |final| ==> SameInput(final[i], sorted[i])
    ensures SimState(final, [], ptr, time, initial)
    ensures FirstGroup(sorted, initial)
    ensures sumTAT == Sum(ReportedTurnarounds(final)) && sumWT == Sum(WaitsOf(final))
    ensures IsMaximum(maxTAT, ReportedTurnarounds(final)) && IsMaximum(maxWT, WaitsOf(final))
    ensures sumTAT == Sum(BurstsOf(Parsed(input))) + sumWT
    ensures sumWT >= 0
    ensures |input| > 0 ==> maxTAT >= 1 && maxWT >= 0
    ensures time == Sum(BurstsOf(final[..ptr]))
    ensures ptr < |final| ==> final[ptr].arrival > time
  {
    var sim;
    sim, sorted := Start(input);
    var processes := sim.processes;
    initial := sim.initial;
    var ticks, rounds := sim.Run(rolls);
    sumTAT, sumWT, maxTAT, maxWT := sim.Metrics();
    final, ptr, time := processes[..], sim.indexPtr, sim.currentTime;
    assert State(final, [], ptr, time) == sim.Snapshot() == Simulated(sorted, rolls);
    SimulatedEnd(sorted, rolls);
    SimulatedClock(sorted, rolls);
    forall i | 0 <= i < |sorted| ensures SameInput(final[i], sorted[i]) {
      SimulatedRecord(sorted, rolls, i);
    }
    ReportFacts(sorted, final, ptr, time, initial);
    if |input| > 0 {
      assert ReportedTurnarounds(final)[0] <= maxTAT && WaitsOf(final)[0] <= maxWT;
    }
  }

  /** One record arriving at 2 with a burst of 4. */
  function LoneInput(): seq<Process>
  {
    [NewProcess(1, 2, 4)]
  }

  /** The same record after the whole script: short, ten tickets, no work
      left, exit 4, no wait. */
  function LoneOutput(): seq<Process>
  {
    [NewProcess(1, 2, 4).(rb := 0, exit := 4, tickets := SHORT_JOB_TICKETS, isShort := true)]
  }

  /** The lone record is queued before the loop with the clock still at 0:
      the clock does not jump to the first arrival. */
  lemma LoneStart()
    ensures Initial(LoneInput()) == State(LoneInput(), [0], 1, 0)
  {
    assert AdmitEnd(LoneInput(), 1, 2) == 1;
    assert Range(0, 1) == [0];
  }

  /** Allotted ten tickets, the lone record runs to completion in one slice
      of four units, from clock 0 to clock 4, with no wait. */
  lemma LoneSlice(a: Process)
    requires a == NewProcess(1, 2, 4).(tickets := SHORT_JOB_TICKETS, isShort := true)
    ensures SliceState(State([a], [0], 1, 0), 0, 4) == State(LoneOutput(), [], 1, 4)
  {
    var st := State([a], [0], 1, 0);
    assert SliceTicks(st, 0, 4) == 4;
    assert AdmitEnd([a], 1, 4) == 1;
    assert Range(1, 1) == [] && WithoutNth([0], 0) == [];
    assert Ticked([a], [0], 0, 4, 1, 1, 4, true) == LoneOutput();
  }

  /** The whole script on the lone record: it exits at 4 with no wait, so
      the reported turnaround (burst plus wait) is 4 and the final clock 4. */
  lemma LoneRecord(rolls: nat -> nat)
    ensures Simulated(LoneInput(), rolls) == State(LoneOutput(), [], 1, 4)
    ensures |LoneOutput()| == 1 && LoneOutput()[0].exit == 4
    ensures ReportedTurnarounds(LoneOutput())[0] == 4 && WaitsOf(LoneOutput())[0] == 0
  {
    var s := LoneInput();
    LoneStart();
    InitialKeeps(s);
    var st := Initial(s);
    assert RemainingOf(s, [0]) == [4];
    var a := NewProcess(1, 2, 4).(tickets := SHORT_JOB_TICKETS, isShort := true);
    assert Allocated(s, [0], 4) == [a];
    assert WeightsOf([a], [0]) == [SHORT_JOB_TICKETS];
    assert Drawn([SHORT_JOB_TICKETS], rolls(0)) == 0;
    LoneSlice(a);
    var e := RoundState(st, rolls(0));
    assert e == State(LoneOutput(), [], 1, 4);
    RunStateStep(st, 1, rolls, 0);
    assert RunState(e, 1, rolls, 1) == e;
  }

  /** Two records, the second arriving at 5, long after the first (burst 1)
      has finished. */
  function LateSecond(): seq<Process>
  {
    [NewProcess(1, 0, 1), NewProcess(2, 5, 1)]
  }

  /** The loop of line 71 has no idle handling: from the state before the
      loop, the first tick completes the first record at time 1 and empties
      the queue, and the second record is never admitted. */
  lemma StopsWithArrivalPending(s': seq<Process>, q': seq<nat>, f': nat, t': int, done: bool, arrived: bool)
    requires TickOutcome(LateSecond(), [0], 1, 0, 0, s', q', f', t', done, arrived)
    ensures SimState(LateSecond(), [0], 1, 0, 1)
    ensures done && !arrived && q' == [] && f' == 1 < |LateSecond()|
  {
    var s := LateSecond();
    assert RecordState(s, [0], 1, 0, 1, 0) && RecordState(s, [0], 1, 0, 1, 1);
    assert Range(1, 1) == [];
    assert WithoutNth([0], 0) == [];
  }
}

/** The adaptive lottery scheduler of assignment.c: records sorted by arrival,
    a ready queue of record indices, tickets from the floor average of the
    remaining times, a cumulative-scan draw, and a round loop whose time slice
    is that average. */
module Adaptive {
  import opened Tickets
  import opened Queues

  /** One process record; fields other than num, arrival and burst are the
      simulation's outputs, -1 until they are set. */
  datatype Job = Job(num: int, arrival: int, burst: int, remaining: int,
                     wait: int, exit: int, turnaround: int,
                     tickets: int, shortJob: int)

  /** A record as the parser leaves it. */
  function NewJob(num: int, arrival: int, burst: int): Job
  {
    Job(num, arrival, burst, burst, -1, -1, -1, -1, -1)
  }

  // ---------------------------------------------------------------- sorting

  predicate SortedByArrival(s: seq<Job>)
  {
    forall i, j :: 0 <= i < j < |s| ==> s[i].arrival <= s[j].arrival
  }

  /** Record numbers increase along the sequence, as the parser numbers them. */
  predicate NumberedInOrder(s: seq<Job>)
  {
    forall i, j :: 0 <= i < j < |s| ==> s[i].num < s[j].num
  }

  /** Records with equal arrival appear in increasing record number. */
  predicate TiesInNumberOrder(s: seq<Job>)
  {
    forall i, j :: 0 <= i < j < |s| && s[i].arrival == s[j].arrival ==> s[i].num < s[j].num
  }

  /** The records at positions lo .. hi - 1 are in arrival order. */
  predicate SortedBetween(s: seq<Job>, lo: int, hi: int)
    requires 0 <= lo && hi <= |s|
  {
    forall i, j :: lo <= i < j < hi ==> s[i].arrival <= s[j].arrival
  }

  /** Insertion sort by arrival time, swapping neighbours on strict less-than
      only; stable, so records with equal arrival keep their input order. */
  method SortProcesses(a: array<Job>)
    modifies a
    ensures SortedByArrival(a[..])
    ensures multiset(a[..]) == multiset(old(a[..]))
    ensures NumberedInOrder(old(a[..])) ==> TiesInNumberOrder(a[..])
  {
    var n := a.Length;
    var ci := 1;
    while ci < n
      invariant 1 <= ci && (n == 0 || ci <= n)
      invariant n > 0 ==> SortedBetween(a[..], 0, ci)
      invariant multiset(a[..]) == multiset(old(a[..]))
      invariant NumberedInOrder(old(a[..])) ==> TiesInNumberOrder(a[..])
    {
      SinkFrom(a, ci);
      ci := ci + 1;
    }
  }

  /** The inner loop of the insertion sort: the record at ci moves down past
      every earlier record with a strictly later arrival. */
  method SinkFrom(a: array<Job>, ci: nat)
    requires 0 < ci < a.Length && SortedBetween(a[..], 0, ci)
    modifies a
    ensures SortedBetween(a[..], 0, ci + 1)
    ensures multiset(a[..]) == multiset(old(a[..]))
    ensures TiesInNumberOrder(old(a[..])) ==> TiesInNumberOrder(a[..])
    ensures a[ci + 1..] == old(a[ci + 1..])
  {
    var c := ci;
    while c > 0
      invariant 0 <= c <= ci
      invariant SinkInvariant(a[..], c, ci)
      invariant multiset(a[..]) == multiset(old(a[..]))
      invariant TiesInNumberOrder(old(a[..])) ==> TiesInNumberOrder(a[..])
      invariant a[ci + 1..] == old(a[ci + 1..])
    {
      CompareAndSwap(a, c, ci);
      c := c - 1;
    }
  }

  /** One step of the inner loop: exchange the records at c - 1 and c when
      the later one arrives strictly earlier. */
  method CompareAndSwap(a: array<Job>, c: nat, ci: nat)
    requires 0 < c && SinkInvariant(a[..], c, ci) && ci < a.Length
    modifies a
    ensures a[..] == if old(a[c].arrival < a[c - 1].arrival) then Swapped(old(a[..]), c) else old(a[..])
    ensures a[ci + 1..] == old(a[ci + 1..])
    ensures SinkInvariant(a[..], c - 1, ci)
    ensures multiset(a[..]) == multiset(old(a[..]))
    ensures TiesInNumberOrder(old(a[..])) ==> TiesInNumberOrder(a[..])
  {
    ghost var before := a[..];
    if a[c].arrival < a[c - 1].arrival {
      a[c], a[c - 1] := a[c - 1], a[c];
      assert a[..] == Swapped(before, c);
      SwapKeepsTies(before, c);
    }
    SinkStep(before, c, ci);
  }

  /** s with neighbours c - 1 and c exchanged. */
  function Swapped(s: seq<Job>, c: nat): (t: seq<Job>)
    requires 0 < c < |s|
    ensures |t| == |s| && t[c - 1] == s[c] && t[c] == s[c - 1]
    ensures forall i :: 0 <= i < |s| && i != c - 1 && i != c ==> t[i] == s[i]
  {
    s[c - 1 := s[c]][c := s[c - 1]]
  }

  /** Midway through sinking the record that started at ci, now at c: the
      records below c and those from c to ci are each in order, and each
      record below c arrives no later than any beyond c. */
  predicate SinkInvariant(s: seq<Job>, c: nat, ci: nat)
  {
    && c <= ci < |s|
    && SortedBetween(s, 0, c)
    && SortedBetween(s, c, ci + 1)
    && (forall i, j :: 0 <= i < c < j <= ci ==> s[i].arrival <= s[j].arrival)
  }

  /** One comparison of the inner loop, swapping on strict less-than only,
      moves the sinking record one place down and keeps SinkInvariant. */
  lemma SinkStep(s: seq<Job>, c: nat, ci: nat)
    requires 0 < c && SinkInvariant(s, c, ci)
    ensures SinkInvariant(if s[c].arrival < s[c - 1].arrival then Swapped(s, c) else s, c - 1, ci)
  {
    if s[c].arrival < s[c - 1].arrival {
      var t := Swapped(s, c);
      forall i, j | c - 1 <= i < j <= ci ensures t[i].arrival <= t[j].arrival {
        if i == c - 1 && j > c { assert s[c - 1].arrival <= s[j].arrival; }
      }
      forall i, j | 0 <= i < c - 1 < j <= ci ensures t[i].arrival <= t[j].arrival {
        if j == c { assert s[i].arrival <= s[c - 1].arrival; }
      }
    } else {
      forall i, j | 0 <= i < c - 1 < j <= ci ensures s[i].arrival <= s[j].arrival {
        assert s[i].arrival <= s[c - 1].arrival;
      }
    }
  }

  /** Exchanging neighbours with different arrivals keeps equal-arrival
      records in their order. */
  lemma SwapKeepsTies(s: seq<Job>, c: nat)
    requires 0 < c < |s| && s[c].arrival != s[c - 1].arrival
    ensures TiesInNumberOrder(s) ==> TiesInNumberOrder(Swapped(s, c))
    ensures multiset(Swapped(s, c)) == multiset(s)
  {
    var t := Swapped(s, c);
    if TiesInNumberOrder(s) {
      forall i, j | 0 <= i < j < |t| && t[i].arrival == t[j].arrival
        ensures t[i].num < t[j].num
      {
        var i' := if i == c - 1 then c else if i == c then c - 1 else i;
        var j' := if j == c - 1 then c else if j == c then c - 1 else j;
        assert t[i] == s[i'] && t[j] == s[j'];
      }
    }
  }

  // ------------------------------------------------- queue views and sums

  function RemainingOf(s: seq<Job>, q: seq<nat>): seq<int>
    requires IndicesIn(q, |s|)
  {
    seq(|q|, k requires 0 <= k < |q| => s[q[k]].remaining)
  }

  function TicketsOf(s: seq<Job>, q: seq<nat>): seq<int>
    requires IndicesIn(q, |s|)
  {
    seq(|q|, k requires 0 <= k < |q| => s[q[k]].tickets)
  }

  /** Length of the queue as the source counts it: the walk stops at the
      first member whose remaining time is not positive. */
  function LengthQueue(s: seq<Job>, q: seq<nat>): (len: nat)
    requires IndicesIn(q, |s|)
    ensures len <= |q|
    ensures forall k :: 0 <= k < len ==> s[q[k]].remaining > 0
    ensures len < |q| ==> s[q[len]].remaining <= 0
  {
    if q == [] || s[q[0]].remaining <= 0 then 0
    else 1 + LengthQueue(s, q[1..])
  }

  /** The floor average of the remaining times over the queue. */
  function FloorAverage(s: seq<Job>, q: seq<nat>): int
    requires IndicesIn(q, |s|) && q != []
  {
    Sum(RemainingOf(s, q)) / |q|
  }

  /** The tickets each queue member holds once the round's allocation is made. */
  function Allocation(s: seq<Job>, q: seq<nat>): seq<int>
    requires IndicesIn(q, |s|) && q != []
  {
    seq(|q|, k requires 0 <= k < |q| => TicketFor(s[q[k]].remaining, FloorAverage(s, q)))
  }

  /** A record after allocation against average avg: at or below the average
      it is a short job with SHORT_JOB_TICKETS, above it a long job with
      LONG_JOB_TICKETS. */
  function Allot(j: Job, avg: int): Job
  {
    j.(tickets := TicketFor(j.remaining, avg), shortJob := if j.remaining <= avg then 1 else 0)
  }

  /** The records after allocateTickets: every queue member allotted, every
      other record as it was. */
  function Allocated(s: seq<Job>, q: seq<nat>, avg: int): (r: seq<Job>)
    ensures |r| == |s|
  {
    seq(|s|, i requires 0 <= i < |s| => if i in q then Allot(s[i], avg) else s[i])
  }

  /** Allocating against the floor average hands every member the tickets of
      Allocation, and touches no timing field. */
  lemma AllocatedTickets(s: seq<Job>, q: seq<nat>)
    requires IndicesIn(q, |s|) && q != []
    ensures TicketsOf(Allocated(s, q, FloorAverage(s, q)), q) == Allocation(s, q)
    ensures forall i :: 0 <= i < |s| ==> SameTiming(Allocated(s, q, FloorAverage(s, q))[i], s[i])
  {
    var r := Allocated(s, q, FloorAverage(s, q));
    forall k | 0 <= k < |q| ensures TicketsOf(r, q)[k] == Allocation(s, q)[k] {
      assert q[k] in q;
    }
  }

  /** getTotalTickets: the ticket count summed from the head. */
  function TotalTickets(s: seq<Job>, q: seq<nat>): (t: int)
    requires IndicesIn(q, |s|)
    ensures t == Sum(TicketsOf(s, q))
  {
    if q == [] then 0
    else
      var rest := TotalTickets(s, q[1..]);
      assert TicketsOf(s, q) == [s[q[0]].tickets] + TicketsOf(s, q[1..]);
      SumCons(s[q[0]].tickets, TicketsOf(s, q[1..]));
      s[q[0]].tickets + rest
  }

  /** Sum of remaining times over every record. */
  function TotalRemaining(s: seq<Job>): int
  {
    if s == [] then 0 else TotalRemaining(s[..|s| - 1]) + s[|s| - 1].remaining
  }

  function TotalBurst(s: seq<Job>): int
  {
    if s == [] then 0 else TotalBurst(s[..|s| - 1]) + s[|s| - 1].burst
  }

  lemma {:induction false} TotalRemainingChange(s: seq<Job>, s': seq<Job>, w: nat)
    requires |s| == |s'| && w < |s|
    requires forall i :: 0 <= i < |s| && i != w ==> s'[i].remaining == s[i].remaining
    ensures TotalRemaining(s') - TotalRemaining(s) == s'[w].remaining - s[w].remaining
  {
    if w < |s| - 1 {
      TotalRemainingChange(s[..|s| - 1], s'[..|s| - 1], w);
    } else {
      assert s[..|s| - 1] == s[..w];
      TotalRemainingSame(s[..w], s'[..w]);
    }
  }

  lemma {:induction false} TotalRemainingSame(s: seq<Job>, s': seq<Job>)
    requires |s| == |s'| && forall i :: 0 <= i < |s| ==> s'[i].remaining == s[i].remaining
    ensures TotalRemaining(s') == TotalRemaining(s)
  {
    if s != [] {
      TotalRemainingSame(s[..|s| - 1], s'[..|s| - 1]);
    }
  }

  lemma {:induction false} TotalRemainingNonNegative(s: seq<Job>)
    requires forall i :: 0 <= i < |s| ==> s[i].remaining >= 0
    ensures TotalRemaining(s) >= 0
  {
    if s != [] {
      TotalRemainingNonNegative(s[..|s| - 1]);
    }
  }

  lemma {:induction false} TotalRemainingNone(s: seq<Job>)
    requires forall i :: 0 <= i < |s| ==> Finished(s[i])
    ensures TotalRemaining(s) == 0
  {
    if s != [] {
      TotalRemainingNone(s[..|s| - 1]);
    }
  }

  /** Fresh records still carry their whole burst, so the remaining work of a
      batch that has not started is its total burst. */
  lemma {:induction false} UntouchedRemainingIsBurst(s: seq<Job>)
    requires forall i :: 0 <= i < |s| ==> s[i].remaining == s[i].burst
    ensures TotalRemaining(s) == TotalBurst(s)
  {
    if s != [] {
      UntouchedRemainingIsBurst(s[..|s| - 1]);
    }
  }

  // ------------------------------------------------------ record states

  /** Not yet admitted. */
  predicate Unstarted(j: Job)
  {
    j.burst >= 1 && j.remaining == j.burst && j.exit == -1 && j.turnaround == -1 && j.wait == -1
  }

  /** In the ready queue at time clock: it has run for at most the time since
      its arrival and has work left. */
  predicate Running(j: Job, clock: int)
  {
    1 <= j.remaining <= j.burst && j.arrival + (j.burst - j.remaining) <= clock
    && j.exit == -1 && j.turnaround == -1 && j.wait == -1
  }

  /** Completed: exit, turnaround and waiting time are fixed. */
  predicate Finished(j: Job)
  {
    j.remaining == 0 && j.exit >= j.arrival + j.burst
    && j.turnaround == j.exit - j.arrival && j.wait == j.turnaround - j.burst
  }

  /** Equal in everything but the round's ticket fields. */
  predicate SameTiming(a: Job, b: Job)
  {
    a.num == b.num && a.arrival == b.arrival && a.burst == b.burst
    && a.remaining == b.remaining && a.wait == b.wait && a.exit == b.exit
    && a.turnaround == b.turnaround
  }

  predicate SameInput(a: Job, b: Job)
  {
    a.num == b.num && a.arrival == b.arrival && a.burst == b.burst
  }

  /** First position of p in q. */
  function FirstIndex(q: seq<nat>, p: nat): (k: nat)
    requires p in q
    ensures k < |q| && q[k] == p
    ensures forall j :: 0 <= j < k ==> q[j] != p
  {
    if q[0] == p then 0 else 1 + FirstIndex(q[1..], p)
  }

  /** Under the queue invariant the source's length walk sees the whole queue. */
  lemma {:induction false} LengthQueueWhole(s: seq<Job>, q: seq<nat>)
    requires IndicesIn(q, |s|)
    requires forall k :: 0 <= k < |q| ==> s[q[k]].remaining >= 1
    ensures LengthQueue(s, q) == |q|
  {
    if q != [] {
      LengthQueueWhole(s, q[1..]);
    }
  }

  /** After allocation every member holds at least one ticket. */
  lemma AllocationPositive(s: seq<Job>, q: seq<nat>)
    requires IndicesIn(q, |s|) && q != []
    ensures Positive(Allocation(s, q))
    ensures forall k :: 0 <= k < |q| ==>
              (Allocation(s, q)[k] == SHORT_JOB_TICKETS <==> s[q[k]].remaining <= FloorAverage(s, q))
  {
  }

  /** The queue is never all long jobs: some member is at or below the floor
      average and so holds the short-job tickets. */
  lemma SomeShortJob(s: seq<Job>, q: seq<nat>)
    requires IndicesIn(q, |s|) && q != []
    ensures exists k :: 0 <= k < |q| && Allocation(s, q)[k] == SHORT_JOB_TICKETS
  {
    var r := RemainingOf(s, q);
    SomeAtOrBelowFloorAverage(r);
    var k :| 0 <= k < |r| && r[k] <= Sum(r) / |r|;
    assert Allocation(s, q)[k] == SHORT_JOB_TICKETS;
  }

  // ------------------------------------------------------- simulation state

  /** Where record i stands: not yet admitted, queued, or completed. */
  predicate RecordState(s: seq<Job>, q: seq<nat>, feed: nat, clock: int, i: nat)
    requires i < |s|
  {
    if feed <= i then Unstarted(s[i])
    else if i in q then Running(s[i], clock)
    else Finished(s[i])
  }

  /** The invariant of main's loop: the records stay sorted, the queue holds
      distinct admitted records, each record is in exactly one of the three
      states, and the next unadmitted record has not arrived before clock. */
  predicate SimState(s: seq<Job>, q: seq<nat>, feed: nat, clock: int)
  {
    && SortedByArrival(s)
    && feed <= |s|
    && IndicesIn(q, feed)
    && Distinct(q)
    && (forall i :: 0 <= i < |s| ==> RecordState(s, q, feed, clock, i))
    && (feed < |s| ==> s[feed].arrival >= clock)
  }

  lemma QueueRunning(s: seq<Job>, q: seq<nat>, feed: nat, clock: int)
    requires SimState(s, q, feed, clock)
    ensures forall k :: 0 <= k < |q| ==> Running(s[q[k]], clock)
  {
    forall k | 0 <= k < |q| ensures Running(s[q[k]], clock) {
      assert RecordState(s, q, feed, clock, q[k]);
    }
  }

  lemma RemainingNonNegative(s: seq<Job>, q: seq<nat>, feed: nat, clock: int)
    requires SimState(s, q, feed, clock)
    ensures forall i :: 0 <= i < |s| ==> s[i].remaining >= 0
  {
    forall i | 0 <= i < |s| ensures s[i].remaining >= 0 {
      assert RecordState(s, q, feed, clock, i);
    }
  }

  /** Rewriting only the ticket fields keeps the invariant. */
  lemma SameTimingKeepsState(s: seq<Job>, s': seq<Job>, q: seq<nat>, feed: nat, clock: int)
    requires SimState(s, q, feed, clock)
    requires |s'| == |s| && forall i :: 0 <= i < |s| ==> SameTiming(s'[i], s[i])
    ensures SimState(s', q, feed, clock)
  {
    forall i | 0 <= i < |s| ensures RecordState(s', q, feed, clock, i) {
      assert RecordState(s, q, feed, clock, i);
    }
  }

  lemma {:induction false} WithoutMembers(q: seq<nat>, p: nat)
    requires Distinct(q)
    ensures forall x :: x in Without(q, p) <==> x in q && x != p
    ensures Distinct(Without(q, p))
  {
    if q != [] {
      var t := q[1..];
      assert q == [q[0]] + t;
      assert Distinct(t) by {
        forall a, b | 0 <= a < b < |t| ensures t[a] != t[b] {
          assert t[a] == q[a + 1] && t[b] == q[b + 1];
        }
      }
      assert q[0] !in t by {
        forall j | 0 <= j < |t| ensures t[j] != q[0] {
          assert t[j] == q[j + 1];
        }
      }
      WithoutMembers(t, p);
      if q[0] != p {
        DistinctCons(q[0], Without(t, p));
      }
    }
  }

  /** Updating a record without touching its arrival keeps the order. */
  lemma SortedAfterUpdate(s: seq<Job>, w: nat, s': seq<Job>)
    requires SortedByArrival(s) && w < |s| == |s'|
    requires s' == s[w := s'[w]] && s'[w].arrival == s[w].arrival
    ensures SortedByArrival(s')
  {
    forall i, j | 0 <= i < j < |s'| ensures s'[i].arrival <= s'[j].arrival {
      assert s[i].arrival <= s[j].arrival;
    }
  }

  /** In sorted records, once one record arrives after the clock so do all
      later ones. */
  lemma LaterArrivals(s: seq<Job>, f: nat, clock: int)
    requires SortedByArrival(s) && f < |s| && s[f].arrival > clock
    ensures forall j :: f <= j < |s| ==> s[j].arrival > clock
  {
  }

  /** Removing a queued member commutes with appending arrivals. */
  lemma WithoutAppend(q: seq<nat>, r: seq<nat>, p: nat)
    requires p in q
    ensures Without(q + r, p) == Without(q, p) + r
  {
    WithoutFirst(q, p);
    WithoutFirst(q + r, p);
    var k := FirstIndex(q, p);
    assert (q + r)[k] == p;
    assert FirstIndex(q + r, p) == k;
    assert (q + r)[..k] == q[..k];
    assert (q + r)[k + 1..] == q[k + 1..] + r;
  }

  /** A running record after n more units of work, the last ending at time
      t: it loses n units of remaining time, and when none is left it is
      completed at t, with turnaround t - arrival and waiting time turnaround
      - burst. */
  function Worked(j: Job, t: int, n: int): Job
  {
    if j.remaining == n then
      j.(remaining := 0, exit := t, turnaround := t - j.arrival, wait := t - j.arrival - j.burst)
    else
      j.(remaining := j.remaining - n)
  }

  /** One more unit on top of n units is n + 1 units. */
  lemma WorkedStep(j: Job, t: int, n: nat)
    requires j.remaining > n
    ensures Worked(j.(remaining := j.remaining - n), t, 1) == Worked(j, t, n + 1)
  {
  }

  /** The queue after a tick: members stay distinct and admitted. */
  lemma TickQueue(q: seq<nat>, feed: nat, w: nat, feed': nat, removed: bool, q': seq<nat>)
    requires IndicesIn(q, feed) && Distinct(q) && feed <= feed'
    requires q' == (if removed then Without(q, w) else q) + Range(feed, feed')
    ensures IndicesIn(q', feed') && Distinct(q')
    ensures forall x :: x in q' <==> (x in q && !(removed && x == w)) || feed <= x < feed'
  {
    RangeMembers(feed, feed');
    WithoutMembers(q, w);
    var kept := if removed then Without(q, w) else q;
    assert forall x :: x in kept ==> x < feed by {
      forall x | x in kept ensures x < feed {
        var k :| 0 <= k < |q| && q[k] == x;
      }
    }
    DistinctAppend(kept, Range(feed, feed'), feed);
    forall k | 0 <= k < |q'| ensures q'[k] < feed' {
      assert q'[k] in q';
    }
  }

  /** The records after a tick: each is still in the state its membership
      says. */
  lemma TickRecords(s: seq<Job>, q: seq<nat>, feed: nat, clock: int, w: nat,
                    feed': nat, s': seq<Job>, q': seq<nat>, t: int)
    requires SimState(s, q, feed, clock) && w in q && t == clock + 1
    requires feed <= feed' <= |s|
    requires forall i :: feed <= i < feed' ==> s[i].arrival <= clock + 1
    requires s' == s[w := Worked(s[w], clock + 1, 1)]
    requires forall x :: x in q' <==> (x in q && !(s[w].remaining == 1 && x == w)) || feed <= x < feed'
    ensures forall i :: 0 <= i < |s'| ==> RecordState(s', q', feed', t, i)
  {
    assert Running(s[w], clock) by { assert RecordState(s, q, feed, clock, w); }
    forall i | 0 <= i < |s| ensures RecordState(s', q', feed', t, i) {
      assert RecordState(s, q, feed, clock, i);
    }
  }

  /** The records from f0 up to f1 have arrived by time t, and the record
      at f1, if any, has not. */
  predicate Admitted(s: seq<Job>, f0: nat, f1: nat, t: int)
  {
    && f0 <= f1 <= |s|
    && (forall i :: f0 <= i < f1 ==> s[i].arrival <= t)
    && (f1 < |s| ==> s[f1].arrival > t)
  }

  lemma AdmittedUpdate(s: seq<Job>, w: nat, j: Job, f0: nat, f1: nat, t: int)
    requires Admitted(s, f0, f1, t) && w < |s| && j.arrival == s[w].arrival
    ensures Admitted(s[w := j], f0, f1, t)
  {
  }

  /** A tick takes exactly one unit off the total remaining work. */
  lemma TotalRemainingTicked(s: seq<Job>, q: seq<nat>, feed: nat, clock: int, w: nat)
    requires SimState(s, q, feed, clock) && w in q
    ensures TotalRemaining(s[w := Worked(s[w], clock + 1, 1)]) == TotalRemaining(s) - 1
  {
    assert RecordState(s, q, feed, clock, w);
    TotalRemainingChange(s, s[w := Worked(s[w], clock + 1, 1)], w);
  }

  /** One tick keeps the invariant: the winner has run one more unit (and, if
      it is out of work, is completed and removed), the clock has advanced,
      and the records admitted are those of the feed that have arrived. */
  lemma TickKeepsState(s: seq<Job>, q: seq<nat>, feed: nat, clock: int, w: nat,
                       feed': nat, s': seq<Job>, q': seq<nat>)
    requires SimState(s, q, feed, clock) && w in q
    requires s' == s[w := Worked(s[w], clock + 1, 1)]
    requires Admitted(s', feed, feed', clock + 1)
    requires q' == (if s[w].remaining == 1 then Without(q, w) else q) + Range(feed, feed')
    ensures SimState(s', q', feed', clock + 1)
  {
    assert forall i :: feed <= i < feed' ==> s[i].arrival <= clock + 1 by {
      forall i | feed <= i < feed' ensures s[i].arrival <= clock + 1 {
        assert s'[i].arrival == s[i].arrival;
      }
    }
    TickQueue(q, feed, w, feed', s[w].remaining == 1, q');
    TickRecords(s, q, feed, clock, w, feed', s', q', clock + 1);
    SortedAfterUpdate(s, w, s');
  }

  /** The drain step keeps the invariant: into an empty queue goes the next
      record, with the clock moved to its arrival. */
  lemma DrainKeepsState(s: seq<Job>, feed: nat, clock: int)
    requires SimState(s, [], feed, clock) && feed < |s|
    ensures SimState(s, [feed], feed + 1, s[feed].arrival)
  {
    var f', c' := feed + 1, s[feed].arrival;
    forall i | 0 <= i < |s| ensures RecordState(s, [feed], f', c', i) {
      assert RecordState(s, [], feed, clock, i);
    }
  }

  /** How the tick loop of a round ends, from the records s, queue q, feed
      cursor and clock at its start, for winner w and the given slice: the
      winner has run ticks units, between one and the slice, and has been
      completed if its work ran out; the records admitted have arrived, and
      after more than one tick arrived at the clock itself; the queue lost
      the completed winner and gained the admitted records at its tail; and
      a round cut short ended on a completion or an admission. */
  predicate SliceOutcome(s: seq<Job>, q: seq<nat>, feed: nat, clock: int, w: nat, slice: int,
                         s': seq<Job>, q': seq<nat>, feed': nat, clock': int, ticks: int)
  {
    && w < |s| == |s'|
    && 1 <= ticks <= slice && ticks <= s[w].remaining
    && clock' == clock + ticks
    && s' == s[w := Worked(s[w], clock', ticks)]
    && Admitted(s', feed, feed', clock')
    && (ticks > 1 ==> forall i :: feed <= i < feed' ==> s'[i].arrival == clock')
    && q' == (if s'[w].remaining == 0 then Without(q, w) else q) + Range(feed, feed')
    && (ticks < slice ==> s'[w].remaining == 0 || feed' > feed)
  }

  /** What one call of Tick did, from records s, queue q, feed cursor and
      clock to s', q', feed' and clock'. */
  predicate TickOutcome(s: seq<Job>, q: seq<nat>, feed: nat, clock: int, w: nat,
                        s': seq<Job>, q': seq<nat>, feed': nat, clock': int, done: bool, arrived: bool)
  {
    && w < |s|
    && clock' == clock + 1
    && s' == s[w := Worked(s[w], clock', 1)]
    && Admitted(s', feed, feed', clock')
    && (arrived <==> feed' > feed)
    && (done <==> s[w].remaining == 1)
    && q' == (if done then Without(q, w) else q) + Range(feed, feed')
  }

  /** Midway through the tick loop after sec ticks that neither completed
      the winner nor admitted a record. */
  predicate SliceSoFar(s: seq<Job>, q: seq<nat>, feed: nat, clock: int, w: nat, sec: int,
                       s': seq<Job>, q': seq<nat>, feed': nat, clock': int)
  {
    && w < |s|
    && 0 <= sec < s[w].remaining
    && q' == q && feed' == feed && clock' == clock + sec
    && s' == s[w := s[w].(remaining := s[w].remaining - sec)]
    && (sec > 0 ==> Admitted(s', feed, feed, clock'))
  }

  lemma SliceStart(s: seq<Job>, q: seq<nat>, feed: nat, clock: int, w: nat)
    requires SimState(s, q, feed, clock) && w in q
    ensures SliceSoFar(s, q, feed, clock, w, 0, s, q, feed, clock)
  {
    assert RecordState(s, q, feed, clock, w);
    assert s[w := s[w].(remaining := s[w].remaining - 0)] == s;
  }

  /** One more tick either ends the loop with its outcome or carries it on. */
  lemma SliceStep(s: seq<Job>, q: seq<nat>, feed: nat, clock: int, w: nat, slice: int, sec: int,
                  s1: seq<Job>, q1: seq<nat>, f1: nat, c1: int,
                  s2: seq<Job>, q2: seq<nat>, f2: nat, c2: int, done: bool, arrived: bool)
    requires sec < slice && SortedByArrival(s2)
    requires SliceSoFar(s, q, feed, clock, w, sec, s1, q1, f1, c1)
    requires TickOutcome(s1, q1, f1, c1, w, s2, q2, f2, c2, done, arrived)
    ensures done || arrived ==> SliceOutcome(s, q, feed, clock, w, slice, s2, q2, f2, c2, sec + 1)
    ensures !(done || arrived) ==> SliceSoFar(s, q, feed, clock, w, sec + 1, s2, q2, f2, c2)
  {
    WorkedStep(s[w], c2, sec);
    assert s2 == s[w := Worked(s[w], c2, sec + 1)];
    if sec > 0 {
      assert feed < |s2| ==> s2[feed].arrival == s1[feed].arrival;
      ArrivedTogether(s2, feed, f2, c2);
    }
    if !(done || arrived) {
      assert Range(feed, feed) == [];
      assert q2 == q;
    }
  }

  /** A loop that used up the whole slice ends with that outcome. */
  lemma SliceEnd(s: seq<Job>, q: seq<nat>, feed: nat, clock: int, w: nat, slice: int,
                 s': seq<Job>, q': seq<nat>, feed': nat, clock': int)
    requires slice >= 1
    requires SliceSoFar(s, q, feed, clock, w, slice, s', q', feed', clock')
    ensures SliceOutcome(s, q, feed, clock, w, slice, s', q', feed', clock', slice)
  {
    assert Range(feed, feed) == [];
    assert q' == q + Range(feed, feed);
  }

  /** Sorted records that arrive by time t but not before it all arrive at t. */
  lemma ArrivedTogether(s: seq<Job>, f0: nat, f1: nat, t: int)
    requires SortedByArrival(s) && Admitted(s, f0, f1, t)
    requires f0 < |s| ==> s[f0].arrival > t - 1
    ensures forall i :: f0 <= i < f1 ==> s[i].arrival == t
  {
  }

  /** A round changes no record's number, arrival or burst. */
  lemma RoundKeepsInput(s: seq<Job>, q: seq<nat>, feed: nat, clock: int, w: nat,
                        s': seq<Job>, q': seq<nat>, feed': nat, clock': int, ticks: int)
    requires IndicesIn(q, |s|) && q != []
    ensures SliceOutcome(Allocated(s, q, FloorAverage(s, q)), q, feed, clock, w, FloorAverage(s, q),
                         s', q', feed', clock', ticks) ==>
              && (forall i :: 0 <= i < |s| ==> SameInput(s'[i], s[i]))
              && ticks >= 1 && clock' > clock
  {
    AllocatedTickets(s, q);
  }

  /** With the queue and the feed both exhausted every record is completed. */
  lemma AllFinished(s: seq<Job>, clock: int)
    requires SimState(s, [], |s|, clock)
    ensures forall i :: 0 <= i < |s| ==> Finished(s[i])
  {
    forall i | 0 <= i < |s| ensures Finished(s[i]) {
      assert RecordState(s, [], |s|, clock, i);
    }
  }

  // ------------------------------------------------------ the run as a function

  /** The simulator's state between steps: the records, the ready queue as
      record indices, the feed cursor and the clock. */
  datatype State = State(jobs: seq<Job>, queue: seq<nat>, feed: nat, clock: int)

  predicate ValidState(st: State)
  {
    SimState(st.jobs, st.queue, st.feed, st.clock)
  }

  /** Where the admission scan of time t stops: the first record from f on
      that has not arrived by t. */
  function AdmitEnd(s: seq<Job>, f: nat, t: int): (e: nat)
    requires f <= |s|
    ensures Admitted(s, f, e, t)
    decreases |s| - f
  {
    if f < |s| && s[f].arrival <= t then AdmitEnd(s, f + 1, t) else f
  }

  /** Admitted fixes where the scan stops. */
  lemma AdmittedIsAdmitEnd(s: seq<Job>, f0: nat, f1: nat, t: int)
    requires Admitted(s, f0, f1, t)
    ensures f1 == AdmitEnd(s, f0, t)
  {
  }

  /** One tick, lines 108-139: the winner runs one unit at the new clock,
      the arrived records are admitted, and a winner out of work is
      completed and removed. */
  function TickState(st: State, w: nat): State
    requires w < |st.jobs| && st.feed <= |st.jobs|
  {
    var c := st.clock + 1;
    var s := st.jobs[w := Worked(st.jobs[w], c, 1)];
    var f := AdmitEnd(s, st.feed, c);
    State(s, (if st.jobs[w].remaining == 1 then Without(st.queue, w) else st.queue) + Range(st.feed, f), f, c)
  }

  /** The tick loop, lines 107-144, with left ticks of the slice to go: it
      stops after a tick that completes the winner or admits a record. */
  function SliceState(st: State, w: nat, left: int): State
    requires w < |st.jobs| && st.feed <= |st.jobs|
    decreases left
  {
    if left <= 0 then st
    else
      var next := TickState(st, w);
      if st.jobs[w].remaining == 1 || next.feed > st.feed then next
      else SliceState(next, w, left - 1)
  }

  /** One round, lines 96-144: the slice is the floor average, the tickets
      are allocated against it, and the member Drawn picks runs the slice. */
  function RoundState(st: State, roll: nat): State
    requires IndicesIn(st.queue, |st.jobs|) && st.queue != [] && st.feed <= |st.jobs|
  {
    var avg := FloorAverage(st.jobs, st.queue);
    AllocationPositive(st.jobs, st.queue);
    var w := st.queue[Drawn(Allocation(st.jobs, st.queue), roll)];
    SliceState(State(Allocated(st.jobs, st.queue, avg), st.queue, st.feed, st.clock), w, avg)
  }

  /** Lines 153-158: an empty queue with records pending takes the next
      record, the clock jumping to its arrival. */
  function DrainState(st: State): State
  {
    if st.queue == [] && st.feed < |st.jobs| then
      State(st.jobs, [st.feed], st.feed + 1, st.jobs[st.feed].arrival)
    else st
  }

  /** The main loop, lines 95-159, from round r on: rounds, each followed by
      the drain, until the queue is empty; round r draws with rolls(r). */
  function RunState(st: State, rolls: nat -> nat, r: nat): State
    requires ValidState(st) && (st.queue != [] || st.feed == |st.jobs|)
    decreases TotalRemaining(st.jobs)
  {
    if st.queue == [] then st
    else
      RoundStateKeeps(st, rolls(r));
      DrainStateKeeps(RoundState(st, rolls(r)));
      RunState(DrainState(RoundState(st, rolls(r))), rolls, r + 1)
  }

  /** The state main reaches before the loop, lines 76-92: the clock at the
      earliest arrival and the records sharing it queued in order. */
  function Initial(s: seq<Job>): State
    requires |s| >= 1
  {
    var f := AdmitEnd(s, 0, s[0].arrival);
    State(s, Range(0, f), f, s[0].arrival)
  }

  /** The records a run over the sorted, unstarted records s leaves. */
  function Scheduled(s: seq<Job>, rolls: nat -> nat): seq<Job>
    requires SortedByArrival(s) && forall i :: 0 <= i < |s| ==> Unstarted(s[i])
  {
    if s == [] then []
    else
      InitialKeeps(s);
      RunState(Initial(s), rolls, 0).jobs
  }

  /** A tick keeps the invariant, advances the clock by one, takes one unit
      of work, and keeps a winner with work left queued. */
  lemma TickStateKeeps(st: State, w: nat)
    requires ValidState(st) && w in st.queue
    ensures w < |st.jobs| && ValidState(TickState(st, w))
    ensures TickState(st, w).clock == st.clock + 1
    ensures TotalRemaining(TickState(st, w).jobs) == TotalRemaining(st.jobs) - 1
    ensures st.jobs[w].remaining != 1 ==> w in TickState(st, w).queue
    ensures |TickState(st, w).jobs| == |st.jobs|
    ensures forall i :: 0 <= i < |st.jobs| ==> SameInput(TickState(st, w).jobs[i], st.jobs[i])
  {
    var next := TickState(st, w);
    TickKeepsState(st.jobs, st.queue, st.feed, st.clock, w, next.feed, next.jobs, next.queue);
    TotalRemainingTicked(st.jobs, st.queue, st.feed, st.clock, w);
  }

  /** A slice of at least one tick keeps the invariant and takes exactly as
      many units of work as the clock advances, at least one. */
  lemma {:induction false} SliceStateKeeps(st: State, w: nat, left: int)
    requires ValidState(st) && w in st.queue && left >= 1
    ensures w < |st.jobs| && ValidState(SliceState(st, w, left))
    ensures SliceState(st, w, left).clock > st.clock
    ensures TotalRemaining(SliceState(st, w, left).jobs) ==
              TotalRemaining(st.jobs) - (SliceState(st, w, left).clock - st.clock)
    ensures |SliceState(st, w, left).jobs| == |st.jobs|
    ensures forall i :: 0 <= i < |st.jobs| ==> SameInput(SliceState(st, w, left).jobs[i], st.jobs[i])
    decreases left
  {
    var next := TickState(st, w);
    TickStateKeeps(st, w);
    if !(st.jobs[w].remaining == 1 || next.feed > st.feed) && left > 1 {
      SliceStateKeeps(next, w, left - 1);
    }
  }

  /** A round keeps the invariant and takes exactly as many units of work
      as the clock advances, at least one. */
  lemma RoundStateKeeps(st: State, roll: nat)
    requires ValidState(st) && st.queue != []
    ensures ValidState(RoundState(st, roll))
    ensures RoundState(st, roll).clock > st.clock
    ensures TotalRemaining(RoundState(st, roll).jobs) ==
              TotalRemaining(st.jobs) - (RoundState(st, roll).clock - st.clock)
    ensures TotalRemaining(st.jobs) >= 0
    ensures |RoundState(st, roll).jobs| == |st.jobs|
    ensures forall i :: 0 <= i < |st.jobs| ==> SameInput(RoundState(st, roll).jobs[i], st.jobs[i])
  {
    var s, q := st.jobs, st.queue;
    var avg := FloorAverage(s, q);
    var a := Allocated(s, q, avg);
    AllocatedTickets(s, q);
    SameTimingKeepsState(s, a, q, st.feed, st.clock);
    TotalRemainingSame(s, a);
    AllocationPositive(s, q);
    QueueRunning(s, q, st.feed, st.clock);
    FloorAverageAtLeastOne(RemainingOf(s, q));
    var w := q[Drawn(Allocation(s, q), roll)];
    SliceStateKeeps(State(a, q, st.feed, st.clock), w, avg);
    RemainingNonNegative(s, q, st.feed, st.clock);
    TotalRemainingNonNegative(s);
  }

  /** The drain keeps the invariant and leaves the queue non-empty unless
      the feed is exhausted. */
  lemma DrainStateKeeps(st: State)
    requires ValidState(st)
    ensures ValidState(DrainState(st)) && DrainState(st).jobs == st.jobs
    ensures DrainState(st).queue != [] || DrainState(st).feed == |st.jobs|
    ensures DrainState(st).clock >= st.clock
  {
    if st.queue == [] && st.feed < |st.jobs| {
      DrainKeepsState(st.jobs, st.feed, st.clock);
    }
  }

  /** The state before the loop satisfies the invariant, with a non-empty
      queue. */
  lemma InitialKeeps(s: seq<Job>)
    requires |s| >= 1 && SortedByArrival(s) && forall i :: 0 <= i < |s| ==> Unstarted(s[i])
    ensures ValidState(Initial(s)) && Initial(s).queue != []
  {
    var st := Initial(s);
    var f := st.feed;
    assert f >= 1;
    RangeFacts(0, f);
    RangeMembers(0, f);
    forall i | 0 <= i < |s| ensures RecordState(s, st.queue, f, st.clock, i) {
      if i < f {
        assert s[i].arrival >= s[0].arrival;
      }
    }
  }

  /** A round followed by the drain is one step of the run. */
  lemma RunStateStep(st: State, rolls: nat -> nat, r: nat)
    requires ValidState(st) && st.queue != []
    ensures var n := DrainState(RoundState(st, rolls(r)));
            && ValidState(n) && (n.queue != [] || n.feed == |n.jobs|)
            && |n.jobs| == |st.jobs| && n.clock > st.clock
            && 0 <= TotalRemaining(n.jobs) < TotalRemaining(st.jobs)
            && (forall i :: 0 <= i < |st.jobs| ==> SameInput(n.jobs[i], st.jobs[i]))
            && RunState(st, rolls, r) == RunState(n, rolls, r + 1)
  {
    RoundStateKeeps(st, rolls(r));
    var n := DrainState(RoundState(st, rolls(r)));
    DrainStateKeeps(RoundState(st, rolls(r)));
    RemainingNonNegative(n.jobs, n.queue, n.feed, n.clock);
    TotalRemainingNonNegative(n.jobs);
  }

  /** The run ends with an empty queue and an exhausted feed, the invariant
      kept, the clock no earlier and every record's input unchanged. */
  lemma {:induction false} RunStateFacts(st: State, rolls: nat -> nat, r: nat)
    requires ValidState(st) && (st.queue != [] || st.feed == |st.jobs|)
    ensures ValidState(RunState(st, rolls, r))
    ensures RunState(st, rolls, r).queue == [] && RunState(st, rolls, r).feed == |st.jobs|
    ensures |RunState(st, rolls, r).jobs| == |st.jobs| && RunState(st, rolls, r).clock >= st.clock
    ensures forall i :: 0 <= i < |st.jobs| ==> SameInput(RunState(st, rolls, r).jobs[i], st.jobs[i])
    decreases TotalRemaining(st.jobs)
  {
    if st.queue != [] {
      RunStateStep(st, rolls, r);
      var n := DrainState(RoundState(st, rolls(r)));
      RunStateFacts(n, rolls, r + 1);
      var e := RunState(n, rolls, r + 1);
      assert e == RunState(st, rolls, r);
      assert forall i :: 0 <= i < |st.jobs| ==> SameInput(e.jobs[i], n.jobs[i]) && SameInput(n.jobs[i], st.jobs[i]);
    }
  }

  /** Where the run stops: queue and feed exhausted, the clock no earlier. */
  lemma RunStateEnd(st: State, rolls: nat -> nat, e: State)
    requires ValidState(st) && (st.queue != [] || st.feed == |st.jobs|)
    requires e == RunState(st, rolls, 0)
    ensures e.queue == [] && e.feed == |e.jobs| == |st.jobs| && e.clock >= st.clock
  {
    RunStateFacts(st, rolls, 0);
  }

  /** Record i of the run's outcome e has completed, its input kept. */
  lemma RunStateRecord(st: State, rolls: nat -> nat, e: State, i: int)
    requires ValidState(st) && (st.queue != [] || st.feed == |st.jobs|)
    requires e == RunState(st, rolls, 0) && 0 <= i < |st.jobs|
    ensures i < |e.jobs| && Finished(e.jobs[i]) && SameInput(e.jobs[i], st.jobs[i])
  {
    RunStateFinished(st, rolls, e);
  }

  /** So every record of the run's outcome e has completed, with its input
      fields as they were, and no work is left. */
  lemma RunStateFinished(st: State, rolls: nat -> nat, e: State)
    requires ValidState(st) && (st.queue != [] || st.feed == |st.jobs|)
    requires e == RunState(st, rolls, 0)
    ensures e.queue == [] && e.feed == |e.jobs| == |st.jobs| && e.clock >= st.clock
    ensures forall i :: 0 <= i < |e.jobs| ==> Finished(e.jobs[i]) && SameInput(e.jobs[i], st.jobs[i])
    ensures TotalRemaining(e.jobs) == 0
  {
    RunStateFacts(st, rolls, 0);
    AllFinished(e.jobs, e.clock);
    TotalRemainingNone(e.jobs);
  }

  /** The tick loop's outcome is the one SliceState computes. */
  lemma {:induction false} SliceOutcomeIsSliceState(s: seq<Job>, q: seq<nat>, feed: nat, clock: int, w: nat,
                                                    slice: int, s': seq<Job>, q': seq<nat>, feed': nat,
                                                    clock': int, ticks: int)
    requires feed <= |s|
    requires SliceOutcome(s, q, feed, clock, w, slice, s', q', feed', clock', ticks)
    ensures State(s', q', feed', clock') == SliceState(State(s, q, feed, clock), w, slice)
    decreases ticks
  {
    var st := State(s, q, feed, clock);
    var next := TickState(st, w);
    if ticks == 1 {
      AdmittedIsAdmitEnd(s', feed, feed', clock');
      assert s'[w].remaining == 0 <==> s[w].remaining == 1;
      assert AdmitEnd(s', feed, clock') == AdmitEnd(next.jobs, feed, clock + 1);
    } else {
      assert s[w].remaining != 1;
      assert Admitted(next.jobs, feed, feed, clock + 1) by {
        if feed < |s| {
          assert next.jobs[feed].arrival == s[feed].arrival == s'[feed].arrival;
        }
      }
      AdmittedIsAdmitEnd(next.jobs, feed, feed, clock + 1);
      assert Range(feed, feed) == [];
      assert next.queue == q;
      assert Worked(next.jobs[w], clock', ticks - 1) == Worked(s[w], clock', ticks);
      assert s' == next.jobs[w := Worked(next.jobs[w], clock', ticks - 1)];
      SliceOutcomeIsSliceState(next.jobs, next.queue, next.feed, next.clock, w, slice - 1,
                               s', q', feed', clock', ticks - 1);
    }
  }

  /** A round's outcome, as RunRound reports it, is the one RoundState
      computes. */
  lemma RoundOutcomeIsRoundState(s: seq<Job>, q: seq<nat>, feed: nat, clock: int, roll: nat, w: nat,
                                 s': seq<Job>, q': seq<nat>, feed': nat, clock': int, ticks: int)
    requires SimState(s, q, feed, clock) && q != []
    requires Positive(Allocation(s, q)) && w == q[Drawn(Allocation(s, q), roll)]
    requires SliceOutcome(Allocated(s, q, FloorAverage(s, q)), q, feed, clock, w,
                          FloorAverage(s, q), s', q', feed', clock', ticks)
    ensures State(s', q', feed', clock') == RoundState(State(s, q, feed, clock), roll)
  {
    var a := Allocated(s, q, FloorAverage(s, q));
    AllocatedTickets(s, q);
    SameTimingKeepsState(s, a, q, feed, clock);
    AllocationPositive(s, q);
    SliceOutcomeIsSliceState(a, q, feed, clock, w, FloorAverage(s, q),
                             s', q', feed', clock', ticks);
  }

  // ------------------------------------------------------------ simulator

  /** The running state of main: the records, the ready queue as indices in
      queue order, the feed cursor (the first record not yet admitted) and
      the clock. */
  class Simulator {
    const jobs: array<Job>
    var queue: seq<nat>
    var feed: nat
    var clock: int

    ghost predicate Valid()
      reads this, jobs
    {
      SimState(jobs[..], queue, feed, clock)
    }

    /** The current state as a value. */
    ghost function Snapshot(): State
      reads this, jobs
    {
      State(jobs[..], queue, feed, clock)
    }

    /** Lines 76-92 of main: the clock starts at the earliest arrival, and the
        first record and every record sharing its arrival are queued. */
    constructor (jobs: array<Job>)
      requires jobs.Length >= 1 && SortedByArrival(jobs[..])
      requires forall i :: 0 <= i < jobs.Length ==> Unstarted(jobs[i])
      ensures this.jobs == jobs && Valid()
      ensures clock == jobs[0].arrival
      ensures 1 <= feed && queue == Range(0, feed)
      ensures forall i :: 0 <= i < feed ==> jobs[i].arrival == clock
      ensures feed < jobs.Length ==> jobs[feed].arrival > clock
      ensures Snapshot() == Initial(jobs[..])
    {
      this.jobs := jobs;
      queue := [0];
      feed := 1;
      clock := jobs[0].arrival;
      new;
      var i := 0;
      while i < jobs.Length
        invariant 0 <= i <= jobs.Length
        invariant 1 <= feed <= (if i == 0 then 1 else i)
        invariant queue == Range(0, feed)
        invariant forall j :: 0 <= j < feed ==> jobs[j].arrival == clock
        invariant forall j :: feed <= j < i ==> jobs[j].arrival > clock
      {
        if feed < i {
          assert jobs[..][feed].arrival <= jobs[..][i].arrival;
        }
        if i != 0 && jobs[i].arrival == jobs[0].arrival {
          Enqueue(i);
          assert queue == Range(0, feed + 1);
          feed := feed + 1;
        } else if i != 0 {
          assert jobs[..][0].arrival <= jobs[..][i].arrival;
        }
        i := i + 1;
      }
      RangeFacts(0, feed);
      RangeMembers(0, feed);
      if feed < jobs.Length {
        assert jobs[..][0].arrival <= jobs[..][feed].arrival;
      }
      forall i | 0 <= i < jobs.Length ensures RecordState(jobs[..], queue, feed, clock, i) {
      }
      AdmittedIsAdmitEnd(jobs[..], 0, feed, clock);
    }

    /** enqueue after getTailFromQueue: the record joins at the tail. */
    method Enqueue(i: nat)
      modifies this`queue
      ensures queue == old(queue) + [i]
    {
      queue := queue + [i];
    }

    /** deleteProcess: remove the record from the queue, keeping the order
        of the others; a record not in the queue leaves it unchanged. */
    method DeleteProcess(p: nat)
      requires queue != []
      modifies this`queue
      ensures p in old(queue) ==>
                var k := FirstIndex(old(queue), p);
                queue == old(queue)[..k] + old(queue)[k + 1..]
      ensures old(queue)[0] == p ==> queue == old(queue)[1..]
      ensures queue == Without(old(queue), p)
    {
      WithoutFirst(queue, p);
      if queue[0] == p {
        queue := queue[1..];
        return;
      }
      var k := 1;
      while k < |queue|
        invariant 1 <= k <= |queue|
        invariant forall j :: 0 <= j < k ==> queue[j] != p
      {
        if queue[k] == p {
          queue := queue[..k] + queue[k + 1..];
          return;
        }
        k := k + 1;
      }
    }

    /** getAvgRemainingTime: the floor average of the remaining times,
        which is at least one while every member has work left. */
    method AvgRemaining() returns (avg: int)
      requires Valid() && queue != []
      ensures avg == FloorAverage(jobs[..], queue)
      ensures avg >= 1
    {
      QueueRunning(jobs[..], queue, feed, clock);
      var sum := 0;
      LengthQueueWhole(jobs[..], queue);
      var length := LengthQueue(jobs[..], queue);
      var i := 0;
      while i < |queue|
        invariant 0 <= i <= |queue|
        invariant sum == Sum(RemainingOf(jobs[..], queue)[..i])
      {
        SumStep(RemainingOf(jobs[..], queue), i);
        sum := sum + jobs[queue[i]].remaining;
        i := i + 1;
      }
      assert RemainingOf(jobs[..], queue)[..i] == RemainingOf(jobs[..], queue);
      avg := sum / length;
      FloorAverageAtLeastOne(RemainingOf(jobs[..], queue));
    }

    /** allocateTickets: every member at or below the average becomes a short
        job with SHORT_JOB_TICKETS, every other member a long job with
        LONG_JOB_TICKETS; records outside the queue are untouched. */
    method AllocateTickets(avg: int)
      requires Valid()
      modifies jobs
      ensures Valid()
      ensures jobs[..] == Allocated(old(jobs[..]), queue, avg)
    {
      ghost var s0 := jobs[..];
      var k := 0;
      while k < |queue|
        invariant 0 <= k <= |queue|
        invariant forall i :: 0 <= i < jobs.Length ==>
                    jobs[i] == if i in queue[..k] then Allot(s0[i], avg) else s0[i]
      {
        var p := queue[k];
        assert queue[..k + 1] == queue[..k] + [p];
        if jobs[p].remaining <= avg {
          jobs[p] := jobs[p].(tickets := SHORT_JOB_TICKETS, shortJob := 1);
        } else {
          jobs[p] := jobs[p].(tickets := LONG_JOB_TICKETS, shortJob := 0);
        }
        k := k + 1;
      }
      assert queue[..k] == queue;
      forall i | 0 <= i < jobs.Length ensures SameTiming(jobs[i], s0[i]) {
      }
      SameTimingKeepsState(s0, jobs[..], queue, feed, clock);
    }

    /** getWinner: with T the total of the queue's tickets, the draw
        roll % T + 1 selects the member Drawn names (the first member whose
        running ticket total exceeds the draw, or the head). Nothing is
        changed. */
    method GetWinner(roll: nat) returns (k: nat)
      requires IndicesIn(queue, jobs.Length) && queue != []
      requires Positive(TicketsOf(jobs[..], queue))
      ensures k < |queue|
      ensures k == Drawn(TicketsOf(jobs[..], queue), roll)
    {
      ghost var w := TicketsOf(jobs[..], queue);
      SumAtLeastLength(w);
      var total := TotalTickets(jobs[..], queue);
      var winningTicket := roll % total + 1;
      k := 0;
      var counter := 0;
      var i := 0;
      while i < |queue|
        invariant 0 <= i <= |queue|
        invariant counter == Sum(w[..i])
        invariant forall j :: 0 <= j < i ==> Upto(w, j) <= winningTicket
      {
        SumStep(w, i);
        assert w[i] == jobs[queue[i]].tickets;
        counter := counter + jobs[queue[i]].tickets;
        if counter > winningTicket {
          PickIs(w, winningTicket, i);
          k := i;
          return;
        }
        i := i + 1;
      }
      PickNone(w, winningTicket);
    }

    /** The scan of lines 112-127: every unadmitted record whose arrival is
        at or before the clock is queued; the feed being sorted, these are
        the longest such prefix of the feed, appended in order. */
    method Admit() returns (arrived: bool)
      requires SortedByArrival(jobs[..]) && feed <= jobs.Length
      modifies this`queue, this`feed
      ensures Admitted(jobs[..], old(feed), feed, clock)
      ensures queue == old(queue) + Range(old(feed), feed)
      ensures arrived <==> feed > old(feed)
    {
      var start := feed;
      var tmp := feed;
      arrived := false;
      var i := 0;
      while i < jobs.Length - start
        invariant 0 <= i <= jobs.Length - start
        invariant start <= tmp <= start + i
        invariant queue == old(queue) + Range(start, tmp)
        invariant forall j :: start <= j < tmp ==> jobs[j].arrival <= clock
        invariant forall j :: tmp <= j < start + i ==> jobs[j].arrival > clock
        invariant arrived <==> tmp > start
        invariant tmp < start + i ==> forall j :: tmp <= j < jobs.Length ==> jobs[j].arrival > clock
      {
        if clock >= jobs[start + i].arrival {
          Enqueue(start + i);
          tmp := tmp + 1;
          arrived := true;
        } else if tmp == start + i {
          LaterArrivals(jobs[..], tmp, clock);
        }
        i := i + 1;
      }
      feed := tmp;
    }

    /** One tick of a round, lines 108-139: the winner runs for one unit, the
        clock advances, arrivals are admitted, and a winner that has run out
        of work gets its exit, turnaround and waiting time and leaves the
        queue. */
    method Tick(winner: nat) returns (done: bool, arrived: bool)
      requires Valid() && winner in queue
      modifies this, jobs
      ensures Valid()
      ensures TickOutcome(old(jobs[..]), old(queue), old(feed), old(clock), winner,
                          jobs[..], queue, feed, clock, done, arrived)
      ensures TotalRemaining(jobs[..]) == old(TotalRemaining(jobs[..])) - 1
    {
      ghost var s0, q0, f0, c0 := jobs[..], queue, feed, clock;
      RunOneUnit(winner);
      SortedAfterUpdate(s0, winner, jobs[..]);
      arrived := Admit();
      ghost var s1 := jobs[..];
      done := jobs[winner].remaining == 0;
      if done {
        WithoutAppend(q0, Range(f0, feed), winner);
        Complete(winner);
      }
      ghost var t := Worked(s0[winner], clock, 1);
      ghost var s2 := s0[winner := t];
      assert jobs[..] == s2;
      AdmittedUpdate(s1, winner, t, f0, feed, clock);
      assert s1[winner := t] == s2;
      TickKeepsState(s0, q0, f0, c0, winner, feed, s2, queue);
      TotalRemainingTicked(s0, q0, f0, c0, winner);
    }

    /** Lines 108-109: the winner runs for one unit and the clock advances. */
    method RunOneUnit(winner: nat)
      requires winner < jobs.Length
      modifies jobs, this`clock
      ensures clock == old(clock) + 1
      ensures jobs[..] == old(jobs[..])[winner := old(jobs[winner]).(remaining := old(jobs[winner].remaining) - 1)]
    {
      jobs[winner] := jobs[winner].(remaining := jobs[winner].remaining - 1);
      clock := clock + 1;
    }

    /** Lines 129-137: a winner out of work gets its exit time, its
        turnaround (exit less arrival) and its waiting time (turnaround less
        burst), and leaves the queue. */
    method Complete(winner: nat)
      requires winner < jobs.Length && queue != []
      modifies jobs, this`queue
      ensures jobs[..] == old(jobs[..])[winner := old(jobs[winner]).(exit := clock,
                                                  turnaround := clock - old(jobs[winner].arrival),
                                                  wait := clock - old(jobs[winner].arrival) - old(jobs[winner].burst))]
      ensures queue == Without(old(queue), winner)
    {
      jobs[winner] := jobs[winner].(exit := clock);
      jobs[winner] := jobs[winner].(turnaround := jobs[winner].exit - jobs[winner].arrival);
      jobs[winner] := jobs[winner].(wait := jobs[winner].turnaround - jobs[winner].burst);
      DeleteProcess(winner);
    }

    /** One round, lines 96-144: the time slice is the floor average of the
        remaining times, the tickets are allocated against it, the winner is
        drawn from the allocation and then runs its slice. */
    method RunRound(roll: nat) returns (winner: nat, ticks: nat)
      requires Valid() && queue != []
      modifies this, jobs
      ensures Valid()
      ensures winner == old(queue)[Drawn(Allocation(old(jobs[..]), old(queue)), roll)]
      ensures SliceOutcome(Allocated(old(jobs[..]), old(queue), FloorAverage(old(jobs[..]), old(queue))),
                           old(queue), old(feed), old(clock), winner, FloorAverage(old(jobs[..]), old(queue)),
                           jobs[..], queue, feed, clock, ticks)
      ensures TotalRemaining(jobs[..]) == old(TotalRemaining(jobs[..])) - ticks && ticks >= 1
      ensures Snapshot() == RoundState(old(Snapshot()), roll)
    {
      var avg := AvgRemaining();
      var timeSlice := avg;
      ghost var s0 := jobs[..];
      AllocateTickets(avg);
      AllocatedTickets(s0, queue);
      AllocationPositive(s0, queue);
      var k := GetWinner(roll);
      winner := queue[k];
      TotalRemainingSame(s0, jobs[..]);
      ghost var a, q, f, c := jobs[..], queue, feed, clock;
      ticks := RunSlice(winner, timeSlice);
      assert winner in q;
      SliceOutcomeIsSliceState(a, q, f, c, winner, timeSlice, jobs[..], queue, feed, clock, ticks);
    }

    /** The tick loop of lines 107-144: the winner runs one unit at a time
        for at most the slice, stopping once it completes or a record has
        been admitted. */
    method RunSlice(winner: nat, slice: int) returns (ticks: nat)
      requires Valid() && winner in queue && slice >= 1
      modifies this, jobs
      ensures Valid()
      ensures SliceOutcome(old(jobs[..]), old(queue), old(feed), old(clock), winner, slice,
                           jobs[..], queue, feed, clock, ticks)
      ensures TotalRemaining(jobs[..]) == old(TotalRemaining(jobs[..])) - ticks
    {
      ghost var s0, q0, f0, c0 := jobs[..], queue, feed, clock;
      SliceStart(s0, q0, f0, c0, winner);
      var sec := 0;
      while sec < slice
        invariant Valid()
        invariant 0 <= sec <= slice
        invariant SliceSoFar(s0, q0, f0, c0, winner, sec, jobs[..], queue, feed, clock)
        invariant TotalRemaining(jobs[..]) == TotalRemaining(s0) - sec
      {
        ghost var s1, q1, f1, c1 := jobs[..], queue, feed, clock;
        var done, newProcessArrived := Tick(winner);
        SliceStep(s0, q0, f0, c0, winner, slice, sec, s1, q1, f1, c1,
                  jobs[..], queue, feed, clock, done, newProcessArrived);
        if done || newProcessArrived {
          ticks := sec + 1;
          return;
        }
        sec := sec + 1;
      }
      ticks := sec;
      SliceEnd(s0, q0, f0, c0, winner, slice, jobs[..], queue, feed, clock);
    }

    /** Lines 153-158: when the queue has drained and the feed still holds
        records, the clock jumps to the next arrival and that one record is
        queued; when the feed is exhausted nothing changes and the run ends. */
    method Drain()
      requires Valid()
      modifies this`queue, this`feed, this`clock
      ensures Valid()
      ensures old(queue) != [] || old(feed) == jobs.Length ==>
                queue == old(queue) && feed == old(feed) && clock == old(clock)
      ensures old(queue) == [] && old(feed) < jobs.Length ==>
                queue == [old(feed)] && feed == old(feed) + 1 && clock == jobs[old(feed)].arrival
      ensures clock >= old(clock)
      ensures LengthQueue(jobs[..], queue) == |queue| && TotalRemaining(jobs[..]) >= 0
    {
      QueueRunning(jobs[..], queue, feed, clock);
      LengthQueueWhole(jobs[..], queue);
      if LengthQueue(jobs[..], queue) == 0 {
        if feed < jobs.Length {
          DrainKeepsState(jobs[..], feed, clock);
          queue := [feed];
          feed := feed + 1;
          clock := jobs[queue[0]].arrival;
        }
      }
      QueueRunning(jobs[..], queue, feed, clock);
      LengthQueueWhole(jobs[..], queue);
      ValidRemainingNonNegative();
    }

    /** One pass of the main loop: a round, then the drain. */
    method Step(roll: nat) returns (ticks: nat)
      requires Valid() && queue != []
      modifies this, jobs
      ensures Valid() && (queue != [] || feed == jobs.Length)
      ensures LengthQueue(jobs[..], queue) == |queue| && TotalRemaining(jobs[..]) >= 0
      ensures TotalRemaining(jobs[..]) == old(TotalRemaining(jobs[..])) - ticks && ticks >= 1
      ensures Snapshot() == DrainState(RoundState(old(Snapshot()), roll))
    {
      var winner;
      winner, ticks := RunRound(roll);
      ghost var mid := Snapshot();
      Drain();
      assert Snapshot() == DrainState(mid);
    }

    /** The main loop, lines 95-159: rounds until the queue is empty and the
        feed exhausted; round r draws with rolls(r). The outcome is the one
        RunState computes, after exactly as many ticks as there was work. */
    method Rounds(rolls: nat -> nat) returns (ticks: nat, rounds: nat)
      requires Valid() && (queue != [] || feed == jobs.Length)
      modifies this, jobs
      ensures Valid() && ticks == old(TotalRemaining(jobs[..]))
      ensures Snapshot() == RunState(old(Snapshot()), rolls, 0)
    {
      ghost var st0 := Snapshot();
      ticks, rounds := 0, 0;
      QueueRunning(jobs[..], queue, feed, clock);
      LengthQueueWhole(jobs[..], queue);
      ValidRemainingNonNegative();
      while LengthQueue(jobs[..], queue) > 0
        invariant Valid()
        invariant queue != [] || feed == jobs.Length
        invariant LengthQueue(jobs[..], queue) == |queue|
        invariant ticks + TotalRemaining(jobs[..]) == TotalRemaining(st0.jobs)
        invariant TotalRemaining(jobs[..]) >= 0
        invariant RunState(Snapshot(), rolls, rounds) == RunState(st0, rolls, 0)
        decreases TotalRemaining(jobs[..])
      {
        RunStateStep(Snapshot(), rolls, rounds);
        var t := Step(rolls(rounds));
        ticks := ticks + t;
        rounds := rounds + 1;
      }
      assert RunState(Snapshot(), rolls, rounds) == Snapshot();
      RunStateFacts(st0, rolls, 0);
      TotalRemainingNone(jobs[..]) by {
        AllFinished(jobs[..], clock);
      }
    }

    /** The whole run: every record ends completed with its input fields
        unchanged, the clock no earlier than it started. */
    method Run(rolls: nat -> nat) returns (ticks: nat, rounds: nat)
      requires Valid() && (queue != [] || feed == jobs.Length)
      modifies this, jobs
      ensures Valid() && queue == [] && feed == jobs.Length
      ensures forall i :: 0 <= i < jobs.Length ==> Finished(jobs[i]) && SameInput(jobs[i], old(jobs[i]))
      ensures ticks == old(TotalRemaining(jobs[..])) && clock >= old(clock)
      ensures Snapshot() == RunState(old(Snapshot()), rolls, 0)
    {
      ghost var st0 := Snapshot();
      ticks, rounds := Rounds(rolls);
      RunStateEnd(st0, rolls, Snapshot());
      forall i | 0 <= i < jobs.Length
        ensures Finished(jobs[i]) && SameInput(jobs[i], old(jobs[i]))
      {
        RunStateRecord(st0, rolls, Snapshot(), i);
      }
    }

    lemma ValidRemainingNonNegative()
      requires Valid()
      ensures TotalRemaining(jobs[..]) >= 0
    {
      RemainingNonNegative(jobs[..], queue, feed, clock);
      TotalRemainingNonNegative(jobs[..]);
    }

    /** Lines 161-178: sums and maxima of turnaround and waiting time over all
        records, the maxima starting from -1. */
    method Totals() returns (sumTurnaround: int, sumWait: int, maxTurnaround: int, maxWait: int)
      ensures sumTurnaround == Sum(TurnaroundsOf(jobs[..]))
      ensures sumWait == Sum(WaitsOf(jobs[..]))
      ensures IsMaximum(maxTurnaround, TurnaroundsOf(jobs[..]))
      ensures IsMaximum(maxWait, WaitsOf(jobs[..]))
    {
      ghost var ts, ws := TurnaroundsOf(jobs[..]), WaitsOf(jobs[..]);
      sumTurnaround, sumWait := 0, 0;
      maxTurnaround, maxWait := -1, -1;
      var i := 0;
      while i < jobs.Length
        invariant 0 <= i <= jobs.Length
        invariant sumTurnaround == Sum(ts[..i]) && sumWait == Sum(ws[..i])
        invariant IsMaximum(maxTurnaround, ts[..i]) && IsMaximum(maxWait, ws[..i])
      {
        var p := jobs[i];
        assert ts[i] == p.turnaround && ws[i] == p.wait;
        SumStep(ts, i);
        SumStep(ws, i);
        MaximumStep(maxTurnaround, ts, i);
        MaximumStep(maxWait, ws, i);
        sumTurnaround := sumTurnaround + p.turnaround;
        sumWait := sumWait + p.wait;
        if p.turnaround > maxTurnaround {
          maxTurnaround := p.turnaround;
        }
        if p.wait > maxWait {
          maxWait := p.wait;
        }
        i := i + 1;
      }
      assert ts[..i] == ts && ws[..i] == ws;
    }
  }

  /** q with its first occurrence of p removed. */
  function Without(q: seq<nat>, p: nat): seq<nat>
  {
    if q == [] then [] else if q[0] == p then q[1..] else [q[0]] + Without(q[1..], p)
  }

  /** Without cuts out exactly the first occurrence, and leaves a sequence
      without p unchanged. */
  lemma {:induction false} WithoutFirst(q: seq<nat>, p: nat)
    ensures p in q ==> Without(q, p) == q[..FirstIndex(q, p)] + q[FirstIndex(q, p) + 1..]
    ensures p !in q ==> Without(q, p) == q
  {
    if q == [] {
    } else if q[0] == p {
      assert q[..0] == [];
    } else {
      var t := q[1..];
      WithoutFirst(t, p);
      assert q == [q[0]] + t;
      assert p in q <==> p in t;
      if p in t {
        var k := FirstIndex(t, p);
        assert FirstIndex(q, p) == k + 1;
        assert q[..k + 1] == [q[0]] + t[..k];
        assert q[k + 2..] == t[k + 1..];
      }
    }
  }


  function TurnaroundsOf(s: seq<Job>): seq<int>
  {
    seq(|s|, i requires 0 <= i < |s| => s[i].turnaround)
  }

  function WaitsOf(s: seq<Job>): seq<int>
  {
    seq(|s|, i requires 0 <= i < |s| => s[i].wait)
  }

  function BurstsOf(s: seq<Job>): seq<int>
  {
    seq(|s|, i requires 0 <= i < |s| => s[i].burst)
  }

  lemma {:induction false} TotalBurstIsSum(s: seq<Job>)
    ensures TotalBurst(s) == Sum(BurstsOf(s))
  {
    if s != [] {
      TotalBurstIsSum(s[..|s| - 1]);
      assert BurstsOf(s)[..|s| - 1] == BurstsOf(s[..|s| - 1]);
    }
  }

  lemma {:induction false} TotalBurstAppend(u: seq<Job>, v: seq<Job>)
    ensures TotalBurst(u + v) == TotalBurst(u) + TotalBurst(v)
  {
    if v == [] {
      assert u + v == u;
    } else {
      TotalBurstAppend(u, v[..|v| - 1]);
      assert (u + v)[..|u + v| - 1] == u + v[..|v| - 1];
      assert (u + v)[|u + v| - 1] == v[|v| - 1];
    }
  }

  /** Reordering the records keeps their total burst. */
  lemma {:induction false} TotalBurstPermutation(a: seq<Job>, b: seq<Job>)
    requires multiset(a) == multiset(b)
    ensures TotalBurst(a) == TotalBurst(b)
  {
    if a == [] {
      assert |b| == |multiset(b)| == 0;
    } else {
      var x := a[|a| - 1];
      var a' := a[..|a| - 1];
      assert a == a' + [x];
      assert x in multiset(b);
      var j :| 0 <= j < |b| && b[j] == x;
      var b' := b[..j] + b[j + 1..];
      assert b == b[..j] + [x] + b[j + 1..];
      assert multiset(a) == multiset(a') + multiset{x};
      assert multiset(b) == multiset(b[..j]) + multiset{x} + multiset(b[j + 1..]);
      assert multiset(b') == multiset(b[..j]) + multiset(b[j + 1..]);
      assert multiset(a') == multiset(a) - multiset{x};
      assert multiset(b') == multiset(b) - multiset{x};
      TotalBurstPermutation(a', b');
      TotalBurstAppend(b[..j] + [x], b[j + 1..]);
      TotalBurstAppend(b[..j], [x]);
      TotalBurstAppend(b[..j], b[j + 1..]);
      assert [x][..0] == [];
    }
  }

  /** The parsed lines: one fresh record per (arrival, burst) line, numbered
      from 0 in input order. */
  function ParsedJobs(input: seq<(int, int)>): (s: seq<Job>)
    ensures |s| == |input|
  {
    seq(|input|, i requires 0 <= i < |input| => NewJob(i, input[i].0, input[i].1))
  }

  /** The parser's numbering and fields: record i is numbered i, carries its
      line's arrival and burst, and is unstarted when its burst is positive. */
  lemma ParsedJobsFacts(input: seq<(int, int)>)
    ensures NumberedInOrder(ParsedJobs(input))
    ensures forall i :: 0 <= i < |input| ==>
              ParsedJobs(input)[i].num == i && ParsedJobs(input)[i].arrival == input[i].0 &&
              ParsedJobs(input)[i].burst == input[i].1 &&
              (input[i].1 >= 1 ==> Unstarted(ParsedJobs(input)[i]))
  {
  }

  /** A reordering of fresh records with work to do holds only such records. */
  lemma PermutedUnstarted(a: seq<Job>, b: seq<Job>)
    requires multiset(a) == multiset(b)
    requires forall i :: 0 <= i < |b| ==> Unstarted(b[i])
    ensures forall i :: 0 <= i < |a| ==> Unstarted(a[i])
  {
    forall i | 0 <= i < |a| ensures Unstarted(a[i]) {
      assert a[i] in multiset(b);
      var m :| 0 <= m < |b| && b[m] == a[i];
    }
  }

  /** The report on completed records: turnarounds add up to the waiting
      times plus the bursts, and no waiting time is negative. */
  lemma {:induction false} FinishedTotals(s: seq<Job>)
    requires forall i :: 0 <= i < |s| ==> Finished(s[i])
    ensures Sum(TurnaroundsOf(s)) == Sum(WaitsOf(s)) + TotalBurst(s)
    ensures Sum(WaitsOf(s)) >= 0
  {
    TotalBurstIsSum(s);
    SumPointwise(WaitsOf(s), BurstsOf(s), TurnaroundsOf(s));
    SumNonNegative(WaitsOf(s));
  }

  /** The records a run leaves are the input records, each completed, so
      the turnarounds add up to the waits plus the total burst and no wait
      is negative. */
  lemma ScheduledTotals(s: seq<Job>, rolls: nat -> nat)
    requires SortedByArrival(s) && forall i :: 0 <= i < |s| ==> Unstarted(s[i])
    ensures |Scheduled(s, rolls)| == |s|
    ensures forall i :: 0 <= i < |s| ==> Finished(Scheduled(s, rolls)[i]) && SameInput(Scheduled(s, rolls)[i], s[i])
    ensures Sum(TurnaroundsOf(Scheduled(s, rolls))) == Sum(WaitsOf(Scheduled(s, rolls))) + TotalBurst(s)
    ensures Sum(WaitsOf(Scheduled(s, rolls))) >= 0
  {
    var f := Scheduled(s, rolls);
    if s != [] {
      InitialKeeps(s);
      RunStateFinished(Initial(s), rolls, RunState(Initial(s), rolls, 0));
    }
    FinishedTotals(f);
    SameBursts(s, f);
  }

  /** The slice of a lone record with 4 units left, from time 2 against
      an average of 4: it runs all four units and completes at 6. */
  lemma LoneSlice(a: Job)
    requires a.arrival == 2 && a.burst == 4 && a.remaining == 4
    ensures SliceState(State([a], [0], 1, 2), 0, 4)
            == State([a.(remaining := 0, exit := 6, turnaround := 4, wait := 0)], [], 1, 6)
  {
    var t0 := State([a], [0], 1, 2);
    var t1 := State([a.(remaining := 3)], [0], 1, 3);
    var t2 := State([a.(remaining := 2)], [0], 1, 4);
    var t3 := State([a.(remaining := 1)], [0], 1, 5);
    var t4 := State([a.(remaining := 0, exit := 6, turnaround := 4, wait := 0)], [], 1, 6);
    assert TickState(t0, 0) == t1 by { assert AdmitEnd(t1.jobs, 1, 3) == 1; }
    assert TickState(t1, 0) == t2 by { assert AdmitEnd(t2.jobs, 1, 4) == 1; }
    assert TickState(t2, 0) == t3 by { assert AdmitEnd(t3.jobs, 1, 5) == 1; }
    assert TickState(t3, 0) == t4 by {
      assert AdmitEnd(t4.jobs, 1, 6) == 1;
      assert Without([0], 0) == [];
    }
    assert SliceState(t2, 0, 2) == t4 by { assert SliceState(t3, 0, 1) == t4; }
    assert SliceState(t0, 0, 4) == t4 by { assert SliceState(t1, 0, 3) == t4; }
  }

  /** One record arriving at 2 with burst 4: it runs alone from time 2 and
      completes at 6, with turnaround 4 and no waiting, whatever the draws. */
  lemma LoneRecord(rolls: nat -> nat)
    ensures |Scheduled([NewJob(0, 2, 4)], rolls)| == 1
    ensures Scheduled([NewJob(0, 2, 4)], rolls)[0].exit == 6
    ensures Scheduled([NewJob(0, 2, 4)], rolls)[0].turnaround == 4
    ensures Scheduled([NewJob(0, 2, 4)], rolls)[0].wait == 0
  {
    var s := [NewJob(0, 2, 4)];
    assert AdmitEnd(s, 1, 2) == 1;
    assert Range(0, 1) == [0];
    var st := Initial(s);
    assert st == State(s, [0], 1, 2);
    InitialKeeps(s);
    var a := Allot(s[0], 4);
    assert RemainingOf(s, [0]) == [4];
    assert Allocated(s, [0], 4) == [a];
    LoneSlice(a);
    var e := RoundState(st, rolls(0));
    assert e.queue == [] && e.feed == 1 && e.jobs[0].exit == 6;
    assert RunState(st, rolls, 0) == RunState(e, rolls, 1) == e;
  }

  /** main on already-parsed lines, lines 63-178. With no lines the program
      stops with an error (lines 64-67), reported here as !ok. Otherwise the
      records are sorted, the earliest group is queued, rounds run until
      queue and feed are exhausted, round r drawing with rolls(r), and the
      totals are taken. The ghost outputs are the sorted records and the
      records the run leaves: the sorted records are the parsed ones in
      stable arrival order, every final record is completed with its input
      kept, and the totals are the sums and maxima over the final records.
      From those, exactly the total burst is run, the turnarounds add up to
      the waiting times plus that total, and no waiting time is negative. */
  method Schedule(input: seq<(int, int)>, rolls: nat -> nat)
    returns (ok: bool, sumTurnaround: int, sumWait: int, maxTurnaround: int, maxWait: int, ticks: nat,
             ghost sorted: seq<Job>, ghost final: seq<Job>)
    requires forall i :: 0 <= i < |input| ==> input[i].1 >= 1
    ensures ok <==> |input| >= 1
    ensures multiset(sorted) == multiset(ParsedJobs(input))
    ensures SortedByArrival(sorted) && TiesInNumberOrder(sorted)
    ensures forall i :: 0 <= i < |sorted| ==> Unstarted(sorted[i])
    ensures final == Scheduled(sorted, rolls)
    ensures |final| == |sorted| && forall i :: 0 <= i < |final| ==> SameInput(final[i], sorted[i])
    ensures forall i :: 0 <= i < |final| ==> Finished(final[i])
    ensures sumTurnaround == Sum(TurnaroundsOf(final)) && sumWait == Sum(WaitsOf(final))
    ensures IsMaximum(maxTurnaround, TurnaroundsOf(final)) && IsMaximum(maxWait, WaitsOf(final))
    ensures ticks == TotalBurst(ParsedJobs(input))
    ensures sumTurnaround == sumWait + ticks
    ensures sumWait >= 0
    ensures ok ==> maxTurnaround >= 1 && maxWait >= 0
  {
    if |input| == 0 {
      assert ParsedJobs(input) == [];
      return false, 0, 0, -1, -1, 0, [], [];
    }
    ok := true;
    var jobs := Load(input);
    sorted := jobs[..];
    sumTurnaround, sumWait, maxTurnaround, maxWait, ticks, final := Execute(jobs, rolls);
    ScheduledTotals(sorted, rolls);
    assert final[0].burst == sorted[0].burst >= 1;
    assert TurnaroundsOf(final)[0] == final[0].turnaround && WaitsOf(final)[0] == final[0].wait;
  }

  /** Lines 76-178 on the sorted records: the simulator is set up, run to
      the end and its totals taken. The records it leaves are the ones
      Scheduled computes, and the totals are taken over them. */
  method Execute(jobs: array<Job>, rolls: nat -> nat)
    returns (sumTurnaround: int, sumWait: int, maxTurnaround: int, maxWait: int, ticks: nat,
             ghost final: seq<Job>)
    requires jobs.Length >= 1 && SortedByArrival(jobs[..])
    requires forall i :: 0 <= i < jobs.Length ==> Unstarted(jobs[i])
    modifies jobs
    ensures final == Scheduled(old(jobs[..]), rolls) && final == jobs[..]
    ensures ticks == old(TotalRemaining(jobs[..]))
    ensures sumTurnaround == Sum(TurnaroundsOf(final)) && sumWait == Sum(WaitsOf(final))
    ensures IsMaximum(maxTurnaround, TurnaroundsOf(final)) && IsMaximum(maxWait, WaitsOf(final))
  {
    var sim := new Simulator(jobs);
    ghost var st0 := sim.Snapshot();
    var rounds;
    ticks, rounds := sim.Run(rolls);
    final := jobs[..];
    assert final == sim.Snapshot().jobs == RunState(st0, rolls, 0).jobs;
    sumTurnaround, sumWait, maxTurnaround, maxWait := sim.Totals();
  }

  /** The parsed records in a fresh array, sorted by sortProcesses: the
      parsed records in stable arrival order, fresh and with work to do, and
      with remaining work equal to the input's total burst. */
  method Load(input: seq<(int, int)>) returns (jobs: array<Job>)
    requires |input| >= 1 && forall i :: 0 <= i < |input| ==> input[i].1 >= 1
    ensures fresh(jobs) && jobs.Length == |input|
    ensures multiset(jobs[..]) == multiset(ParsedJobs(input))
    ensures SortedByArrival(jobs[..]) && TiesInNumberOrder(jobs[..])
    ensures forall i :: 0 <= i < jobs.Length ==> Unstarted(jobs[i])
    ensures TotalRemaining(jobs[..]) == TotalBurst(jobs[..]) == TotalBurst(ParsedJobs(input))
  {
    var parsed := ParsedJobs(input);
    jobs := new Job[|parsed|](i requires 0 <= i < |parsed| => parsed[i]);
    assert jobs[..] == parsed;
    assert NumberedInOrder(parsed);
    SortProcesses(jobs);
    PermutedUnstarted(jobs[..], parsed);
    TotalBurstPermutation(jobs[..], parsed);
    UntouchedRemainingIsBurst(jobs[..]);
  }

  lemma SameBursts(s: seq<Job>, s': seq<Job>)
    requires |s| == |s'| && forall i :: 0 <= i < |s| ==> SameInput(s'[i], s[i])
    ensures TotalBurst(s') == TotalBurst(s)
  {
    assert BurstsOf(s') == BurstsOf(s);
    TotalBurstIsSum(s);
    TotalBurstIsSum(s');
  }
}

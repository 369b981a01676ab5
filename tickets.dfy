/** Weighted lottery draw shared by both schedulers: running totals over a
    queue's ticket weights, the first-exceeding scan that turns a draw into
    a queue position, and the running sums and maxima of the final report. */
module Tickets {

  /** The tickets of a short and of a long job (assignment.c:8-9, lottery.py:87-91). */
  const SHORT_JOB_TICKETS: int := 10
  const LONG_JOB_TICKETS: int := 1

  /** The allocation rule both schedulers share: a job whose remaining time
      is at or below the round's average is a short job. */
  function TicketFor(remaining: int, avg: int): (t: int)
    ensures t >= 1
    ensures t == SHORT_JOB_TICKETS <==> remaining <= avg
    ensures remaining > avg ==> t == LONG_JOB_TICKETS
  {
    if remaining <= avg then SHORT_JOB_TICKETS else LONG_JOB_TICKETS
  }

  /** Sum of a sequence, folded from the left as the schedulers' running
      counters are. */
  function Sum(w: seq<int>): int
  {
    if w == [] then 0 else Sum(w[..|w| - 1]) + w[|w| - 1]
  }

  /** The running counter after member k has been added. */
  function Upto(w: seq<int>, k: nat): int
    requires k < |w|
  {
    Sum(w[..k + 1])
  }

  /** Every member holds at least one ticket. */
  predicate Positive(w: seq<int>)
  {
    forall k :: 0 <= k < |w| ==> w[k] >= 1
  }

  lemma SumStep(w: seq<int>, i: nat)
    requires i < |w|
    ensures Sum(w[..i + 1]) == Sum(w[..i]) + w[i]
  {
    assert w[..i + 1][..i] == w[..i];
  }

  lemma {:induction false} SumCons(x: int, w: seq<int>)
    ensures Sum([x] + w) == x + Sum(w)
  {
    if w == [] {
      assert ([x] + w)[..0] == [];
    } else {
      var w' := w[..|w| - 1];
      SumCons(x, w');
      assert ([x] + w)[..|[x] + w| - 1] == [x] + w';
    }
  }

  /** A queue whose members each hold at least one unit has a sum of at least
      its length. */
  lemma {:induction false} SumAtLeastLength(w: seq<int>)
    requires Positive(w)
    ensures Sum(w) >= |w|
  {
    if w != [] {
      var w' := w[..|w| - 1];
      assert Positive(w');
      SumAtLeastLength(w');
    }
  }

  /** The floor average of positive values is at least one, so a time slice
      derived from it runs for at least one tick. */
  lemma FloorAverageAtLeastOne(w: seq<int>)
    requires w != [] && Positive(w)
    ensures Sum(w) / |w| >= 1
  {
    SumAtLeastLength(w);
    var n, s := |w|, Sum(w);
    assert s == (s / n) * n + s % n;
  }

  /** Some member lies at or below the floor average of the whole queue. */
  lemma {:induction false} SomeAtOrBelowFloorAverage(w: seq<int>)
    requires w != []
    ensures exists k :: 0 <= k < |w| && w[k] <= Sum(w) / |w|
  {
    var n, s := |w|, Sum(w);
    var a := s / n;
    if forall k :: 0 <= k < n ==> w[k] > a {
      var shifted := seq(n, k requires 0 <= k < n => w[k] - a);
      assert Positive(shifted);
      SumAtLeastLength(shifted);
      SumShift(w, a);
      assert false;
    }
  }

  lemma {:induction false} SumShift(w: seq<int>, a: int)
    ensures Sum(seq(|w|, k requires 0 <= k < |w| => w[k] - a)) == Sum(w) - a * |w|
  {
    var sh := seq(|w|, k requires 0 <= k < |w| => w[k] - a);
    if w != [] {
      var w' := w[..|w| - 1];
      SumShift(w', a);
      assert sh[..|sh| - 1] == seq(|w'|, k requires 0 <= k < |w'| => w'[k] - a);
      assert a * |w| == a * |w'| + a;
    }
  }

  /** The cumulative scan: the first position whose running total is strictly
      greater than v, or the head when there is none. */
  function Pick(w: seq<int>, v: int): (k: nat)
    requires w != []
    ensures k < |w|
  {
    ScanFrom(w, v, 0)
  }

  function ScanFrom(w: seq<int>, v: int, i: nat): (k: nat)
    requires w != [] && i <= |w|
    ensures k < |w|
    decreases |w| - i
  {
    if i == |w| then 0
    else if Upto(w, i) > v then i
    else ScanFrom(w, v, i + 1)
  }

  /** Some running total exceeds v. */
  predicate Exceeded(w: seq<int>, v: int)
  {
    exists j :: 0 <= j < |w| && Upto(w, j) > v
  }

  lemma {:induction false} ScanFromFirst(w: seq<int>, v: int, i: nat)
    requires w != [] && i <= |w|
    requires forall j :: 0 <= j < i ==> Upto(w, j) <= v
    ensures Exceeded(w, v) ==>
              Upto(w, ScanFrom(w, v, i)) > v &&
              forall j :: 0 <= j < ScanFrom(w, v, i) ==> Upto(w, j) <= v
    ensures !Exceeded(w, v) ==> ScanFrom(w, v, i) == 0
    decreases |w| - i
  {
    if i < |w| && Upto(w, i) <= v {
      ScanFromFirst(w, v, i + 1);
    }
  }

  /** Pick returns the first member whose running total exceeds the draw,
      and the head when no running total does. */
  lemma PickFirst(w: seq<int>, v: int)
    requires w != []
    ensures Exceeded(w, v) ==>
              Upto(w, Pick(w, v)) > v &&
              forall j :: 0 <= j < Pick(w, v) ==> Upto(w, j) <= v
    ensures !Exceeded(w, v) ==> Pick(w, v) == 0
  {
    ScanFromFirst(w, v, 0);
  }

  /** A member whose running total is the first to exceed v is the one Pick
      returns. */
  lemma PickIs(w: seq<int>, v: int, i: nat)
    requires i < |w| && Upto(w, i) > v
    requires forall j :: 0 <= j < i ==> Upto(w, j) <= v
    ensures Pick(w, v) == i
  {
    PickFirst(w, v);
  }

  /** When no running total exceeds v, Pick returns the head. */
  lemma PickNone(w: seq<int>, v: int)
    requires w != []
    requires forall j :: 0 <= j < |w| ==> Upto(w, j) <= v
    ensures Pick(w, v) == 0
  {
    PickFirst(w, v);
  }

  lemma {:induction false} UptoMono(w: seq<int>, j: nat, k: nat)
    requires Positive(w) && j <= k < |w|
    ensures Upto(w, j) + (k - j) <= Upto(w, k)
    decreases k - j
  {
    if j < k {
      UptoMono(w, j, k - 1);
      SumStep(w, k);
      assert w[..k] == w[..k - 1 + 1];
    }
  }

  lemma UptoLast(w: seq<int>)
    requires w != []
    ensures Upto(w, |w| - 1) == Sum(w)
  {
    assert w[..|w|] == w;
  }

  lemma UptoFirst(w: seq<int>)
    requires w != []
    ensures Upto(w, 0) == w[0]
  {
    assert w[..1][..0] == [];
    assert Sum(w[..1]) == Sum(w[..1][..0]) + w[0];
  }

  /** The draws that select member k: the member's own band of the running
      totals, and for the head also the top draw that no band exceeds. */
  predicate InBand(w: seq<int>, k: nat, v: int)
    requires k < |w|
  {
    if k == 0 then v < w[0] || v == Sum(w)
    else Upto(w, k - 1) <= v < Upto(w, k)
  }

  /** No draw in [1, T] lies in two bands. */
  lemma BandsDisjoint(w: seq<int>, v: int, j: nat, k: nat)
    requires Positive(w) && j < k < |w| && 1 <= v <= Sum(w)
    ensures !(InBand(w, j, v) && InBand(w, k, v))
  {
    UptoFirst(w);
    UptoLast(w);
    UptoMono(w, k, |w| - 1);
    if j == 0 {
      UptoMono(w, 0, k - 1);
    } else {
      UptoMono(w, j, k - 1);
    }
  }

  /** The member Pick returns owns the draw's band. */
  lemma PickInBand(w: seq<int>, v: int)
    requires Positive(w) && 1 <= v <= Sum(w)
    ensures InBand(w, Pick(w, v), v)
  {
    PickFirst(w, v);
    UptoFirst(w);
    UptoLast(w);
  }

  /** For a draw in [1, T], member k is picked exactly when the draw lies in
      its band. */
  lemma PickBand(w: seq<int>, v: int, k: nat)
    requires Positive(w) && k < |w| && 1 <= v <= Sum(w)
    ensures Pick(w, v) == k <==> InBand(w, k, v)
  {
    PickInBand(w, v);
    var p := Pick(w, v);
    if p < k {
      BandsDisjoint(w, v, p, k);
    } else if k < p {
      BandsDisjoint(w, v, k, p);
    }
  }

  /** The integers a, a + 1, ..., b - 1. */
  function Interval(a: int, b: int): set<int>
    decreases b - a
  {
    if a >= b then {} else Interval(a, b - 1) + {b - 1}
  }

  lemma {:induction false} IntervalMembers(a: int, b: int)
    ensures forall v :: v in Interval(a, b) <==> a <= v < b
    decreases b - a
  {
    if a < b { IntervalMembers(a, b - 1); }
  }

  lemma {:induction false} IntervalSize(a: int, b: int)
    requires a <= b
    ensures |Interval(a, b)| == b - a
    decreases b - a
  {
    if a < b {
      IntervalSize(a, b - 1);
      IntervalMembers(a, b - 1);
    }
  }

  /** The draws in [1, T] that select member k. */
  function Draws(w: seq<int>, k: nat): set<int>
    requires w != []
  {
    set v | v in Interval(1, Sum(w) + 1) && Pick(w, v) == k
  }

  /** A draw selects the head exactly when it lies below the head's tickets
      or is the top draw. */
  lemma HeadDrawMember(w: seq<int>, v: int)
    requires Positive(w) && w != []
    ensures v in Draws(w, 0) <==> 1 <= v < w[0] || v == Sum(w)
  {
    UptoFirst(w);
    UptoLast(w);
    UptoMono(w, 0, |w| - 1);
    IntervalMembers(1, Sum(w) + 1);
    if 1 <= v <= Sum(w) {
      PickBand(w, v, 0);
    }
  }

  lemma HeadDraws(w: seq<int>)
    requires Positive(w) && w != []
    ensures Draws(w, 0) == Interval(1, w[0]) + {Sum(w)}
  {
    IntervalMembers(1, w[0]);
    forall v ensures v in Draws(w, 0) <==> v in Interval(1, w[0]) + {Sum(w)} {
      HeadDrawMember(w, v);
    }
  }

  lemma BandDraws(w: seq<int>, k: nat)
    requires Positive(w) && 0 < k < |w|
    ensures Draws(w, k) == Interval(Upto(w, k - 1), Upto(w, k))
  {
    UptoFirst(w);
    UptoLast(w);
    UptoMono(w, 0, k - 1);
    UptoMono(w, k, |w| - 1);
    IntervalMembers(1, Sum(w) + 1);
    IntervalMembers(Upto(w, k - 1), Upto(w, k));
    forall v | 1 <= v <= Sum(w) ensures Pick(w, v) == k <==> InBand(w, k, v) {
      PickBand(w, v, k);
    }
  }

  /** Of the T equally likely draws in [1, T], exactly w[k] select member k:
      the draw gives each member a chance proportional to its tickets. */
  lemma PickCount(w: seq<int>, k: nat)
    requires Positive(w) && k < |w|
    ensures |Draws(w, k)| == w[k]
  {
    if k == 0 {
      HeadDraws(w);
      IntervalSize(1, w[0]);
      IntervalMembers(1, w[0]);
      UptoFirst(w);
      UptoLast(w);
      UptoMono(w, 0, |w| - 1);
      assert Sum(w) !in Interval(1, w[0]);
    } else {
      BandDraws(w, k);
      SumStep(w, k);
      assert w[..k] == w[..k - 1 + 1];
      UptoMono(w, k - 1, k);
      IntervalSize(Upto(w, k - 1), Upto(w, k));
    }
  }

  /** m is the largest of -1 and the values of s. */
  predicate IsMaximum(m: int, s: seq<int>)
  {
    m >= -1 && (forall i :: 0 <= i < |s| ==> s[i] <= m)
    && (m == -1 || exists i :: 0 <= i < |s| && s[i] == m)
  }

  /** Taking one more value into a running maximum. */
  lemma MaximumStep(m: int, s: seq<int>, i: nat)
    requires i < |s| && IsMaximum(m, s[..i])
    ensures IsMaximum(if s[i] > m then s[i] else m, s[..i + 1])
  {
    assert s[..i + 1] == s[..i] + [s[i]];
    if s[i] <= m && m != -1 {
      var j :| 0 <= j < i && s[..i][j] == m;
      assert s[..i + 1][j] == m;
    }
  }

  /** Summing a pointwise sum is summing each part. */
  lemma {:induction false} SumPointwise(a: seq<int>, b: seq<int>, c: seq<int>)
    requires |a| == |b| == |c|
    requires forall i :: 0 <= i < |c| ==> c[i] == a[i] + b[i]
    ensures Sum(c) == Sum(a) + Sum(b)
  {
    if c != [] {
      var n := |c| - 1;
      SumPointwise(a[..n], b[..n], c[..n]);
    }
  }

  /** The member a raw random value selects: with T the total of the
      weights, the draw is roll % T + 1, which lies in [1, T] (the same
      value as 1 + roll % T). */
  function Drawn(w: seq<int>, roll: nat): (k: nat)
    requires w != [] && Positive(w)
    ensures k < |w|
  {
    SumAtLeastLength(w);
    Pick(w, roll % Sum(w) + 1)
  }

  /** Changing one value changes the sum by the same amount. */
  lemma {:induction false} SumChange(w: seq<int>, w': seq<int>, k: nat)
    requires |w| == |w'| && k < |w|
    requires forall i :: 0 <= i < |w| && i != k ==> w'[i] == w[i]
    ensures Sum(w') - Sum(w) == w'[k] - w[k]
  {
    var n := |w| - 1;
    if k < n {
      SumChange(w[..n], w'[..n], k);
    } else {
      SumSame(w[..n], w'[..n]);
    }
  }

  lemma {:induction false} SumSame(w: seq<int>, w': seq<int>)
    requires |w| == |w'| && forall i :: 0 <= i < |w| ==> w'[i] == w[i]
    ensures Sum(w') == Sum(w)
  {
    assert w' == w;
  }

  /** Zeros past position n add nothing to the sum. */
  lemma {:induction false} SumZeroTail(w: seq<int>, n: nat)
    requires n <= |w| && forall i :: n <= i < |w| ==> w[i] == 0
    ensures Sum(w) == Sum(w[..n])
    decreases |w|
  {
    if |w| > n {
      var m := |w| - 1;
      assert w[..m][..n] == w[..n];
      SumZeroTail(w[..m], n);
    } else {
      assert w[..n] == w;
    }
  }

  lemma {:induction false} SumNonNegative(w: seq<int>)
    requires forall i :: 0 <= i < |w| ==> w[i] >= 0
    ensures Sum(w) >= 0
  {
    if w != [] {
      SumNonNegative(w[..|w| - 1]);
    }
  }
}

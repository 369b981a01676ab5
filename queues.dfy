/** Ready queues of record indices, shared by both schedulers: index bounds,
    distinctness, the runs of indices admitted together, and removal by
    position. */
module Queues {

  /** Every queue entry is below n. */
  predicate IndicesIn(q: seq<nat>, n: int)
  {
    forall k :: 0 <= k < |q| ==> q[k] < n
  }

  predicate Distinct(q: seq<nat>)
  {
    forall k, l :: 0 <= k < l < |q| ==> q[k] != q[l]
  }

  /** The indices a, a + 1, ..., b - 1 in order. */
  function Range(a: nat, b: nat): seq<nat>
    requires a <= b
    decreases b - a
  {
    if a == b then [] else Range(a, b - 1) + [b - 1]
  }

  lemma {:induction false} RangeMembers(a: nat, b: nat)
    requires a <= b
    ensures forall x :: x in Range(a, b) <==> a <= x < b
    ensures Distinct(Range(a, b))
    decreases b - a
  {
    if a < b {
      RangeMembers(a, b - 1);
      DistinctAppend(Range(a, b - 1), [b - 1], b - 1);
    }
  }

  lemma {:induction false} RangeFacts(a: nat, b: nat)
    requires a <= b
    ensures |Range(a, b)| == b - a
    ensures forall k :: 0 <= k < b - a ==> Range(a, b)[k] == a + k
    decreases b - a
  {
    if a < b { RangeFacts(a, b - 1); }
  }

  lemma DistinctCons(x: nat, r: seq<nat>)
    requires Distinct(r) && x !in r
    ensures Distinct([x] + r)
  {
    var t := [x] + r;
    forall a, b | 0 <= a < b < |t| ensures t[a] != t[b] {
      assert t[b] == r[b - 1];
      if a > 0 { assert t[a] == r[a - 1]; }
    }
  }

  lemma DistinctAppend(q: seq<nat>, r: seq<nat>, f: nat)
    requires Distinct(q) && Distinct(r)
    requires forall x :: x in q ==> x < f
    requires forall x :: x in r ==> x >= f
    ensures Distinct(q + r)
  {
    var t := q + r;
    forall a, b | 0 <= a < b < |t| ensures t[a] != t[b] {
      if a < |q| && b >= |q| {
        assert t[a] in q && t[b] in r;
      }
    }
  }

  /** Removing the entry at position n of a queue of distinct entries
      removes exactly that record and keeps the rest distinct. */
  lemma RemoveAtMembers(d: seq<nat>, n: nat)
    requires Distinct(d) && n < |d|
    ensures forall x :: x in d[..n] + d[n + 1..] <==> x in d && x != d[n]
    ensures Distinct(d[..n] + d[n + 1..])
  {
    var r := d[..n] + d[n + 1..];
    assert forall j :: 0 <= j < |r| ==> r[j] == d[if j < n then j else j + 1];
    forall x | x in d && x != d[n] ensures x in r {
      var j :| 0 <= j < |d| && d[j] == x;
      assert r[if j < n then j else j - 1] == x;
    }
  }
}

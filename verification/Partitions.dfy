/** Sums over a partition of 0..n-1, taken part by part and taken in order. */
module Partitions {
  import opened Transcript

  predicate InSome(parts: seq<seq<int>>, i: int) {
    exists g :: 0 <= g < |parts| && i in parts[g]
  }

  /** The parts are ascending lists that hold every number below `n` once. */
  ghost predicate IsPartition(parts: seq<seq<int>>, n: int) {
    && (forall g :: 0 <= g < |parts| ==> Ascending(parts[g]))
    && (forall g, i :: 0 <= g < |parts| && i in parts[g] ==> 0 <= i < n)
    && (forall i :: 0 <= i < n ==> InSome(parts, i))
    && (forall g, h, i :: 0 <= g < |parts| && 0 <= h < |parts| && i in parts[g] && i in parts[h] ==> g == h)
  }

  /** The sum of the values at those indices of the part that lie below `m`. */
  function SumBelow(values: seq<nat>, part: seq<int>, m: int): nat {
    if part == [] then 0
    else (if 0 <= part[0] < m && part[0] < |values| then values[part[0]] else 0) + SumBelow(values, part[1..], m)
  }

  function SumParts(values: seq<nat>, parts: seq<seq<int>>, m: int): nat {
    if parts == [] then 0 else SumBelow(values, parts[0], m) + SumParts(values, parts[1..], m)
  }

  function Sum(values: seq<nat>): nat {
    if values == [] then 0 else Sum(values[..|values| - 1]) + values[|values| - 1]
  }

  lemma {:induction false} SumBelowGrows(values: seq<nat>, part: seq<int>, m: nat)
    requires m < |values| && Ascending(part)
    ensures SumBelow(values, part, m + 1) == SumBelow(values, part, m) + if m in part then values[m] else 0
  {
    if part != [] {
      SumBelowGrows(values, part[1..], m);
      if part[0] == m {
        assert forall k :: 0 <= k < |part[1..]| ==> part[1..][k] > m;
      }
    }
  }

  lemma {:induction false} SumPartsGrows(values: seq<nat>, parts: seq<seq<int>>, m: nat)
    requires m < |values| && forall g :: 0 <= g < |parts| ==> Ascending(parts[g])
    requires forall g, h :: 0 <= g < |parts| && 0 <= h < |parts| && m in parts[g] && m in parts[h] ==> g == h
    ensures SumParts(values, parts, m + 1)
      == SumParts(values, parts, m) + if InSome(parts, m) then values[m] else 0
  {
    if parts != [] {
      SumBelowGrows(values, parts[0], m);
      var rest := parts[1..];
      assert forall g :: 0 <= g < |rest| ==> rest[g] == parts[g + 1];
      SumPartsGrows(values, rest, m);
      InSomeCons(parts, m);
    }
  }

  lemma InSomeCons(parts: seq<seq<int>>, i: int)
    requires parts != []
    ensures InSome(parts, i) <==> i in parts[0] || InSome(parts[1..], i)
  {
    if InSome(parts[1..], i) {
      var g :| 0 <= g < |parts[1..]| && i in parts[1..][g];
      assert i in parts[g + 1];
    }
    if InSome(parts, i) && i !in parts[0] {
      var g :| 0 <= g < |parts| && i in parts[g];
      assert i in parts[1..][g - 1];
    }
  }

  lemma {:induction false} SumPartsBelow(values: seq<nat>, parts: seq<seq<int>>, m: nat)
    requires m <= |values| && IsPartition(parts, |values|)
    ensures SumParts(values, parts, m) == Sum(values[..m])
  {
    if m == 0 {
      NothingBelow(values, parts);
    } else {
      SumPartsBelow(values, parts, m - 1);
      SumPartsGrows(values, parts, m - 1);
      assert values[..m][..m - 1] == values[..m - 1];
    }
  }

  lemma {:induction false} NothingBelow(values: seq<nat>, parts: seq<seq<int>>)
    ensures SumParts(values, parts, 0) == 0
  {
    if parts != [] {
      NothingInPart(values, parts[0]);
      NothingBelow(values, parts[1..]);
    }
  }

  lemma {:induction false} NothingInPart(values: seq<nat>, part: seq<int>)
    ensures SumBelow(values, part, 0) == 0
  {
    if part != [] {
      NothingInPart(values, part[1..]);
    }
  }

  /** Summing part by part, however the parts interleave, is summing in order. */
  lemma PartitionSum(values: seq<nat>, parts: seq<seq<int>>)
    requires IsPartition(parts, |values|)
    ensures SumParts(values, parts, |values|) == Sum(values)
  {
    SumPartsBelow(values, parts, |values|);
    assert values[..|values|] == values;
  }
}

/** Sums of integer sequences. */
module Sums {
  function Sum(v: seq<int>): int {
    if v == [] then 0 else Sum(v[..|v| - 1]) + v[|v| - 1]
  }

  lemma {:induction false} SumOfZeros(v: seq<int>)
    requires forall i :: 0 <= i < |v| ==> v[i] == 0
    ensures Sum(v) == 0
  {
    if v != [] { SumOfZeros(v[..|v| - 1]); }
  }

  lemma {:induction false} SumAtMost(v: seq<int>, top: int)
    requires forall i :: 0 <= i < |v| ==> v[i] <= top
    ensures Sum(v) <= |v| * top
  {
    if v != [] { SumAtMost(v[..|v| - 1], top); }
  }

  lemma {:induction false} SumAtLeast(v: seq<int>, floor: int)
    requires forall i :: 0 <= i < |v| ==> v[i] >= floor
    ensures Sum(v) >= |v| * floor
  {
    if v != [] { SumAtLeast(v[..|v| - 1], floor); }
  }

  lemma {:induction false} SumWithFloor(v: seq<int>, floor: int, k: nat)
    requires k < |v| && forall i :: 0 <= i < |v| ==> v[i] >= floor
    ensures Sum(v) >= v[k] + (|v| - 1) * floor
  {
    var n := |v| - 1;
    if k < n {
      SumWithFloor(v[..n], floor, k);
      assert (n - 1) * floor + floor == n * floor;
    } else {
      SumAtLeast(v[..n], floor);
    }
  }

  lemma {:induction false} SumChangeOne(u: seq<int>, v: seq<int>, k: nat, delta: int)
    requires |u| == |v| && k < |u|
    requires forall i :: 0 <= i < |u| ==> v[i] == u[i] + (if i == k then delta else 0)
    ensures Sum(v) == Sum(u) + delta
  {
    var n := |u| - 1;
    if k < n {
      SumChangeOne(u[..n], v[..n], k, delta);
    } else {
      assert u[..n] == v[..n];
    }
  }

  lemma {:induction false} SumPointwise(u: seq<int>, v: seq<int>, w: seq<int>)
    requires |u| == |v| == |w| && forall i :: 0 <= i < |u| ==> v[i] == u[i] + w[i]
    ensures Sum(v) == Sum(u) + Sum(w)
  {
    if u != [] {
      var n := |u| - 1;
      SumPointwise(u[..n], v[..n], w[..n]);
    }
  }

  lemma {:induction false} SumSqueeze(u: seq<int>, v: seq<int>)
    requires |u| == |v| && forall i :: 0 <= i < |u| ==> u[i] <= v[i]
    ensures Sum(u) <= Sum(v)
    ensures Sum(u) == Sum(v) ==> u == v
  {
    if u != [] {
      var n := |u| - 1;
      SumSqueeze(u[..n], v[..n]);
      assert u == u[..n] + [u[n]] && v == v[..n] + [v[n]];
    }
  }
}

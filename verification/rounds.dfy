/**
  The arithmetic of weighted round-robin, on vectors of accumulators: candidate `i` has weight
  `w[i]`, the weights add up to `total`, and each turn has one winner.  The scheduler's calls on one list
  are such turns.
*/
module Rounds {
  import opened Sums

  /** In one turn everyone earns their weight and the earliest richest candidate pays the total. */
  ghost predicate Turn(u: seq<int>, v: seq<int>, w: seq<int>, p: nat) {
    && |u| == |v| == |w| && p < |w|
    && (forall i :: 0 <= i < |w| ==> v[i] == u[i] + w[i] - (if i == p then Sum(w) else 0))
    && (forall i :: 0 <= i < |w| ==> u[i] + w[i] <= u[p] + w[p])
    && (forall i :: 0 <= i < p ==> u[i] + w[i] < u[p] + w[p])
  }

  /** Accumulators `us[0], us[1], ...` with winner `ps[k]` between `us[k]` and `us[k + 1]`. */
  ghost predicate Trace(us: seq<seq<int>>, ps: seq<nat>, w: seq<int>) {
    && |us| == |ps| + 1
    && |us[0]| == |w|
    && forall k :: 0 <= k < |ps| ==> Turn(us[k], us[k + 1], w, ps[k])
  }

  ghost predicate Zero(u: seq<int>) {
    forall i :: 0 <= i < |u| ==> u[i] == 0
  }

  ghost predicate Weights(w: seq<int>) {
    Sum(w) > 0 && forall i :: 0 <= i < |w| ==> w[i] >= 0
  }

  lemma TurnKeepsSum(u: seq<int>, v: seq<int>, w: seq<int>, p: nat)
    requires Turn(u, v, w, p)
    ensures Sum(v) == Sum(u)
  {
    var bumped := seq(|w|, i requires 0 <= i < |w| => u[i] + w[i]);
    SumPointwise(u, bumped, w);
    SumChangeOne(bumped, v, p, -Sum(w));
  }

  /** Without net credit the richest candidate owns something. */
  lemma WinnerIsRich(u: seq<int>, v: seq<int>, w: seq<int>, p: nat)
    requires Turn(u, v, w, p) && Sum(w) > 0 && Sum(u) == 0
    ensures u[p] + w[p] > 0
  {
    var bumped := seq(|w|, i requires 0 <= i < |w| => u[i] + w[i]);
    SumPointwise(u, bumped, w);
    if u[p] + w[p] <= 0 { SumAtMost(bumped, 0); }
  }

  /** `k * x` by repeated addition: keeps the induction below linear. */
  ghost function Times(k: nat, x: int): int {
    if k == 0 then 0 else Times(k - 1, x) + x
  }

  lemma {:induction false} TimesIsProduct(k: nat, x: int)
    ensures Times(k, x) == k * x
  {
    if k > 0 { TimesIsProduct(k - 1, x); }
  }

  ghost function Won(ps: seq<nat>, i: nat): nat {
    multiset(ps)[i]
  }

  lemma {:induction false} AccountByTimes(us: seq<seq<int>>, ps: seq<nat>, w: seq<int>, k: nat, i: nat)
    requires Trace(us, ps, w) && Weights(w) && Zero(us[0]) && k <= |ps| && i < |w|
    ensures |us[k]| == |w| && Sum(us[k]) == 0
    ensures us[k][i] == Times(k, w[i]) - Times(Won(ps[..k], i), Sum(w))
    ensures us[k][i] + Sum(w) > 0
  {
    if k == 0 {
      SumOfZeros(us[0]);
    } else {
      AccountByTimes(us, ps, w, k - 1, i);
      var u, v, p := us[k - 1], us[k - 1 + 1], ps[k - 1];
      assert Turn(u, v, w, p);
      TurnKeepsSum(u, v, w, p);
      WinnerIsRich(u, v, w, p);
      assert ps[..k] == ps[..k - 1] + [p];
    }
  }

  /** After `k` turns from zero, candidate `i` has earned `k*w[i]` and paid the total once per win. */
  lemma Account(us: seq<seq<int>>, ps: seq<nat>, w: seq<int>, k: nat, i: nat)
    requires Trace(us, ps, w) && Weights(w) && Zero(us[0]) && k <= |ps| && i < |w|
    ensures |us[k]| == |w| && Sum(us[k]) == 0
    ensures us[k][i] == k * w[i] - Won(ps[..k], i) * Sum(w)
    ensures us[k][i] + Sum(w) > 0
  {
    AccountByTimes(us, ps, w, k, i);
    TimesIsProduct(k, w[i]);
    TimesIsProduct(Won(ps[..k], i), Sum(w));
  }

  function Counts(ps: seq<nat>, n: nat): (v: seq<int>)
    ensures |v| == n && forall i :: 0 <= i < n ==> v[i] == multiset(ps)[i]
  {
    seq(n, i requires 0 <= i < n => multiset(ps)[i])
  }

  lemma {:induction false} CountsAddUp(ps: seq<nat>, n: nat)
    requires forall k :: 0 <= k < |ps| ==> ps[k] < n
    ensures Sum(Counts(ps, n)) == |ps|
  {
    if ps == [] {
      SumOfZeros(Counts(ps, n));
    } else {
      var init, last := ps[..|ps| - 1], ps[|ps| - 1];
      assert ps == init + [last];
      CountsAddUp(init, n);
      SumChangeOne(Counts(init, n), Counts(ps, n), last, 1);
    }
  }

  lemma AtMostItsShare(total: nat, weight: int, count: nat)
    requires total > 0 && total * weight - count * total + total > 0
    ensures count <= weight
  {
    NonNegative(total, if count > weight then count - weight - 1 else 0);
  }

  lemma NonNegative(a: nat, b: nat)
    ensures a * b >= 0
  {
  }

  /** After `Sum(w)` turns nobody has won more than their weight, and whoever won exactly that is at 0. */
  lemma {:induction false} ShareAtCycle(us: seq<seq<int>>, ps: seq<nat>, w: seq<int>, i: nat)
    requires Trace(us, ps, w) && Weights(w) && Zero(us[0]) && Sum(w) <= |ps| && i < |w|
    ensures Won(ps[..Sum(w)], i) <= w[i]
    ensures |us[Sum(w)]| == |w| && (Won(ps[..Sum(w)], i) == w[i] ==> us[Sum(w)][i] == 0)
  {
    Account(us, ps, w, Sum(w), i);
    AtMostItsShare(Sum(w), w[i], Won(ps[..Sum(w)], i));
  }

  /** A full cycle of `Sum(w)` turns serves everyone exactly their weight and clears all accounts. */
  lemma {:induction false} FullCycle(us: seq<seq<int>>, ps: seq<nat>, w: seq<int>)
    requires Trace(us, ps, w) && Weights(w) && Zero(us[0]) && Sum(w) <= |ps|
    ensures Counts(ps[..Sum(w)], |w|) == w
    ensures Zero(us[Sum(w)])
  {
    var total := Sum(w);
    var counts := Counts(ps[..total], |w|);
    forall i | 0 <= i < |w| ensures counts[i] <= w[i] {
      ShareAtCycle(us, ps, w, i);
    }
    forall k | 0 <= k < total ensures ps[k] < |w| {
      assert Turn(us[k], us[k + 1], w, ps[k]);
    }
    CountsAddUp(ps[..total], |w|);
    SumSqueeze(counts, w);
    assert |w| > 0;
    ShareAtCycle(us, ps, w, 0);
    forall i | 0 <= i < |us[total]| ensures us[total][i] == 0 {
      ShareAtCycle(us, ps, w, i);
      assert counts[i] == w[i];
    }
  }

  lemma TurnIsDeterministic(u: seq<int>, v: seq<int>, w: seq<int>, p: nat, v': seq<int>, p': nat)
    requires Turn(u, v, w, p) && Turn(u, v', w, p')
    ensures p == p' && v == v'
  {
  }

  lemma {:induction false} TraceIsDeterministic(
    us: seq<seq<int>>, ps: seq<nat>, us': seq<seq<int>>, ps': seq<nat>, w: seq<int>, k: nat)
    requires Trace(us, ps, w) && Trace(us', ps', w) && us[0] == us'[0]
    requires k <= |ps| && k <= |ps'|
    ensures us[k] == us'[k] && ps[..k] == ps'[..k]
  {
    if k > 0 {
      TraceIsDeterministic(us, ps, us', ps', w, k - 1);
      assert Turn(us[k - 1], us[k - 1 + 1], w, ps[k - 1]) && Turn(us'[k - 1], us'[k - 1 + 1], w, ps'[k - 1]);
      TurnIsDeterministic(us[k - 1], us[k], w, ps[k - 1], us'[k], ps'[k - 1]);
      assert ps[..k] == ps[..k - 1] + [ps[k - 1]] && ps'[..k] == ps'[..k - 1] + [ps'[k - 1]];
    }
  }

  lemma TraceGrows(us: seq<seq<int>>, ps: seq<nat>, w: seq<int>, v: seq<int>, p: nat)
    requires Trace(us, ps, w) && Turn(us[|ps|], v, w, p)
    ensures Trace(us + [v], ps + [p], w)
  {
    var us', ps' := us + [v], ps + [p];
    forall k | 0 <= k < |ps'| ensures Turn(us'[k], us'[k + 1], w, ps'[k]) {
      if k < |ps| { assert Turn(us[k], us[k + 1], w, ps[k]); }
    }
  }

  /** Every window of `Sum(w)` turns, wherever it starts, serves candidate `i` exactly `w[i]` times. */
  lemma {:induction false} Window(us: seq<seq<int>>, ps: seq<nat>, w: seq<int>, start: nat, i: nat)
    requires Trace(us, ps, w) && Weights(w) && Zero(us[0]) && start + Sum(w) == |ps| && i < |w|
    ensures Won(ps[start..], i) == w[i]
  {
    var total := Sum(w);
    FullCycle(us, ps, w);
    AccountByTimes(us, ps, w, total, i);
    if total > 0 { assert Turn(us[total - 1], us[total - 1 + 1], w, ps[total - 1]); }
    forall j | 0 <= j < |ps[total..]| ensures Turn(us[total..][j], us[total..][j + 1], w, ps[total..][j]) {
      assert Turn(us[total + j], us[total + j + 1], w, ps[total + j]);
    }
    assert us[total] == us[0];
    TraceIsDeterministic(us, ps, us[total..], ps[total..], w, start);
    assert ps[total..][..start] == ps[total..];
    assert Counts(ps[..total], |w|)[i] == w[i];
    Rotation(ps, start, total, i);
  }

  /** If the part after `total` turns repeats the first `start`, the two cuts leave equal counts. */
  lemma Rotation(ps: seq<nat>, start: nat, total: nat, i: nat)
    requires start + total == |ps| && ps[total..] == ps[..start]
    ensures Won(ps[start..], i) == Won(ps[..total], i)
  {
    assert ps == ps[..total] + ps[total..] == ps[..start] + ps[start..];
    WonConcat(ps[..total], ps[total..], i);
    WonConcat(ps[..start], ps[start..], i);
  }

  lemma WonConcat(a: seq<nat>, b: seq<nat>, i: nat)
    ensures Won(a + b, i) == Won(a, i) + Won(b, i)
  {
    assert multiset(a + b) == multiset(a) + multiset(b);
  }

  /** No account ever falls to minus the total weight. */
  lemma Floor(us: seq<seq<int>>, ps: seq<nat>, w: seq<int>, k: nat)
    requires Trace(us, ps, w) && Weights(w) && Zero(us[0]) && k <= |ps|
    ensures |us[k]| == |w| && Sum(us[k]) == 0
    ensures forall j :: 0 <= j < |w| ==> us[k][j] >= 1 - Sum(w)
  {
    assert |w| > 0;
    AccountByTimes(us, ps, w, k, 0);
    forall j | 0 <= j < |w| ensures us[k][j] >= 1 - Sum(w) {
      AccountByTimes(us, ps, w, k, j);
    }
  }

  /** So none can rise above what all the others could owe together. */
  lemma Ceiling(us: seq<seq<int>>, ps: seq<nat>, w: seq<int>, k: nat, i: nat)
    requires Trace(us, ps, w) && Weights(w) && Zero(us[0]) && k <= |ps| && i < |w|
    ensures |us[k]| == |w| && us[k][i] <= (|w| - 1) * (Sum(w) - 1)
  {
    Floor(us, ps, w, k);
    BalancedCeiling(us[k], |w|, Sum(w), i, (|w| - 1) * (Sum(w) - 1));
  }

  lemma BalancedCeiling(v: seq<int>, n: nat, total: int, i: nat, top: int)
    requires i < |v| == n && Sum(v) == 0 && forall j :: 0 <= j < n ==> v[j] >= 1 - total
    requires top == (n - 1) * (total - 1)
    ensures v[i] <= top
  {
    SumWithFloor(v, 1 - total, i);
    assert (n - 1) * (1 - total) == -((n - 1) * (total - 1));
  }
}

/** How far accumulators can drift apart in one table when every call is on another list. */
module Drift {
  import opened Scheduler
  import opened Sums
  import opened Wrappers

  // Keys cool down and come back, and blocks serve several models.  No call is repeated, so no cycle keeps the
  // accumulators in check; what does is that the winner pays whatever all candidates of its call earn.

  /** A list of distinct candidates from `ids` whose weights add up to at most `top`. */
  ghost predicate Admissible(cs: seq<Candidate>, ids: seq<Id>, top: nat) {
    Distinct(cs) && Total(cs) <= top && forall i :: 0 <= i < |cs| ==> cs[i].id in ids
  }

  ghost predicate AllAdmissible(lists: seq<seq<Candidate>>, ids: seq<Id>, top: nat) {
    forall l :: 0 <= l < |lists| ==> Admissible(lists[l], ids, top)
  }

  /** Some of `ids`, each once. */
  ghost predicate Group(group: seq<Id>, ids: seq<Id>) {
    NoDuplicates(group) && forall id :: id in group ==> id in ids
  }

  /** What a group has, all accumulators together. */
  function Balance(m: Currents, group: seq<Id>): int {
    Sum(Values(m, group))
  }

  /** Twice what `k` of `n` ids can have together. */
  function Limit(n: nat, k: int, top: nat): int {
    k * (n - k) * top
  }

  ghost predicate Bounded(m: Currents, ids: seq<Id>, top: nat) {
    forall group :: Group(group, ids) ==> 2 * Balance(m, group) <= Limit(|ids|, |group|, top)
  }

  // ---------- groups ----------

  function Inside(group: seq<Id>, chosen: set<Id>): (inside: seq<Id>)
    ensures forall id :: id in inside <==> id in group && id in chosen
  {
    if group == [] then []
    else (if group[0] in chosen then [group[0]] else []) + Inside(group[1..], chosen)
  }

  function Outside(group: seq<Id>, chosen: set<Id>): (outside: seq<Id>)
    ensures forall id :: id in outside <==> id in group && id !in chosen
  {
    if group == [] then []
    else (if group[0] in chosen then [] else [group[0]]) + Outside(group[1..], chosen)
  }

  lemma {:induction false} PartsHaveNoDuplicates(group: seq<Id>, chosen: set<Id>)
    requires NoDuplicates(group)
    ensures NoDuplicates(Inside(group, chosen)) && NoDuplicates(Outside(group, chosen))
    ensures |Inside(group, chosen)| + |Outside(group, chosen)| == |group|
  {
    if group != [] {
      PartsHaveNoDuplicates(group[1..], chosen);
    }
  }

  lemma {:induction false} SumConcat(u: seq<int>, v: seq<int>)
    ensures Sum(u + v) == Sum(u) + Sum(v)
  {
    if v == [] {
      assert u + v == u;
    } else {
      assert (u + v)[..|u + v| - 1] == u + v[..|v| - 1];
      SumConcat(u, v[..|v| - 1]);
    }
  }

  lemma BalanceConcat(m: Currents, a: seq<Id>, b: seq<Id>)
    ensures Balance(m, a + b) == Balance(m, a) + Balance(m, b)
  {
    assert Values(m, a + b) == Values(m, a) + Values(m, b);
    SumConcat(Values(m, a), Values(m, b));
  }

  lemma BalanceOfOne(m: Currents, id: Id)
    ensures Balance(m, [id]) == Current(m, id) && Balance(m, []) == 0
  {
    assert Values(m, [id]) == [Current(m, id)] && [Current(m, id)][..0] == [];
    assert Values(m, []) == [] && Sum([]) == 0;
  }

  lemma {:induction false} BalanceOfParts(m: Currents, group: seq<Id>, chosen: set<Id>)
    ensures Balance(m, group) == Balance(m, Inside(group, chosen)) + Balance(m, Outside(group, chosen))
  {
    if group != [] {
      BalanceOfParts(m, group[1..], chosen);
      BalanceOfOne(m, group[0]);
      assert group == [group[0]] + group[1..];
      BalanceConcat(m, [group[0]], group[1..]);
      BalanceConcat(m, if group[0] in chosen then [group[0]] else [], Inside(group[1..], chosen));
      BalanceConcat(m, if group[0] in chosen then [] else [group[0]], Outside(group[1..], chosen));
    } else {
      BalanceOfOne(m, Id(""));
    }
  }

  // ---------- one call ----------

  /** Candidates earn the total together, and a group no more than that. */
  lemma {:induction false} ScanAddsAtMost(m: Currents, cs: seq<Candidate>, group: seq<Id>)
    requires NoDuplicates(group)
    ensures Balance(ScanAll(m, cs).currents, group) <= Balance(m, group) + Total(cs)
  {
    if cs != [] {
      var init, last := cs[..|cs| - 1], cs[|cs| - 1];
      ScanAddsAtMost(m, init, group);
      if last.id in group {
        VisitAddsWeight(ScanAll(m, init), last, group);
      } else {
        assert Values(Visit(ScanAll(m, init), last).currents, group) == Values(ScanAll(m, init).currents, group);
      }
    }
  }

  /** A group with the winner in it never gains. */
  lemma WinnersGroupPays(m: Currents, cs: seq<Candidate>, group: seq<Id>)
    requires NoDuplicates(group) && Total(cs) > 0 && Chosen(m, cs).value in group
    ensures Balance(Next(m, cs), group) <= Balance(m, group)
  {
    ScanAddsAtMost(m, cs, group);
    SumAfterPaying(ScanAll(m, cs), Total(cs), group);
  }

  /** What a call with winner `p` does, as `PickEffect` says. */
  ghost predicate CallEffect(m: Currents, cs: seq<Candidate>, p: nat) {
    && p < |cs|
    && (forall i :: 0 <= i < |cs| ==>
          Current(Next(m, cs), cs[i].id) == Bid(m, cs, i) - (if i == p then Total(cs) else 0))
    && (forall id :: !Mentions(cs, id) ==> Current(Next(m, cs), id) == Current(m, id))
  }

  /** A group without the winner: its candidates are left with at most the winner's bid each. */
  lemma {:induction false} OthersAreOutbid(m: Currents, cs: seq<Candidate>, p: nat, group: seq<Id>, bidders: set<Id>)
    requires Wins(m, cs, p) && bidders == (set i | 0 <= i < |cs| :: cs[i].id)
    requires CallEffect(m, cs, p) && cs[p].id !in group
    ensures Balance(Next(m, cs), Inside(group, bidders)) <= |Inside(group, bidders)| * Bid(m, cs, p)
    ensures Balance(Next(m, cs), Outside(group, bidders)) == Balance(m, Outside(group, bidders))
  {
    var inside, outside := Inside(group, bidders), Outside(group, bidders);
    forall k | 0 <= k < |inside| ensures Values(Next(m, cs), inside)[k] <= Bid(m, cs, p) {
      assert inside[k] in inside;
      var i :| 0 <= i < |cs| && cs[i].id == inside[k];
    }
    SumAtMost(Values(Next(m, cs), inside), Bid(m, cs, p));
    forall k | 0 <= k < |outside| ensures Values(Next(m, cs), outside)[k] == Values(m, outside)[k] {
      assert outside[k] in outside;
      assert !Mentions(cs, outside[k]);
    }
    assert Values(Next(m, cs), outside) == Values(m, outside);
  }

  lemma Scale(factor: nat, a: int, b: int)
    requires a <= b
    ensures factor * a <= factor * b
  {
  }

  /** The limit bends enough: its weighted mean at `k + 1` and `k - q` is low enough for what a call moves. */
  lemma LimitBends(n: nat, k: nat, q: nat, top: nat)
    ensures q * Limit(n, k + 1, top) + Limit(n, k - q, top) + 2 * (q * top) <= (q + 1) * Limit(n, k, top)
  {
    Bends(n, k, q);
  }

  lemma Bends(n: int, k: int, q: nat)
    ensures q * ((k + 1) * (n - (k + 1))) + (k - q) * (n - (k - q)) + 2 * q <= (q + 1) * (k * (n - k))
  {
    var here := k * (n - k);
    assert (k + 1) * (n - (k + 1)) == here + (n - 2 * k - 1);
    assert (k - q) * (n - (k - q)) == here - q * (n - 2 * k) - q * q;
    assert q * (here + (n - 2 * k - 1)) == q * here + q * (n - 2 * k) - q;
    if q > 0 { Scale(q, 1, q); }
  }

  /** The two bounds on a group without the winner, weighed against each other. */
  lemma Weigh(
    after: int, joined: int, outside: int, bid: int, total: int, n: nat, k: nat, q: nat, top: nat)
    requires after <= joined - bid + total && total <= top && 2 * joined <= Limit(n, k + 1, top)
    requires after <= q * bid + outside && 2 * outside <= Limit(n, k - q, top)
    ensures 2 * after <= Limit(n, k, top)
  {
    LimitBends(n, k, q, top);
    Double(q, bid);
    Double(q, top);
    WeighNumbers(2 * after, Limit(n, k + 1, top), Limit(n, k - q, top), Limit(n, k, top), 2 * bid, q, 2 * top);
  }

  lemma Double(q: nat, x: int)
    ensures q * (2 * x) == 2 * (q * x)
  {
  }

  lemma WeighNumbers(after: int, above: int, below: int, here: int, bid: int, q: nat, top: int)
    requires after <= above - bid + top && after <= q * bid + below
    requires q * above + below + q * top <= (q + 1) * here
    ensures after <= here
  {
    Scale(q, after, above - bid + top);
    assert q * (above - bid + top) == q * above - q * bid + q * top;
    assert (q + 1) * after == q * after + after;
    if after > here { Scale(q + 1, here + 1, after); }
  }

  lemma RestIsGroup(group: seq<Id>, ids: seq<Id>, chosen: set<Id>)
    requires Group(group, ids)
    ensures Group(Outside(group, chosen), ids)
    ensures |Outside(group, chosen)| == |group| - |Inside(group, chosen)|
  {
    PartsHaveNoDuplicates(group, chosen);
  }

  /** The two bounds on what a group without the winner has left after a call, in terms of two other groups. */
  lemma LosersBounds(m: Currents, cs: seq<Candidate>, ids: seq<Id>, p: nat, group: seq<Id>)
    returns (joined: seq<Id>, outside: seq<Id>, q: nat)
    requires Wins(m, cs, p) && Total(cs) > 0 && Group(group, ids)
    requires CallEffect(m, cs, p) && Chosen(m, cs) == Some(cs[p].id) && cs[p].id !in group && cs[p].id in ids
    ensures Group(joined, ids) && |joined| == |group| + 1 && Group(outside, ids) && |outside| == |group| - q
    ensures Balance(Next(m, cs), group) <= Balance(m, joined) - Bid(m, cs, p) + Total(cs)
    ensures Balance(Next(m, cs), group) <= q * Bid(m, cs, p) + Balance(m, outside)
  {
    var bidders := set i | 0 <= i < |cs| :: cs[i].id;
    joined, outside, q := group + [cs[p].id], Outside(group, bidders), |Inside(group, bidders)|;
    WinnersGroupPays(m, cs, joined);
    BalanceConcat(Next(m, cs), group, [cs[p].id]);
    BalanceOfOne(Next(m, cs), cs[p].id);
    RestIsGroup(group, ids, bidders);
    OthersAreOutbid(m, cs, p, group, bidders);
    BalanceOfParts(Next(m, cs), group, bidders);
  }

  /** What a group has left after a call on any admissible list. */
  lemma GroupStep(m: Currents, cs: seq<Candidate>, ids: seq<Id>, top: nat, group: seq<Id>)
    requires Bounded(m, ids, top) && Admissible(cs, ids, top) && Total(cs) > 0 && Group(group, ids)
    ensures 2 * Balance(Next(m, cs), group) <= Limit(|ids|, |group|, top)
  {
    var p := PickEffect(m, cs);
    if cs[p].id in group {
      WinnersGroupPays(m, cs, group);
    } else {
      var joined, outside, q := LosersBounds(m, cs, ids, p, group);
      WeighGroups(m, ids, top, joined, outside, Balance(Next(m, cs), group), Bid(m, cs, p), Total(cs), |group|, q);
    }
  }

  lemma WeighGroups(
    m: Currents, ids: seq<Id>, top: nat, joined: seq<Id>, outside: seq<Id>, after: int, bid: int, total: int, k: nat,
    q: nat)
    requires Bounded(m, ids, top) && Group(joined, ids) && Group(outside, ids)
    requires |joined| == k + 1 && |outside| == k - q && total <= top
    requires after <= Balance(m, joined) - bid + total && after <= q * bid + Balance(m, outside)
    ensures 2 * after <= Limit(|ids|, k, top)
  {
    Weigh(after, Balance(m, joined), Balance(m, outside), bid, total, |ids|, k, q, top);
  }

  lemma CallKeepsBound(m: Currents, cs: seq<Candidate>, ids: seq<Id>, top: nat)
    requires Bounded(m, ids, top) && Admissible(cs, ids, top)
    ensures Bounded(Next(m, cs), ids, top)
  {
    if Total(cs) > 0 {
      forall group | Group(group, ids) ensures 2 * Balance(Next(m, cs), group) <= Limit(|ids|, |group|, top) {
        GroupStep(m, cs, ids, top, group);
      }
    }
  }

  // ---------- any run ----------

  lemma {:induction false} SameLength(a: seq<Id>, b: seq<Id>)
    requires NoDuplicates(a) && forall id :: id in a ==> id in b
    ensures |a| <= |b|
  {
    if a != [] {
      assert a[0] in a;
      var k :| 0 <= k < |b| && b[k] == a[0];
      var others := b[..k] + b[k + 1..];
      forall id | id in a[1..] ensures id in others {
        assert id in a && id != a[0];
        var i :| 0 <= i < |b| && b[i] == id;
        assert if i < k then others[i] == id else others[i - 1] == id;
      }
      SameLength(a[1..], others);
    }
  }

  lemma LimitNotNegative(n: nat, k: nat, top: nat)
    requires k <= n
    ensures Limit(n, k, top) >= 0
  {
    Scale(k, 0, n - k);
    Scale(top, 0, k * (n - k));
  }

  lemma {:induction false} RunIsBounded(lists: seq<seq<Candidate>>, ids: seq<Id>, top: nat)
    requires AllAdmissible(lists, ids, top)
    ensures Bounded(PickMany(map[], lists), ids, top)
  {
    if lists == [] {
      forall group | Group(group, ids) ensures 2 * Balance(map[], group) <= Limit(|ids|, |group|, top) {
        SumOfZeros(Values(map[], group));
        SameLength(group, ids);
        LimitNotNegative(|ids|, |group|, top);
      }
    } else {
      var init, list := lists[..|lists| - 1], lists[|lists| - 1];
      assert AllAdmissible(init, ids, top);
      RunIsBounded(init, ids, top);
      CallKeepsBound(PickMany(map[], init), list, ids, top);
    }
  }

  /** A group and the rest of the ids have opposite balances. */
  lemma RestOwes(lists: seq<seq<Candidate>>, ids: seq<Id>, top: nat, group: seq<Id>)
    requires NoDuplicates(ids) && AllAdmissible(lists, ids, top) && Group(group, ids)
    ensures var rest := Outside(ids, set id | id in group);
      && Group(rest, ids) && |group| + |rest| == |ids|
      && Balance(PickMany(map[], lists), group) + Balance(PickMany(map[], lists), rest) == 0
  {
    var members := set id | id in group;
    var rest := Outside(ids, members);
    PartsHaveNoDuplicates(ids, members);
    SameLength(group, Inside(ids, members));
    SameLength(Inside(ids, members), group);
    var all := group + rest;
    forall i, j | 0 <= i < j < |group + rest| ensures (group + rest)[i] != (group + rest)[j] {
      if i < |group| <= j { assert group[i] in group && rest[j - |group|] in rest; }
    }
    assert forall l, i :: 0 <= l < |lists| && 0 <= i < |lists[l]| ==> lists[l][i].id in all by {
      forall l, i | 0 <= l < |lists| && 0 <= i < |lists[l]| ensures lists[l][i].id in all {
        assert Admissible(lists[l], ids, top);
        assert lists[l][i].id in members || lists[l][i].id in rest;
      }
    }
    AnyRunSumsToZero(lists, all);
    BalanceConcat(PickMany(map[], lists), group, rest);
  }

  lemma NotAbove(lists: seq<seq<Candidate>>, ids: seq<Id>, top: nat, group: seq<Id>)
    requires AllAdmissible(lists, ids, top) && Group(group, ids)
    ensures 2 * Balance(PickMany(map[], lists), group) <= Limit(|ids|, |group|, top)
  {
    RunIsBounded(lists, ids, top);
  }

  /**
    DRIFT.  After any run of calls on changing lists of distinct candidates from `n` ids, each of total at
    most `top`, any `k` of the ids together are within `k * (n - k) * top / 2` of zero.
  */
  lemma DriftIsBounded(lists: seq<seq<Candidate>>, ids: seq<Id>, top: nat, group: seq<Id>)
    requires NoDuplicates(ids) && AllAdmissible(lists, ids, top) && Group(group, ids)
    ensures -Limit(|ids|, |group|, top) <= 2 * Balance(PickMany(map[], lists), group) <= Limit(|ids|, |group|, top)
  {
    var rest := Outside(ids, set id | id in group);
    RestOwes(lists, ids, top, group);
    NotAbove(lists, ids, top, group);
    NotAbove(lists, ids, top, rest);
    LimitMirrors(|ids|, |group|, top);
  }

  lemma LimitMirrors(n: nat, k: nat, top: nat)
    ensures Limit(n, n - k, top) == Limit(n, k, top)
  {
    assert (n - k) * (n - (n - k)) == k * (n - k);
  }

  /** So one accumulator is within `(n - 1) * top / 2`, however long the run. */
  lemma AccumulatorIsBounded(lists: seq<seq<Candidate>>, ids: seq<Id>, top: nat, id: Id)
    requires NoDuplicates(ids) && AllAdmissible(lists, ids, top) && id in ids
    ensures -((|ids| - 1) * top) <= 2 * Current(PickMany(map[], lists), id) <= (|ids| - 1) * top
  {
    BalanceOfOne(PickMany(map[], lists), id);
    DriftIsBounded(lists, ids, top, [id]);
  }

  /** For two ids the bound is reached. */
  lemma {:induction false} BoundIsReached(lists: seq<seq<Candidate>>, a: Id, b: Id, weight: nat)
    requires a != b && lists == [[Candidate(a, weight), Candidate(b, weight)]]
    ensures AllAdmissible(lists, [a, b], 2 * weight)
    ensures 2 * Current(PickMany(map[], lists), b) == (|[a, b]| - 1) * (2 * weight)
  {
    var cs := lists[0];
    assert cs[..1] == [Candidate(a, weight)] && cs[..1][..0] == [] && lists[..0] == [];
    assert Total([Candidate(a, weight)]) == weight by { assert [Candidate(a, weight)][..0] == []; }
    assert Total(cs) == 2 * weight;
    assert cs[0].id in [a, b] && cs[1].id in [a, b];
    assert PickMany(map[], lists) == Next(map[], cs);
    if weight > 0 {
      var p := PickEffect(map[], cs);
      assert Bid(map[], cs, 0) == weight == Bid(map[], cs, 1);
      assert cs[1].id == b;
    }
  }
}

/** Smooth weighted round-robin (`UpstreamState::pick`). */
module Scheduler {
  import opened Rounds
  import opened Sums
  import opened Wrappers

  /** A block or key id with its scheduling weight (a `u32` in the source). */
  datatype Candidate = Candidate(id: Id, weight: nat)

  type Currents = map<Id, int>

  function Total(cs: seq<Candidate>): nat {
    if cs == [] then 0 else Total(cs[..|cs| - 1]) + cs[|cs| - 1].weight
  }

  /** The accumulator of `id`; an id that was never scheduled counts as 0. */
  function Current(m: Currents, id: Id): int {
    if id in m then m[id] else 0
  }

  // ---------- one call ----------

  // `Chosen` and `Next` are one call on the table of signed accumulators; the class in `upstream_state.dfy` runs
  // the same call as a loop over the stored table.  The theorems below are about any number of calls.

  /** What the loop of `pick` carries from candidate to candidate. */
  datatype Scan = Scan(currents: Currents, best: Option<(Id, int)>)

  function Visit(s: Scan, c: Candidate): Scan {
    var value := Current(s.currents, c.id) + c.weight;
    Scan(s.currents[c.id := value],
         if s.best.None? || value > s.best.value.1 then Some((c.id, value)) else s.best)
  }

  function ScanAll(m: Currents, cs: seq<Candidate>): (s: Scan)
    ensures cs == [] <==> s.best.None?
    ensures s.best.Some? ==> s.best.value.0 in s.currents
  {
    if cs == [] then Scan(m, None) else Visit(ScanAll(m, cs[..|cs| - 1]), cs[|cs| - 1])
  }

  /** The best candidate pays the total. */
  function Paid(s: Scan, total: nat): Currents
    requires s.best.Some? && s.best.value.0 in s.currents
  {
    s.currents[s.best.value.0 := s.currents[s.best.value.0] - total]
  }

  /** One call: the id it chooses, if any ... */
  function Chosen(m: Currents, cs: seq<Candidate>): Option<Id> {
    if Total(cs) == 0 then None else Some(ScanAll(m, cs).best.value.0)
  }

  /** ... and the table it leaves behind. */
  function Next(m: Currents, cs: seq<Candidate>): Currents {
    if Total(cs) == 0 then m else Paid(ScanAll(m, cs), Total(cs))
  }

  // ---------- what one call does ----------

  ghost predicate Distinct(cs: seq<Candidate>) {
    forall i, j :: 0 <= i < j < |cs| ==> cs[i].id != cs[j].id
  }

  ghost predicate Mentions(cs: seq<Candidate>, id: Id) {
    exists i :: 0 <= i < |cs| && cs[i].id == id
  }

  /** The value candidate `i` competes with: its accumulator plus its weight. */
  ghost function Bid(m: Currents, cs: seq<Candidate>, i: nat): int
    requires i < |cs|
  {
    Current(m, cs[i].id) + cs[i].weight
  }

  /** `p` is the earliest candidate with the highest bid. */
  ghost predicate Wins(m: Currents, cs: seq<Candidate>, p: nat) {
    && p < |cs|
    && (forall i :: 0 <= i < |cs| ==> Bid(m, cs, i) <= Bid(m, cs, p))
    && (forall i :: 0 <= i < p ==> Bid(m, cs, i) < Bid(m, cs, p))
  }

  /** The scan has bid for every candidate, and `p` is its winner. */
  ghost predicate Scanned(m: Currents, cs: seq<Candidate>, s: Scan, p: nat) {
    && Wins(m, cs, p)
    && s.best == Some((cs[p].id, Bid(m, cs, p)))
    && forall i :: 0 <= i < |cs| ==> Current(s.currents, cs[i].id) == Bid(m, cs, i)
  }

  lemma {:induction false} ScanIsArgMax(m: Currents, cs: seq<Candidate>) returns (p: nat)
    requires Distinct(cs) && cs != []
    ensures Scanned(m, cs, ScanAll(m, cs), p)
  {
    var n := |cs| - 1;
    var init := cs[..n];
    assert !Mentions(init, cs[n].id);
    ScanFrame(m, init, cs[n].id);
    if init == [] {
      p := 0;
    } else {
      var q := ScanIsArgMax(m, init);
      p := VisitKeepsWinner(m, cs, n, ScanAll(m, init), q);
    }
  }

  lemma VisitKeepsWinner(m: Currents, cs: seq<Candidate>, n: nat, s: Scan, q: nat) returns (p: nat)
    requires Distinct(cs) && 0 < n == |cs| - 1 && Scanned(m, cs[..n], s, q)
    requires Current(s.currents, cs[n].id) == Current(m, cs[n].id)
    ensures Scanned(m, cs, Visit(s, cs[n]), p)
  {
    p := if Bid(m, cs, n) > Bid(m, cs, q) then n else q;
    forall i | 0 <= i < n
      ensures Bid(m, cs, i) == Bid(m, cs[..n], i) == Current(s.currents, cs[i].id)
    {
      assert cs[..n][i] == cs[i];
    }
  }

  /** Scanning leaves every id outside the list alone. */
  lemma {:induction false} ScanFrame(m: Currents, cs: seq<Candidate>, id: Id)
    requires !Mentions(cs, id)
    ensures Current(ScanAll(m, cs).currents, id) == Current(m, id)
    ensures id in ScanAll(m, cs).currents <==> id in m
  {
    if cs != [] {
      var init := cs[..|cs| - 1];
      assert cs[|cs| - 1].id != id;
      assert forall i :: 0 <= i < |init| ==> init[i] == cs[i];
      ScanFrame(m, init, id);
    }
  }

  /**
    The full effect of a call on distinct candidates: the earliest highest bidder wins and pays the
    total weight, every candidate collects its own weight, and nothing else is touched.
  */
  lemma PickEffect(m: Currents, cs: seq<Candidate>) returns (p: nat)
    requires Distinct(cs) && Total(cs) > 0
    ensures Wins(m, cs, p) && Chosen(m, cs) == Some(cs[p].id)
    ensures forall i :: 0 <= i < |cs| ==>
      Current(Next(m, cs), cs[i].id) == Bid(m, cs, i) - (if i == p then Total(cs) else 0)
    ensures forall id :: !Mentions(cs, id) ==>
      Current(Next(m, cs), id) == Current(m, id) && (id in Next(m, cs) <==> id in m)
  {
    p := ScanIsArgMax(m, cs);
    forall id | !Mentions(cs, id)
      ensures Current(Next(m, cs), id) == Current(m, id) && (id in Next(m, cs) <==> id in m)
    {
      ScanFrame(m, cs, id);
      assert cs[p].id != id;
    }
  }

  lemma WinnerIsUnique(m: Currents, n: Currents, cs: seq<Candidate>, p: nat, q: nat)
    requires Wins(m, cs, p) && Wins(n, cs, q)
    requires forall i :: 0 <= i < |cs| ==> Current(m, cs[i].id) == Current(n, cs[i].id)
    ensures p == q
  {
    assert Bid(m, cs, p) == Bid(n, cs, p) && Bid(m, cs, q) == Bid(n, cs, q);
  }

  // ---------- conservation ----------

  function Values(m: Currents, ids: seq<Id>): (v: seq<int>)
    ensures |v| == |ids|
    ensures forall i :: 0 <= i < |v| ==> v[i] == Current(m, ids[i])
  {
    seq(|ids|, i requires 0 <= i < |ids| => Current(m, ids[i]))
  }

  ghost predicate NoDuplicates(ids: seq<Id>) {
    forall i, j :: 0 <= i < j < |ids| ==> ids[i] != ids[j]
  }

  /** Overwriting one accumulator moves the sum by exactly that change. */
  lemma SumUpdate(m: Currents, ids: seq<Id>, id: Id, value: int)
    requires NoDuplicates(ids) && id in ids
    ensures Sum(Values(m[id := value], ids)) == Sum(Values(m, ids)) + value - Current(m, id)
  {
    var k :| 0 <= k < |ids| && ids[k] == id;
    SumChangeOne(Values(m, ids), Values(m[id := value], ids), k, value - Current(m, id));
  }

  lemma {:induction false} ScanAddsTotal(m: Currents, cs: seq<Candidate>, ids: seq<Id>)
    requires NoDuplicates(ids) && forall i :: 0 <= i < |cs| ==> cs[i].id in ids
    ensures Sum(Values(ScanAll(m, cs).currents, ids)) == Sum(Values(m, ids)) + Total(cs)
  {
    if cs != [] {
      var init, last := cs[..|cs| - 1], cs[|cs| - 1];
      ScanAddsTotal(m, init, ids);
      VisitAddsWeight(ScanAll(m, init), last, ids);
    }
  }

  lemma VisitAddsWeight(s: Scan, c: Candidate, ids: seq<Id>)
    requires NoDuplicates(ids) && c.id in ids
    ensures Sum(Values(Visit(s, c).currents, ids)) == Sum(Values(s.currents, ids)) + c.weight
  {
    SumUpdate(s.currents, ids, c.id, Current(s.currents, c.id) + c.weight);
  }

  lemma {:induction false} BestIsCandidate(m: Currents, cs: seq<Candidate>)
    requires cs != []
    ensures Mentions(cs, ScanAll(m, cs).best.value.0)
  {
    var init := cs[..|cs| - 1];
    if init != [] {
      BestIsCandidate(m, init);
      var i :| 0 <= i < |init| && init[i].id == ScanAll(m, init).best.value.0;
      assert cs[i] == init[i];
    }
    assert cs[|cs| - 1].id == cs[|cs| - 1].id;
  }

  /**
    A call never creates or destroys credit: over any duplicate-free list of ids that covers the
    candidates, the accumulators add up to the same number before and after.  The candidate list
    itself may be anything, duplicates included.
  */
  lemma PickKeepsSum(m: Currents, cs: seq<Candidate>, ids: seq<Id>)
    requires NoDuplicates(ids) && forall i :: 0 <= i < |cs| ==> cs[i].id in ids
    ensures Sum(Values(Next(m, cs), ids)) == Sum(Values(m, ids))
  {
    if Total(cs) > 0 {
      ScanAddsTotal(m, cs, ids);
      BestIsListed(m, cs, ids);
      SumAfterPaying(ScanAll(m, cs), Total(cs), ids);
    }
  }

  lemma BestIsListed(m: Currents, cs: seq<Candidate>, ids: seq<Id>)
    requires cs != [] && forall i :: 0 <= i < |cs| ==> cs[i].id in ids
    ensures ScanAll(m, cs).best.value.0 in ids
  {
    BestIsCandidate(m, cs);
    var i :| 0 <= i < |cs| && cs[i].id == ScanAll(m, cs).best.value.0;
  }

  lemma SumAfterPaying(s: Scan, total: nat, ids: seq<Id>)
    requires NoDuplicates(ids) && s.best.Some? && s.best.value.0 in ids && s.best.value.0 in s.currents
    ensures Sum(Values(Paid(s, total), ids)) == Sum(Values(s.currents, ids)) - total
  {
    SumUpdate(s.currents, ids, s.best.value.0, s.currents[s.best.value.0] - total);
  }

  /** Calls with a different candidate list each time. */
  function PickMany(m: Currents, lists: seq<seq<Candidate>>): Currents {
    if lists == [] then m else Next(PickMany(m, lists[..|lists| - 1]), lists[|lists| - 1])
  }

  /** Over any run of calls on changing candidate lists the accumulators of a fresh table add up to 0. */
  lemma {:induction false} AnyRunSumsToZero(lists: seq<seq<Candidate>>, ids: seq<Id>)
    requires NoDuplicates(ids)
    requires forall l, i :: 0 <= l < |lists| && 0 <= i < |lists[l]| ==> lists[l][i].id in ids
    ensures Sum(Values(PickMany(map[], lists), ids)) == 0
    ensures PickMany(map[], lists).Keys <= set id | id in ids
  {
    if lists == [] {
      SumOfZeros(Values(map[], ids));
    } else {
      var init, last := lists[..|lists| - 1], lists[|lists| - 1];
      assert forall l, i :: 0 <= l < |init| && 0 <= i < |init[l]| ==> init[l][i] == lists[l][i];
      AnyRunSumsToZero(init, ids);
      PickKeepsSum(PickMany(map[], init), last, ids);
      ScanKeys(PickMany(map[], init), last);
      if Total(last) > 0 {
        var s := ScanAll(PickMany(map[], init), last);
        assert s.best.value.0 in s.currents.Keys;
      }
    }
  }

  lemma {:induction false} ScanKeys(m: Currents, cs: seq<Candidate>)
    ensures ScanAll(m, cs).currents.Keys == m.Keys + set i | 0 <= i < |cs| :: cs[i].id
  {
    if cs != [] {
      var init := cs[..|cs| - 1];
      ScanKeys(m, init);
      assert forall i :: 0 <= i < |init| ==> init[i] == cs[i];
    }
  }

  // ---------- many calls on one list ----------

  /** The table after `k` calls with the same candidates ... */
  function After(m: Currents, cs: seq<Candidate>, k: nat): Currents {
    if k == 0 then m else Next(After(m, cs, k - 1), cs)
  }

  /** ... and the ids those calls chose, in order. */
  function Picks(m: Currents, cs: seq<Candidate>, k: nat): seq<Id> {
    if k == 0 then []
    else
      var picked := Chosen(After(m, cs, k - 1), cs);
      Picks(m, cs, k - 1) + (if picked.Some? then [picked.value] else [])
  }

  /** The scheduler holds no credit or debt for any of the candidates. */
  ghost predicate Fresh(m: Currents, cs: seq<Candidate>) {
    forall i :: 0 <= i < |cs| ==> Current(m, cs[i].id) == 0
  }

  function Ids(cs: seq<Candidate>): (ids: seq<Id>)
    ensures |ids| == |cs|
    ensures forall i :: 0 <= i < |cs| ==> ids[i] == cs[i].id
  {
    seq(|cs|, i requires 0 <= i < |cs| => cs[i].id)
  }

  function WeightsOf(cs: seq<Candidate>): (w: seq<int>)
    ensures |w| == |cs|
    ensures forall i :: 0 <= i < |cs| ==> w[i] == cs[i].weight
  {
    seq(|cs|, i requires 0 <= i < |cs| => cs[i].weight)
  }

  lemma {:induction false} TotalIsSum(cs: seq<Candidate>)
    ensures Sum(WeightsOf(cs)) == Total(cs)
  {
    if cs != [] {
      TotalIsSum(cs[..|cs| - 1]);
      assert WeightsOf(cs)[..|cs| - 1] == WeightsOf(cs[..|cs| - 1]);
    }
  }

  /** A call is one turn of the arithmetic in `Rounds`. */
  lemma PickIsTurn(m: Currents, cs: seq<Candidate>) returns (p: nat)
    requires Distinct(cs) && Total(cs) > 0
    ensures Turn(Values(m, Ids(cs)), Values(Next(m, cs), Ids(cs)), WeightsOf(cs), p)
    ensures p < |cs| && Chosen(m, cs) == Some(cs[p].id)
  {
    p := PickEffect(m, cs);
    TotalIsSum(cs);
    var u := Values(m, Ids(cs));
    assert forall i :: 0 <= i < |cs| ==> Bid(m, cs, i) == u[i] + WeightsOf(cs)[i];
  }

  /** What `k` calls look like as vectors: `us` the accumulators, `ps` the positions chosen. */
  ghost predicate Seen(m: Currents, cs: seq<Candidate>, k: nat, us: seq<seq<int>>, ps: seq<nat>) {
    && |ps| == |Picks(m, cs, k)| == k
    && Trace(us, ps, WeightsOf(cs))
    && us[0] == Values(m, Ids(cs))
    && us[k] == Values(After(m, cs, k), Ids(cs))
    && forall j :: 0 <= j < k ==> ps[j] < |cs| && Picks(m, cs, k)[j] == cs[ps[j]].id
  }

  lemma SeenGrows(
    m: Currents, cs: seq<Candidate>, k: nat, us: seq<seq<int>>, ps: seq<nat>, v: seq<int>, p: nat)
    requires k > 0 && Seen(m, cs, k - 1, us, ps)
    requires v == Values(After(m, cs, k), Ids(cs)) && Turn(us[k - 1], v, WeightsOf(cs), p)
    requires p < |cs| && Chosen(After(m, cs, k - 1), cs) == Some(cs[p].id)
    ensures Seen(m, cs, k, us + [v], ps + [p])
  {
    TraceGrows(us, ps, WeightsOf(cs), v, p);
    PicksGrow(m, cs, k, p);
  }

  lemma {:induction false} Observe(m: Currents, cs: seq<Candidate>, k: nat) returns (us: seq<seq<int>>, ps: seq<nat>)
    requires Distinct(cs) && Total(cs) > 0
    ensures Seen(m, cs, k, us, ps)
  {
    if k == 0 {
      us, ps := [Values(m, Ids(cs))], [];
    } else {
      var us0, ps0 := Observe(m, cs, k - 1);
      var p := PickIsTurn(After(m, cs, k - 1), cs);
      var v := Values(After(m, cs, k), Ids(cs));
      SeenGrows(m, cs, k, us0, ps0, v, p);
      us, ps := us0 + [v], ps0 + [p];
    }
  }

  lemma PicksGrow(m: Currents, cs: seq<Candidate>, k: nat, p: nat)
    requires k > 0 && p < |cs| && Chosen(After(m, cs, k - 1), cs) == Some(cs[p].id)
    ensures Picks(m, cs, k) == Picks(m, cs, k - 1) + [cs[p].id]
  {
  }

  /** Counting the chosen ids is counting the chosen positions. */
  lemma {:induction false} CountByPosition(cs: seq<Candidate>, ids: seq<Id>, ps: seq<nat>, i: nat)
    requires Distinct(cs) && i < |cs| && |ids| == |ps|
    requires forall j :: 0 <= j < |ps| ==> ps[j] < |cs| && ids[j] == cs[ps[j]].id
    ensures multiset(ids)[cs[i].id] == Won(ps, i)
  {
    if ps != [] {
      var n := |ps| - 1;
      CountByPosition(cs, ids[..n], ps[..n], i);
      CountLast(ids, cs[i].id);
      CountLast(ps, i);
    }
  }

  lemma CountLast<T>(s: seq<T>, x: T)
    requires s != []
    ensures multiset(s)[x] == multiset(s[..|s| - 1])[x] + if s[|s| - 1] == x then 1 else 0
  {
    assert s == s[..|s| - 1] + [s[|s| - 1]];
  }

  lemma FreshIsZero(m: Currents, cs: seq<Candidate>, u: seq<int>)
    requires u == Values(m, Ids(cs))
    ensures Fresh(m, cs) <==> Zero(u)
  {
    assert forall i :: 0 <= i < |cs| ==> u[i] == Current(m, cs[i].id);
  }

  lemma ProperWeights(cs: seq<Candidate>)
    requires Total(cs) > 0
    ensures Weights(WeightsOf(cs)) && Sum(WeightsOf(cs)) == Total(cs)
  {
    TotalIsSum(cs);
  }

  /**
    EXACT SHARES.  From a state without credit or debt for the candidates, every window of `W`
    consecutive calls - wherever it starts - chooses candidate `i` exactly `weight_i` times.
  */
  lemma ExactShares(m: Currents, cs: seq<Candidate>, start: nat, i: nat)
    requires Distinct(cs) && Total(cs) > 0 && Fresh(m, cs) && i < |cs|
    ensures |Picks(m, cs, start + Total(cs))| == start + Total(cs)
    ensures multiset(Picks(m, cs, start + Total(cs))[start..])[cs[i].id] == cs[i].weight
  {
    var us, ps := Observe(m, cs, start + Total(cs));
    SharesSeen(m, cs, start, i, us, ps);
  }

  lemma SharesSeen(
    m: Currents, cs: seq<Candidate>, start: nat, i: nat, us: seq<seq<int>>, ps: seq<nat>)
    requires Distinct(cs) && Total(cs) > 0 && Fresh(m, cs) && i < |cs| && Seen(m, cs, start + Total(cs), us, ps)
    ensures |Picks(m, cs, start + Total(cs))| == start + Total(cs)
    ensures multiset(Picks(m, cs, start + Total(cs))[start..])[cs[i].id] == cs[i].weight
  {
    ProperWeights(cs);
    FreshIsZero(m, cs, us[0]);
    Window(us, ps, WeightsOf(cs), start, i);
    CountByPosition(cs, Picks(m, cs, start + Total(cs))[start..], ps[start..], i);
  }

  /** Zero-weight candidates are never chosen, the others are chosen within `W` calls of any point. */
  lemma ChosenExactlyWhenWeighted(m: Currents, cs: seq<Candidate>, start: nat, i: nat)
    requires Distinct(cs) && Total(cs) > 0 && Fresh(m, cs) && i < |cs|
    ensures |Picks(m, cs, start + Total(cs))| == start + Total(cs)
    ensures cs[i].weight > 0 <==> cs[i].id in Picks(m, cs, start + Total(cs))[start..]
  {
    ExactShares(m, cs, start, i);
    var window := Picks(m, cs, start + Total(cs))[start..];
    assert cs[i].id in window <==> multiset(window)[cs[i].id] > 0;
  }

  /** A full cycle of `W` calls brings every accumulator of the candidates back to 0. */
  lemma CycleResets(m: Currents, cs: seq<Candidate>)
    requires Distinct(cs) && Total(cs) > 0 && Fresh(m, cs)
    ensures Fresh(After(m, cs, Total(cs)), cs)
  {
    ProperWeights(cs);
    var us, ps := Observe(m, cs, Total(cs));
    FreshIsZero(m, cs, us[0]);
    FullCycle(us, ps, WeightsOf(cs));
    FreshIsZero(After(m, cs, Total(cs)), cs, us[Total(cs)]);
  }

  lemma {:induction false} AfterSplit(m: Currents, cs: seq<Candidate>, a: nat, b: nat)
    ensures After(m, cs, a + b) == After(After(m, cs, a), cs, b)
  {
    if b > 0 {
      AfterSplit(m, cs, a, b - 1);
      AfterStep(m, cs, a + b);
      AfterStep(After(m, cs, a), cs, b);
    }
  }

  lemma AfterStep(m: Currents, cs: seq<Candidate>, k: nat)
    requires k > 0
    ensures After(m, cs, k) == Next(After(m, cs, k - 1), cs)
  {
  }

  /** So does every whole number of cycles. */
  lemma {:induction false} CyclesReset(m: Currents, cs: seq<Candidate>, cycles: nat, total: nat)
    requires Distinct(cs) && total == Total(cs) > 0 && Fresh(m, cs)
    ensures 0 <= Times(cycles, total) == cycles * total
    ensures Fresh(After(m, cs, Times(cycles, total)), cs)
  {
    TimesIsProduct(cycles, total);
    if cycles > 0 {
      CyclesReset(m, cs, cycles - 1, total);
      AfterSplit(m, cs, Times(cycles - 1, total), total);
      CycleResets(After(m, cs, Times(cycles - 1, total)), cs);
    }
  }

  /**
    Prefix fairness: after any number `k` of calls the accumulator of candidate `i` is its distance
    `k*w_i - count_i*W` from its ideal share, and lies in `(-W, (n-1)(W-1)]`.
  */
  lemma PrefixFairness(
    m: Currents, cs: seq<Candidate>, k: nat, i: nat, total: int, current: int, count: nat)
    requires Distinct(cs) && total == Total(cs) > 0 && Fresh(m, cs) && i < |cs|
    requires current == Current(After(m, cs, k), cs[i].id)
    requires count == multiset(Picks(m, cs, k))[cs[i].id]
    ensures current == k * cs[i].weight - count * total
    ensures -total < current <= (|cs| - 1) * (total - 1)
  {
    ProperWeights(cs);
    var us, ps := Observe(m, cs, k);
    FreshIsZero(m, cs, us[0]);
    assert ps[..k] == ps;
    CountByPosition(cs, Picks(m, cs, k), ps, i);
    Account(us, ps, WeightsOf(cs), k, i);
    Ceiling(us, ps, WeightsOf(cs), k, i);
  }
}

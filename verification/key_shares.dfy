/** The keys of a block compete by their weights: how often repeated selections name each of them. */
module KeyShares {
  import opened Backoff
  import opened Scheduler
  import opened Upstreams
  import opened Wrappers

  /** The candidates are the keys that can be selected, each with its own weight. */
  lemma {:induction false} CandidatesAreKeys(keys: seq<Key>, now: int, c: Candidate)
    ensures c in Candidates(keys, now) <==>
      exists i :: 0 <= i < |keys| && Selectable(keys[i], now) && c == Candidate(keys[i].id, keys[i].weight)
  {
    if keys != [] {
      var init, n := keys[..|keys| - 1], |keys| - 1;
      assert forall i :: 0 <= i < n ==> init[i] == keys[i];
      CandidatesAreKeys(init, now, c);
    }
  }

  predicate DistinctKeys(keys: seq<Key>) {
    forall i, j :: 0 <= i < j < |keys| ==> keys[i].id != keys[j].id
  }

  lemma {:induction false} CandidatesAreDistinct(keys: seq<Key>, now: int)
    requires DistinctKeys(keys)
    ensures Distinct(Candidates(keys, now))
  {
    if keys != [] {
      var init, key := keys[..|keys| - 1], keys[|keys| - 1];
      CandidatesAreDistinct(init, now);
      forall i | 0 <= i < |Candidates(init, now)| ensures Candidates(init, now)[i].id != key.id {
        CandidatesAreKeys(init, now, Candidates(init, now)[i]);
      }
    }
  }

  /** The weights of the keys that can be selected, all together. */
  function SelectableWeight(keys: seq<Key>, now: int): nat {
    if keys == [] then 0
    else
      var key := keys[|keys| - 1];
      SelectableWeight(keys[..|keys| - 1], now) + if Selectable(key, now) then key.weight else 0
  }

  lemma {:induction false} CandidatesWeigh(keys: seq<Key>, now: int)
    ensures Total(Candidates(keys, now)) == SelectableWeight(keys, now)
  {
    if keys != [] {
      var init, key := keys[..|keys| - 1], keys[|keys| - 1];
      CandidatesWeigh(init, now);
      if Selectable(key, now) {
        TotalSnoc(Candidates(init, now), Candidate(key.id, key.weight));
      } else {
        assert Candidates(init, now) + [] == Candidates(init, now);
      }
    }
  }

  /** The accumulators after a selection at each of some moments. */
  function CurrentsAfter(m: Currents, keys: seq<Key>, moments: seq<int>): Currents {
    if moments == [] then m
    else Next(CurrentsAfter(m, keys, moments[..|moments| - 1]), Candidates(keys, moments[|moments| - 1]))
  }

  /** The keys those selections named, in order. */
  function Named(m: Currents, keys: seq<Key>, moments: seq<int>): seq<Id> {
    if moments == [] then []
    else
      var init := moments[..|moments| - 1];
      var selection := Selected(CurrentsAfter(m, keys, init), keys, moments[|moments| - 1]);
      Named(m, keys, init) + if selection.Picked? then [selection.key] else []
  }

  /** The same keys can be selected at both times. */
  predicate SameSelectable(keys: seq<Key>, s: int, t: int) {
    forall i :: 0 <= i < |keys| ==> (Selectable(keys[i], s) <==> Selectable(keys[i], t))
  }

  /** That is so at each of some moments. */
  predicate Throughout(keys: seq<Key>, moments: seq<int>, now: int) {
    moments == [] ||
    (Throughout(keys, moments[..|moments| - 1], now) && SameSelectable(keys, moments[|moments| - 1], now))
  }

  /** No key has an accumulator yet, or all are at 0 again. */
  ghost predicate Unused(m: Currents, keys: seq<Key>) {
    forall i :: 0 <= i < |keys| ==> Current(m, keys[i].id) == 0
  }

  lemma {:induction false} SameCandidates(keys: seq<Key>, s: int, t: int)
    requires SameSelectable(keys, s, t)
    ensures Candidates(keys, s) == Candidates(keys, t)
  {
    if keys != [] {
      var init, n := keys[..|keys| - 1], |keys| - 1;
      assert forall i :: 0 <= i < n ==> init[i] == keys[i];
      SameCandidates(init, s, t);
    }
  }

  lemma OneSelection(m: Currents, keys: seq<Key>, t: int, cs: seq<Candidate>)
    requires cs == Candidates(keys, t) && Total(cs) > 0
    ensures Chosen(m, cs).Some? && Selected(m, keys, t) == Picked(Chosen(m, cs).value)
  {
  }

  lemma NamedSnoc(m: Currents, keys: seq<Key>, init: seq<int>, t: int, moments: seq<int>, cs: seq<Candidate>)
    requires moments == init + [t] && cs == Candidates(keys, t) && Total(cs) > 0
    ensures CurrentsAfter(m, keys, moments) == Next(CurrentsAfter(m, keys, init), cs)
    ensures Named(m, keys, moments) == Named(m, keys, init) + [Chosen(CurrentsAfter(m, keys, init), cs).value]
  {
    assert moments[..|moments| - 1] == init;
    OneSelection(CurrentsAfter(m, keys, init), keys, t, cs);
  }

  lemma PicksSnoc(m: Currents, cs: seq<Candidate>, k: nat)
    requires Total(cs) > 0
    ensures After(m, cs, k + 1) == Next(After(m, cs, k), cs)
    ensures Picks(m, cs, k + 1) == Picks(m, cs, k) + [Chosen(After(m, cs, k), cs).value]
  {
  }

  /** The same selections so far as `n` calls of the scheduler on `cs`. */
  predicate AsPicks(m: Currents, keys: seq<Key>, moments: seq<int>, cs: seq<Candidate>, n: nat) {
    CurrentsAfter(m, keys, moments) == After(m, cs, n) && Named(m, keys, moments) == Picks(m, cs, n)
  }

  lemma OneMoreSelection(
    m: Currents, keys: seq<Key>, init: seq<int>, t: int, moments: seq<int>, cs: seq<Candidate>, n: nat)
    requires moments == init + [t] && cs == Candidates(keys, t) && Total(cs) > 0 && AsPicks(m, keys, init, cs, n)
    ensures AsPicks(m, keys, moments, cs, n + 1)
  {
    NamedSnoc(m, keys, init, t, moments, cs);
    PicksSnoc(m, cs, n);
  }

  lemma ThroughoutInit(keys: seq<Key>, moments: seq<int>, now: int)
    requires moments != [] && Throughout(keys, moments, now)
    ensures Throughout(keys, moments[..|moments| - 1], now)
    ensures Candidates(keys, moments[|moments| - 1]) == Candidates(keys, now)
  {
    SameCandidates(keys, moments[|moments| - 1], now);
  }

  lemma {:induction false} NamedArePicks(
    m: Currents, keys: seq<Key>, moments: seq<int>, now: int, cs: seq<Candidate>)
    requires Throughout(keys, moments, now) && cs == Candidates(keys, now) && Total(cs) > 0
    ensures AsPicks(m, keys, moments, cs, |moments|)
  {
    if moments != [] {
      var init, t := moments[..|moments| - 1], moments[|moments| - 1];
      ThroughoutInit(keys, moments, now);
      NamedArePicks(m, keys, init, now, cs);
      OneMoreSelection(m, keys, init, t, moments, cs, |init|);
    }
  }

  lemma FreshCandidates(m: Currents, keys: seq<Key>, now: int, cs: seq<Candidate>)
    requires cs == Candidates(keys, now) && Unused(m, keys)
    ensures Fresh(m, cs)
  {
    forall i | 0 <= i < |cs| ensures Current(m, cs[i].id) == 0 { CandidatesAreKeys(keys, now, cs[i]); }
  }

  lemma KeyCompetes(keys: seq<Key>, now: int, k: nat, c: Candidate)
    requires k < |keys| && Selectable(keys[k], now) && c == Candidate(keys[k].id, keys[k].weight)
    ensures c in Candidates(keys, now)
  {
    CandidatesAreKeys(keys, now, c);
  }

  lemma SharesOf(m: Currents, cs: seq<Candidate>, start: nat, c: Candidate, picks: seq<Id>)
    requires Distinct(cs) && Total(cs) > 0 && Fresh(m, cs) && c in cs && picks == Picks(m, cs, start + Total(cs))
    ensures |picks| == start + Total(cs) && multiset(picks[start..])[c.id] == c.weight
  {
    var i :| 0 <= i < |cs| && cs[i] == c;
    ExactShares(m, cs, start, i);
  }

  /**
    THE SHARES OF KEYS.  While the same keys of a block can be selected, from fresh accumulators, any `W`
    selections in a row name each of them exactly as often as its weight, where `W` is their weights' sum.
  */
  lemma KeysGetTheirShares(m: Currents, keys: seq<Key>, moments: seq<int>, now: int, start: nat, k: nat)
    requires DistinctKeys(keys) && k < |keys| && Selectable(keys[k], now)
    requires Unused(m, keys)
    requires Throughout(keys, moments, now)
    requires SelectableWeight(keys, now) > 0 && |moments| == start + SelectableWeight(keys, now)
    ensures |Named(m, keys, moments)| == |moments|
    ensures multiset(Named(m, keys, moments)[start..])[keys[k].id] == keys[k].weight
  {
    var cs, c := Candidates(keys, now), Candidate(keys[k].id, keys[k].weight);
    CandidatesWeigh(keys, now);
    CandidatesAreDistinct(keys, now);
    KeyCompetes(keys, now, k, c);
    FreshCandidates(m, keys, now, cs);
    NamedArePicks(m, keys, moments, now, cs);
    SharesOf(m, cs, start, c, Named(m, keys, moments));
  }
}

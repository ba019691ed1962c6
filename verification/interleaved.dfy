/**
  One table of accumulators serves every block list and the keys of every block: between two calls on one
  list there are calls on others.  The shares of a list do not depend on them.
*/
module Interleaved {
  import opened Rounds
  import opened Scheduler
  import opened Wrappers

  ghost predicate SharesNoId(list: seq<Candidate>, cs: seq<Candidate>) {
    forall i :: 0 <= i < |cs| ==> !Mentions(list, cs[i].id)
  }

  /** Every call is on `cs`, or on a list that has no candidate in common with it. */
  ghost predicate Separate(lists: seq<seq<Candidate>>, cs: seq<Candidate>) {
    if lists == [] then true
    else Separate(lists[..|lists| - 1], cs) && (lists[|lists| - 1] == cs || SharesNoId(lists[|lists| - 1], cs))
  }

  function CallsOn(lists: seq<seq<Candidate>>, cs: seq<Candidate>): nat {
    if lists == [] then 0 else CallsOn(lists[..|lists| - 1], cs) + if lists[|lists| - 1] == cs then 1 else 0
  }

  /** What the calls on `cs` chose, in order. */
  function ChoicesOn(m: Currents, lists: seq<seq<Candidate>>, cs: seq<Candidate>): seq<Id> {
    if lists == [] then []
    else
      var init := lists[..|lists| - 1];
      ChoicesOn(m, init, cs) + if lists[|lists| - 1] == cs then ChoiceOf(PickMany(m, init), cs) else []
  }

  function ChoiceOf(m: Currents, cs: seq<Candidate>): seq<Id> {
    if Chosen(m, cs).Some? then [Chosen(m, cs).value] else []
  }

  ghost predicate Agree(m: Currents, n: Currents, cs: seq<Candidate>) {
    forall i :: 0 <= i < |cs| ==> Current(m, cs[i].id) == Current(n, cs[i].id)
  }

  /** A call depends on the accumulators of its own candidates only. */
  lemma {:induction false} SameCall(m: Currents, n: Currents, cs: seq<Candidate>)
    requires Distinct(cs) && Total(cs) > 0 && Agree(m, n, cs)
    ensures Chosen(m, cs) == Chosen(n, cs) && Agree(Next(m, cs), Next(n, cs), cs)
  {
    var p := PickEffect(m, cs);
    var q := PickEffect(n, cs);
    WinnerIsUnique(m, n, cs, p, q);
    forall i | 0 <= i < |cs| ensures Current(Next(m, cs), cs[i].id) == Current(Next(n, cs), cs[i].id) {
      assert Bid(m, cs, i) == Bid(n, cs, i);
    }
  }

  /** A call on a list without common candidates leaves the others alone. */
  lemma OtherCall(m: Currents, list: seq<Candidate>, cs: seq<Candidate>)
    requires SharesNoId(list, cs)
    ensures Agree(Next(m, list), m, cs)
  {
    if Total(list) > 0 {
      BestIsCandidate(m, list);
      forall i | 0 <= i < |cs| ensures Current(Next(m, list), cs[i].id) == Current(m, cs[i].id) {
        ScanFrame(m, list, cs[i].id);
      }
    }
  }

  lemma OneMoreCall(m: Currents, n: Currents, list: seq<Candidate>, cs: seq<Candidate>)
    requires Distinct(cs) && Total(cs) > 0 && Agree(m, n, cs) && (list == cs || SharesNoId(list, cs))
    ensures Agree(Next(m, list), if list == cs then Next(n, cs) else n, cs) && ChoiceOf(m, cs) == ChoiceOf(n, cs)
  {
    SameCall(m, n, cs);
    if list != cs { OtherCall(m, list, cs); }
  }

  /** The calls so far went as `k` calls on `cs` alone. */
  ghost predicate AsAlone(m: Currents, lists: seq<seq<Candidate>>, cs: seq<Candidate>, k: nat) {
    Agree(PickMany(m, lists), After(m, cs, k), cs) && ChoicesOn(m, lists, cs) == Picks(m, cs, k)
  }

  lemma AnyCall(
    m: Currents, init: seq<seq<Candidate>>, list: seq<Candidate>, cs: seq<Candidate>, lists: seq<seq<Candidate>>,
    k: nat)
    requires Distinct(cs) && Total(cs) > 0 && lists == init + [list] && (list == cs || SharesNoId(list, cs)) &&
      AsAlone(m, init, cs, k)
    ensures AsAlone(m, lists, cs, k + if list == cs then 1 else 0)
  {
    if list == cs {
      OneMoreCall(PickMany(m, init), After(m, list, k), list, list);
      AfterStep(m, list, k + 1);
    } else {
      OneMoreCall(PickMany(m, init), After(m, cs, k), list, cs);
      assert Picks(m, cs, k) + [] == Picks(m, cs, k);
    }
  }

  lemma {:induction false} OthersStep(
    m: Currents, init: seq<seq<Candidate>>, list: seq<Candidate>, cs: seq<Candidate>, lists: seq<seq<Candidate>>)
    requires Distinct(cs) && Total(cs) > 0 && lists == init + [list] && (list == cs || SharesNoId(list, cs))
    requires AsAlone(m, init, cs, CallsOn(init, cs))
    ensures AsAlone(m, lists, cs, CallsOn(lists, cs))
  {
    AnyCall(m, init, list, cs, lists, CallsOn(init, cs));
  }

  /** The calls on one list choose what they would choose alone. */
  lemma {:induction false} OthersDoNotMatter(m: Currents, lists: seq<seq<Candidate>>, cs: seq<Candidate>)
    requires Distinct(cs) && Total(cs) > 0 && Separate(lists, cs)
    ensures AsAlone(m, lists, cs, CallsOn(lists, cs))
  {
    if lists != [] {
      var init, list := lists[..|lists| - 1], lists[|lists| - 1];
      OthersDoNotMatter(m, init, cs);
      OthersStep(m, init, list, cs, lists);
    }
  }

  /**
    EXACT SHARES, INTERLEAVED.  Among calls on any other lists without common candidates, every window of
    `W` calls on `cs` chooses candidate `i` exactly `weight_i` times.
  */
  lemma InterleavedShares(
    m: Currents, lists: seq<seq<Candidate>>, cs: seq<Candidate>, start: nat, i: nat, choices: seq<Id>)
    requires Distinct(cs) && Total(cs) > 0 && Fresh(m, cs) && Separate(lists, cs) && i < |cs|
    requires CallsOn(lists, cs) == start + Total(cs) && choices == ChoicesOn(m, lists, cs)
    ensures |choices| == start + Total(cs) && multiset(choices[start..])[cs[i].id] == cs[i].weight
  {
    OthersDoNotMatter(m, lists, cs);
    SharesAlone(m, cs, start, i, choices);
  }

  lemma SharesAlone(m: Currents, cs: seq<Candidate>, start: nat, i: nat, choices: seq<Id>)
    requires Distinct(cs) && Total(cs) > 0 && Fresh(m, cs) && i < |cs|
    requires choices == Picks(m, cs, start + Total(cs))
    ensures |choices| == start + Total(cs) && multiset(choices[start..])[cs[i].id] == cs[i].weight
  {
    ExactShares(m, cs, start, i);
  }
}

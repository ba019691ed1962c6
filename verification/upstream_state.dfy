/** The in-memory state of the upstream service: accumulators, rate-limit streaks and concurrency gates. */
module Upstreams {
  import opened Backoff
  import opened Gates
  import Lifecycle
  import opened Scheduler
  import opened Wrappers

  datatype FailureKind = Hard | RateLimit | Transient

  /** Scanning the candidates that are left, from where the scan stands. */
  function ScanRest(s: Scan, cs: seq<Candidate>): Scan
    decreases |cs|
  {
    if cs == [] then s else ScanRest(Visit(s, cs[0]), cs[1..])
  }

  lemma {:induction false} ScanRestSnoc(s: Scan, cs: seq<Candidate>)
    requires cs != []
    ensures ScanRest(s, cs) == Visit(ScanRest(s, cs[..|cs| - 1]), cs[|cs| - 1])
    decreases |cs|
  {
    if |cs| > 1 {
      assert cs[1..][..|cs[1..]| - 1] == cs[..|cs| - 1][1..];
      ScanRestSnoc(Visit(s, cs[0]), cs[1..]);
    } else {
      assert cs[..0] == [];
    }
  }

  lemma {:induction false} ScanRestIsScan(m: Currents, cs: seq<Candidate>)
    ensures ScanRest(Scan(m, None), cs) == ScanAll(m, cs)
  {
    if cs != [] {
      ScanRestSnoc(Scan(m, None), cs);
      ScanRestIsScan(m, cs[..|cs| - 1]);
    }
  }

  /** What a block answers when a key is asked for. */
  datatype Selection = Picked(key: Id) | RateLimited(retryAfter: int) | Unavailable

  /** The candidates among the keys, in order. */
  function Candidates(keys: seq<Key>, now: int): seq<Candidate> {
    if keys == [] then []
    else Candidates(keys[..|keys| - 1], now) +
         (if Selectable(keys[|keys| - 1], now) then [Candidate(keys[|keys| - 1].id, keys[|keys| - 1].weight)] else [])
  }

  function Selected(m: Currents, keys: seq<Key>, now: int): Selection {
    var cs := Candidates(keys, now);
    if cs == [] then
      var wait := EarliestRetry(keys, now);
      if wait.Some? then RateLimited(wait.value) else Unavailable
    else
      var picked := Chosen(m, cs);
      if picked.Some? then Picked(picked.value) else Unavailable
  }

  ghost function ContentsOf(gates: seq<BlockGate>): (contents: seq<Gate>)
    reads gates
    ensures |contents| == |gates|
  {
    seq(|gates|, i requires 0 <= i < |gates| reads gates => gates[i].Contents())
  }

  class UpstreamState {
    var currents: Currents
    var streaks: Streaks
    var gates: map<Id, BlockGate>
    /** Every gate each block ever had, in order. */
    ghost var history: map<Id, seq<BlockGate>>

    ghost function HistoryOf(block: Id): seq<BlockGate>
      reads this
    {
      if block in history then history[block] else []
    }

    /** The gate the table holds for a block is the last one made for it. */
    ghost predicate Valid()
      reads this
    {
      forall block :: block in gates ==>
        HistoryOf(block) != [] && HistoryOf(block)[|HistoryOf(block)| - 1] == gates[block]
    }

    /** The gates of a block as `Gates` has them. */
    ghost function TableOf(block: Id): Table
      reads this, HistoryOf(block)
    {
      Table(ContentsOf(HistoryOf(block)),
        if block in gates && HistoryOf(block) != [] then Some(|HistoryOf(block)| - 1) else None)
    }

    constructor ()
      ensures Valid() && currents == map[] && streaks == map[] && gates == map[] && history == map[]
    {
      currents, streaks, gates, history := map[], map[], map[], map[];
    }

    /** Every candidate collects its weight; the earliest of the highest is remembered. */
    method Collect(candidates: seq<Candidate>) returns (best: Option<(Id, int)>)
      modifies this`currents
      ensures Scan(currents, best) == ScanAll(old(currents), candidates)
    {
      best := None;
      ScanRestIsScan(currents, candidates);
      ghost var target := ScanAll(currents, candidates);
      assert candidates[0..] == candidates;
      var i := 0;
      while i < |candidates|
        invariant i <= |candidates| && ScanRest(Scan(currents, best), candidates[i..]) == target
      {
        var c := candidates[i];
        assert candidates[i..][0] == c && candidates[i..][1..] == candidates[i + 1..];
        var value := Current(currents, c.id) + c.weight;
        currents := currents[c.id := value];
        if best.None? || value > best.value.1 { best := Some((c.id, value)); }
        i := i + 1;
      }
      assert candidates[i..] == [];
    }

    /** One call of the scheduler: the best candidate is chosen and pays the total. */
    method Pick(candidates: seq<Candidate>) returns (picked: Option<Id>)
      modifies this`currents
      ensures picked == Chosen(old(currents), candidates) && currents == Next(old(currents), candidates)
    {
      var total := SumWeights(candidates);
      if total == 0 { return None; }
      var best := Collect(candidates);
      currents := currents[best.value.0 := currents[best.value.0] - total];
      return Some(best.value.0);
    }

    /** Drops what is remembered of ids that are gone. */
    method Forget(ids: seq<Id>)
      modifies this`currents, this`streaks
      ensures currents == old(currents) - (set id | id in ids)
      ensures streaks == Happened(old(streaks), Forgotten(set id | id in ids))
    {
      var i := 0;
      while i < |ids|
        invariant i <= |ids|
        invariant currents == old(currents) - (set id | id in ids[..i])
        invariant streaks == old(streaks)
      {
        assert ids[..i + 1] == ids[..i] + [ids[i]];
        currents := currents - {ids[i]};
        i := i + 1;
      }
      assert ids[..i] == ids;
      i := 0;
      while i < |ids|
        invariant i <= |ids|
        invariant currents == old(currents) - (set id | id in ids)
        invariant streaks == old(streaks) - (set id | id in ids[..i])
      {
        assert ids[..i + 1] == ids[..i] + [ids[i]];
        streaks := streaks - {ids[i]};
        i := i + 1;
      }
      assert ids[..i] == ids;
    }

    /** One more rate limit for a key; the streak with it counted. */
    method BumpRateLimit(key: Id, now: int) returns (count: nat)
      modifies this`streaks
      ensures streaks == Happened(old(streaks), Limited(key, now))
      ensures count == streaks[key].count
    {
      var streak := if key in streaks then streaks[key] else Streak(0, now);
      if now - streak.lastAt > STREAK_WINDOW { streak := streak.(count := 0); }
      streak := Streak(streak.count + 1, now);
      streaks := streaks[key := streak];
      return streak.count;
    }

    method ClearRateLimit(key: Id)
      modifies this`streaks
      ensures streaks == Happened(old(streaks), Cleared(key))
    {
      streaks := streaks - {key};
    }

    /** Puts a new gate into the table. */
    method Replace(block: Id, limit: nat)
      requires Valid()
      modifies this`gates, this`history
      ensures Valid() && block in gates && gates[block].capacity == limit
      ensures TableOf(block) == Table(old(TableOf(block)).gates + [NewGate(limit)], Some(|old(TableOf(block)).gates|))
      ensures gates == old(gates)[block := gates[block]] &&
        history == old(history)[block := old(HistoryOf(block)) + [gates[block]]]
    {
      ghost var before := HistoryOf(block);
      var created := new BlockGate(limit);
      history := history[block := before + [created]];
      gates := gates[block := created];
      assert ContentsOf(before + [created]) == ContentsOf(before) + [NewGate(limit)];
    }

    /**
      The gate of a block with that limit: the one in the table if it has that capacity, else a new one.
      The block's gates change as `Looked` says, and no other block's do.
    */
    method GateFor(block: Id, limit: nat) returns (gate: Option<BlockGate>)
      requires Valid()
      modifies this`gates, this`history
      ensures Valid() && TableOf(block) == Looked(old(TableOf(block)), limit)
      ensures if limit == 0 then gate == None && gates == old(gates)
        else gate.Some? && gates == old(gates)[block := gate.value]
      ensures history == old(history) || history == old(history)[block := HistoryOf(block)]
    {
      if limit == 0 { return None; }
      if block !in gates || gates[block].capacity != limit { Replace(block, limit); }
      return Some(gates[block]);
    }

    method InvalidateGate(block: Id)
      requires Valid()
      modifies this`gates
      ensures Valid() && TableOf(block) == Invalidated(old(TableOf(block)))
      ensures gates == old(gates) - {block}
    {
      gates := gates - {block};
    }

    /** A success clears the key's record and its streak. */
    method ReportSuccess(key: Id, record: Lifecycle.KeyRecord)
      modifies this`streaks, record
      ensures streaks == Happened(old(streaks), Cleared(key))
      ensures record.Contents() == Lifecycle.SuccessMarked(old(record.Contents()))
      ensures record.status == old(record.status) && record.failureCount == 0 && record.cooldownUntil == None
    {
      ClearRateLimit(key);
      record.MarkSuccess();
    }

    /**
      A failure, by its kind: a rejection is counted from the caller's copy of the row, a rate limit cools
      the key down by its streak or the upstream's hint, anything else only leaves its text.
    */
    method ReportFailure(key: Id, record: Lifecycle.KeyRecord, copy: Lifecycle.Row, kind: FailureKind, detail: string,
                         retryAfter: Option<int>, now: int) returns (wait: Option<int>)
      modifies this`streaks, record
      ensures kind.Transient? ==>
        wait == None && streaks == old(streaks) &&
          record.Contents() == Lifecycle.ErrorNoted(old(record.Contents()), detail)
      ensures kind.Hard? ==>
        wait == None && streaks == old(streaks) &&
        record.Contents() == Lifecycle.FailureNoted(old(record.Contents()), copy.failureCount + 1, detail)
                               .(status := if Lifecycle.ReachesThreshold(copy) then Lifecycle.Disabled
                                 else old(record.status))
      ensures kind.RateLimit? ==>
        && streaks == Happened(old(streaks), Limited(key, now))
        && wait == Some(CooldownSecs(streaks[key].count, retryAfter))
        && record.Contents() == Lifecycle.CooldownNoted(old(record.Contents()), now + wait.value, detail)
      ensures kind.RateLimit? ==> wait.Some? && 1 <= wait.value <= 300 && record.status == old(record.status)
      ensures kind.RateLimit? ==> forall stored: Key, t :: StoredAs(stored, record.Contents()) ==>
        (Selectable(stored, t) <==> record.status.Active? && t >= now + wait.value)
    {
      match kind {
        case Transient =>
          record.NoteError(detail);
          return None;
        case Hard =>
          record.ReportHardFailure(copy, detail);
          return None;
        case RateLimit =>
          var streak := BumpRateLimit(key, now);
          var secs := CooldownSecs(streak, retryAfter);
          CooldownRange(streak, streak, retryAfter);
          record.NoteCooldown(now + secs, detail);
          return Some(secs);
      }
    }

    /** `select_key` on the keys of a block as they are stored now. */
    method SelectKey(keys: seq<Key>, now: int) returns (selection: Selection)
      modifies this`currents
      ensures selection == Selected(old(currents), keys, now)
      ensures currents == Next(old(currents), Candidates(keys, now))
    {
      var candidates := [];
      var i := 0;
      while i < |keys|
        invariant i <= |keys| && candidates == Candidates(keys[..i], now)
      {
        assert keys[..i + 1][..i] == keys[..i];
        if Selectable(keys[i], now) { candidates := candidates + [Candidate(keys[i].id, keys[i].weight)]; }
        i := i + 1;
      }
      assert keys[..i] == keys;
      if candidates == [] {
        var wait := EarliestRetry(keys, now);
        return if wait.Some? then RateLimited(wait.value) else Unavailable;
      }
      var picked := Pick(candidates);
      return if picked.Some? then Picked(picked.value) else Unavailable;
    }
  }

  method SumWeights(candidates: seq<Candidate>) returns (total: nat)
    ensures total == Total(candidates)
  {
    total := 0;
    var i := 0;
    while i < |candidates|
      invariant i <= |candidates| && total == Total(candidates[..i])
    {
      assert candidates[..i + 1][..i] == candidates[..i];
      total := total + candidates[i].weight;
      i := i + 1;
    }
    assert candidates[..i] == candidates;
  }

  // ---------- what a selection means ----------

  predicate SelectableAs(keys: seq<Key>, now: int, id: Id) {
    exists i :: 0 <= i < |keys| && Selectable(keys[i], now) && keys[i].id == id
  }

  lemma {:induction false} CandidatesAreSelectable(keys: seq<Key>, now: int, id: Id)
    ensures Mentions(Candidates(keys, now), id) <==> SelectableAs(keys, now, id)
  {
    if keys != [] {
      var init, key := keys[..|keys| - 1], keys[|keys| - 1];
      assert keys == init + [key];
      CandidatesAreSelectable(init, now, id);
      SelectableSnoc(init, key, now, id);
      if Selectable(key, now) {
        MentionsSnoc(Candidates(init, now), Candidate(key.id, key.weight), id);
      } else {
        assert Candidates(init, now) + [] == Candidates(init, now);
      }
    }
  }

  lemma SelectableSnoc(keys: seq<Key>, key: Key, now: int, id: Id)
    ensures SelectableAs(keys + [key], now, id) <==>
      SelectableAs(keys, now, id) || (Selectable(key, now) && key.id == id)
  {
    var all := keys + [key];
    assert all[|keys|] == key;
    assert forall i :: 0 <= i < |keys| ==> all[i] == keys[i];
  }

  lemma MentionsSnoc(cs: seq<Candidate>, c: Candidate, id: Id)
    ensures Mentions(cs + [c], id) <==> Mentions(cs, id) || c.id == id
  {
    var all := cs + [c];
    assert all[|cs|] == c;
    assert forall i :: 0 <= i < |cs| ==> all[i] == cs[i];
  }

  lemma {:induction false} NoCandidates(keys: seq<Key>, now: int)
    ensures Candidates(keys, now) == [] <==> NoneSelectable(keys, now)
  {
    if keys != [] {
      var init, n := keys[..|keys| - 1], |keys| - 1;
      NoCandidates(init, now);
      assert forall i :: 0 <= i < n ==> init[i] == keys[i];
    }
  }

  /** A key that can be selected now and has a share. */
  predicate Eligible(key: Key, now: int) {
    Selectable(key, now) && key.weight > 0
  }

  predicate AnyEligible(keys: seq<Key>, now: int) {
    exists i :: 0 <= i < |keys| && Eligible(keys[i], now)
  }

  lemma EligibleSnoc(keys: seq<Key>, key: Key, now: int)
    ensures AnyEligible(keys + [key], now) <==> AnyEligible(keys, now) || Eligible(key, now)
  {
    var all := keys + [key];
    assert all[|keys|] == key;
    assert forall i :: 0 <= i < |keys| ==> all[i] == keys[i];
  }

  lemma TotalSnoc(cs: seq<Candidate>, c: Candidate)
    ensures Total(cs + [c]) == Total(cs) + c.weight
  {
    assert (cs + [c])[..|cs|] == cs;
  }

  lemma {:induction false} TotalIsPositive(keys: seq<Key>, now: int)
    ensures Total(Candidates(keys, now)) > 0 <==> AnyEligible(keys, now)
  {
    if keys != [] {
      var init, key := keys[..|keys| - 1], keys[|keys| - 1];
      assert keys == init + [key];
      TotalIsPositive(init, now);
      EligibleSnoc(init, key, now);
      if Selectable(key, now) {
        TotalSnoc(Candidates(init, now), Candidate(key.id, key.weight));
      } else {
        assert Candidates(init, now) + [] == Candidates(init, now);
      }
    }
  }

  /**
    A selection tells the caller what to do.  It names a key that can be selected now exactly if some such
    key has a positive weight; it says to come back in `w` seconds exactly if no key can be selected but an
    active one is cooling, and then no key comes back before and one does then; and otherwise no key comes
    back by itself, or those that are back have no weight.
  */
  lemma SelectionMeans(m: Currents, keys: seq<Key>, now: int)
    ensures match Selected(m, keys, now)
      case Picked(id) => SelectableAs(keys, now, id)
      case RateLimited(w) =>
        w > 0 && (forall t :: t < now + w ==> NoneSelectable(keys, t)) && !NoneSelectable(keys, now + w)
      case Unavailable => NoneSelectable(keys, now) ==> forall t :: NoneSelectable(keys, t)
    ensures Selected(m, keys, now).Picked? <==> AnyEligible(keys, now)
    ensures Selected(m, keys, now).RateLimited? <==>
      NoneSelectable(keys, now) && exists i :: 0 <= i < |keys| && keys[i].status.Active?
  {
    NoCandidates(keys, now);
    TotalIsPositive(keys, now);
    var cs := Candidates(keys, now);
    if cs == [] {
      WaitIsExact(keys, now);
    } else if Total(cs) > 0 {
      BestIsCandidate(m, cs);
      CandidatesAreSelectable(keys, now, Chosen(m, cs).value);
    }
  }
}

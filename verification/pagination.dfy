/** The usage table and its pages: cursor pagination over records that keep being inserted. */
module Pagination {
  import opened Wrappers

  const MAX_USAGE_LIMIT: int := 500

  /** A usage record, by its id, its access key and the time it was written. */
  datatype Entry = Entry(id: nat, key: Id, createdAt: int)

  /** Ids are positive and strictly increasing in order of insertion. */
  predicate Ordered(table: seq<Entry>) {
    && (forall i :: 0 <= i < |table| ==> table[i].id > 0)
    && (forall i, j :: 0 <= i < j < |table| ==> table[i].id < table[j].id)
  }

  /** Belongs to the key and is older than the cursor; a cursor of 0 is none. */
  predicate Matches(e: Entry, key: Id, before: int) {
    e.key == key && (before == 0 || e.id < before)
  }

  /** The matching records, newest first. */
  function Listing(table: seq<Entry>, key: Id, before: int): seq<Entry> {
    if table == [] then []
    else
      var last := table[|table| - 1];
      (if Matches(last, key, before) then [last] else []) + Listing(table[..|table| - 1], key, before)
  }

  function PageSize(limit: int): nat {
    if limit < 1 then 1 else if limit > MAX_USAGE_LIMIT then MAX_USAGE_LIMIT else limit
  }

  function FirstOf(entries: seq<Entry>, n: nat): seq<Entry> {
    if |entries| <= n then entries else entries[..n]
  }

  datatype Page = Page(entries: seq<Entry>, hasMore: bool)

  /** One record more than the page holds is fetched, to see whether there are more. */
  function Cut(listing: seq<Entry>, size: nat): Page {
    var fetched := FirstOf(listing, size + 1);
    Page(FirstOf(fetched, size), |fetched| > size)
  }

  function PageOf(table: seq<Entry>, key: Id, limit: int, before: int): Page {
    Cut(Listing(table, key, before), PageSize(limit))
  }

  class UsageTable {
    var rows: seq<Entry>
    var nextId: nat

    ghost predicate Valid()
      reads this
    {
      Ordered(rows) && nextId > 0 && AllBelow(rows, nextId)
    }

    constructor ()
      ensures Valid() && rows == []
    {
      rows, nextId := [], 1;
    }

    /** Appends a record under the next id; ids are never used twice. */
    method Insert(key: Id, now: int) returns (id: nat)
      requires Valid()
      modifies this
      ensures Valid() && id == old(nextId) && rows == old(rows) + [Entry(id, key, now)] && nextId > old(nextId)
    {
      id := nextId;
      rows, nextId := rows + [Entry(id, key, now)], nextId + 1;
    }

    /** Drops the records written at or before `cutoff`, and no others. */
    method PurgeBefore(cutoff: int) returns (purged: int)
      requires Valid()
      modifies this`rows
      ensures Valid() && rows == Kept(old(rows), cutoff) && purged == |old(rows)| - |rows|
    {
      var all := rows;
      var kept := [];
      var i := 0;
      while i < |all|
        invariant i <= |all| && kept == Kept(all[..i], cutoff)
        invariant rows == all
      {
        assert all[..i + 1][..i] == all[..i];
        if all[i].createdAt > cutoff { kept := kept + [all[i]]; }
        i := i + 1;
      }
      assert all[..i] == all;
      KeptStaysOrdered(all, cutoff);
      KeptBelow(all, cutoff, nextId);
      rows := kept;
      purged := |all| - |kept|;
    }

    method ListByKey(key: Id, limit: int, before: int) returns (entries: seq<Entry>, hasMore: bool)
      ensures Page(entries, hasMore) == PageOf(rows, key, limit, before)
    {
      var size := PageSize(limit);
      var fetched := Fetch(rows, key, before, size + 1);
      hasMore := |fetched| > size;
      entries := if |fetched| > size then fetched[..size] else fetched;
    }
  }

  /** The query: matching records, newest first, at most `limit` of them. */
  method Fetch(table: seq<Entry>, key: Id, before: int, limit: nat) returns (fetched: seq<Entry>)
    ensures fetched == FirstOf(Listing(table, key, before), limit)
  {
    fetched := [];
    var i := |table|;
    ghost var rest := table;
    while i > 0 && |fetched| < limit
      invariant 0 <= i <= |table| && |fetched| <= limit && rest == table[..i]
      invariant Listing(table, key, before) == fetched + Listing(rest, key, before)
      decreases i
    {
      ListingStep(rest, key, before, fetched);
      if Matches(table[i - 1], key, before) { fetched := fetched + [table[i - 1]]; }
      rest := rest[..i - 1];
      i := i - 1;
    }
  }

  lemma ListingStep(table: seq<Entry>, key: Id, before: int, fetched: seq<Entry>)
    requires table != []
    ensures var last, rest := table[|table| - 1], Listing(table[..|table| - 1], key, before);
      fetched + Listing(table, key, before) ==
        if Matches(last, key, before) then fetched + [last] + rest else fetched + rest
  {
    var last, rest := table[|table| - 1], Listing(table[..|table| - 1], key, before);
    assert fetched + ([last] + rest) == fetched + [last] + rest;
    assert [] + rest == rest;
  }

  function Kept(table: seq<Entry>, cutoff: int): seq<Entry> {
    if table == [] then []
    else
      var last := table[|table| - 1];
      Kept(table[..|table| - 1], cutoff) + if last.createdAt > cutoff then [last] else []
  }

  predicate AllBelow(table: seq<Entry>, bound: nat) {
    forall i :: 0 <= i < |table| ==> table[i].id < bound
  }

  lemma {:induction false} KeptBelow(table: seq<Entry>, cutoff: int, bound: nat)
    requires AllBelow(table, bound)
    ensures AllBelow(Kept(table, cutoff), bound)
  {
    if table != [] { KeptBelow(table[..|table| - 1], cutoff, bound); }
  }

  lemma {:induction false} KeptStaysOrdered(table: seq<Entry>, cutoff: int)
    requires Ordered(table)
    ensures Ordered(Kept(table, cutoff))
  {
    if table != [] {
      var init, last := table[..|table| - 1], table[|table| - 1];
      KeptStaysOrdered(init, cutoff);
      assert AllBelow(init, last.id);
      KeptBelow(init, cutoff, last.id);
    }
  }

  // ---------- what a listing is ----------

  lemma {:induction false} ListingMembers(table: seq<Entry>, key: Id, before: int, e: Entry)
    ensures e in Listing(table, key, before) <==> e in table && Matches(e, key, before)
  {
    if table != [] {
      var init, last := table[..|table| - 1], table[|table| - 1];
      assert table == init + [last];
      ListingMembers(init, key, before, e);
    }
  }

  /** Ids are never negative, so nothing is older than a negative cursor. */
  lemma {:induction false} NegativeCursorListsNothing(table: seq<Entry>, key: Id, limit: int, before: int)
    requires before < 0
    ensures Listing(table, key, before) == [] && PageOf(table, key, limit, before) == Page([], false)
  {
    if table != [] { NegativeCursorListsNothing(table[..|table| - 1], key, limit, before); }
  }

  lemma {:induction false} ListingDescends(table: seq<Entry>, key: Id, before: int)
    requires Ordered(table)
    ensures forall i, j :: 0 <= i < j < |Listing(table, key, before)| ==>
      Listing(table, key, before)[i].id > Listing(table, key, before)[j].id
  {
    if table != [] {
      var init, last := table[..|table| - 1], table[|table| - 1];
      ListingDescends(init, key, before);
      var rest := Listing(init, key, before);
      forall j | 0 <= j < |rest| ensures rest[j].id < last.id {
        ListingMembers(init, key, before, rest[j]);
        assert rest[j] in init;
      }
    }
  }

  /** The cursor after `n` records cuts the listing right there. */
  lemma {:induction false} CursorCuts(table: seq<Entry>, key: Id, before: int, n: nat)
    requires Ordered(table) && 0 < n <= |Listing(table, key, before)|
    ensures Listing(table, key, Listing(table, key, before)[n - 1].id) == Listing(table, key, before)[n..]
  {
    var init, last := table[..|table| - 1], table[|table| - 1];
    assert table == init + [last];
    var m := if Matches(last, key, before) then n - 1 else n;
    if m > 0 {
      CursorCuts(init, key, before, m);
      var cursor := Listing(init, key, before)[m - 1].id;
      ListedBefore(init, last, key, before, m - 1);
      assert [] + Listing(init, key, cursor) == Listing(init, key, cursor);
    } else {
      CursorAbove(init, key, before, last.id);
    }
  }

  /** Whatever is listed of the older records is older than `last`. */
  lemma ListedBefore(init: seq<Entry>, last: Entry, key: Id, before: int, k: nat)
    requires Ordered(init + [last]) && k < |Listing(init, key, before)|
    ensures !Matches(last, key, Listing(init, key, before)[k].id)
  {
    var e := Listing(init, key, before)[k];
    ListingMembers(init, key, before, e);
    var i :| 0 <= i < |init| && init[i] == e;
    assert (init + [last])[i] == e && (init + [last])[|init|] == last;
  }

  /** A cursor above every id of the table, and not above the old one, changes nothing. */
  lemma {:induction false} CursorAbove(table: seq<Entry>, key: Id, before: int, cursor: int)
    requires forall i :: 0 <= i < |table| ==> table[i].id < cursor
    requires before == 0 || cursor <= before
    ensures Listing(table, key, cursor) == Listing(table, key, before)
  {
    if table != [] { CursorAbove(table[..|table| - 1], key, before, cursor); }
  }

  /** Records inserted after the cursor was taken are not seen behind it. */
  lemma {:induction false} NewerRecordsAreNotSeen(table: seq<Entry>, newer: seq<Entry>, key: Id, before: int)
    requires before != 0 && forall i :: 0 <= i < |newer| ==> newer[i].id >= before
    ensures Listing(table + newer, key, before) == Listing(table, key, before)
  {
    if newer == [] {
      assert table + newer == table;
    } else {
      assert (table + newer)[..|table + newer| - 1] == table + newer[..|newer| - 1];
      NewerRecordsAreNotSeen(table, newer[..|newer| - 1], key, before);
    }
  }

  // ---------- pages ----------

  /**
    A page is not empty if anything matches, no longer than its size, and `hasMore` says exactly whether older records
    match.
  */
  lemma {:induction false} PageIsExact(table: seq<Entry>, key: Id, limit: int, before: int)
    requires Ordered(table)
    ensures var page, all := PageOf(table, key, limit, before), Listing(table, key, before);
      && page.entries == FirstOf(all, PageSize(limit)) && 1 <= PageSize(limit) <= MAX_USAGE_LIMIT
      && (1 <= limit <= 500 ==> PageSize(limit) == limit)
      && (limit < 1 ==> PageSize(limit) == 1) && (limit > 500 ==> PageSize(limit) == 500)
      && (page.hasMore <==> |all| > PageSize(limit))
      && (page.entries != [] ==>
            (page.hasMore <==> exists e :: e in table && Matches(e, key, page.entries[|page.entries| - 1].id)))
  {
    var page, all := PageOf(table, key, limit, before), Listing(table, key, before);
    if page.entries != [] {
      var n := |page.entries|;
      var cursor := page.entries[n - 1].id;
      CursorCuts(table, key, before, n);
      if |all| > n {
        ListingMembers(table, key, cursor, all[n..][0]);
      } else {
        forall e ensures !(e in table && Matches(e, key, cursor)) {
          ListingMembers(table, key, cursor, e);
        }
      }
    }
  }

  /** Reading page after page of that size, each from the table as it is by then, until there are no more. */
  function Walk(tables: seq<seq<Entry>>, key: Id, size: nat, before: int): seq<Entry>
    decreases |tables|, 0
  {
    if tables == [] then [] else Onward(tables[1..], key, size, Cut(Listing(tables[0], key, before), size))
  }

  /** A page, and the walk from its last record on if there are more. */
  function Onward(tables: seq<seq<Entry>>, key: Id, size: nat, page: Page): seq<Entry>
    decreases |tables|, 1
  {
    if page.hasMore && page.entries != []
    then page.entries + Walk(tables, key, size, page.entries[|page.entries| - 1].id)
    else page.entries
  }

  /** Every table is the first one with records of larger ids added. */
  predicate OnlyGrows(first: seq<Entry>, tables: seq<seq<Entry>>) {
    forall i :: 0 <= i < |tables| ==> first <= tables[i] && Ordered(tables[i])
  }

  /** From `cursor` on, the tables agree with the first one. */
  predicate NewerFrom(first: seq<Entry>, tables: seq<seq<Entry>>, cursor: int) {
    forall t, i :: 0 <= t < |tables| && |first| <= i < |tables[t]| ==> tables[t][i].id >= cursor
  }

  lemma SameListing(first: seq<Entry>, table: seq<Entry>, key: Id, before: int)
    requires first <= table && (before == 0 ==> table == first)
    requires before != 0 ==> forall i :: |first| <= i < |table| ==> table[i].id >= before
    ensures Listing(table, key, before) == Listing(first, key, before)
  {
    if before != 0 {
      var newer := table[|first|..];
      assert table == first + newer;
      assert forall i :: 0 <= i < |newer| ==> newer[i] == table[|first| + i];
      NewerRecordsAreNotSeen(first, newer, key, before);
    }
  }

  /** Page after page, the table at hand lists what is left of `all`. */
  predicate Consistent(tables: seq<seq<Entry>>, key: Id, n: nat, before: int, all: seq<Entry>)
    requires n > 0
    decreases |tables|
  {
    && tables != [] && Listing(tables[0], key, before) == all
    && (|all| > n ==> Consistent(tables[1..], key, n, all[n - 1].id, all[n..]))
  }

  lemma {:induction false} ConsistentWalk(tables: seq<seq<Entry>>, key: Id, size: nat, before: int, all: seq<Entry>)
    requires size > 0 && Consistent(tables, key, size, before, all)
    ensures Walk(tables, key, size, before) == all
    decreases |tables|
  {
    if |all| > size {
      ConsistentWalk(tables[1..], key, size, all[size - 1].id, all[size..]);
      CutMore(all, size);
      CutParts(all, size);
      OnwardMore(tables[1..], key, size, all[..size], all[size..]);
    }
  }

  lemma CutParts(all: seq<Entry>, size: nat)
    requires 0 < size < |all|
    ensures all[..size] + all[size..] == all && all[..size][|all[..size]| - 1] == all[size - 1]
  {
  }

  lemma OnwardMore(tables: seq<seq<Entry>>, key: Id, size: nat, entries: seq<Entry>, rest: seq<Entry>)
    requires entries != [] && rest == Walk(tables, key, size, entries[|entries| - 1].id)
    ensures Onward(tables, key, size, Page(entries, true)) == entries + rest
  {
  }

  lemma CutMore(all: seq<Entry>, size: nat)
    requires 0 < size < |all|
    ensures Cut(all, size) == Page(all[..size], true)
  {
  }

  lemma {:induction false} GrowingIsConsistent(first: seq<Entry>, tables: seq<seq<Entry>>, key: Id, n: nat, before: int)
    requires Ordered(first) && OnlyGrows(first, tables) && |tables| > |Listing(first, key, before)| && n > 0
    requires if before == 0 then tables[0] == first else NewerFrom(first, tables, before)
    ensures Consistent(tables, key, n, before, Listing(first, key, before))
    decreases |tables|
  {
    SameListing(first, tables[0], key, before);
    var all := Listing(first, key, before);
    if |all| > n {
      ListingMembers(first, key, before, Listing(first, key, before)[n - 1]);
      CursorCuts(first, key, before, n);
      assert forall i :: 0 <= i < |tables[1..]| ==> tables[1..][i] == tables[i + 1];
      GrowingIsConsistent(first, tables[1..], key, n, all[n - 1].id);
    }
  }

  /**
    THE WALK.  Feeding back the last id of each page until there are no more ends, and yields every record
    of the key that was there at the first page exactly once, newest first, whatever is inserted meanwhile.
  */
  lemma WalkYieldsFirstListing(first: seq<Entry>, later: seq<seq<Entry>>, key: Id, limit: int)
    requires Ordered(first) && OnlyGrows(first, later) && |later| >= |Listing(first, key, 0)|
    ensures var walk := Walk([first] + later, key, PageSize(limit), 0);
      && walk == Listing(first, key, 0)
      && (forall e :: e in walk <==> e in first && e.key == key)
      && (forall i, j :: 0 <= i < j < |walk| ==> walk[i].id > walk[j].id)
  {
    var tables := [first] + later;
    assert forall i :: 1 <= i < |tables| ==> tables[i] == later[i - 1];
    GrowingIsConsistent(first, tables, key, PageSize(limit), 0);
    ConsistentWalk(tables, key, PageSize(limit), 0, Listing(first, key, 0));
    forall e ensures e in Listing(first, key, 0) <==> e in first && e.key == key { ListingMembers(first, key, 0, e); }
    ListingDescends(first, key, 0);
  }

  // ---------- purges between pages ----------

  predicate Descends(entries: seq<Entry>) {
    forall i, j :: 0 <= i < j < |entries| ==> entries[i].id > entries[j].id
  }

  /** `e` is newer than every record of `first`. */
  predicate NewerThan(e: Entry, first: seq<Entry>) {
    forall f :: f in first ==> e.id > f.id
  }

  /** Between the pages records of `first` may go, and newer ones may come and go. */
  predicate StartsFrom(first: seq<Entry>, tables: seq<seq<Entry>>) {
    forall t :: 0 <= t < |tables| ==> Ordered(tables[t]) && forall e :: e in tables[t] ==>
      e in first || NewerThan(e, first)
  }

  predicate StaysThroughout(e: Entry, tables: seq<seq<Entry>>) {
    forall t :: 0 <= t < |tables| ==> e in tables[t]
  }

  /** The cursor is no cursor on the first table, or a record of it. */
  predicate IsCursor(before: int, first: seq<Entry>, tables: seq<seq<Entry>>) {
    if before == 0 then tables != [] && tables[0] == first else exists f :: f in first && f.id == before
  }

  /** What a walk from `before` on has to be. */
  ghost predicate GoodWalk(walk: seq<Entry>, first: seq<Entry>, tables: seq<seq<Entry>>, key: Id, before: int) {
    && Descends(walk)
    && (forall e :: e in walk ==> e in first && Matches(e, key, before))
    && (forall e :: e in first && Matches(e, key, before) && StaysThroughout(e, tables) ==> e in walk)
  }

  lemma PageIsFromFirst(first: seq<Entry>, tables: seq<seq<Entry>>, key: Id, before: int, e: Entry)
    requires StartsFrom(first, tables) && tables != [] && IsCursor(before, first, tables)
    requires e in Listing(tables[0], key, before)
    ensures e in first && Matches(e, key, before)
  {
    ListingMembers(tables[0], key, before, e);
  }

  lemma LastPageIsGood(first: seq<Entry>, tables: seq<seq<Entry>>, key: Id, before: int)
    requires StartsFrom(first, tables) && tables != [] && IsCursor(before, first, tables)
    ensures GoodWalk(Listing(tables[0], key, before), first, tables, key, before)
  {
    var all := Listing(tables[0], key, before);
    ListingDescends(tables[0], key, before);
    forall e | e in all ensures e in first && Matches(e, key, before) {
      PageIsFromFirst(first, tables, key, before, e);
    }
    forall e | e in first && Matches(e, key, before) && StaysThroughout(e, tables) ensures e in all {
      ListingMembers(tables[0], key, before, e);
    }
  }

  /** A page in front of a good walk from its last record on is a good walk. */
  lemma PageThenWalk(
    first: seq<Entry>, tables: seq<seq<Entry>>, key: Id, before: int, all: seq<Entry>, n: nat, rest: seq<Entry>)
    requires tables != [] && GoodWalk(all, first, tables, key, before) && 0 < n <= |all|
    requires GoodWalk(rest, first, tables[1..], key, all[n - 1].id)
    requires all[n - 1].id > 0
    ensures GoodWalk(all[..n] + rest, first, tables, key, before)
  {
    var walk, cursor := all[..n] + rest, all[n - 1].id;
    assert all[n - 1] in all;
    forall e | e in walk ensures e in first && Matches(e, key, before) {
      if e in all[..n] { assert e in all; }
    }
    forall i, j | 0 <= i < j < |walk| ensures walk[i].id > walk[j].id {
      if i < n <= j { assert walk[j] in rest; }
    }
    forall e | e in first && Matches(e, key, before) && StaysThroughout(e, tables) ensures e in walk {
      assert StaysThroughout(e, tables[1..]);
      var k :| 0 <= k < |all| && all[k] == e;
      if k < n { assert walk[k] == e; } else { assert Matches(e, key, cursor); }
    }
  }

  /** The tables and the cursor of a walk that is under way. */
  ghost predicate UnderWay(first: seq<Entry>, tables: seq<seq<Entry>>, key: Id, before: int) {
    Ordered(first) && StartsFrom(first, tables) && IsCursor(before, first, tables) &&
      |tables| > |Listing(first, key, before)|
  }

  lemma {:induction false} StillUnderWay(first: seq<Entry>, tables: seq<seq<Entry>>, key: Id, before: int, last: Entry)
    requires UnderWay(first, tables, key, before) && last in Listing(tables[0], key, before)
    ensures UnderWay(first, tables[1..], key, last.id) && last.id > 0
  {
    PageIsFromFirst(first, tables, key, before, last);
    ListingMembers(first, key, before, last);
    var k :| 0 <= k < |Listing(first, key, before)| && Listing(first, key, before)[k] == last;
    CursorCuts(first, key, before, k + 1);
  }

  lemma WalkSteps(tables: seq<seq<Entry>>, key: Id, size: nat, before: int, all: seq<Entry>)
    requires tables != [] && size > 0 && all == Listing(tables[0], key, before)
    ensures Walk(tables, key, size, before) ==
            if |all| > size then all[..size] + Walk(tables[1..], key, size, all[size - 1].id) else all
  {
    assert |all| > size ==> Cut(all, size) == Page(all[..size], true);
  }

  lemma {:induction false} WalkAcrossFrom(
    first: seq<Entry>, tables: seq<seq<Entry>>, key: Id, size: nat, before: int, walk: seq<Entry>)
    requires UnderWay(first, tables, key, before) && size > 0 && walk == Walk(tables, key, size, before)
    ensures GoodWalk(walk, first, tables, key, before)
    decreases |tables|
  {
    var all := Listing(tables[0], key, before);
    WalkSteps(tables, key, size, before, all);
    LastPageIsGood(first, tables, key, before);
    if |all| > size {
      var cursor := all[size - 1].id;
      var rest := Walk(tables[1..], key, size, cursor);
      StillUnderWay(first, tables, key, before, all[size - 1]);
      WalkAcrossFrom(first, tables[1..], key, size, cursor, rest);
      PageThenWalk(first, tables, key, before, all, size, rest);
    }
  }

  /**
    THE WALK ACROSS PURGES.  Records may be inserted and purged between the pages.  A walk yields no record
    twice, none that was not there at the first page, and every one of those that is there throughout.
  */
  lemma {:induction false} WalkAcrossPurges(first: seq<Entry>, later: seq<seq<Entry>>, key: Id, limit: int)
    requires Ordered(first) && StartsFrom(first, later) && |later| >= |Listing(first, key, 0)|
    ensures GoodWalk(Walk([first] + later, key, PageSize(limit), 0), first, [first] + later, key, 0)
  {
    var tables := [first] + later;
    assert forall t :: 1 <= t < |tables| ==> tables[t] == later[t - 1];
    WalkAcrossFrom(first, tables, key, PageSize(limit), 0, Walk(tables, key, PageSize(limit), 0));
  }

  /** A purge, and then inserts under fresh ids, keep a table among those a walk may meet. */
  lemma PurgeKeepsStart(first: seq<Entry>, table: seq<Entry>, cutoff: int, newer: seq<Entry>)
    requires Ordered(table) && (forall e :: e in table ==> e in first || NewerThan(e, first))
    requires Ordered(Kept(table, cutoff) + newer) && forall e :: e in newer ==> NewerThan(e, first)
    ensures StartsFrom(first, [Kept(table, cutoff) + newer])
  {
    var next := Kept(table, cutoff) + newer;
    forall e | e in next ensures e in first || NewerThan(e, first) {
      if e !in newer { KeptMembers(table, cutoff, e); }
    }
  }

  lemma {:induction false} KeptMembers(table: seq<Entry>, cutoff: int, e: Entry)
    ensures e in Kept(table, cutoff) <==> e in table && e.createdAt > cutoff
  {
    if table != [] {
      var init, last := table[..|table| - 1], table[|table| - 1];
      assert table == init + [last];
      KeptMembers(init, cutoff, e);
    }
  }
}

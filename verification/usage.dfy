/** Token usage: merging cumulative reports, completing partial ones, and Anthropic's two ways of reporting. */
module UsageReports {
  import opened Estimate
  import opened Wrappers

  datatype Usage = Usage(prompt: int, completion: int, total: int, cache: int, estimated: bool)

  const NO_USAGE := Usage(0, 0, 0, 0, false)

  // ---------- merging ----------

  /** `merge_usage`: every count becomes the larger one; the `estimated` mark of the target stays. */
  function Merge(into: Usage, from: Usage): Usage {
    Usage(Max(into.prompt, from.prompt), Max(into.completion, from.completion),
          Max(into.total, from.total), Max(into.cache, from.cache), into.estimated)
  }

  /** Merging is a join of the counts; the `estimated` mark is the target's. */
  lemma MergeIsJoin(a: Usage, b: Usage, c: Usage)
    ensures Merge(a, a) == a
    ensures Merge(a, b) == Merge(b, a) <==> a.estimated == b.estimated
    ensures Merge(Merge(a, b), c) == Merge(a, Merge(b, c))
    ensures Merge(a, b) == a <==>
      b.prompt <= a.prompt && b.completion <= a.completion && b.total <= a.total && b.cache <= a.cache
  {
  }

  function MergeAll(start: Usage, reports: seq<Usage>): Usage {
    if reports == [] then start else Merge(MergeAll(start, reports[..|reports| - 1]), reports[|reports| - 1])
  }

  /** `m` is the largest of `start` and the values `field` takes on the reports. */
  ghost predicate IsMaximum(m: int, start: int, field: Usage -> int, reports: seq<Usage>) {
    && m >= start
    && (forall i :: 0 <= i < |reports| ==> field(reports[i]) <= m)
    && (m == start || exists i :: 0 <= i < |reports| && field(reports[i]) == m)
  }

  lemma {:induction false} MergeAllIsMaximum(start: Usage, reports: seq<Usage>, field: Usage -> int)
    requires forall a: Usage, b: Usage :: field(Merge(a, b)) == Max(field(a), field(b))
    ensures IsMaximum(field(MergeAll(start, reports)), field(start), field, reports)
  {
    if reports != [] {
      var n := |reports| - 1;
      MergeAllIsMaximum(start, reports[..n], field);
      MaximumSnoc(field(MergeAll(start, reports[..n])), field(start), field, reports, n);
    }
  }

  lemma MaximumSnoc(m: int, start: int, field: Usage -> int, reports: seq<Usage>, n: nat)
    requires |reports| == n + 1 && IsMaximum(m, start, field, reports[..n])
    ensures IsMaximum(Max(m, field(reports[n])), start, field, reports)
  {
    if m != start {
      var i :| 0 <= i < n && field(reports[..n][i]) == m;
      assert field(reports[i]) == m;
    }
  }

  lemma {:induction false} MergeAllKeepsMark(start: Usage, reports: seq<Usage>)
    ensures MergeAll(start, reports).estimated == start.estimated
  {
    if reports != [] { MergeAllKeepsMark(start, reports[..|reports| - 1]); }
  }

  lemma MaximumDependsOnMembers(
    m: int, n: int, start: int, field: Usage -> int, a: seq<Usage>, b: seq<Usage>)
    requires IsMaximum(m, start, field, a) && IsMaximum(n, start, field, b)
    requires forall u :: u in a <==> u in b
    ensures m == n
  {
    if m != start {
      var i :| 0 <= i < |a| && field(a[i]) == m;
      assert a[i] in b;
    }
    if n != start {
      var j :| 0 <= j < |b| && field(b[j]) == n;
      assert b[j] in a;
    }
  }

  /**
    Only the set of reports matters: delivering cumulative reports twice, or in another order, merges
    to the same usage.
  */
  lemma {:induction false} ReorderedAndRepeatedReports(start: Usage, a: seq<Usage>, b: seq<Usage>)
    requires forall u :: u in a <==> u in b
    ensures MergeAll(start, a) == MergeAll(start, b)
  {
    var prompt := (u: Usage) => u.prompt;
    var completion := (u: Usage) => u.completion;
    var total := (u: Usage) => u.total;
    var cache := (u: Usage) => u.cache;
    var x, y := MergeAll(start, a), MergeAll(start, b);
    MergeAllIsMaximum(start, a, prompt);
    MergeAllIsMaximum(start, b, prompt);
    MaximumDependsOnMembers(x.prompt, y.prompt, start.prompt, prompt, a, b);
    MergeAllIsMaximum(start, a, completion);
    MergeAllIsMaximum(start, b, completion);
    MaximumDependsOnMembers(x.completion, y.completion, start.completion, completion, a, b);
    MergeAllIsMaximum(start, a, total);
    MergeAllIsMaximum(start, b, total);
    MaximumDependsOnMembers(x.total, y.total, start.total, total, a, b);
    MergeAllIsMaximum(start, a, cache);
    MergeAllIsMaximum(start, b, cache);
    MaximumDependsOnMembers(x.cache, y.cache, start.cache, cache, a, b);
    MergeAllKeepsMark(start, a);
    MergeAllKeepsMark(start, b);
  }

  // ---------- completing ----------

  /** `Usage::estimated`. */
  function Estimated(prompt: int, completion: int): Usage {
    Usage(prompt, completion, prompt + completion, 0, true)
  }

  /** `complete_usage`; `promptGuess` and `completionGuess` are the local estimates. */
  function CompleteWith(reported: Usage, promptGuess: nat, completionGuess: nat): Usage {
    var prompt := Max(reported.prompt, 0);
    var completion := Max(reported.completion, 0);
    var total := Max(reported.total, 0);
    var cache := Max(reported.cache, 0);
    if prompt > 0 && completion > 0 then
      Usage(prompt, completion, Max(total, prompt + completion), cache, false)
    else if completion > 0 then
      Usage(promptGuess, completion, if total > 0 then total else promptGuess + completion, cache, true)
    else if prompt > 0 then
      if total - prompt > 0 then Usage(prompt, total - prompt, total, cache, true)
      else Usage(prompt, completionGuess, prompt + completionGuess, cache, true)
    else
      Estimated(promptGuess, completionGuess)
  }

  function Complete(reported: Usage, request: ChatRequest, output: string, letters: set<char>): Usage {
    CompleteWith(reported, PromptTokens(request, letters), CompletionTokens(output, letters))
  }

  /** Whatever the upstream reported, the completed usage has a positive total and no negative count. */
  lemma CompletedIsPositive(
    reported: Usage, request: ChatRequest, output: string, letters: set<char>)
    ensures var u := Complete(reported, request, output, letters);
      u.total > 0 && u.prompt >= 0 && u.completion > 0 && u.cache >= 0
  {
  }

  /**
    What was reported is kept: a positive prompt or completion as it is, the cache unless neither came, and
    the total is never lowered unless neither came.  A completion missing below the total is the difference.
  */
  lemma ReportedPartsAreKept(reported: Usage, promptGuess: nat, completionGuess: nat)
    ensures var u := CompleteWith(reported, promptGuess, completionGuess);
      && (reported.prompt > 0 ==> u.prompt == reported.prompt)
      && (reported.completion > 0 ==> u.completion == reported.completion)
      && (reported.prompt > 0 || reported.completion > 0 ==>
        u.cache == Max(reported.cache, 0) && u.total >= reported.total)
      && (reported.completion <= 0 && 0 < reported.prompt < reported.total ==>
        u.completion == reported.total - reported.prompt)
  {
  }

  /**
    The completed total covers prompt plus completion, except when only the completion was reported
    together with a total that is below the estimated prompt plus that completion.
  */
  lemma TotalCoversPartsExactly(reported: Usage, promptGuess: nat, completionGuess: nat)
    ensures var u := CompleteWith(reported, promptGuess, completionGuess);
      u.total >= u.prompt + u.completion <==>
      !(reported.prompt <= 0 < reported.completion && 0 < reported.total < promptGuess + reported.completion)
  {
  }

  /**
    What was not reported is filled in: a missing prompt by the prompt's estimate, a missing completion by the
    rest of the total or else by the output's estimate, and a missing total by the sum of the two.
  */
  lemma MissingPartsAreFilled(reported: Usage, request: ChatRequest, output: string, letters: set<char>)
    ensures var u := Complete(reported, request, output, letters);
      && (reported.prompt <= 0 ==> u.prompt == PromptTokens(request, letters))
      && (reported.completion <= 0 && !(0 < reported.prompt < reported.total) ==>
            u.completion == EstimateTokens(output, letters) + MESSAGE_OVERHEAD)
      && (reported.total <= 0 || (reported.prompt <= 0 && reported.completion <= 0) ==>
            u.total == u.prompt + u.completion)
      && (reported.prompt <= 0 && reported.completion <= 0 ==> u.cache == 0)
      && (reported.prompt > 0 ==> u.total == Max(reported.total, u.prompt + u.completion))
      && (reported.prompt <= 0 < reported.completion && reported.total > 0 ==> u.total == reported.total)
  {
  }

  /** The exception is real: a completion of 5 reported with a total of 5, and a prompt estimated at 10. */
  lemma TotalCanBeTooSmall()
    ensures var u := CompleteWith(Usage(0, 5, 5, 0, false), 10, 9);
      u.total == 5 && u.prompt + u.completion == 15
  {
  }

  /** A usage is marked as estimated exactly when one of the two parts was missing from the report. */
  lemma EstimatedExactlyWhenPartMissing(reported: Usage, promptGuess: nat, completionGuess: nat)
    ensures CompleteWith(reported, promptGuess, completionGuess).estimated <==>
            reported.prompt <= 0 || reported.completion <= 0
  {
  }

  // ---------- Anthropic ----------

  /** The `usage` object of an Anthropic message; absent fields are 0. */
  datatype RawUsage = RawUsage(input: nat, cacheRead: nat, cacheCreation: nat, output: nat)

  function TotalInput(raw: RawUsage): nat {
    raw.input + raw.cacheRead + raw.cacheCreation
  }

  /** `parse_usage`: the report of a non-streaming response. */
  function ParseUsage(raw: RawUsage): Usage {
    Usage(TotalInput(raw), raw.output, TotalInput(raw) + raw.output, raw.cacheRead, false)
  }

  /** The usage event of `message_start`, if it carries one. */
  function StartEvent(raw: RawUsage): seq<Usage> {
    if TotalInput(raw) > 0 || raw.cacheRead > 0 then [Usage(TotalInput(raw), 0, 0, raw.cacheRead, false)] else []
  }

  /** The usage event of a `message_delta`, if it carries one. */
  function DeltaEvent(raw: RawUsage): seq<Usage> {
    if TotalInput(raw) > 0 || raw.output > 0
    then [Usage(TotalInput(raw), raw.output, TotalInput(raw) + raw.output, raw.cacheRead, false)]
    else []
  }

  function DeltaEvents(raws: seq<RawUsage>): seq<Usage> {
    if raws == [] then [] else DeltaEvents(raws[..|raws| - 1]) + DeltaEvent(raws[|raws| - 1])
  }

  /** A cumulative report never exceeds the final numbers; old API versions leave the input fields out. */
  ghost predicate Within(raw: RawUsage, final: RawUsage) {
    && raw.output <= final.output && TotalInput(raw) <= TotalInput(final) && raw.cacheRead <= final.cacheRead
  }

  lemma {:induction false} MergeAllConcat(start: Usage, a: seq<Usage>, b: seq<Usage>)
    ensures MergeAll(start, a + b) == MergeAll(MergeAll(start, a), b)
  {
    if b == [] {
      assert a + b == a;
    } else {
      assert (a + b)[..|a + b| - 1] == a + b[..|b| - 1];
      MergeAllConcat(start, a, b[..|b| - 1]);
    }
  }

  /** What start event and deltas can have added up to, on the way to the final numbers. */
  ghost predicate Bounded(u: Usage, input: nat, cache: nat, output: nat) {
    && 0 <= u.prompt <= input && 0 <= u.cache <= cache && !u.estimated
    && 0 <= u.completion <= output && u.completion <= u.total <= input + output
    && (u.completion == 0 ==> u.total <= input)
  }

  /** The merged usage has everything a raw report said. */
  ghost predicate Covers(u: Usage, raw: RawUsage) {
    TotalInput(raw) <= u.prompt && raw.cacheRead <= u.cache && raw.output <= u.completion
  }

  lemma MergeSingle(u: Usage, report: Usage)
    ensures MergeAll(u, [report]) == Merge(u, report)
  {
    assert [report][..0] == [];
  }

  lemma {:induction false} DeltaStaysBounded(u: Usage, raw: RawUsage, final: RawUsage)
    requires Bounded(u, TotalInput(final), final.cacheRead, final.output) && Within(raw, final)
    ensures var v := MergeAll(u, DeltaEvent(raw));
      && Bounded(v, TotalInput(final), final.cacheRead, final.output) && Covers(v, raw)
      && u.prompt <= v.prompt && u.cache <= v.cache && u.completion <= v.completion
  {
    var input := TotalInput(raw);
    if input > 0 || raw.output > 0 {
      MergeSingle(u, Usage(input, raw.output, input + raw.output, raw.cacheRead, false));
    }
  }

  /** Merging deltas on top of a start event never overshoots, and covers every one of them. */
  lemma {:induction false} DeltasStayWithin(start: Usage, raws: seq<RawUsage>, final: RawUsage)
    requires forall i :: 0 <= i < |raws| ==> Within(raws[i], final)
    requires Bounded(start, TotalInput(final), final.cacheRead, final.output)
    ensures var u := MergeAll(start, DeltaEvents(raws));
      && Bounded(u, TotalInput(final), final.cacheRead, final.output)
      && start.prompt <= u.prompt && start.cache <= u.cache
      && forall i :: 0 <= i < |raws| ==> Covers(u, raws[i])
  {
    if raws != [] {
      var n := |raws| - 1;
      var init, last := raws[..n], raws[n];
      DeltasStayWithin(start, init, final);
      MergeAllConcat(start, DeltaEvents(init), DeltaEvent(last));
      DeltaStaysBounded(MergeAll(start, DeltaEvents(init)), last, final);
      forall i | 0 <= i < n ensures Covers(MergeAll(start, DeltaEvents(raws)), raws[i]) {
        assert Covers(MergeAll(start, DeltaEvents(init)), raws[..n][i]);
      }
    }
  }

  /** Each final number appears in some report; no output is reported by reporting none. */
  ghost predicate Attained(start: RawUsage, deltas: seq<RawUsage>, final: RawUsage) {
    && (TotalInput(start) == TotalInput(final) ||
        exists i :: 0 <= i < |deltas| && TotalInput(deltas[i]) == TotalInput(final))
    && (start.cacheRead == final.cacheRead || exists i :: 0 <= i < |deltas| && deltas[i].cacheRead == final.cacheRead)
    && (final.output == 0 || exists i :: 0 <= i < |deltas| && deltas[i].output == final.output)
  }

  /**
    SPLIT REPORTING.  Anthropic's stream reports the input in `message_start` and cumulative numbers in any
    number of `message_delta`s.  If no report exceeds the final numbers and each of those is reached by some
    report, then merged and completed they give the same usage as the one non-streaming report, with
    everything that was read, cached or not, as input.
  */
  lemma {:induction false} SplitReportsAgree(
    start: RawUsage, deltas: seq<RawUsage>, final: RawUsage, promptGuess: nat, completionGuess: nat)
    requires TotalInput(start) <= TotalInput(final) && start.cacheRead <= final.cacheRead
    requires forall i :: 0 <= i < |deltas| ==> Within(deltas[i], final)
    requires Attained(start, deltas, final)
    ensures CompleteWith(MergeAll(NO_USAGE, StartEvent(start) + DeltaEvents(deltas)), promptGuess, completionGuess)
         == CompleteWith(ParseUsage(final), promptGuess, completionGuess)
    ensures var u := MergeAll(NO_USAGE, StartEvent(start) + DeltaEvents(deltas));
      && u.prompt == final.input + final.cacheRead + final.cacheCreation
      && u.completion == final.output && u.cache == final.cacheRead && !u.estimated
  {
    var merged := MergeAll(NO_USAGE, StartEvent(start) + DeltaEvents(deltas));
    SplitMerged(start, deltas, final, merged);
  }

  /** Merged, the split reports stay within the final numbers and attain each of them. */
  lemma SplitMerged(start: RawUsage, deltas: seq<RawUsage>, final: RawUsage, merged: Usage)
    requires TotalInput(start) <= TotalInput(final) && start.cacheRead <= final.cacheRead
    requires forall i :: 0 <= i < |deltas| ==> Within(deltas[i], final)
    requires Attained(start, deltas, final)
    requires merged == MergeAll(NO_USAGE, StartEvent(start) + DeltaEvents(deltas))
    ensures Bounded(merged, TotalInput(final), final.cacheRead, final.output)
    ensures merged.prompt == TotalInput(final) && merged.cache == final.cacheRead && merged.completion == final.output
  {
    MergeAllConcat(NO_USAGE, StartEvent(start), DeltaEvents(deltas));
    MergeSingle(NO_USAGE, Usage(TotalInput(start), 0, 0, start.cacheRead, false));
    DeltasStayWithin(Usage(TotalInput(start), 0, 0, start.cacheRead, false), deltas, final);
  }

  // ---------- Google ----------

  /** Google's `usageMetadata`; absent fields are 0. */
  datatype Metadata = Metadata(prompt: nat, toolUse: nat, candidates: nat, thoughts: nat, cached: nat)

  /** Google's `parse_usage`: tool results are input, thoughts are output, the cached part is already in the prompt. */
  function ParseMetadata(m: Metadata): Usage {
    Usage(m.prompt + m.toolUse, m.candidates + m.thoughts, m.prompt + m.toolUse + m.candidates + m.thoughts, m.cached,
      false)
  }

  predicate NotAbove(a: Metadata, b: Metadata) {
    a.prompt <= b.prompt && a.toolUse <= b.toolUse && a.candidates <= b.candidates && a.thoughts <= b.thoughts &&
      a.cached <= b.cached
  }

  predicate Below(a: Usage, b: Usage) {
    a.prompt <= b.prompt && a.completion <= b.completion && a.total <= b.total && a.cache <= b.cache &&
      a.estimated == b.estimated
  }

  function Parsed(chunks: seq<Metadata>): (reports: seq<Usage>)
    ensures |reports| == |chunks| && forall i :: 0 <= i < |chunks| ==> reports[i] == ParseMetadata(chunks[i])
  {
    seq(|chunks|, i requires 0 <= i < |chunks| => ParseMetadata(chunks[i]))
  }

  lemma {:induction false} MergedStaysBelow(start: Usage, reports: seq<Usage>, top: Usage)
    requires Below(start, top) && forall i :: 0 <= i < |reports| ==> Below(reports[i], top)
    ensures Below(MergeAll(start, reports), top)
  {
    if reports != [] { MergedStaysBelow(start, reports[..|reports| - 1], top); }
  }

  /** Google repeats cumulative numbers with every chunk; merged, they are exactly the final ones, counted once. */
  lemma RepeatedMetadataCountsOnce(chunks: seq<Metadata>, final: Metadata)
    requires chunks != [] && chunks[|chunks| - 1] == final
    requires forall i :: 0 <= i < |chunks| ==> NotAbove(chunks[i], final)
    ensures MergeAll(NO_USAGE, Parsed(chunks)) == ParseMetadata(final)
    ensures var u := MergeAll(NO_USAGE, Parsed(chunks));
      && u.prompt == final.prompt + final.toolUse && u.completion == final.candidates + final.thoughts
      && u.total == u.prompt + u.completion && u.cache == final.cached && !u.estimated
  {
    var reports := Parsed(chunks);
    MergedStaysBelow(NO_USAGE, reports[..|reports| - 1], ParseMetadata(final));
  }
}

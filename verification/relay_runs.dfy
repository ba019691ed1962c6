/** What holds of every run of the relay, whatever the upstream sends and whenever the client goes. */
module RelayRuns {
  import opened Credits
  import opened Estimate
  import Ledger
  import opened Relay
  import opened UsageReports
  import opened Wrappers

  // ---------- gathering ----------

  lemma AnySnoc(es: seq<Event>, e: Event)
    ensures Produced(es + [e]) <==> Produced(es) || Produces(e)
    ensures ToolsSeen(es + [e]) <==> ToolsSeen(es) || CarriesTools(e)
    ensures Finished(es + [e]) <==> Finished(es) || e.Finish?
  {
    var all := es + [e];
    assert all[|es|] == e;
    assert forall i :: 0 <= i < |es| ==> all[i] == es[i];
  }

  lemma TextSnoc(es: seq<Event>, e: Event)
    ensures TextOf(es + [e]) == TextOf(es) + (if e.Delta? then e.text else "")
    ensures ReasoningOf(es + [e]) == ReasoningOf(es) + (if e.Delta? then e.reasoning else "")
  {
    assert (es + [e])[..|es|] == es;
  }

  lemma ReportsSnoc(es: seq<Event>, e: Event)
    ensures MergeAll(NO_USAGE, Reports(es + [e])) ==
            if e.Report? then Merge(MergeAll(NO_USAGE, Reports(es)), e.usage) else MergeAll(NO_USAGE, Reports(es))
  {
    assert (es + [e])[..|es|] == es;
    if e.Report? {
      assert (Reports(es) + [e.usage])[..|Reports(es)|] == Reports(es);
    } else {
      assert Reports(es) + [] == Reports(es);
    }
  }

  /** What the accumulators are to hold after `es`. */
  function Gathering(es: seq<Event>): Gathered {
    Gathered(TextOf(es), ReasoningOf(es), MergeAll(NO_USAGE, Reports(es)), Finished(es), Produced(es), ToolsSeen(es))
  }

  /** The relay's accumulators hold the concatenated text, the join of all reports, and what kinds of events came. */
  lemma {:induction false} GatherMeans(es: seq<Event>)
    ensures Gather(es) == Gathering(es)
    ensures ToolsSeen(es) ==> Produced(es)
  {
    if es != [] {
      var init, e := es[..|es| - 1], es[|es| - 1];
      assert es == init + [e];
      GatherMeans(init);
      AnySnoc(init, e);
      TextSnoc(init, e);
      ReportsSnoc(init, e);
    }
  }

  /** A snapshot reaches the client exactly if it has calls and nothing before it carried a tool call. */
  lemma {:induction false} SnapshotOnlyWithoutDeltas(es: seq<Event>, calls: seq<ToolCall>)
    ensures Frames(es + [Snapshot(calls)]) ==
            Frames(es) + (if calls != [] && !ToolsSeen(es) then [Chunk("", "", AsDeltas(calls))] else [])
  {
    Snoc(es, Snapshot(calls));
    GatherMeans(es);
  }

  // ---------- what is taken in ----------

  lemma {:induction false} CutDownMeans(es: seq<Event>, patience: nat)
    requires |Frames(es)| >= patience > 0
    ensures var seen := CutDown(es, patience);
      seen != [] && |Frames(seen)| >= patience > |Frames(seen[..|seen| - 1])|
  {
    if |Frames(es[..|es| - 1])| >= patience { CutDownMeans(es[..|es| - 1], patience); }
  }

  /**
    A client that accepts `patience` sends makes the relay stop right after the event whose send failed:
    everything before it was delivered, and that event is still taken in.
  */
  lemma StopsAtFailedSend(es: seq<Event>, patience: nat)
    requires patience > 0 && GoesEarly(es, Some(patience))
    ensures var seen := Seen(es, Some(patience));
      seen != [] && seen <= es && |[Role] + Frames(seen)| > patience &&
        |[Role] + Frames(seen[..|seen| - 1])| <= patience
  {
    CutDownMeans(es, patience);
  }

  // ---------- the outcome of a run ----------

  /** Whether an upstream error ended the run: a fault the client was still there for. */
  predicate EndedByFault(items: seq<Item>, patience: Option<nat>) {
    !GoesEarly(Flat(items), patience) && Faulty(items)
  }

  /** The completed usage over the join of the reports and all text in `es`. */
  function BillFor(es: seq<Event>, job: Job): Usage {
    Complete(MergeAll(NO_USAGE, Reports(es)), job.request, ReasoningOf(es) + TextOf(es), job.letters)
  }

  /** The frames of a run whose client accepts every send it is offered. */
  function Offered(seen: seq<Event>, cutShort: bool, accepted: bool, bill: Usage): seq<Frame> {
    [Role] + Frames(seen) +
    (if Produced(seen) then Ending(Finished(seen), cutShort, accepted, bill) else [ErrorDone])
  }

  function LogsOf(produced: bool, gone: bool, fault: bool, accepted: bool, bill: Usage): seq<Log> {
    if !produced then [if fault then UpstreamFault else NothingProduced]
    else (if fault then [UpstreamFault] else []) + [if accepted then Success(gone || fault, bill) else ChargeRefused]
  }

  /** What a run amounts to once the events it took in are known, and how its main loop ended. */
  function Meaning(seen: seq<Event>, gone: bool, fault: bool, patience: Option<nat>, job: Job): Outcome {
    var bill := BillFor(seen, job);
    var accepted := Accepted(job, bill);
    Outcome(Received(Offered(seen, gone || fault, accepted, bill), patience),
            if Produced(seen) then [bill] else [],
            if Produced(seen) then Booked(job, bill) else [],
            LogsOf(Produced(seen), gone, fault, accepted, bill))
  }

  lemma {:induction false} ConcludeMeans(seen: seq<Event>, gone: bool, fault: bool, patience: Option<nat>, job: Job)
    ensures Conclude(Progress(Gather(seen), Received([Role] + Frames(seen), patience), gone), fault, patience, job)
         == Meaning(seen, gone, fault, patience, job)
  {
    GatherMeans(seen);
    var bill := BillFor(seen, job);
    var tail := if Produced(seen) then Ending(Finished(seen), gone || fault, Accepted(job, bill), bill)
      else [ErrorDone];
    ReceivedTwice([Role] + Frames(seen), tail, patience);
  }

  /** The whole outcome of a run, from the events taken in. */
  lemma OutcomeMeans(items: seq<Item>, patience: Option<nat>, job: Job)
    requires patience != Some(0)
    ensures OutcomeOf(items, patience, job)
         == Meaning(Seen(Flat(items), patience), GoesEarly(Flat(items), patience), EndedByFault(items, patience),
           patience, job)
  {
    var es := Flat(items);
    ConsumeMeans(es, patience);
    ConcludeMeans(Seen(es, patience), GoesEarly(es, patience), EndedByFault(items, patience), patience, job);
  }

  /**
    ONE CHARGE CALL.  For every stream and every point at which the client vanishes, `billing::charge` is
    called exactly once if the opening frame went out and content was produced, and never otherwise; with the
    join of the reports and all text taken in, the delta whose send failed included.
  */
  lemma ChargedOnceIfProduced(items: seq<Item>, patience: Option<nat>, job: Job)
    ensures var seen := Seen(Flat(items), patience);
      OutcomeOf(items, patience, job).calls ==
        if patience != Some(0) && Produced(seen) then [BillFor(seen, job)] else []
  {
    if patience != Some(0) { OutcomeMeans(items, patience, job); }
  }

  lemma LogsMean(produced: bool, gone: bool, fault: bool, accepted: bool, bill: Usage)
    requires gone ==> !fault
    ensures var logs := LogsOf(produced, gone, fault, accepted, bill);
      && |logs| == (if produced && fault then 2 else 1)
      && (UpstreamFault in logs && Success(true, bill) in logs <==> produced && fault && accepted)
  {
    LogRowsMean(produced, gone, fault, accepted, bill, UpstreamFault);
    LogRowsMean(produced, gone, fault, accepted, bill, Success(true, bill));
  }

  lemma LogRowsMean(produced: bool, gone: bool, fault: bool, accepted: bool, bill: Usage, row: Log)
    ensures row in LogsOf(produced, gone, fault, accepted, bill) <==> match row
      case UpstreamFault => fault
      case NothingProduced => !produced && !fault
      case ChargeRefused => produced && !accepted
      case Success(clientGone, usage) => produced && accepted && clientGone == (gone || fault) && usage == bill
  {
  }

  /**
    A fault after content, and only that, leaves an error row and, if the charge went through, a success
    row as well; then no closing frame goes out.
  */
  lemma BothRowsExactlyOnLateFault(items: seq<Item>, patience: Option<nat>, job: Job)
    requires patience != Some(0)
    ensures var o := OutcomeOf(items, patience, job);
      var seen := Seen(Flat(items), patience);
      var late := EndedByFault(items, patience) && Produced(seen);
      && |o.logs| == (if late then 2 else 1)
      && (UpstreamFault in o.logs && Success(true, BillFor(seen, job)) in o.logs <==>
        late && Accepted(job, BillFor(seen, job)))
      && (late ==> o.sent == Received([Role] + Frames(seen), patience))
  {
    OutcomeMeans(items, patience, job);
    var seen := Seen(Flat(items), patience);
    LogsMean(Produced(seen), GoesEarly(Flat(items), patience), EndedByFault(items, patience),
      Accepted(job, BillFor(seen, job)), BillFor(seen, job));
    assert [Role] + Frames(seen) + [] == [Role] + Frames(seen);
  }

  /** Both rows do occur: one delta, then a break, on a charge that goes through. */
  lemma BothRowsHappen(job: Job, delta: Event, bill: Usage)
    requires delta == Delta("", "a", []) && bill == BillFor([delta], job) && Accepted(job, bill)
    ensures OutcomeOf([Events([delta]), Broken], None, job).logs == [UpstreamFault, Success(true, bill)]
  {
    var items := [Events([delta]), Broken];
    assert IsFault(items[1]) && Flat(items[1..]) == [] && [delta] + [] == [delta];
    assert Produces([delta][0]);
    OutcomeMeans(items, None, job);
  }

  // ---------- a client that leaves sees a prefix ----------

  /**
    Vanishing only cuts the client's view short: it received the first frames of what it would have received by
    staying.
  */
  lemma LeavingOnlyTruncates(items: seq<Item>, patience: nat, job: Job)
    ensures OutcomeOf(items, Some(patience), job).sent ==
            Received(OutcomeOf(items, None, job).sent, Some(patience))
  {
    if patience > 0 {
      OutcomeMeans(items, Some(patience), job);
      OutcomeMeans(items, None, job);
      var es := Flat(items);
      var seen := Seen(es, Some(patience));
      if GoesEarly(es, Some(patience)) {
        StopsAtFailedSend(es, patience);
        TruncationEarly(es, seen, patience, Faulty(items), job);
      }
    }
  }

  lemma SameStart(common: seq<Frame>, a: seq<Frame>, b: seq<Frame>, patience: nat)
    requires common <= a && common <= b && |common| >= patience
    ensures Received(a, Some(patience)) == Received(b, Some(patience)) == common[..patience]
  {
  }

  lemma {:induction false} TruncationEarly(es: seq<Event>, seen: seq<Event>, patience: nat, fault: bool, job: Job)
    requires seen <= es && |[Role] + Frames(seen)| > patience
    ensures Meaning(seen, true, false, Some(patience), job).sent ==
      Received(Meaning(es, false, fault, None, job).sent, Some(patience))
  {
    var bill, other := BillFor(seen, job), BillFor(es, job);
    FramesGrow(seen, es[|seen|..]);
    assert seen + es[|seen|..] == es;
    SameStart([Role] + Frames(seen), Offered(seen, true, Accepted(job, bill), bill),
      Offered(es, fault, Accepted(job, other), other), patience);
  }

  // ---------- the grammar of a complete stream ----------

  predicate IsContent(frame: Frame) {
    frame.Chunk? || frame.Closing?
  }

  function Closings(frames: seq<Frame>): nat {
    if frames == [] then 0 else Closings(frames[..|frames| - 1]) + (if frames[|frames| - 1].Closing? then 1 else 0)
  }

  /** Between the opening and the last frames there are only deltas, with `n` finishes among them. */
  predicate IsBody(frames: seq<Frame>, n: nat) {
    (forall i :: 0 <= i < |frames| ==> IsContent(frames[i])) && Closings(frames) == n
  }

  lemma BodySnoc(frames: seq<Frame>, n: nat, frame: Frame)
    requires IsBody(frames, n) && IsContent(frame)
    ensures IsBody(frames + [frame], n + if frame.Closing? then 1 else 0)
  {
    assert (frames + [frame])[..|frames|] == frames;
  }

  lemma {:induction false} FramesAreBody(es: seq<Event>)
    ensures IsBody(Frames(es), if Finished(es) then 1 else 0)
  {
    if es != [] {
      var init, e := es[..|es| - 1], es[|es| - 1];
      assert es == init + [e];
      FramesAreBody(init);
      GatherMeans(init);
      AnySnoc(init, e);
      var more := FramesFor(Gather(init), e);
      if more == [] {
        assert Frames(init) + more == Frames(init);
      } else {
        assert more == [more[0]];
        BodySnoc(Frames(init), if Finished(init) then 1 else 0, more[0]);
      }
    }
  }

  /** The deltas and finishes of a run that is not cut short. */
  function Body(es: seq<Event>): seq<Frame> {
    Finishing(Frames(es), Produced(es), Finished(es))
  }

  function Finishing(frames: seq<Frame>, produced: bool, finished: bool): seq<Frame> {
    frames + (if produced && !finished then [Closing(Stop)] else [])
  }

  lemma BodyIsBody(es: seq<Event>)
    ensures IsBody(Body(es), if Produced(es) || Finished(es) then 1 else 0)
  {
    FramesAreBody(es);
    FinishingIsBody(Frames(es), Produced(es), Finished(es));
  }

  lemma FinishingIsBody(frames: seq<Frame>, produced: bool, finished: bool)
    requires IsBody(frames, if finished then 1 else 0)
    ensures IsBody(Finishing(frames, produced, finished), if produced || finished then 1 else 0)
  {
    if produced && !finished {
      BodySnoc(frames, 0, Closing(Stop));
    } else {
      assert frames + [] == frames;
    }
  }

  lemma OfferedParts(es: seq<Event>, accepted: bool, bill: Usage)
    ensures Offered(es, false, accepted, bill) ==
            [Role] + Body(es) + (if Produced(es) && accepted then [UsageFrame(bill), Done] else [ErrorDone])
  {
    var last := SignOffFrames(accepted, bill);
    assert [] + last == last;
    assert Frames(es) + [] == Frames(es);
    assert [Role] + Frames(es) + ([Closing(Stop)] + last) == [Role] + (Frames(es) + [Closing(Stop)]) + last;
  }

  /**
    COMPLETE STREAMS.  A client that stays, with no upstream error after content, receives one role frame,
    then deltas with at most one finish, exactly one if content was produced, then the usage and a single
    `[DONE]` if the charge went through, or a single error frame carrying the `[DONE]`.
  */
  lemma {:induction false} StayingClientSeesWholeStream(items: seq<Item>, job: Job)
    requires !(Faulty(items) && Produced(Flat(items)))
    ensures var es := Flat(items);
      var bill := BillFor(es, job);
      var last := if Produced(es) && Accepted(job, bill) then [UsageFrame(bill), Done] else [ErrorDone];
      && OutcomeOf(items, None, job).sent == [Role] + Body(es) + last
      && IsBody(Body(es), if Produced(es) || Finished(es) then 1 else 0)
  {
    var es := Flat(items);
    var bill := BillFor(es, job);
    OutcomeMeans(items, None, job);
    BodyIsBody(es);
    OfferedParts(es, Accepted(job, bill), bill);
    if !Produced(es) {
      assert Offered(es, Faulty(items), Accepted(job, bill), bill) == Offered(es, false, Accepted(job, bill), bill);
    }
  }

  // ---------- parts of frames ----------

  /** One part of all frames, put together. */
  function Collected<T>(part: Frame -> seq<T>, frames: seq<Frame>): seq<T> {
    if frames == [] then [] else Collected(part, frames[..|frames| - 1]) + part(frames[|frames| - 1])
  }

  lemma {:induction false} CollectedConcat<T>(part: Frame -> seq<T>, a: seq<Frame>, b: seq<Frame>)
    ensures Collected(part, a + b) == Collected(part, a) + Collected(part, b)
  {
    if b == [] {
      assert a + b == a;
    } else {
      assert (a + b)[..|a + b| - 1] == a + b[..|b| - 1];
      CollectedConcat(part, a, b[..|b| - 1]);
    }
  }

  lemma CollectedSnoc<T>(part: Frame -> seq<T>, frames: seq<Frame>, more: seq<Frame>)
    requires |more| <= 1
    ensures Collected(part, frames + more) == Collected(part, frames) + if more == [] then [] else part(more[0])
  {
    if more == [] {
      assert frames + more == frames;
    } else {
      assert (frames + more)[..|frames|] == frames;
    }
  }

  lemma {:induction false} NothingCollected<T>(part: Frame -> seq<T>, frames: seq<Frame>)
    requires forall i :: 0 <= i < |frames| ==> part(frames[i]) == []
    ensures Collected(part, frames) == []
  {
    if frames != [] { NothingCollected(part, frames[..|frames| - 1]); }
  }

  lemma CollectedAmid<T>(part: Frame -> seq<T>, a: seq<Frame>, b: seq<Frame>, c: seq<Frame>)
    requires Collected(part, a) == [] && Collected(part, c) == []
    ensures Collected(part, a + b + c) == Collected(part, b)
  {
    CollectedConcat(part, a, b);
    CollectedConcat(part, a + b, c);
  }

  lemma CollectedPrefix<T>(part: Frame -> seq<T>, prefix: seq<Frame>, frames: seq<Frame>)
    requires prefix <= frames
    ensures Collected(part, prefix) <= Collected(part, frames)
  {
    var rest := frames[|prefix|..];
    CollectedConcat(part, prefix, rest);
    assert prefix + rest == frames;
  }

  // ---------- what a client makes of tool calls ----------

  /** A client's calls after one more delta: what it sets replaces, and argument fragments are appended. */
  function Fed(calls: map<nat, ToolCall>, d: ToolDelta): map<nat, ToolCall> {
    var before := if d.index in calls then calls[d.index] else ToolCall("", "", "");
    calls[d.index := ToolCall(
      if d.id.Some? then d.id.value else before.id,
      if d.name.Some? then d.name.value else before.name,
      before.arguments + if d.arguments.Some? then d.arguments.value else "")]
  }

  function FedAll(deltas: seq<ToolDelta>): map<nat, ToolCall> {
    if deltas == [] then map[] else Fed(FedAll(deltas[..|deltas| - 1]), deltas[|deltas| - 1])
  }

  function ToolPart(frame: Frame): seq<ToolDelta> {
    if frame.Chunk? then frame.tools else []
  }

  /** The tool deltas of a stream of frames, in order. */
  function ToolsIn(frames: seq<Frame>): seq<ToolDelta> {
    Collected(ToolPart, frames)
  }

  // ---------- text and reasoning arrive as they came ----------

  function TextPart(frame: Frame): string {
    if frame.Chunk? then frame.text else ""
  }

  function ReasoningPart(frame: Frame): string {
    if frame.Chunk? then frame.reasoning else ""
  }

  /** The deltas sent carry the text and the reasoning received, unchanged. */
  lemma {:induction false} FramesCarryTheText(es: seq<Event>)
    ensures Collected(TextPart, Frames(es)) == TextOf(es) && Collected(ReasoningPart, Frames(es)) == ReasoningOf(es)
  {
    if es != [] {
      var init, e := es[..|es| - 1], es[|es| - 1];
      FramesCarryTheText(init);
      CollectedSnoc(TextPart, Frames(init), FramesFor(Gather(init), e));
      CollectedSnoc(ReasoningPart, Frames(init), FramesFor(Gather(init), e));
    }
  }

  /** The frames after the opening one and the deltas. */
  function TailOf(seen: seq<Event>, cutShort: bool, accepted: bool, bill: Usage): (tail: seq<Frame>)
    ensures forall i :: 0 <= i < |tail| ==> !tail[i].Chunk?
  {
    if Produced(seen) then Ending(Finished(seen), cutShort, accepted, bill) else [ErrorDone]
  }

  lemma DeliveredPart<T>(
    part: Frame -> seq<T>, seen: seq<Event>, gone: bool, fault: bool, patience: Option<nat>, job: Job)
    requires forall frame: Frame :: !frame.Chunk? ==> part(frame) == []
    ensures var sent := Meaning(seen, gone, fault, patience, job).sent;
      && Collected(part, sent) <= Collected(part, Frames(seen))
      && (patience.None? ==> Collected(part, sent) == Collected(part, Frames(seen)))
  {
    var bill := BillFor(seen, job);
    var offered := Offered(seen, gone || fault, Accepted(job, bill), bill);
    OfferedPart(part, seen, gone || fault, Accepted(job, bill), bill);
    CollectedPrefix(part, Received(offered, patience), offered);
  }

  lemma OfferedPart<T>(
    part: Frame -> seq<T>, seen: seq<Event>, cutShort: bool, accepted: bool, bill: Usage)
    requires forall frame: Frame :: !frame.Chunk? ==> part(frame) == []
    ensures Collected(part, Offered(seen, cutShort, accepted, bill)) == Collected(part, Frames(seen))
  {
    var first, tail := [Role], TailOf(seen, cutShort, accepted, bill);
    NothingCollected(part, first);
    NothingCollected(part, tail);
    CollectedAmid(part, first, Frames(seen), tail);
  }

  /**
    Whatever text and reasoning reached the client is a prefix of what was taken in, and all of it if the client
    stayed.
  */
  lemma DeliveredTextIsTakenIn(items: seq<Item>, patience: Option<nat>, job: Job)
    ensures var sent, seen := OutcomeOf(items, patience, job).sent, Seen(Flat(items), patience);
      && Collected(TextPart, sent) <= TextOf(seen) && Collected(ReasoningPart, sent) <= ReasoningOf(seen)
      && (patience.None? ==> Collected(TextPart, sent) == TextOf(Flat(items)))
      && (patience.None? ==> Collected(ReasoningPart, sent) == ReasoningOf(Flat(items)))
  {
    if patience != Some(0) {
      var es := Flat(items);
      var seen := Seen(es, patience);
      OutcomeMeans(items, patience, job);
      FramesCarryTheText(seen);
      DeliveredPart(TextPart, seen, GoesEarly(es, patience), EndedByFault(items, patience), patience, job);
      DeliveredPart(ReasoningPart, seen, GoesEarly(es, patience), EndedByFault(items, patience), patience, job);
    }
  }

  // ---------- tool calls and finishes arrive as they came ----------

  /**
    The tool calls of a list of events: those of its deltas, in order, and those of a snapshot in front of
    which no event carried any.
  */
  function ToolsOf(es: seq<Event>): seq<ToolDelta> {
    if es == [] then []
    else
      var init, e := es[..|es| - 1], es[|es| - 1];
      ToolsOf(init) +
      if e.Delta? then e.tools else if e.Snapshot? && !ToolsSeen(init) then AsDeltas(e.calls) else []
  }

  lemma ToolsSnoc(es: seq<Event>, e: Event)
    ensures ToolsOf(es + [e]) == ToolsOf(es) +
      if e.Delta? then e.tools else if e.Snapshot? && !ToolsSeen(es) then AsDeltas(e.calls) else []
  {
    assert (es + [e])[..|es|] == es;
  }

  /** The tool calls of the frame an event gives rise to. */
  lemma FrameTools(g: Gathered, e: Event)
    ensures |FramesFor(g, e)| <= 1
    ensures (if FramesFor(g, e) == [] then [] else ToolPart(FramesFor(g, e)[0])) ==
      if e.Delta? then e.tools else if e.Snapshot? && !g.toolsSeen then AsDeltas(e.calls) else []
  {
  }

  lemma {:induction false} FramesCarryTheTools(es: seq<Event>)
    ensures ToolsIn(Frames(es)) == ToolsOf(es)
  {
    if es != [] {
      var init, e := es[..|es| - 1], es[|es| - 1];
      assert es == init + [e];
      FramesCarryTheTools(init);
      GatherMeans(init);
      FrameTools(Gather(init), e);
      Snoc(init, e);
      ToolsSnoc(init, e);
      CollectedSnoc(ToolPart, Frames(init), FramesFor(Gather(init), e));
    }
  }

  /** Frames of a client that leaves, and of one that stays: each part of the first is a prefix of the second's. */
  lemma LeavingTruncatesParts<T>(part: Frame -> seq<T>, items: seq<Item>, patience: Option<nat>, job: Job)
    ensures Collected(part, OutcomeOf(items, patience, job).sent) <= Collected(part, OutcomeOf(items, None, job).sent)
  {
    if patience.Some? {
      LeavingOnlyTruncates(items, patience.value, job);
      CollectedPrefix(part, OutcomeOf(items, patience, job).sent, OutcomeOf(items, None, job).sent);
    }
  }

  /**
    TOOL CALLS ARRIVE.  A client that stays receives exactly the tool calls the upstream sent: every delta's,
    in order and unchanged, and a snapshot's if none came before it.  One that leaves has received the first
    of them.
  */
  lemma ToolCallsArrive(items: seq<Item>, patience: Option<nat>, job: Job)
    ensures ToolsIn(OutcomeOf(items, None, job).sent) == ToolsOf(Flat(items))
    ensures ToolsIn(OutcomeOf(items, patience, job).sent) <= ToolsOf(Flat(items))
  {
    var es := Flat(items);
    OutcomeMeans(items, None, job);
    FramesCarryTheTools(es);
    DeliveredPart(ToolPart, es, false, Faulty(items), None, job);
    LeavingTruncatesParts(ToolPart, items, patience, job);
  }

  lemma {:induction false} ProducedMeansContent(es: seq<Event>)
    ensures Produced(es) <==> TextOf(es) != "" || ReasoningOf(es) != "" || ToolsOf(es) != []
    ensures ToolsSeen(es) <==> ToolsOf(es) != []
  {
    if es != [] {
      var init, e := es[..|es| - 1], es[|es| - 1];
      assert es == init + [e];
      ProducedMeansContent(init);
      AnySnoc(init, e);
    }
  }

  predicate NoToolDeltas(es: seq<Event>) {
    es == [] || (!(es[0].Delta? && es[0].tools != []) && NoToolDeltas(es[1..]))
  }

  /** A tool call was seen, and these are the deltas that carry tool calls so far. */
  predicate ToolsSettled(all: seq<Event>, tools: seq<ToolDelta>) {
    ToolsSeen(all) && ToolsOf(all) == tools
  }

  /** Once a tool call was seen, further snapshots add nothing. */
  lemma {:induction false} LaterSnapshotsAddNothing(
    es: seq<Event>, later: seq<Event>, tools: seq<ToolDelta>, all: seq<Event>)
    requires ToolsSettled(es, tools) && NoToolDeltas(later) && all == es + later
    ensures ToolsSettled(all, tools)
    decreases |later|
  {
    if later == [] {
      assert all == es;
    } else {
      var next := es + [later[0]];
      OneEventOn(es, later, all);
      LaterEventAddsNothing(es, later[0], tools, next);
      LaterSnapshotsAddNothing(next, later[1..], tools, all);
    }
  }

  lemma OneEventOn(es: seq<Event>, later: seq<Event>, all: seq<Event>)
    requires later != [] && NoToolDeltas(later) && all == es + later
    ensures all == es + [later[0]] + later[1..] && NoToolDeltas(later[1..])
    ensures !(later[0].Delta? && later[0].tools != [])
  {
  }

  lemma LaterEventAddsNothing(es: seq<Event>, e: Event, tools: seq<ToolDelta>, all: seq<Event>)
    requires ToolsSettled(es, tools) && !(e.Delta? && e.tools != []) && all == es + [e]
    ensures ToolsSettled(all, tools)
  {
    AnySnoc(es, e);
    ToolsSnoc(es, e);
  }

  lemma {:induction false} SnapshotDeltasFeed(calls: seq<ToolCall>, k: nat)
    requires k <= |calls|
    ensures FedAll(AsDeltas(calls)[..k]) == map i: nat | i < k :: calls[i]
  {
    if k > 0 {
      SnapshotDeltasFeed(calls, k - 1);
      assert AsDeltas(calls)[..k][..k - 1] == AsDeltas(calls)[..k - 1];
      assert "" + calls[k - 1].arguments == calls[k - 1].arguments;
    }
  }

  /**
    TOOL CALLS.  If no tool call came before a snapshot and none comes as a delta after it, a client that
    puts the deltas together has exactly the snapshot's calls, however often snapshots are repeated.
  */
  lemma {:induction false} SnapshotArrivesWhole(es: seq<Event>, calls: seq<ToolCall>, later: seq<Event>)
    requires !ToolsSeen(es) && calls != [] && NoToolDeltas(later)
    ensures FedAll(ToolsIn(Frames(es + [Snapshot(calls)] + later))) == map i: nat | i < |calls| :: calls[i]
  {
    var e, settled := Snapshot(calls), es + [Snapshot(calls)];
    AnySnoc(es, e);
    ToolsSnoc(es, e);
    ProducedMeansContent(es);
    assert [] + AsDeltas(calls) == AsDeltas(calls) == AsDeltas(calls)[..|calls|];
    SnapshotDeltasFeed(calls, |calls|);
    LaterSnapshotsAddNothing(settled, later, AsDeltas(calls), settled + later);
    FramesCarryTheTools(settled + later);
  }

  function ReasonPart(frame: Frame): seq<FinishReason> {
    if frame.Closing? then [frame.reason] else []
  }

  /** The reason of the first finish, if there is one. */
  function FirstReason(es: seq<Event>): seq<FinishReason> {
    if es == [] then []
    else
      var before, e := FirstReason(es[..|es| - 1]), es[|es| - 1];
      if before == [] && e.Finish? then [e.reason] else before
  }

  lemma {:induction false} FramesCarryTheReason(es: seq<Event>)
    ensures Collected(ReasonPart, Frames(es)) == FirstReason(es)
    ensures FirstReason(es) == [] <==> !Finished(es)
  {
    if es != [] {
      var init, e := es[..|es| - 1], es[|es| - 1];
      assert es == init + [e];
      FramesCarryTheReason(init);
      GatherMeans(init);
      AnySnoc(init, e);
      CollectedSnoc(ReasonPart, Frames(init), FramesFor(Gather(init), e));
    }
  }

  lemma CollectedOne<T>(part: Frame -> seq<T>, frame: Frame)
    ensures Collected(part, [frame]) == part(frame)
  {
    CollectedSnoc(part, [], [frame]);
    assert [] + [frame] == [frame];
  }

  lemma EndingReasons(finished: bool, accepted: bool, bill: Usage)
    ensures Collected(ReasonPart, Ending(finished, false, accepted, bill)) == if finished then [] else [Stop]
  {
    var first, last := if finished then [] else [Closing(Stop)], SignOffFrames(accepted, bill);
    NothingCollected(ReasonPart, last);
    CollectedOne(ReasonPart, Closing(Stop));
    CollectedConcat(ReasonPart, first, last);
  }

  /** The reasons of the frames after the deltas. */
  lemma TailReasons(seen: seq<Event>, cutShort: bool, accepted: bool, bill: Usage)
    ensures Collected(ReasonPart, TailOf(seen, cutShort, accepted, bill)) ==
      if Produced(seen) && !cutShort && !Finished(seen) then [Stop] else []
  {
    CollectedOne(ReasonPart, ErrorDone);
    EndingReasons(Finished(seen), accepted, bill);
  }

  /**
    THE FINISH ARRIVES.  A client that stays is told the reason of the upstream's first finish, once.  Without
    a finish it is told `stop` exactly if content was produced and no upstream error came.  One that leaves is
    told that or nothing.
  */
  lemma FinishReasonArrives(items: seq<Item>, patience: Option<nat>, job: Job)
    ensures var es, told := Flat(items), Collected(ReasonPart, OutcomeOf(items, None, job).sent);
      told == if Finished(es) then FirstReason(es) else if Produced(es) && !Faulty(items) then [Stop] else []
    ensures Collected(ReasonPart, OutcomeOf(items, patience, job).sent) <=
            Collected(ReasonPart, OutcomeOf(items, None, job).sent)
  {
    var es := Flat(items);
    OutcomeMeans(items, None, job);
    OfferedReasons(es, Faulty(items), Accepted(job, BillFor(es, job)), BillFor(es, job));
    LeavingTruncatesParts(ReasonPart, items, patience, job);
  }

  lemma OfferedReasons(seen: seq<Event>, cutShort: bool, accepted: bool, bill: Usage)
    ensures Collected(ReasonPart, Offered(seen, cutShort, accepted, bill)) ==
      if Finished(seen) then FirstReason(seen) else if Produced(seen) && !cutShort then [Stop] else []
  {
    FramesCarryTheReason(seen);
    TailReasons(seen, cutShort, accepted, bill);
    NothingCollected(ReasonPart, [Role]);
    CollectedConcat(ReasonPart, [Role], Frames(seen));
    CollectedConcat(ReasonPart, [Role] + Frames(seen), TailOf(seen, cutShort, accepted, bill));
  }

  /**
    CHARGED FOR CONTENT ONLY.  The charge is called for a client that stays exactly if text, reasoning or a
    tool call was delivered to it.
  */
  lemma ChargedExactlyForContent(items: seq<Item>, job: Job)
    ensures var o := OutcomeOf(items, None, job);
      o.calls != [] <==>
      Collected(TextPart, o.sent) != "" || Collected(ReasoningPart, o.sent) != "" || ToolsIn(o.sent) != []
  {
    OutcomeMeans(items, None, job);
    DeliveredTextIsTakenIn(items, None, job);
    ToolCallsArrive(items, None, job);
    ProducedMeansContent(Flat(items));
  }

  // ---------- the log rows ----------

  /** Which rows a run leaves, each by its cause. */
  lemma LogRowsExactly(items: seq<Item>, patience: Option<nat>, job: Job, row: Log)
    requires patience != Some(0)
    ensures var es := Flat(items);
      var seen, gone := Seen(es, patience), GoesEarly(es, patience);
      var bill := BillFor(seen, job);
      row in OutcomeOf(items, patience, job).logs <==> match row
        case UpstreamFault => !gone && Faulty(items)
        case NothingProduced => !Produced(seen) && (gone || !Faulty(items))
        case ChargeRefused => Produced(seen) && !Accepted(job, bill)
        case Success(clientGone, usage) =>
          Produced(seen) && Accepted(job, bill) && clientGone == (gone || Faulty(items)) && usage == bill
  {
    var es := Flat(items);
    var seen := Seen(es, patience);
    var bill := BillFor(seen, job);
    OutcomeMeans(items, patience, job);
    LogRowsMean(Produced(seen), GoesEarly(es, patience), EndedByFault(items, patience), Accepted(job, bill), bill, row);
  }

  // ---------- the events of a stream ----------

  /** What one more item in front of a stream adds to it; an end mark adds nothing. */
  lemma FlatFirst(es: seq<Event>, after: seq<Item>)
    ensures Flat([Events(es)] + after) == es + Flat(after) && Flat([DoneMark] + after) == Flat(after)
    ensures Flat([Unreadable] + after) == [] && Flat([Broken] + after) == []
  {
    assert ([Events(es)] + after)[1..] == after && ([DoneMark] + after)[1..] == after;
    assert [] + Flat(after) == Flat(after);
  }

  /** Items are worked off in order up to the first fault. */
  lemma {:induction false} FlatConcat(before: seq<Item>, after: seq<Item>)
    requires !Faulty(before)
    ensures Flat(before + after) == Flat(before) + Flat(after)
    ensures Faulty(before + after) <==> Faulty(after)
  {
    if before == [] {
      assert before + after == after && [] + Flat(after) == Flat(after);
    } else {
      assert (before + after)[1..] == before[1..] + after;
      Peel(before);
      Peel(before + after);
      FlatConcat(before[1..], after);
      assert EventsOf(before[0]) + (Flat(before[1..]) + Flat(after)) ==
        EventsOf(before[0]) + Flat(before[1..]) + Flat(after);
    }
  }

  /** An end mark anywhere in a stream changes nothing. */
  lemma EndMarksDoNotMatter(before: seq<Item>, after: seq<Item>, patience: Option<nat>, job: Job)
    requires !Faulty(before)
    ensures OutcomeOf(before + ([DoneMark] + after), patience, job) == OutcomeOf(before + after, patience, job)
  {
    FlatConcat(before, [DoneMark] + after);
    FlatConcat(before, after);
    FlatFirst([], after);
    Peel([DoneMark] + after);
    assert ([DoneMark] + after)[1..] == after;
  }

  // ---------- what is delivered is charged for ----------

  /** A frame with text, reasoning or tool calls. */
  predicate HasContent(frame: Frame) {
    frame.Chunk? && (frame.reasoning != "" || frame.text != "" || frame.tools != [])
  }

  lemma {:induction false} ContentNeedsProduction(es: seq<Event>, frame: Frame)
    requires frame in Frames(es) && HasContent(frame)
    ensures Produced(es)
  {
    var init, e := es[..|es| - 1], es[|es| - 1];
    assert es == init + [e];
    AnySnoc(init, e);
    if frame in Frames(init) { ContentNeedsProduction(init, frame); }
  }

  lemma ContentIsOffered(seen: seq<Event>, cutShort: bool, accepted: bool, bill: Usage, frame: Frame)
    requires frame in Offered(seen, cutShort, accepted, bill) && frame.Chunk?
    ensures frame in Frames(seen)
  {
    assert Offered(seen, cutShort, accepted, bill) == [Role] + Frames(seen) + TailOf(seen, cutShort, accepted, bill);
    assert frame !in [Role] && frame !in TailOf(seen, cutShort, accepted, bill);
  }

  lemma DeliveredMeansProduced(
    seen: seq<Event>, gone: bool, fault: bool, patience: Option<nat>, job: Job, frame: Frame)
    requires frame in Meaning(seen, gone, fault, patience, job).sent && HasContent(frame)
    ensures Produced(seen)
  {
    var bill := BillFor(seen, job);
    ContentIsOffered(seen, gone || fault, Accepted(job, bill), bill, frame);
    ContentNeedsProduction(seen, frame);
  }

  /**
    Whenever any text, reasoning or tool call reached the client, `billing::charge` was called for the run, on
    text and reasoning that start with what was delivered.
  */
  lemma DeliveredContentIsPresented(items: seq<Item>, patience: Option<nat>, job: Job, frame: Frame)
    requires frame in OutcomeOf(items, patience, job).sent && HasContent(frame)
    ensures var o, seen := OutcomeOf(items, patience, job), Seen(Flat(items), patience);
      && o.calls == [BillFor(seen, job)] && o.booked == Booked(job, BillFor(seen, job))
      && Collected(TextPart, o.sent) <= TextOf(seen) && Collected(ReasoningPart, o.sent) <= ReasoningOf(seen)
  {
    var es := Flat(items);
    var seen := Seen(es, patience);
    if patience != Some(0) {
      OutcomeMeans(items, patience, job);
      DeliveredMeansProduced(seen, GoesEarly(es, patience), EndedByFault(items, patience), patience, job, frame);
    }
    DeliveredTextIsTakenIn(items, patience, job);
  }

  /** The settlement of a usage goes through, in terms of the row as it is by then. */
  predicate Settles(job: Job, cost: int) {
    && job.copy.enabled && job.allowed && job.row.Some?
    && (job.copy.unlimited
        || (!(!job.row.value.enabled && job.row.value.credits >= cost) && !(job.row.value.credits < 0 && cost == 0)))
  }

  lemma AcceptedExactly(job: Job, bill: Usage)
    requires bill.total >= 0
    ensures Accepted(job, bill) <==> Settles(job, FinalTokens(bill.total, job.bp))
  {
    PriceIsCeiling(bill.total, job.bp);
  }

  function Min(a: int, b: int): int {
    if a <= b then a else b
  }

  /** What a usage that costs `cost` leaves in the usage table. */
  function BookedAs(job: Job, total: int, cost: int): seq<Ledger.Record> {
    if !Settles(job, cost) then []
    else
      var charged := if job.copy.unlimited then cost else Min(cost, Max(job.row.value.credits, 0));
      [Ledger.Record(total, cost, charged)]
  }

  lemma BookedExactly(job: Job, bill: Usage)
    requires bill.total >= 0
    ensures Booked(job, bill) == BookedAs(job, bill.total, FinalTokens(bill.total, job.bp))
  {
    AcceptedExactly(job, bill);
    PriceIsCeiling(bill.total, job.bp);
  }

  /**
    WHEN DELIVERED CONTENT IS PAID FOR.  If any text, reasoning or tool call reached the client, the run is
    booked exactly if the copy of the key is enabled and allows the model, the key still exists, and, for a
    limited copy, the key was not disabled while it could have paid, and does not stand below zero with
    nothing to pay.  What is booked is the price of the bill, or all that is left of the balance.
  */
  lemma DeliveredContentIsBookedExactly(
    items: seq<Item>, patience: Option<nat>, job: Job, frame: Frame)
    requires frame in OutcomeOf(items, patience, job).sent && HasContent(frame)
    ensures var total := BillFor(Seen(Flat(items), patience), job).total;
      OutcomeOf(items, patience, job).booked == BookedAs(job, total, FinalTokens(total, job.bp))
  {
    DeliveredContentIsPresented(items, patience, job, frame);
    var seen := Seen(Flat(items), patience);
    CompletedIsPositive(MergeAll(NO_USAGE, Reports(seen)), job.request, ReasoningOf(seen) + TextOf(seen), job.letters);
    BookedExactly(job, BillFor(seen, job));
  }

  /**
    It can go unpaid: a key that is disabled while the stream runs, and could have paid, is refused after the
    delta was delivered; one charge call, no record, and the balance as it was.
  */
  lemma DeliveredUnpaid(
    request: ChatRequest, letters: set<char>, delta: Event, bill: Usage, row: Ledger.Row)
    requires delta == Delta("", "a", []) && bill == Complete(NO_USAGE, request, "a", letters)
    requires row == Ledger.Row(FinalTokens(bill.total, 10_000), false, true)
    ensures var job := Job(request, letters, Some(row.(enabled := false)), row, true, 10_000);
      var o := OutcomeOf([Events([delta])], None, job);
      && Chunk("", "a", []) in o.sent && o.calls == [bill] && o.booked == [] && o.logs == [ChargeRefused]
      && Settlement(job, bill).row == job.row
  {
    var job := Job(request, letters, Some(row.(enabled := false)), row, true, 10_000);
    var items, es := [Events([delta])], [delta];
    OneDelta(delta, es, items);
    OutcomeMeans(items, None, job);
    assert "" + "a" == "a";
    assert BillFor(es, job) == bill;
    CompletedIsPositive(NO_USAGE, request, "a", letters);
    AcceptedExactly(job, bill);
    var offered := Offered(es, false, false, bill);
    assert offered[1] == Chunk("", "a", []);
  }

  lemma OneDelta(delta: Event, es: seq<Event>, items: seq<Item>)
    requires delta == Delta("", "a", []) && es == [delta] && items == [Events(es)]
    ensures Flat(items) == es && !Faulty(items)
    ensures Frames(es) == [Chunk("", "a", [])] && TextOf(es) == "a" && ReasoningOf(es) == "" && Reports(es) == [] &&
      Produced(es)
  {
    assert items[1..] == [] && es + [] == es;
    assert es[..0] == [];
    assert Produces(es[0]);
  }
}

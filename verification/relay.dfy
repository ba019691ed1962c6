/** The worker behind a streaming chat completion, against any upstream and client. */
module Relay {
  import opened Estimate
  import Ledger
  import opened UsageReports
  import opened Wrappers

  datatype ToolDelta = ToolDelta(index: nat, id: Option<string>, name: Option<string>, arguments: Option<string>)

  datatype ToolCall = ToolCall(id: string, name: string, arguments: string)

  datatype FinishReason = Stop | Length | ToolCalls | ContentFilter | Unknown

  /** An upstream payload translated by an adapter. */
  datatype Event =
    | Delta(reasoning: string, text: string, tools: seq<ToolDelta>)
    | Finish(reason: FinishReason)
    | Snapshot(calls: seq<ToolCall>)
    | Report(usage: Usage)
    | End

  /** What the payload stream yields: a payload's events, the `[DONE]` mark, an unreadable payload, a break. */
  datatype Item = Events(events: seq<Event>) | DoneMark | Unreadable | Broken

  /** A frame to the client; `ErrorDone` is the error frame with its own `[DONE]`. */
  datatype Frame =
    | Role
    | Chunk(reasoning: string, text: string, tools: seq<ToolDelta>)
    | Closing(reason: FinishReason)
    | UsageFrame(usage: Usage)
    | Done
    | ErrorDone

  datatype Log = UpstreamFault | NothingProduced | ChargeRefused | Success(clientGone: bool, usage: Usage)

  // ---------- what a list of events amounts to ----------

  function TextOf(es: seq<Event>): string {
    if es == [] then "" else TextOf(es[..|es| - 1]) + (if es[|es| - 1].Delta? then es[|es| - 1].text else "")
  }

  function ReasoningOf(es: seq<Event>): string {
    if es == [] then "" else ReasoningOf(es[..|es| - 1]) + (if es[|es| - 1].Delta? then es[|es| - 1].reasoning else "")
  }

  function Reports(es: seq<Event>): seq<Usage> {
    if es == [] then [] else Reports(es[..|es| - 1]) + (if es[|es| - 1].Report? then [es[|es| - 1].usage] else [])
  }

  predicate Produces(e: Event) {
    match e
    case Delta(reasoning, text, tools) => reasoning != "" || text != "" || tools != []
    case Snapshot(calls) => calls != []
    case _ => false
  }

  predicate CarriesTools(e: Event) {
    (e.Delta? && e.tools != []) || (e.Snapshot? && e.calls != [])
  }

  predicate Produced(es: seq<Event>) {
    exists i :: 0 <= i < |es| && Produces(es[i])
  }

  predicate ToolsSeen(es: seq<Event>) {
    exists i :: 0 <= i < |es| && CarriesTools(es[i])
  }

  predicate Finished(es: seq<Event>) {
    exists i :: 0 <= i < |es| && es[i].Finish?
  }

  function AsDeltas(calls: seq<ToolCall>): seq<ToolDelta> {
    seq(|calls|, i requires 0 <= i < |calls| =>
      ToolDelta(i, Some(calls[i].id), Some(calls[i].name), Some(calls[i].arguments)))
  }

  /** What the relay has gathered from the events so far. */
  datatype Gathered = Gathered(
    text: string, reasoning: string, usage: Usage, finished: bool, produced: bool, toolsSeen: bool)

  const NOTHING := Gathered("", "", NO_USAGE, false, false, false)

  function Absorb(g: Gathered, e: Event): Gathered {
    match e
    case Delta(reasoning, text, tools) =>
      g.(text := g.text + text, reasoning := g.reasoning + reasoning,
         produced := g.produced || Produces(e), toolsSeen := g.toolsSeen || tools != [])
    case Finish(_) => g.(finished := true)
    case Snapshot(calls) => if calls != [] && !g.toolsSeen then g.(produced := true, toolsSeen := true) else g
    case Report(usage) => g.(usage := Merge(g.usage, usage))
    case End => g
  }

  function Gather(es: seq<Event>): Gathered {
    if es == [] then NOTHING else Absorb(Gather(es[..|es| - 1]), es[|es| - 1])
  }

  /** The frame an event gives rise to: deltas always, the first finish, and a snapshot only if no tool
      call was seen before it. */
  function FramesFor(g: Gathered, e: Event): seq<Frame> {
    match e
    case Delta(reasoning, text, tools) => [Chunk(reasoning, text, tools)]
    case Finish(reason) => if g.finished then [] else [Closing(reason)]
    case Snapshot(calls) => if calls == [] || g.toolsSeen then [] else [Chunk("", "", AsDeltas(calls))]
    case _ => []
  }

  function Frames(es: seq<Event>): seq<Frame> {
    if es == [] then [] else Frames(es[..|es| - 1]) + FramesFor(Gather(es[..|es| - 1]), es[|es| - 1])
  }

  // ---------- what a stream of items amounts to ----------

  predicate IsFault(item: Item) {
    item.Unreadable? || item.Broken?
  }

  predicate Faulty(items: seq<Item>) {
    exists i :: 0 <= i < |items| && IsFault(items[i])
  }

  function EventsOf(item: Item): seq<Event> {
    if item.Events? then item.events else []
  }

  /** The events before the first fault. */
  function Flat(items: seq<Item>): seq<Event> {
    if items == [] || IsFault(items[0]) then []
    else EventsOf(items[0]) + Flat(items[1..])
  }

  /** Whether the client vanishes while events are still being relayed; `None` is a client that stays. */
  predicate GoesEarly(es: seq<Event>, patience: Option<nat>) {
    patience.Some? && |Frames(es)| >= patience.value
  }

  /** `es` without the last events, as long as what is left still has more frames than the client accepts. */
  function CutDown(es: seq<Event>, patience: nat): (seen: seq<Event>)
    ensures seen <= es
  {
    if es == [] || |Frames(es[..|es| - 1])| < patience then es else CutDown(es[..|es| - 1], patience)
  }

  /** the events the relay takes in: all of them, or those up to the one whose send fails. */
  function Seen(es: seq<Event>, patience: Option<nat>): (seen: seq<Event>)
    ensures seen <= es
  {
    if GoesEarly(es, patience) then CutDown(es, patience.value) else es
  }

  /** What a client with that much patience receives of a list of frames. */
  function Received(frames: seq<Frame>, patience: Option<nat>): (received: seq<Frame>)
    ensures received <= frames
  {
    if patience.Some? && patience.value < |frames| then frames[..patience.value] else frames
  }

  /** No more was sent than the client accepts. */
  predicate Fits(sent: seq<Frame>, patience: Option<nat>) {
    patience.Some? ==> |sent| <= patience.value
  }

  // ---------- a whole run ----------

  /**
    What a run needs to settle: the request, the access key's row as it is stored by then, the copy of it the
    request was authenticated with, whether that copy allows the model, and the multiplier.
  */
  datatype Job = Job(
    request: ChatRequest, letters: set<char>, row: Option<Ledger.Row>, copy: Ledger.Row, allowed: bool, bp: nat)

  /** The settlement of a usage: what `billing::charge` does with it. */
  function Settlement(job: Job, bill: Usage): Ledger.Settled {
    Ledger.Settle(job.row, job.copy, job.allowed, bill.total, job.bp)
  }

  predicate Accepted(job: Job, bill: Usage) {
    Settlement(job, bill).result.Ok?
  }

  /** The usage records a charge call leaves: one, or none if it is refused. */
  function Booked(job: Job, bill: Usage): seq<Ledger.Record> {
    if Accepted(job, bill) then [Settlement(job, bill).result.value.record] else []
  }

  /** The frames sent, the calls of `billing::charge`, the records those booked, and the log rows. */
  datatype Outcome = Outcome(sent: seq<Frame>, calls: seq<Usage>, booked: seq<Ledger.Record>, logs: seq<Log>)

  datatype LoopEnd = Exhausted | Fault | ClientGone

  function SignOffFrames(accepted: bool, bill: Usage): seq<Frame> {
    if accepted then [UsageFrame(bill), Done] else [ErrorDone]
  }

  /** The frames after the events of a run that produced something. */
  function Ending(finished: bool, clientGone: bool, accepted: bool, bill: Usage): seq<Frame> {
    if clientGone then []
    else (if finished then [] else [Closing(Stop)]) + SignOffFrames(accepted, bill)
  }

  /** What the relay bills: the merged reports, completed with estimates over all text received. */
  function Bill(g: Gathered, job: Job): Usage {
    Complete(g.usage, job.request, g.reasoning + g.text, job.letters)
  }

  /** The relay in the middle of a stream: what it gathered, what it sent, whether the client is gone. */
  datatype Progress = Progress(gathered: Gathered, sent: seq<Frame>, gone: bool)

  /** One event: absorbed in any case, and its frame sent if the client still accepts one. */
  function Take(g: Gathered, sent: seq<Frame>, e: Event, patience: Option<nat>): Progress {
    if FramesFor(g, e) != [] && patience.Some? && |sent| >= patience.value
    then Progress(Absorb(g, e), sent, true)
    else Progress(Absorb(g, e), sent + FramesFor(g, e), false)
  }

  /** Event after event, until the client is gone. */
  function Consume(g: Gathered, sent: seq<Frame>, es: seq<Event>, patience: Option<nat>): Progress
    decreases |es|
  {
    if es == [] then Progress(g, sent, false)
    else
      var next := Take(g, sent, es[0], patience);
      if next.gone then next else Consume(next.gathered, next.sent, es[1..], patience)
  }

  lemma {:induction false} ConsumeFits(g: Gathered, sent: seq<Frame>, es: seq<Event>, patience: Option<nat>)
    requires Fits(sent, patience)
    ensures Fits(Consume(g, sent, es, patience).sent, patience)
    decreases |es|
  {
    if es != [] {
      var next := Take(g, sent, es[0], patience);
      if !next.gone { ConsumeFits(next.gathered, next.sent, es[1..], patience); }
    }
  }

  /** One send: the frame goes out if the client still accepts one. */
  function Offer(sent: seq<Frame>, frame: Frame, patience: Option<nat>): seq<Frame> {
    if patience.None? || |sent| < patience.value then sent + [frame] else sent
  }

  /** How a run ends after its main loop; `fault` is an upstream error that ended the loop. */
  function Conclude(p: Progress, fault: bool, patience: Option<nat>, job: Job): Outcome {
    var bill := Bill(p.gathered, job);
    var cut := p.gone || fault;
    if !p.gathered.produced then
      Outcome(Received(p.sent + [ErrorDone], patience), [], [], [if fault then UpstreamFault else NothingProduced])
    else
      Outcome(Received(p.sent + Ending(p.gathered.finished, cut, Accepted(job, bill), bill), patience),
              [bill], Booked(job, bill), (if fault then [UpstreamFault] else []) + [SettlementLog(job, bill, cut)])
  }

  function SettlementLog(job: Job, bill: Usage, cut: bool): Log {
    if Accepted(job, bill) then Success(cut, bill) else ChargeRefused
  }

  /**
    The effects of a run: `patience` is the number of sends the client accepts.  An upstream error only
    matters if the client is still there to see it.
  */
  function OutcomeOf(items: seq<Item>, patience: Option<nat>, job: Job): Outcome {
    if patience == Some(0) then Outcome([], [], [], [])
    else
      var p := Consume(NOTHING, [Role], Flat(items), patience);
      Conclude(p, !p.gone && Faulty(items), patience, job)
  }

  // ---------- the relay ----------

  lemma {:induction false} FramesGrow(before: seq<Event>, later: seq<Event>)
    ensures Frames(before) <= Frames(before + later)
  {
    if later == [] {
      assert before + later == before;
    } else {
      assert (before + later)[..|before + later| - 1] == before + later[..|later| - 1];
      FramesGrow(before, later[..|later| - 1]);
    }
  }

  /** If the client stays through all but the last of `upTo`, and not through that one, the relay stops there. */
  lemma {:induction false} StopsAt(upTo: seq<Event>, later: seq<Event>, patience: nat)
    requires upTo != [] && |Frames(upTo[..|upTo| - 1])| < patience <= |Frames(upTo)|
    ensures CutDown(upTo + later, patience) == upTo
  {
    if later == [] {
      assert upTo + later == upTo;
    } else {
      var init := later[..|later| - 1];
      assert (upTo + later)[..|upTo + later| - 1] == upTo + init;
      FramesGrow(upTo, init);
      StopsAt(upTo, init, patience);
    }
  }

  lemma OfferNext(frames: seq<Frame>, frame: Frame, patience: Option<nat>)
    ensures Received(frames + [frame], patience) == Offer(Received(frames, patience), frame, patience)
  {
  }

  lemma OfferTwo(frames: seq<Frame>, first: Frame, second: Frame, patience: Option<nat>)
    requires Fits(frames, patience)
    ensures Received(frames + [first, second], patience) == Offer(Offer(frames, first, patience), second, patience)
  {
    OfferNext(frames, first, patience);
    OfferNext(frames + [first], second, patience);
    assert frames + [first] + [second] == frames + [first, second];
  }

  lemma ReceivedTwice(frames: seq<Frame>, more: seq<Frame>, patience: Option<nat>)
    ensures Received(Received(frames, patience) + more, patience) == Received(frames + more, patience)
  {
    if patience.Some? && patience.value < |frames| {
      assert (frames[..patience.value] + more)[..patience.value] == frames[..patience.value];
      assert (frames + more)[..patience.value] == frames[..patience.value];
    }
  }

  lemma EndingInSteps(
    frames: seq<Frame>, finished: bool, accepted: bool, bill: Usage, patience: Option<nat>)
    requires Fits(frames, patience)
    ensures var mid := if finished then frames else Offer(frames, Closing(Stop), patience);
      Received(frames + Ending(finished, false, accepted, bill), patience) ==
        Received(mid + SignOffFrames(accepted, bill), patience)
  {
    var last := SignOffFrames(accepted, bill);
    if finished {
      assert [] + last == last;
    } else {
      OfferNext(frames, Closing(Stop), patience);
      ReceivedTwice(frames + [Closing(Stop)], last, patience);
      assert frames + [Closing(Stop)] + last == frames + ([Closing(Stop)] + last);
    }
  }

  lemma CutBefore(frames: seq<Frame>, more: seq<Frame>, patience: nat)
    requires more != [] && patience == 1 + |frames|
    ensures Received([Role] + (frames + more), Some(patience)) == [Role] + frames
  {
    assert ([Role] + (frames + more))[..patience] == [Role] + frames;
  }

  /** What it means for the relay to stop at `event`. */
  lemma {:induction false} StopsEarly(
    total: seq<Event>, patience: nat, before: seq<Event>, event: Event, later: seq<Event>)
    requires total == before + [event] + later
    requires patience == 1 + |Frames(before)| && FramesFor(Gather(before), event) != []
    ensures GoesEarly(total, Some(patience)) && Seen(total, Some(patience)) == before + [event]
    ensures Received([Role] + Frames(before + [event]), Some(patience)) == [Role] + Frames(before)
  {
    Snoc(before, event);
    CutBefore(Frames(before), FramesFor(Gather(before), event), patience);
    assert (before + [event])[..|before|] == before;
    FramesGrow(before + [event], later);
    StopsAt(before + [event], later, patience);
  }

  lemma StaysToTheEnd(es: seq<Event>, patience: Option<nat>)
    requires patience.None? || |Frames(es)| < patience.value
    ensures !GoesEarly(es, patience) && Seen(es, patience) == es
    ensures Received([Role] + Frames(es), patience) == [Role] + Frames(es)
  {
  }

  /** What the first item contributes to a stream. */
  lemma Peel(items: seq<Item>)
    requires items != []
    ensures IsFault(items[0]) ==> Flat(items) == [] && Faulty(items)
    ensures !IsFault(items[0]) ==> Flat(items) == EventsOf(items[0]) + Flat(items[1..])
    ensures !IsFault(items[0]) ==> (Faulty(items) <==> Faulty(items[1..]))
  {
    if Faulty(items[1..]) {
      var k :| 0 <= k < |items[1..]| && IsFault(items[1..][k]);
      assert IsFault(items[k + 1]);
    }
    if Faulty(items) && !IsFault(items[0]) {
      var k :| 0 <= k < |items| && IsFault(items[k]);
      assert IsFault(items[1..][k - 1]);
    }
  }

  lemma Snoc(es: seq<Event>, e: Event)
    ensures Gather(es + [e]) == Absorb(Gather(es), e)
    ensures Frames(es + [e]) == Frames(es) + FramesFor(Gather(es), e)
  {
    assert (es + [e])[..|es|] == es;
  }

  lemma {:induction false} ConsumeFrom(done: seq<Event>, rest: seq<Event>, total: seq<Event>, patience: Option<nat>)
    requires total == done + rest && patience != Some(0)
    requires patience.None? || |Frames(done)| < patience.value
    ensures Consume(Gather(done), [Role] + Frames(done), rest, patience) ==
            Progress(Gather(Seen(total, patience)), Received([Role] + Frames(Seen(total, patience)), patience),
              GoesEarly(total, patience))
    decreases |rest|
  {
    if rest == [] {
      assert total == done;
      StaysToTheEnd(done, patience);
    } else {
      var e := rest[0];
      Snoc(done, e);
      assert total == done + [e] + rest[1..];
      if patience.Some? && FramesFor(Gather(done), e) != [] && 1 + |Frames(done)| >= patience.value {
        StopsEarly(total, patience.value, done, e, rest[1..]);
      } else {
        assert [Role] + Frames(done) + FramesFor(Gather(done), e) == [Role] + Frames(done + [e]);
        ConsumeFrom(done + [e], rest[1..], total, patience);
      }
    }
  }

  /** Taking events one by one amounts to what `Seen` and `Received` say about the whole list. */
  lemma ConsumeMeans(es: seq<Event>, patience: Option<nat>)
    requires patience != Some(0)
    ensures Consume(NOTHING, [Role], es, patience) ==
            Progress(Gather(Seen(es, patience)), Received([Role] + Frames(Seen(es, patience)), patience),
              GoesEarly(es, patience))
  {
    assert es == [] + es && [Role] + [] == [Role];
    ConsumeFrom([], es, es, patience);
  }

  /** The worker: it relays upstream events to the client, and bills and logs what was produced. */
  class StreamRelay {
    /** How many sends the client accepts before it vanishes; `None` if it stays. */
    const patience: Option<nat>
    var sent: seq<Frame>
    var calls: seq<Usage>
    var logs: seq<Log>
    // What the relay has gathered so far.
    var textAcc: string
    var reasoningAcc: string
    var usageAcc: Usage
    var finished: bool
    var produced: bool
    var toolsSeen: bool

    ghost function State(): Gathered
      reads this
    {
      Gathered(textAcc, reasoningAcc, usageAcc, finished, produced, toolsSeen)
    }

    constructor (patience: Option<nat>)
      ensures this.patience == patience && sent == [] && calls == [] && logs == [] && State() == NOTHING
    {
      this.patience := patience;
      sent, calls, logs := [], [], [];
      textAcc, reasoningAcc, usageAcc := "", "", NO_USAGE;
      finished, produced, toolsSeen := false, false, false;
    }

    /** One send into the channel; it fails once the client is gone. */
    method Send(frame: Frame) returns (ok: bool)
      modifies this`sent
      ensures ok == (patience.None? || |old(sent)| < patience.value)
      ensures sent == Offer(old(sent), frame, patience)
    {
      ok := patience.None? || |sent| < patience.value;
      if ok { sent := sent + [frame]; }
    }

    /** Takes in one event: accumulators first, then the frame it causes, if any. */
    method Handle(event: Event) returns (ok: bool)
      modifies this`sent, this`textAcc, this`reasoningAcc, this`usageAcc, this`finished, this`produced, this`toolsSeen
      ensures Progress(State(), sent, !ok) == Take(old(State()), old(sent), event, patience)
    {
      ok := true;
      match event {
        case Delta(reasoning, text, tools) =>
          if reasoning != "" || text != "" || tools != [] { produced := true; }
          if tools != [] { toolsSeen := true; }
          textAcc := textAcc + text;
          reasoningAcc := reasoningAcc + reasoning;
          ok := Send(Chunk(reasoning, text, tools));
        case Finish(reason) =>
          if !finished {
            finished := true;
            ok := Send(Closing(reason));
          }
        case Snapshot(calls) =>
          if calls != [] && !toolsSeen {
            produced, toolsSeen := true, true;
            ok := Send(Chunk("", "", AsDeltas(calls)));
          }
        case Report(usage) =>
          usageAcc := Merge(usageAcc, usage);
        case End =>
      }
    }

    /** The events of one payload, until the client is gone; `later` is what is still to come. */
    method HandleAll(events: seq<Event>, ghost later: seq<Event>) returns (ok: bool)
      modifies this`sent, this`textAcc, this`reasoningAcc, this`usageAcc, this`finished, this`produced, this`toolsSeen
      ensures Consume(old(State()), old(sent), events + later, patience) ==
              if ok then Consume(State(), sent, later, patience) else Progress(State(), sent, true)
    {
      ghost var target := Consume(State(), sent, events + later, patience);
      var j := 0;
      while j < |events|
        invariant j <= |events|
        invariant Consume(State(), sent, events[j..] + later, patience) == target
      {
        ghost var rest := events[j..] + later;
        assert rest[0] == events[j] && rest[1..] == events[j + 1..] + later;
        ok := Handle(events[j]);
        if !ok { return; }
        j := j + 1;
      }
      assert events[j..] + later == later;
      return true;
    }

    /** The main loop: why it ended. */
    method RelayItems(items: seq<Item>) returns (end: LoopEnd)
      modifies this`sent, this`textAcc, this`reasoningAcc, this`usageAcc, this`finished, this`produced, this`toolsSeen
      ensures Progress(State(), sent, end.ClientGone?) == Consume(old(State()), old(sent), Flat(items), patience)
      ensures end.Exhausted? ==> !Faulty(items)
      ensures end.Fault? ==> Faulty(items)
    {
      ghost var target := Consume(State(), sent, Flat(items), patience);
      ghost var rest := items;
      var i := 0;
      while i < |items|
        invariant i <= |items| && rest == items[i..] && Faulty(items) == Faulty(rest)
        invariant Consume(State(), sent, Flat(rest), patience) == target
      {
        Peel(rest);
        if IsFault(items[i]) { return Fault; }
        rest := rest[1..];
        var ok := HandleAll(EventsOf(items[i]), Flat(rest));
        if !ok { return ClientGone; }
        i := i + 1;
      }
      return Exhausted;
    }

    /**
      A whole run.  `job.row` is what others have made of the stored row by the time of the settlement.
    */
    method Run(items: seq<Item>, job: Job, store: Ledger.KeyStore)
      requires sent == [] && calls == [] && logs == [] && State() == NOTHING
      modifies this, store
      ensures var o := OutcomeOf(items, patience, job);
        sent == o.sent && calls == o.calls && logs == o.logs && store.records == old(store.records) + o.booked
    {
      assert store.records + [] == store.records;
      var started := Send(Role);
      if !started { return; }
      assert sent == [Role];
      ConsumeFits(NOTHING, [Role], Flat(items), patience);
      var end := RelayItems(items);
      store.row := job.row;
      Finale(end, job, store);
    }

    /** The last frames after the finish. */
    method SignOff(accepted: bool, usage: Usage)
      requires Fits(sent, patience)
      modifies this`sent
      ensures sent == Received(old(sent) + SignOffFrames(accepted, usage), patience)
    {
      if accepted {
        OfferTwo(sent, UsageFrame(usage), Done, patience);
        var _ := Send(UsageFrame(usage));
        var _ := Send(Done);
      } else {
        OfferNext(sent, ErrorDone, patience);
        var _ := Send(ErrorDone);
      }
    }

    /** The closing frames of a run that produced something. */
    method Goodbye(clientGone: bool, accepted: bool, usage: Usage)
      requires Fits(sent, patience)
      modifies this`sent
      ensures sent == Received(old(sent) + Ending(finished, clientGone, accepted, usage), patience)
    {
      EndingInSteps(sent, finished, accepted, usage, patience);
      if clientGone {
        assert sent + [] == sent;
        return;
      }
      if !finished { var _ := Send(Closing(Stop)); }
      SignOff(accepted, usage);
    }

    /** `billing::charge`, and the log row it leads to. */
    method Settle(job: Job, store: Ledger.KeyStore, usage: Usage, clientGone: bool) returns (accepted: bool)
      requires store.row == job.row
      modifies this`calls, this`logs, store
      ensures accepted == Accepted(job, usage) && calls == old(calls) + [usage]
      ensures logs == old(logs) + [SettlementLog(job, usage, clientGone)]
      ensures store.records == old(store.records) + Booked(job, usage) && store.row == Settlement(job, usage).row
    {
      calls := calls + [usage];
      var result := store.Book(job.copy, job.allowed, usage.total, job.bp);
      accepted := result.Ok?;
      logs := logs + [if accepted then Success(clientGone, usage) else ChargeRefused];
    }

    /** What follows the main loop. */
    method Finale(end: LoopEnd, job: Job, store: Ledger.KeyStore)
      requires calls == [] && logs == [] && Fits(sent, patience) && store.row == job.row
      modifies this`sent, this`calls, this`logs, store
      ensures var o := Conclude(Progress(State(), old(sent), end.ClientGone?), end.Fault?, patience, job);
        sent == o.sent && calls == o.calls && logs == o.logs && store.records == old(store.records) + o.booked
    {
      if end.Fault? { logs := [UpstreamFault]; }
      if !produced {
        if !end.Fault? { logs := [NothingProduced]; }
        OfferNext(sent, ErrorDone, patience);
        var _ := Send(ErrorDone);
        assert store.records + [] == store.records;
        return;
      }
      var clientGone := !end.Exhausted?;
      var usage := Complete(usageAcc, job.request, reasoningAcc + textAcc, job.letters);
      var accepted := Settle(job, store, usage, clientGone);
      Goodbye(clientGone, accepted, usage);
    }
  }
}

/** From the upstream's bytes to the client's frames: the de-framer feeds the relay. */
module Pipeline {
  import opened Relay
  import opened Sse
  import opened Utf8
  import opened Wrappers

  /** An adapter, with the test for `[DONE]`: what the relay makes of one payload. */
  type Reader = string -> Relay.Item

  /** The items the relay sees; the de-framer's errors break the stream. */
  function Stream(polls: seq<Poll>, read: Reader): seq<Relay.Item> {
    if polls == [] then []
    else [if polls[0].Payload? then read(polls[0].payload) else Relay.Broken] + Stream(polls[1..], read)
  }

  /** A run on what the upstream delivers. */
  function RunOn(items: seq<Sse.Item>, read: Reader, patience: Option<nat>, job: Job): Outcome {
    OutcomeOf(Stream(Outputs(items, "", []), read), patience, job)
  }

  /** The text delivered before the first fault. */
  function Before(items: seq<Sse.Item>): string {
    if items == [] || !items[0].Text? then "" else items[0].text + Before(items[1..])
  }

  predicate Breaks(items: seq<Sse.Item>) {
    items != [] && (!items[0].Text? || Breaks(items[1..]))
  }

  /** The payloads of a text; one that breaks off leaves its open frame behind. */
  function Delivered(text: string, broken: bool): seq<string> {
    if broken then Completed([], Lines(text)) else Payloads(text)
  }

  function ReadAll(payloads: seq<string>, broken: bool, read: Reader): seq<Relay.Item> {
    if payloads == [] then if broken then [Relay.Broken] else []
    else [read(payloads[0])] + ReadAll(payloads[1..], broken, read)
  }

  /** The run as it would be if the whole text came at once. */
  function RunAtOnce(text: string, broken: bool, read: Reader, patience: Option<nat>, job: Job): Outcome {
    OutcomeOf(ReadAll(Delivered(text, broken), broken, read), patience, job)
  }

  // ---------- the de-framer up to the first fault ----------

  /** The payloads before the first error. */
  function Leading(polls: seq<Poll>): seq<string> {
    if polls == [] || !polls[0].Payload? then [] else [polls[0].payload] + Leading(polls[1..])
  }

  predicate Errs(polls: seq<Poll>) {
    polls != [] && (!polls[0].Payload? || Errs(polls[1..]))
  }

  lemma {:induction false} LeadingAfter(payloads: seq<string>, polls: seq<Poll>)
    ensures Leading(AsPolls(payloads) + polls) == payloads + Leading(polls)
    ensures Errs(AsPolls(payloads) + polls) == Errs(polls)
  {
    if payloads == [] {
      assert AsPolls(payloads) + polls == polls;
    } else {
      assert (AsPolls(payloads) + polls)[1..] == AsPolls(payloads[1..]) + polls;
      LeadingAfter(payloads[1..], polls);
    }
  }

  /** What is completed, and what the end of the stream adds unless it breaks off. */
  function Ended(frame: seq<string>, lines: seq<string>, broken: bool): seq<string> {
    Completed(frame, lines) + if broken then [] else Flush(Open(frame, lines))
  }

  lemma {:induction false} OutputsLead(inner: seq<Sse.Item>, buffer: string, frame: seq<string>, lines: seq<string>)
    requires lines == Lines(buffer + Before(inner))
    ensures Leading(Outputs(inner, buffer, frame)) == Ended(frame, lines, Breaks(inner))
    ensures Errs(Outputs(inner, buffer, frame)) == Breaks(inner)
    decreases |inner|, 1
  {
    var now, open, rest := Completed(frame, Lines(buffer)), Open(frame, Lines(buffer)), Tail(buffer);
    ReadChunk(buffer, frame, Before(inner));
    LaterLead(inner, rest, open, Lines(rest + Before(inner)));
    LeadingAfter(now, Later(inner, rest, open));
  }

  lemma {:induction false} LaterLead(inner: seq<Sse.Item>, rest: string, open: seq<string>, lines: seq<string>)
    requires FirstNewline(rest) == |rest|
    requires lines == Lines(rest + Before(inner))
    ensures Leading(Later(inner, rest, open)) == Ended(open, lines, Breaks(inner))
    ensures Errs(Later(inner, rest, open)) == Breaks(inner)
    decreases |inner|, 0
  {
    if inner == [] || !inner[0].Text? { assert rest + Before(inner) == rest; }
    if inner == [] {
      LeadingAfter(Flush(open), []);
      assert AsPolls(Flush(open)) + [] == AsPolls(Flush(open)) && Flush(open) + [] == Flush(open);
    } else if inner[0].Text? {
      var chunk := rest + inner[0].text;
      assert rest + Before(inner) == chunk + Before(inner[1..]);
      OutputsLead(inner[1..], chunk, open, lines);
      assert [] + Outputs(inner[1..], chunk, open) == Outputs(inner[1..], chunk, open);
    }
  }

  // ---------- the relay up to the first fault ----------

  lemma ReadOn(item: Relay.Item, a: seq<Relay.Item>, b: seq<Relay.Item>)
    requires !IsFault(item) ==> Flat(a) == Flat(b) && Faulty(a) == Faulty(b)
    ensures Flat([item] + a) == Flat([item] + b) && Faulty([item] + a) == Faulty([item] + b)
  {
    Peel([item] + a);
    Peel([item] + b);
    assert ([item] + a)[1..] == a && ([item] + b)[1..] == b;
  }

  /** The relay acts on what comes before the first error only. */
  lemma {:induction false} StreamLead(polls: seq<Poll>, read: Reader)
    ensures Flat(Stream(polls, read)) == Flat(ReadAll(Leading(polls), Errs(polls), read))
    ensures Faulty(Stream(polls, read)) == Faulty(ReadAll(Leading(polls), Errs(polls), read))
  {
    if polls != [] {
      var rest := polls[1..];
      if polls[0].Payload? {
        StreamLead(rest, read);
        ReadOn(read(polls[0].payload), Stream(rest, read), ReadAll(Leading(rest), Errs(rest), read));
      } else {
        ReadOn(Relay.Broken, Stream(rest, read), []);
      }
    }
  }

  // ---------- whole runs ----------

  lemma SameRun(a: seq<Relay.Item>, b: seq<Relay.Item>, patience: Option<nat>, job: Job)
    requires Flat(a) == Flat(b) && Faulty(a) == Faulty(b)
    ensures OutcomeOf(a, patience, job) == OutcomeOf(b, patience, job)
  {
  }

  /**
    THE CUT DOES NOT MATTER.  A run has the effects it would have if the text before the first fault came at
    once.
  */
  lemma {:induction false} RunsAsAtOnce(items: seq<Sse.Item>, read: Reader, patience: Option<nat>, job: Job)
    ensures RunOn(items, read, patience, job) == RunAtOnce(Before(items), Breaks(items), read, patience, job)
  {
    var text, polls := Before(items), Outputs(items, "", []);
    assert "" + text == text;
    OutputsLead(items, "", [], Lines(text));
    assert Breaks(items) ==> Completed([], Lines(text)) + [] == Completed([], Lines(text));
    StreamLead(polls, read);
    SameRun(Stream(polls, read), ReadAll(Leading(polls), Errs(polls), read), patience, job);
  }

  lemma {:induction false} WholeText(chunks: seq<seq<Byte>>)
    requires AllDecode(chunks)
    ensures !Breaks(ItemsOf(chunks)) && Decoded(Joined(chunks)) == Some(Before(ItemsOf(chunks)))
  {
    if chunks != [] {
      WholeText(chunks[1..]);
      assert ItemsOf(chunks)[1..] == ItemsOf(chunks[1..]);
      DecodedConcat(chunks[0], Joined(chunks[1..]));
    }
  }

  /** Bytes cut in two ways, both between characters, lead to the same frames, charge calls and rows. */
  lemma ByteCutsDoNotMatter(
    one: seq<seq<Byte>>, other: seq<seq<Byte>>, read: Reader, patience: Option<nat>, job: Job)
    requires Joined(one) == Joined(other) && AllDecode(one) && AllDecode(other)
    ensures RunOn(ItemsOf(one), read, patience, job) == RunOn(ItemsOf(other), read, patience, job)
  {
    WholeText(one);
    WholeText(other);
    RunsAsAtOnce(ItemsOf(one), read, patience, job);
    RunsAsAtOnce(ItemsOf(other), read, patience, job);
  }

  lemma {:induction false} FaultlessText(items: seq<Sse.Item>)
    requires !Breaks(items)
    ensures Before(items) == Sse.TextOf(items)
  {
    if items != [] { FaultlessText(items[1..]); }
  }

  /** An upstream that prints payloads has each of them read, in order, however its text is cut. */
  lemma PrintedPayloadsAreRead(
    payloads: seq<string>, items: seq<Sse.Item>, read: Reader, patience: Option<nat>, job: Job)
    requires Sse.TextOf(items) == Print(payloads) && !Breaks(items)
    requires forall i :: 0 <= i < |payloads| ==> Clean(payloads[i])
    ensures RunOn(items, read, patience, job) == OutcomeOf(ReadAll(payloads, false, read), patience, job)
  {
    RunsAsAtOnce(items, read, patience, job);
    FaultlessText(items);
    RoundTrip(payloads, items);
    ChunkIndependence(items);
  }
}

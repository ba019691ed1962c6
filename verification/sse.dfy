/** The SSE de-framer: an incremental machine over arbitrarily cut chunks. */
module Sse {
  import opened Utf8
  import opened Wrappers

  // ---------- the batch parser ----------

  // `SseParser.PollNext` is the machine.  `Payloads` is the batch parser it is measured against: it sees the
  // whole text at once and knows nothing of chunks, buffers or polls.

  /** The position of the first newline, or `|s|`. */
  function FirstNewline(s: string): (pos: nat)
    ensures pos <= |s|
  {
    if s == "" then 0 else if s[0] == '\n' then 0 else 1 + FirstNewline(s[1..])
  }

  /** All newline-terminated lines of a text, without their newlines. */
  function Lines(text: string): (lines: seq<string>)
    decreases |text|
  {
    var pos := FirstNewline(text);
    if pos == |text| then [] else [text[..pos]] + Lines(text[pos + 1..])
  }

  /** What follows the last newline. */
  function Tail(text: string): (rest: string)
    ensures |rest| <= |text| && FirstNewline(rest) == |rest|
    decreases |text|
  {
    var pos := FirstNewline(text);
    if pos == |text| then text else Tail(text[pos + 1..])
  }

  /** `trim_end_matches('\r')`: every trailing carriage return goes. */
  function TrimCr(line: string): (trimmed: string)
    ensures |trimmed| <= |line|
  {
    if line != "" && line[|line| - 1] == '\r' then TrimCr(line[..|line| - 1]) else line
  }

  /** The content of a `data:` line; one space after the colon belongs to the syntax. */
  function DataOf(line: string): Option<string> {
    if "data:" <= line then
      var content := line[5..];
      Some(if " " <= content then content[1..] else content)
    else None
  }

  function Join(frame: seq<string>): string {
    if frame == [] then ""
    else if |frame| == 1 then frame[0]
    else frame[0] + "\n" + Join(frame[1..])
  }

  function Flush(frame: seq<string>): seq<string> {
    if frame == [] then [] else [Join(frame)]
  }

  /** The frame after one (trimmed) line: a blank line closes it, a `data:` line extends it. */
  function Extend(frame: seq<string>, line: string): seq<string> {
    if line == "" then [] else if DataOf(line).Some? then frame + [DataOf(line).value] else frame
  }

  /** The payloads that lines complete, starting with `frame` already open ... */
  function Completed(frame: seq<string>, lines: seq<string>): seq<string>
    decreases |lines|
  {
    if lines == [] then []
    else
      var line := TrimCr(lines[0]);
      (if line == "" then Flush(frame) else []) + Completed(Extend(frame, line), lines[1..])
  }

  /** ... and the frame they leave open. */
  function Open(frame: seq<string>, lines: seq<string>): seq<string>
    decreases |lines|
  {
    if lines == [] then frame else Open(Extend(frame, TrimCr(lines[0])), lines[1..])
  }

  /** All payloads of a complete text; a frame still open at the end counts, an unterminated line does not. */
  function Payloads(text: string): seq<string> {
    Completed([], Lines(text)) + Flush(Open([], Lines(text)))
  }

  // ---------- the incremental machine ----------

  datatype StreamError = NotUtf8 | Interrupted

  /** What the byte stream yields: a chunk of valid UTF-8, a chunk that is not, or a transport error. */
  datatype Item = Text(text: string) | BadBytes | Broken

  /** What one poll yields; `Finished` is the end of the stream. */
  datatype Poll = Payload(payload: string) | Failed(error: StreamError) | Finished

  function AsPolls(payloads: seq<string>): (polls: seq<Poll>)
    ensures |polls| == |payloads|
    ensures forall i :: 0 <= i < |polls| ==> polls[i] == Payload(payloads[i])
  {
    seq(|payloads|, i requires 0 <= i < |payloads| => Payload(payloads[i]))
  }

  /** Everything a parser will still yield, given the unread items, its buffer and its open frame. */
  function Outputs(inner: seq<Item>, buffer: string, frame: seq<string>): seq<Poll>
    decreases |inner|, 1
  {
    AsPolls(Completed(frame, Lines(buffer))) + Later(inner, Tail(buffer), Open(frame, Lines(buffer)))
  }

  /** The same once the complete lines of the buffer are consumed. */
  function Later(inner: seq<Item>, rest: string, open: seq<string>): seq<Poll>
    decreases |inner|, 0
  {
    if inner == [] then AsPolls(Flush(open))
    else AsFault(inner[0]) + Outputs(inner[1..], rest + ChunkOf(inner[0]), open)
  }

  function ChunkOf(item: Item): string {
    if item.Text? then item.text else ""
  }

  function AsFault(item: Item): seq<Poll> {
    match item
    case Text(_) => []
    case BadBytes => [Failed(NotUtf8)]
    case Broken => [Failed(Interrupted)]
  }

  lemma {:induction false} LinesFirst(text: string)
    requires FirstNewline(text) < |text|
    ensures Lines(text) == [text[..FirstNewline(text)]] + Lines(text[FirstNewline(text) + 1..])
    ensures Tail(text) == Tail(text[FirstNewline(text) + 1..])
  {
  }

  lemma ConsumeLine(frame: seq<string>, line: string, lines: seq<string>)
    ensures Completed(frame, [line] + lines) ==
            (if TrimCr(line) == "" then Flush(frame) else []) + Completed(Extend(frame, TrimCr(line)), lines)
    ensures Open(frame, [line] + lines) == Open(Extend(frame, TrimCr(line)), lines)
  {
    assert ([line] + lines)[1..] == lines;
  }

  /** Consuming one complete line either yields the payload it completes or yields nothing. */
  lemma TakeLine(inner: seq<Item>, buffer: string, frame: seq<string>, line: string, rest: string)
    requires FirstNewline(buffer) < |buffer|
    requires line == TrimCr(buffer[..FirstNewline(buffer)]) && rest == buffer[FirstNewline(buffer) + 1..]
    ensures Outputs(inner, buffer, frame) ==
            (if line == "" && frame != [] then [Payload(Join(frame))] else []) +
              Outputs(inner, rest, Extend(frame, line))
  {
    var now, next := if line == "" then Flush(frame) else [], Extend(frame, line);
    LinesFirst(buffer);
    ConsumeLine(frame, buffer[..FirstNewline(buffer)], Lines(rest));
    TakeLines(inner, buffer, frame, now, rest, next);
    FlushedFirst(frame, Outputs(inner, rest, next));
  }

  lemma FlushedFirst(frame: seq<string>, outputs: seq<Poll>)
    ensures AsPolls(Flush(frame)) + outputs == (if frame == [] then [] else [Payload(Join(frame))]) + outputs
    ensures AsPolls([]) + outputs == [] + outputs
  {
    assert AsPolls([]) == [];
    if frame != [] { assert AsPolls(Flush(frame)) == [Payload(Join(frame))]; }
  }

  lemma TakeLines(
    inner: seq<Item>, buffer: string, frame: seq<string>, now: seq<string>, rest: string, next: seq<string>)
    requires Completed(frame, Lines(buffer)) == now + Completed(next, Lines(rest))
    requires Open(frame, Lines(buffer)) == Open(next, Lines(rest)) && Tail(buffer) == Tail(rest)
    ensures Outputs(inner, buffer, frame) == AsPolls(now) + Outputs(inner, rest, next)
  {
    Regroup(now, Completed(next, Lines(rest)), Later(inner, Tail(rest), Open(next, Lines(rest))));
  }

  lemma Regroup(now: seq<string>, next: seq<string>, later: seq<Poll>)
    ensures AsPolls(now + next) + later == AsPolls(now) + (AsPolls(next) + later)
  {
    assert AsPolls(now + next) == AsPolls(now) + AsPolls(next);
  }

  lemma AtEnd(buffer: string, frame: seq<string>)
    requires FirstNewline(buffer) == |buffer|
    ensures Outputs([], buffer, frame) == if frame == [] then [] else [Payload(Join(frame))]
  {
  }

  class SseParser {
    /** The items the upstream has yet to deliver. */
    var inner: seq<Item>
    var buffer: string
    var frame: seq<string>

    ghost function Remaining(): seq<Poll>
      reads this
    {
      Outputs(inner, buffer, frame)
    }

    constructor (inner: seq<Item>)
      ensures Remaining() == Outputs(inner, "", [])
    {
      this.inner, buffer, frame := inner, "", [];
    }

    /** Yields exactly the next output, and `Finished` only when none is left. */
    method PollNext() returns (poll: Poll)
      modifies this
      ensures poll.Finished? ==> old(Remaining()) == [] && Remaining() == []
      ensures !poll.Finished? ==> old(Remaining()) == [poll] + Remaining()
    {
      while true
        invariant Remaining() == old(Remaining())
        decreases |inner|
      {
        ghost var unread := inner;
        var pos := FirstNewline(buffer);
        while pos < |buffer|
          invariant pos == FirstNewline(buffer) && inner == unread
          invariant Remaining() == old(Remaining())
          decreases |buffer|
        {
          var line := TrimCr(buffer[..pos]);
          TakeLine(inner, buffer, frame, line, buffer[pos + 1..]);
          buffer := buffer[pos + 1..];
          pos := FirstNewline(buffer);
          if line == "" {
            if frame != [] {
              var payload := Join(frame);
              frame := [];
              return Payload(payload);
            }
          } else if DataOf(line).Some? {
            frame := frame + [DataOf(line).value];
          }
        }
        if inner == [] {
          AtEnd(buffer, frame);
          AtEnd(buffer, []);
          if frame != [] {
            var payload := Join(frame);
            frame := [];
            return Payload(payload);
          }
          return Finished;
        }
        assert buffer + "" == buffer;
        assert Outputs(inner, buffer, frame) == Later(inner, buffer, frame);
        var item := inner[0];
        inner := inner[1..];
        match item
        case Text(text) => buffer := buffer + text;
        case BadBytes => return Failed(NotUtf8);
        case Broken => return Failed(Interrupted);
      }
    }
  }

  // ---------- chunk independence ----------

  function TextOf(items: seq<Item>): string {
    if items == [] then "" else ChunkOf(items[0]) + TextOf(items[1..])
  }

  function Faults(items: seq<Item>): seq<Poll> {
    if items == [] then [] else AsFault(items[0]) + Faults(items[1..])
  }

  function PayloadsIn(polls: seq<Poll>): seq<string> {
    if polls == [] then []
    else (if polls[0].Payload? then [polls[0].payload] else []) + PayloadsIn(polls[1..])
  }

  function FailuresIn(polls: seq<Poll>): seq<Poll> {
    if polls == [] then []
    else (if polls[0].Failed? then [polls[0]] else []) + FailuresIn(polls[1..])
  }

  lemma {:induction false} SharedFirstLine(a: string, b: string, rest: string)
    requires FirstNewline(a) < |a| && rest == a[FirstNewline(a) + 1..]
    ensures Lines(a + b) == [a[..FirstNewline(a)]] + Lines(rest + b)
    ensures Tail(a + b) == Tail(rest + b)
  {
    FirstNewlineIn(a, b);
    LinesFirst(a + b);
    CutInFirst(a, b, FirstNewline(a));
  }

  lemma CutInFirst(a: string, b: string, pos: nat)
    requires pos < |a|
    ensures (a + b)[..pos] == a[..pos] && (a + b)[pos + 1..] == a[pos + 1..] + b
  {
  }

  lemma {:induction false} LinesConcat(a: string, b: string)
    ensures Lines(a + b) == Lines(a) + Lines(Tail(a) + b)
    ensures Tail(a + b) == Tail(Tail(a) + b)
    decreases |a|
  {
    var pos := FirstNewline(a);
    if pos < |a| {
      var rest := a[pos + 1..];
      SharedFirstLine(a, b, rest);
      LinesFirst(a);
      LinesConcat(rest, b);
    } else {
      assert [] + Lines(a + b) == Lines(a + b);
    }
  }

  /** `FirstNewline` finds what it is named after: no newline comes earlier. */
  lemma {:induction false} FirstNewlineMeaning(s: string)
    ensures forall i :: 0 <= i < FirstNewline(s) ==> s[i] != '\n'
    ensures FirstNewline(s) < |s| ==> s[FirstNewline(s)] == '\n'
  {
    if s != "" && s[0] != '\n' {
      FirstNewlineMeaning(s[1..]);
      assert forall i :: 1 <= i < FirstNewline(s) ==> s[i] == s[1..][i - 1];
    }
  }

  lemma {:induction false} FirstNewlineIn(a: string, b: string)
    requires FirstNewline(a) < |a|
    ensures FirstNewline(a + b) == FirstNewline(a)
  {
    if a[0] != '\n' {
      assert (a + b)[1..] == a[1..] + b;
      FirstNewlineIn(a[1..], b);
    }
  }

  lemma {:induction false} FramesConcat(frame: seq<string>, l1: seq<string>, l2: seq<string>)
    ensures Completed(frame, l1 + l2) == Completed(frame, l1) + Completed(Open(frame, l1), l2)
    ensures Open(frame, l1 + l2) == Open(Open(frame, l1), l2)
    decreases |l1|
  {
    if l1 == [] {
      assert [] + l2 == l2;
    } else {
      assert (l1 + l2)[1..] == l1[1..] + l2;
      FramesConcat(Extend(frame, TrimCr(l1[0])), l1[1..], l2);
    }
  }

  lemma SiftConcat(a: seq<Poll>, b: seq<Poll>)
    ensures PayloadsIn(a + b) == PayloadsIn(a) + PayloadsIn(b)
    ensures FailuresIn(a + b) == FailuresIn(a) + FailuresIn(b)
  {
    PayloadsConcat(a, b);
    FailuresConcat(a, b);
  }

  lemma {:induction false} PayloadsConcat(a: seq<Poll>, b: seq<Poll>)
    ensures PayloadsIn(a + b) == PayloadsIn(a) + PayloadsIn(b)
  {
    if a == [] {
      assert a + b == b;
    } else {
      assert (a + b)[1..] == a[1..] + b;
      PayloadsConcat(a[1..], b);
    }
  }

  lemma {:induction false} FailuresConcat(a: seq<Poll>, b: seq<Poll>)
    ensures FailuresIn(a + b) == FailuresIn(a) + FailuresIn(b)
  {
    if a == [] {
      assert a + b == b;
    } else {
      assert (a + b)[1..] == a[1..] + b;
      FailuresConcat(a[1..], b);
    }
  }

  lemma {:induction false} SiftPayloads(payloads: seq<string>)
    ensures PayloadsIn(AsPolls(payloads)) == payloads
    ensures FailuresIn(AsPolls(payloads)) == []
  {
    if payloads != [] {
      assert AsPolls(payloads)[1..] == AsPolls(payloads[1..]);
      SiftPayloads(payloads[1..]);
    }
  }

  lemma SiftFault(item: Item)
    ensures PayloadsIn(AsFault(item)) == []
    ensures FailuresIn(AsFault(item)) == AsFault(item)
  {
  }

  /** Reading one more chunk changes nothing in what the whole text amounts to. */
  lemma ReadChunk(buffer: string, frame: seq<string>, text: string)
    ensures Completed(frame, Lines(buffer + text)) ==
            Completed(frame, Lines(buffer)) + Completed(Open(frame, Lines(buffer)), Lines(Tail(buffer) + text))
    ensures Open(frame, Lines(buffer + text)) == Open(Open(frame, Lines(buffer)), Lines(Tail(buffer) + text))
  {
    LinesConcat(buffer, text);
    FramesConcat(frame, Lines(buffer), Lines(Tail(buffer) + text));
  }

  lemma {:induction false} OutputsSplit(inner: seq<Item>, buffer: string, frame: seq<string>, lines: seq<string>)
    requires lines == Lines(buffer + TextOf(inner))
    ensures PayloadsIn(Outputs(inner, buffer, frame)) == Completed(frame, lines) + Flush(Open(frame, lines))
    ensures FailuresIn(Outputs(inner, buffer, frame)) == Faults(inner)
    decreases |inner|, 1
  {
    var now, open, rest := Completed(frame, Lines(buffer)), Open(frame, Lines(buffer)), Tail(buffer);
    var left := Lines(rest + TextOf(inner));
    ReadChunk(buffer, frame, TextOf(inner));
    LaterSplit(inner, rest, open, left);
    PayloadsFirst(now, Later(inner, rest, open), Completed(open, left), Flush(Open(open, left)));
  }

  lemma PayloadsFirst(
    now: seq<string>, later: seq<Poll>, completed: seq<string>, flushed: seq<string>)
    requires PayloadsIn(later) == completed + flushed
    ensures PayloadsIn(AsPolls(now) + later) == (now + completed) + flushed
    ensures FailuresIn(AsPolls(now) + later) == FailuresIn(later)
  {
    SiftPayloads(now);
    SiftConcat(AsPolls(now), later);
  }

  lemma {:induction false} LaterSplit(inner: seq<Item>, rest: string, open: seq<string>, lines: seq<string>)
    requires FirstNewline(rest) == |rest|
    requires lines == Lines(rest + TextOf(inner))
    ensures PayloadsIn(Later(inner, rest, open)) == Completed(open, lines) + Flush(Open(open, lines))
    ensures FailuresIn(Later(inner, rest, open)) == Faults(inner)
    decreases |inner|, 0
  {
    if inner == [] {
      assert rest + "" == rest;
      SiftPayloads(Flush(open));
    } else {
      var chunk := rest + ChunkOf(inner[0]);
      assert rest + TextOf(inner) == chunk + TextOf(inner[1..]);
      SiftFault(inner[0]);
      SiftConcat(AsFault(inner[0]), Outputs(inner[1..], chunk, open));
      OutputsSplit(inner[1..], chunk, open, lines);
    }
  }

  /**
    CHUNK INDEPENDENCE.  However the text is cut and wherever faults interrupt it, the payloads the
    machine yields are those of the batch parser on the text received, and the faults come out in order.
  */
  lemma ChunkIndependence(items: seq<Item>)
    ensures PayloadsIn(Outputs(items, "", [])) == Payloads(TextOf(items))
    ensures FailuresIn(Outputs(items, "", [])) == Faults(items)
  {
    assert "" + TextOf(items) == TextOf(items);
    OutputsSplit(items, "", [], Lines(TextOf(items)));
  }

  // ---------- printing and parsing ----------

  /** The lines of a payload, the last one unterminated: what `Join` puts together. */
  function PayloadLines(payload: string): (lines: seq<string>)
    ensures lines != []
  {
    Lines(payload) + [Tail(payload)]
  }

  function PrintLines(lines: seq<string>): string {
    if lines == [] then "" else "data: " + lines[0] + "\n" + PrintLines(lines[1..])
  }

  /** Payloads as an SSE text: a `data: ` line for each of their lines, then a blank line. */
  function Print(payloads: seq<string>): string {
    if payloads == [] then "" else PrintLines(PayloadLines(payloads[0])) + "\n" + Print(payloads[1..])
  }

  function TrimAll(lines: seq<string>): (trimmed: seq<string>)
    ensures |trimmed| == |lines|
    ensures forall i :: 0 <= i < |lines| ==> trimmed[i] == TrimCr(lines[i])
  {
    seq(|lines|, i requires 0 <= i < |lines| => TrimCr(lines[i]))
  }

  /** What survives of a payload: its lines without trailing carriage returns. */
  function Survives(payload: string): string {
    Join(TrimAll(PayloadLines(payload)))
  }

  lemma {:induction false} JoinInverts(payload: string)
    ensures Join(PayloadLines(payload)) == payload
    decreases |payload|
  {
    var pos := FirstNewline(payload);
    if pos < |payload| {
      var rest := payload[pos + 1..];
      FirstNewlineMeaning(payload);
      JoinInverts(rest);
      assert PayloadLines(payload)[1..] == PayloadLines(rest) && PayloadLines(payload)[0] == payload[..pos];
      assert payload == payload[..pos] + "\n" + rest;
    } else {
      assert PayloadLines(payload) == [payload];
    }
  }

  lemma {:induction false} TrimCrAfter(prefix: string, line: string)
    requires prefix != "" && prefix[|prefix| - 1] != '\r'
    ensures TrimCr(prefix + line) == prefix + TrimCr(line)
  {
    var text := prefix + line;
    if line == "" {
      assert text == prefix;
    } else if line[|line| - 1] == '\r' {
      assert text[..|text| - 1] == prefix + line[..|line| - 1];
      TrimCrAfter(prefix, line[..|line| - 1]);
    }
  }

  lemma {:induction false} TrimCrData(line: string)
    ensures TrimCr("data: " + line) == "data: " + TrimCr(line)
    ensures DataOf(TrimCr("data: " + line)) == Some(TrimCr(line))
  {
    TrimCrAfter("data: ", line);
    var trimmed := TrimCr(line);
    var content := ("data: " + trimmed)[5..];
    assert content == " " + trimmed && content[1..] == trimmed;
  }

  lemma {:induction false} FirstNewlineAfter(line: string, rest: string)
    requires '\n' !in line
    ensures FirstNewline(line + "\n" + rest) == |line|
  {
    var text := line + "\n" + rest;
    if line != "" {
      assert text[1..] == line[1..] + "\n" + rest;
      FirstNewlineAfter(line[1..], rest);
    }
  }

  lemma LinesCons(line: string, rest: string)
    requires '\n' !in line
    ensures Lines(line + "\n" + rest) == [line] + Lines(rest)
  {
    FirstNewlineAfter(line, rest);
    var text := line + "\n" + rest;
    assert text[..|line|] == line && text[|line| + 1..] == rest;
  }

  ghost predicate NoNewlines(lines: seq<string>) {
    forall i :: 0 <= i < |lines| ==> '\n' !in lines[i]
  }

  lemma {:induction false} LinesHaveNoNewlines(text: string)
    ensures NoNewlines(PayloadLines(text))
    decreases |text|
  {
    var pos := FirstNewline(text);
    FirstNewlineMeaning(text);
    if pos < |text| {
      LinesHaveNoNewlines(text[pos + 1..]);
      assert PayloadLines(text) == [text[..pos]] + PayloadLines(text[pos + 1..]);
    }
  }

  /** Parsing printed lines collects them, trimmed, in the open frame and continues with the rest. */
  lemma {:induction false} ParsePrinted(frame: seq<string>, lines: seq<string>, rest: string)
    requires NoNewlines(lines)
    ensures Completed(frame, Lines(PrintLines(lines) + rest)) == Completed(frame + TrimAll(lines), Lines(rest))
    ensures Open(frame, Lines(PrintLines(lines) + rest)) == Open(frame + TrimAll(lines), Lines(rest))
    decreases |lines|
  {
    if lines == [] {
      assert PrintLines(lines) + rest == rest && frame + TrimAll(lines) == frame;
    } else {
      var others := PrintLines(lines[1..]) + rest;
      PrintCons(lines, rest);
      LinesCons("data: " + lines[0], others);
      TrimCrData(lines[0]);
      ConsumeLine(frame, "data: " + lines[0], Lines(others));
      ParsePrinted(frame + [TrimCr(lines[0])], lines[1..], rest);
      TrimCons(frame, lines);
    }
  }

  lemma PrintCons(lines: seq<string>, rest: string)
    requires lines != []
    ensures PrintLines(lines) + rest == "data: " + lines[0] + "\n" + (PrintLines(lines[1..]) + rest)
  {
  }

  lemma TrimCons(frame: seq<string>, lines: seq<string>)
    requires lines != []
    ensures frame + [TrimCr(lines[0])] + TrimAll(lines[1..]) == frame + TrimAll(lines)
  {
  }

  function SurviveAll(payloads: seq<string>): (survivors: seq<string>)
    ensures |survivors| == |payloads|
    ensures forall i :: 0 <= i < |payloads| ==> survivors[i] == Survives(payloads[i])
  {
    seq(|payloads|, i requires 0 <= i < |payloads| => Survives(payloads[i]))
  }

  /** Parsing a printed list gives every payload back, up to carriage returns at its line ends. */
  lemma {:induction false} PrintThenParse(payloads: seq<string>)
    ensures Completed([], Lines(Print(payloads))) == SurviveAll(payloads)
    ensures Open([], Lines(Print(payloads))) == []
  {
    if payloads != [] {
      var lines, rest := PayloadLines(payloads[0]), Print(payloads[1..]);
      LinesHaveNoNewlines(payloads[0]);
      assert Print(payloads) == PrintLines(lines) + ("\n" + rest);
      ParsePrinted([], lines, "\n" + rest);
      assert [] + TrimAll(lines) == TrimAll(lines);
      PrintThenParse(payloads[1..]);
      SurviveCons(payloads);
    }
  }

  lemma SurviveCons(payloads: seq<string>)
    requires payloads != []
    ensures SurviveAll(payloads) == Flush(TrimAll(PayloadLines(payloads[0]))) + SurviveAll(payloads[1..])
  {
  }

  ghost predicate EndsInCr(line: string) {
    line != "" && line[|line| - 1] == '\r'
  }

  /** No line of the payload ends in a carriage return. */
  ghost predicate Clean(payload: string) {
    forall j :: 0 <= j < |PayloadLines(payload)| ==> !EndsInCr(PayloadLines(payload)[j])
  }

  lemma {:induction false} JoinShrinks(lines: seq<string>)
    ensures |Join(TrimAll(lines))| <= |Join(lines)|
    ensures (exists i :: 0 <= i < |lines| && EndsInCr(lines[i])) ==> |Join(TrimAll(lines))| < |Join(lines)|
    ensures (forall i :: 0 <= i < |lines| ==> !EndsInCr(lines[i])) ==> TrimAll(lines) == lines
  {
    if |lines| > 1 {
      assert TrimAll(lines)[1..] == TrimAll(lines[1..]);
      JoinShrinks(lines[1..]);
    }
  }

  /**
    ROUND TRIP.  Printed payloads parse back to themselves, under any chunking of the printed text,
    exactly when no line of any payload ends in a carriage return.
  */
  lemma {:induction false} RoundTrip(payloads: seq<string>, chunks: seq<Item>)
    requires TextOf(chunks) == Print(payloads)
    ensures PayloadsIn(Outputs(chunks, "", [])) == payloads <==>
            forall i :: 0 <= i < |payloads| ==> Clean(payloads[i])
  {
    ChunkIndependence(chunks);
    PrintThenParse(payloads);
    assert SurviveAll(payloads) + [] == SurviveAll(payloads);
    forall i | 0 <= i < |payloads|
      ensures SurviveAll(payloads)[i] == payloads[i] <==> Clean(payloads[i])
    {
      JoinInverts(payloads[i]);
      JoinShrinks(PayloadLines(payloads[i]));
    }
    assert SurviveAll(payloads) == payloads <==> forall i :: 0 <= i < |payloads| ==>
      SurviveAll(payloads)[i] == payloads[i];
  }

  // ---------- bytes ----------

  /** What the machine makes of the chunks the upstream delivers: each is decoded by itself. */
  function ItemsOf(chunks: seq<seq<Byte>>): seq<Item> {
    if chunks == [] then []
    else [if Decoded(chunks[0]).Some? then Text(Decoded(chunks[0]).value) else BadBytes] + ItemsOf(chunks[1..])
  }

  function Joined(chunks: seq<seq<Byte>>): seq<Byte> {
    if chunks == [] then [] else chunks[0] + Joined(chunks[1..])
  }

  predicate AllDecode(chunks: seq<seq<Byte>>) {
    chunks == [] || (Decoded(chunks[0]).Some? && AllDecode(chunks[1..]))
  }

  lemma {:induction false} WholeChunks(chunks: seq<seq<Byte>>)
    ensures Faults(ItemsOf(chunks)) == [] <==> AllDecode(chunks)
    ensures AllDecode(chunks) ==> Decoded(Joined(chunks)) == Some(TextOf(ItemsOf(chunks)))
  {
    if chunks != [] {
      var rest := chunks[1..];
      WholeChunks(rest);
      assert ItemsOf(chunks)[1..] == ItemsOf(rest);
      if AllDecode(chunks) { DecodedConcat(chunks[0], Joined(rest)); }
    }
  }

  lemma {:induction false} NoFailures(polls: seq<Poll>)
    requires FailuresIn(polls) == [] && forall i :: 0 <= i < |polls| ==> !polls[i].Finished?
    ensures polls == AsPolls(PayloadsIn(polls))
  {
    if polls != [] {
      NoFailures(polls[1..]);
      assert polls == [polls[0]] + polls[1..];
      assert AsPolls(PayloadsIn(polls))[1..] == AsPolls(PayloadsIn(polls)[1..]);
    }
  }

  lemma {:induction false} NeverFinishedEarly(inner: seq<Item>, buffer: string, frame: seq<string>)
    ensures forall i :: 0 <= i < |Outputs(inner, buffer, frame)| ==> !Outputs(inner, buffer, frame)[i].Finished?
    decreases |inner|, 1
  {
    LaterNotFinished(inner, Tail(buffer), Open(frame, Lines(buffer)));
  }

  lemma {:induction false} LaterNotFinished(inner: seq<Item>, rest: string, open: seq<string>)
    requires FirstNewline(rest) == |rest|
    ensures forall i :: 0 <= i < |Later(inner, rest, open)| ==> !Later(inner, rest, open)[i].Finished?
    decreases |inner|, 0
  {
    if inner != [] { NeverFinishedEarly(inner[1..], rest + ChunkOf(inner[0]), open); }
  }

  /**
    BYTES.  A valid text delivered in chunks of bytes yields exactly the payloads of the batch parser if and
    only if every chunk is valid by itself, that is, no chunk ends inside a character.
  */
  lemma ByteChunkIndependence(chunks: seq<seq<Byte>>, text: string)
    requires Decoded(Joined(chunks)) == Some(text)
    ensures Outputs(ItemsOf(chunks), "", []) == AsPolls(Payloads(text)) <==> AllDecode(chunks)
  {
    var outputs := Outputs(ItemsOf(chunks), "", []);
    WholeChunks(chunks);
    ChunkIndependence(ItemsOf(chunks));
    SiftPayloads(Payloads(text));
    if AllDecode(chunks) {
      NeverFinishedEarly(ItemsOf(chunks), "", []);
      NoFailures(outputs);
    }
  }

  /** A character of two bytes, delivered one by one: each chunk is an error, and together they are a text. */
  lemma CutCharacter(chunks: seq<seq<Byte>>)
    requires chunks == [[0xC3], [0xA9]]
    ensures Decoded(Joined(chunks)).Some? && !AllDecode(chunks)
    ensures Faults(ItemsOf(chunks)) == [Failed(NotUtf8), Failed(NotUtf8)]
  {
    var rest := chunks[1..];
    assert rest[1..] == [] && Joined(rest) == [0xA9];
    assert Joined(chunks) == [0xC3, 0xA9] && [0xC3, 0xA9][2..] == [];
    assert ItemsOf(rest) == [BadBytes] && ItemsOf(chunks) == [BadBytes, BadBytes];
    assert [BadBytes, BadBytes][1..] == [BadBytes] && [BadBytes][1..] == [];
  }
}

/**
  The event stream format as section 9.2.6 of the WHATWG HTML Standard interprets it, and how far the
  de-framer agrees with it.  Only message data is compared; the standard's event types, ids and retry times
  do not concern the gateway.
*/
module EventStream {
  import opened Sse
  import opened Utf8
  import opened Wrappers

  const BOM := '\U{FEFF}'

  /** Decoding drops one byte order mark at the front. */
  function WithoutBom(text: string): string {
    if text != "" && text[0] == BOM then text[1..] else text
  }

  predicate IsBreak(ch: char) {
    ch == '\n' || ch == '\r'
  }

  /** The position of the first line end, or `|text|`. */
  function FirstBreak(text: string): (pos: nat)
    ensures pos <= |text|
    ensures pos < |text| ==> IsBreak(text[pos])
  {
    if text == "" || IsBreak(text[0]) then 0 else 1 + FirstBreak(text[1..])
  }

  /** What follows a line end at `pos`: a carriage return takes the newline after it along. */
  function AfterBreak(text: string, pos: nat): string
    requires pos < |text|
  {
    if text[pos] == '\r' && pos + 1 < |text| && text[pos + 1] == '\n' then text[pos + 2..] else text[pos + 1..]
  }

  /** The terminated lines of a text.  An unterminated last one cannot complete an event. */
  function StandardLines(text: string): seq<string>
    decreases |text|
  {
    var pos := FirstBreak(text);
    if pos == |text| then [] else [text[..pos]] + StandardLines(AfterBreak(text, pos))
  }

  /** The position of the first colon, or `|line|`. */
  function FirstColon(line: string): (pos: nat)
    ensures pos <= |line|
    ensures pos < |line| ==> line[pos] == ':'
  {
    if line == "" || line[0] == ':' then 0 else 1 + FirstColon(line[1..])
  }

  function FieldName(line: string): string {
    line[..FirstColon(line)]
  }

  /** The value of a field: what follows the colon, less one space; empty if there is no colon. */
  function FieldValue(line: string): string {
    var pos := FirstColon(line);
    if pos == |line| then ""
    else if pos + 1 < |line| && line[pos + 1] == ' ' then line[pos + 2..]
    else line[pos + 1..]
  }

  /** The data buffer after a line that is not empty: a `data` field appends its value and a newline. */
  function Buffered(buffer: string, line: string): string {
    if FieldName(line) == "data" then buffer + FieldValue(line) + "\n" else buffer
  }

  /** The events dispatched by lines, with what is in the data buffer; the last newline of the data is cut. */
  function Dispatched(buffer: string, lines: seq<string>): seq<string>
    decreases |lines|
  {
    if lines == [] then []
    else if lines[0] != "" then Dispatched(Buffered(buffer, lines[0]), lines[1..])
    else (if buffer == "" then [] else [buffer[..|buffer| - 1]]) + Dispatched("", lines[1..])
  }

  /** The data of all events of a text; at its end what is pending is dropped. */
  function StandardPayloads(text: string): seq<string> {
    Dispatched("", StandardLines(WithoutBom(text)))
  }

  // ---------- lines ----------

  /** Carriage returns come in front of newlines only, one at a time. */
  ghost predicate PairedReturns(text: string) {
    forall i :: 0 <= i < |text| && text[i] == '\r' ==> i + 1 < |text| && text[i + 1] == '\n'
  }

  lemma {:induction false} SameBreaks(text: string)
    requires PairedReturns(text)
    ensures FirstBreak(text) == |text| <==> FirstNewline(text) == |text|
    ensures FirstBreak(text) < |text| ==>
              AfterBreak(text, FirstBreak(text)) == text[FirstNewline(text) + 1..] &&
              text[..FirstBreak(text)] == TrimCr(text[..FirstNewline(text)])
  {
    if text == "" || text[0] == '\n' {
    } else if text[0] == '\r' {
      assert text[1..][0] == '\n' && text[..1] == "\r" && "\r"[..0] == "";
    } else {
      var rest := text[1..];
      assert PairedReturns(rest) by {
        forall i | 0 <= i < |rest| && rest[i] == '\r' ensures i + 1 < |rest| && rest[i + 1] == '\n' {
          assert text[i + 1] == '\r';
        }
      }
      SameBreaks(rest);
      var b, n := FirstBreak(rest), FirstNewline(rest);
      assert FirstBreak(text) == b + 1 && FirstNewline(text) == n + 1;
      if b < |rest| { LaterBreak(text, rest, b, n); }
    }
  }

  /** A line end at `b` and a newline at `n` of the rest are one further in the whole text. */
  lemma LaterBreak(text: string, rest: string, b: nat, n: nat)
    requires text != "" && text[0] != '\n' && text[0] != '\r' && rest == text[1..] && b < |rest| && n < |rest|
    requires AfterBreak(rest, b) == rest[n + 1..] && rest[..b] == TrimCr(rest[..n])
    ensures AfterBreak(text, b + 1) == text[n + 2..] && text[..b + 1] == TrimCr(text[..n + 1])
  {
    TrimCrAfter(text[..1], rest[..n]);
    assert text[..n + 1] == text[..1] + rest[..n];
    assert text[..b + 1] == text[..1] + rest[..b];
  }

  lemma TrimAllCons(line: string, lines: seq<string>)
    ensures TrimAll([line] + lines) == [TrimCr(line)] + TrimAll(lines)
  {
  }

  /** The standard's lines are those of the de-framer without their carriage returns. */
  lemma {:induction false} SameLines(text: string)
    requires PairedReturns(text)
    ensures StandardLines(text) == TrimAll(Lines(text))
    decreases |text|
  {
    var pos := FirstNewline(text);
    if pos < |text| {
      var line, rest := text[..pos], text[pos + 1..];
      SameBreaks(text);
      LinesFirst(text);
      SameLines(rest);
      TrimAllCons(line, Lines(rest));
    } else {
      SameBreaks(text);
      assert StandardLines(text) == [] && Lines(text) == [];
    }
  }

  // ---------- fields ----------

  lemma {:induction false} ColonFound(line: string, pos: nat)
    requires pos < |line| && line[pos] == ':'
    requires forall i :: 0 <= i < pos ==> line[i] != ':'
    ensures FirstColon(line) == pos
  {
    if pos > 0 { ColonFound(line[1..], pos - 1); }
  }

  lemma {:induction false} NoColon(line: string)
    requires ':' !in line
    ensures FirstColon(line) == |line|
  {
    if line != "" { NoColon(line[1..]); }
  }

  /** Both read the same data from a line, unless it is `data` without a colon. */
  lemma SameField(line: string)
    requires line != "data"
    ensures FieldName(line) == "data" <==> DataOf(line).Some?
    ensures DataOf(line).Some? ==> FieldValue(line) == DataOf(line).value
  {
    if "data:" <= line { ColonFound(line, 4); }
    assert FieldName(line) == "data" ==> |line| == 4 || line[4] == ':';
    NoColon("data");
    if "data:" <= line {
      ColonFound(line, 4);
      var content := line[5..];
      if 5 < |line| && line[5] == ' ' {
        assert " " <= content && content[1..] == line[6..];
      } else {
        assert !(" " <= content);
      }
    }
  }

  // ---------- events ----------

  /** The data buffer that corresponds to an open frame. */
  function BufferOf(frame: seq<string>): string {
    if frame == [] then "" else BufferOf(frame[..|frame| - 1]) + frame[|frame| - 1] + "\n"
  }

  lemma BufferSnoc(frame: seq<string>, data: string)
    ensures BufferOf(frame + [data]) == BufferOf(frame) + data + "\n"
  {
    assert (frame + [data])[..|frame|] == frame;
  }

  lemma {:induction false} BufferCons(data: string, rest: seq<string>)
    ensures BufferOf([data] + rest) == data + "\n" + BufferOf(rest)
  {
    if rest == [] {
      assert [data] + rest == [data] && [data][..0] == [];
      assert data + "\n" + "" == "" + data + "\n";
    } else {
      var n := |rest| - 1;
      assert ([data] + rest)[..n + 1] == [data] + rest[..n];
      BufferCons(data, rest[..n]);
      assert data + "\n" + BufferOf(rest[..n]) + rest[n] + "\n" == data + "\n" + (BufferOf(rest[..n]) + rest[n] + "\n");
    }
  }

  /** Without its last newline the buffer is the frame's joined lines. */
  lemma {:induction false} BufferIsJoin(frame: seq<string>)
    ensures frame != [] ==> BufferOf(frame) == Join(frame) + "\n"
    ensures BufferOf(frame) == "" <==> frame == []
  {
    if frame != [] {
      var rest := frame[1..];
      assert [frame[0]] + rest == frame;
      BufferCons(frame[0], rest);
      BufferIsJoin(rest);
      if rest == [] {
        assert frame[0] + "\n" + "" == frame[0] + "\n";
      } else {
        assert frame[0] + "\n" + (Join(rest) + "\n") == frame[0] + "\n" + Join(rest) + "\n";
      }
    }
  }

  ghost predicate NoBareData(lines: seq<string>) {
    "data" !in lines
  }

  /** From the same lines the standard dispatches the payloads that the de-framer completes. */
  lemma {:induction false} SameEvents(frame: seq<string>, lines: seq<string>)
    requires NoBareData(TrimAll(lines))
    ensures Dispatched(BufferOf(frame), TrimAll(lines)) == Completed(frame, lines)
    decreases |lines|
  {
    if lines != [] {
      var line := TrimAll(lines)[0];
      assert line in TrimAll(lines) && TrimAll(lines)[1..] == TrimAll(lines[1..]);
      SameEvents(Extend(frame, line), lines[1..]);
      SameStep(frame, line);
    }
  }

  /** One line has the same effect on buffer and frame, and a blank one dispatches the same data. */
  lemma {:induction false} SameStep(frame: seq<string>, line: string)
    requires line != "data"
    ensures line != "" ==> Buffered(BufferOf(frame), line) == BufferOf(Extend(frame, line))
    ensures (if BufferOf(frame) == "" then [] else [BufferOf(frame)[..|BufferOf(frame)| - 1]]) == Flush(frame)
  {
    SameField(line);
    if DataOf(line).Some? { BufferSnoc(frame, DataOf(line).value); }
    BufferIsJoin(frame);
    CutLast(Join(frame));
  }

  lemma CutLast(text: string)
    ensures (text + "\n")[..|text + "\n"| - 1] == text
  {
  }

  /**
    AGREEMENT.  On a text with carriage returns in front of newlines only, no byte order mark at its front and
    no `data` line without a colon, the de-framer yields the standard's events if and only if no frame is open
    at the end; otherwise one payload more.
  */
  lemma AgreesExactlyWhenClosed(text: string)
    requires PairedReturns(text) && WithoutBom(text) == text && NoBareData(StandardLines(text))
    ensures Payloads(text) == StandardPayloads(text) <==> Open([], Lines(text)) == []
    ensures Payloads(text) == StandardPayloads(text) + Flush(Open([], Lines(text)))
  {
    SameLines(text);
    SameEvents([], Lines(text));
    var completed, flushed := Completed([], Lines(text)), Flush(Open([], Lines(text)));
    assert |completed + flushed| == |completed| + |flushed|;
    if flushed == [] { assert completed + flushed == completed; }
  }

  // ---------- the differences ----------

  ghost predicate OneLine(line: string) {
    forall i :: 0 <= i < |line| ==> !IsBreak(line[i])
  }

  lemma {:induction false} BreakFound(text: string, pos: nat)
    requires pos < |text| && IsBreak(text[pos])
    requires forall i :: 0 <= i < pos ==> !IsBreak(text[i])
    ensures FirstBreak(text) == pos
  {
    if pos > 0 { BreakFound(text[1..], pos - 1); }
  }

  /** One line, its end, and the rest, as the standard sees them. */
  lemma StandardCons(line: string, end: string, rest: string, text: string)
    requires OneLine(line) && text == line + end + rest
    requires end == "\n" || end == "\r\n" || (end == "\r" && !("\n" <= rest))
    ensures StandardLines(text) == [line] + StandardLines(rest)
  {
    assert text[|line|] == end[0];
    BreakFound(text, |line|);
    assert text[..|line|] == line && text[|line| + |end|..] == rest;
    if end == "\r\n" { assert text[|line| + 1] == end[1]; }
    if end == "\r" && rest != "" { assert text[|line| + 1] == rest[0]; }
  }

  /** What the de-framer makes of one line in a frame of its own. */
  lemma DeframeAlone(line: string, text: string)
    requires '\n' !in line && TrimCr(line) != "" && text == line + "\n" + "\n"
    ensures Payloads(text) == Flush(Extend([], TrimCr(line)))
  {
    LinesCons(line, "\n");
    assert "\n" == "" + "\n" + "";
    LinesCons("", "");
    assert Lines("") == [] && [line] + ([""] + []) == [line] + [""] && [""] + [] == [""];
    ConsumeLine([], line, [""]);
    ConsumeLine(Extend([], TrimCr(line)), "", []);
  }

  /** What the standard makes of it. */
  lemma InterpretAlone(line: string, text: string)
    requires OneLine(line) && line != "" && WithoutBom(text) == line + "\n" + "\n"
    ensures StandardPayloads(text) == if FieldName(line) == "data" then [FieldValue(line)] else []
  {
    StandardCons(line, "\n", "\n", line + "\n" + "\n");
    StandardCons("", "\n", "", "\n");
    assert StandardLines("") == [] && ([line] + [""])[1..] == [""] && [""] + [] == [""];
    CutLast(FieldValue(line));
    assert "" + FieldValue(line) + "\n" == FieldValue(line) + "\n";
    InterpretTwo("", line);
  }

  lemma InterpretTwo(buffer: string, line: string)
    requires line != ""
    ensures Dispatched(buffer, [line] + [""]) == Dispatched(Buffered(buffer, line), [""])
  {
    assert ([line] + [""])[1..] == [""];
  }

  /** A line that both read as this data. */
  ghost predicate IsData(line: string, value: string) {
    "data:" <= line && OneLine(line) && DataOf(line) == Some(value)
  }

  lemma DataLine(line: string, value: string)
    requires IsData(line, value)
    ensures FieldName(line) == "data" && FieldValue(line) == value && Extend([], line) == [value]
    ensures TrimCr(line) == line && line[0] == 'd' && line != ""
  {
    ColonFound(line, 4);
    SameField(line);
    assert [] + [value] == [value];
  }

  /** There is such a line for every value. */
  lemma DataLineExists(value: string)
    requires OneLine(value)
    ensures IsData("data: " + value, value)
  {
    assert ("data: " + value)[5..] == " " + value && (" " + value)[1..] == value;
  }

  /** `data` without a colon is an event with empty data, which the de-framer does not see. */
  lemma BareDataIsIgnored(text: string)
    requires text == "data\n\n"
    ensures Payloads(text) == [] && StandardPayloads(text) == [""]
  {
    var line := "data";
    assert text == line + "\n" + "\n";
    BareLine(line);
    DeframeAlone(line, text);
    InterpretAlone(line, text);
  }

  lemma BareLine(line: string)
    requires line == "data"
    ensures TrimCr(line) == line && OneLine(line) && Extend([], line) == []
    ensures FieldName(line) == "data" && FieldValue(line) == ""
  {
    NoColon(line);
  }

  /** A byte order mark hides the event of the first line. */
  lemma ByteOrderMarkHides(line: string, value: string, text: string)
    requires IsData(line, value) && text == [BOM] + line + "\n" + "\n"
    ensures Payloads(text) == [] && StandardPayloads(text) == [value]
  {
    DataLine(line, value);
    assert ([BOM] + line)[|line|] == line[|line| - 1];
    assert ([BOM] + line)[0] == BOM && "data:"[0] == 'd';
    DeframeAlone([BOM] + line, text);
    assert text[1..] == line + "\n" + "\n";
    InterpretAlone(line, text);
  }

  lemma BufferedData(buffer: string, line: string, value: string, rest: seq<string>)
    requires IsData(line, value)
    ensures Dispatched(buffer, [line] + rest) == Dispatched(buffer + value + "\n", rest)
  {
    DataLine(line, value);
    assert ([line] + rest)[1..] == rest;
  }

  lemma BufferedBlank(data: string, rest: seq<string>)
    ensures Dispatched(data + "\n", [""] + rest) == [data] + Dispatched("", rest)
  {
    CutLast(data);
    assert ([""] + rest)[1..] == rest;
  }

  lemma OneEvent(line: string, value: string, rest: seq<string>)
    requires IsData(line, value)
    ensures Dispatched("", [line] + ([""] + rest)) == [value] + Dispatched("", rest)
  {
    BufferedData("", line, value, [""] + rest);
    assert "" + value + "\n" == value + "\n";
    BufferedBlank(value, rest);
  }

  /** Lone carriage returns end a line and the event in the standard; for the de-framer they end nothing. */
  lemma LoneReturnsEndNothing(line: string, value: string, text: string)
    requires IsData(line, value) && text == line + "\r" + "\r"
    ensures Payloads(text) == [] && StandardPayloads(text) == [value]
  {
    DataLine(line, value);
    StandardCons(line, "\r", "\r", text);
    StandardCons("", "\r", "", "\r");
    assert [""] + StandardLines("") == [""] + [];
    OneEvent(line, value, []);
    FirstNewlineMeaning(text);
    assert Lines(text) == [];
  }
}

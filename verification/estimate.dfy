/**
  The local token estimator (`estimate_text`, `estimate_prompt`): what texts cost, alone and put together, and
  what a prompt is made of.

  Weights are integer hundredths of a token.  `letters` stands for the non-ASCII characters the
  standard library calls alphabetic.
*/
module Estimate {
  import opened Characters
  import opened Wrappers

  datatype CharClass =
    | Latin | Digit | DigitInWord | Cjk | Kana | Hangul | Cyrillic | Arabic | Devanagari | Thai
    | OtherAlpha | Emoji | Math | Delim | At | Newline | Space | Symbol

  function Weight(c: CharClass): nat {
    match c
    case Latin => 80
    case Digit => 138
    case DigitInWord => 150
    case Cjk => 106
    case Kana => 80
    case Hangul => 80
    case Cyrillic => 47
    case Arabic => 76
    case Devanagari => 110
    case Thai => 90
    case OtherAlpha => 90
    case Emoji => 315
    case Math => 25
    case Delim => 50
    case At => 150
    case Newline => 30
    case Space => 30
    case Symbol => 60
  }

  predicate IsLetter(ch: char) {
    'a' <= ch <= 'z' || 'A' <= ch <= 'Z'
  }

  function AsciiPunctuation(ch: char): CharClass {
    if ch == '@' then At
    else if ch in "/:\\{}[]()<|>" then Delim
    else if ch in "+-*=%^~#" then Math
    else Symbol
  }

  predicate IsEmoji(code: int) {
    || 0x1F300 <= code <= 0x1FAFF || 0x2600 <= code <= 0x27BF || 0x1F000 <= code <= 0x1F2FF
    || 0x2190 <= code <= 0x21FF || 0x2B00 <= code <= 0x2BFF
  }

  predicate IsCjk(code: int) {
    || 0x4E00 <= code <= 0x9FFF || 0x3400 <= code <= 0x4DBF
    || 0x3000 <= code <= 0x303F || 0xFF00 <= code <= 0xFFEF
  }

  predicate IsWideMath(code: int) {
    code in {0xB1, 0xD7, 0xF7, 0x2264, 0x2265, 0x2260, 0x2248, 0x221E, 0x2211, 0x220F, 0x222B, 0x221A,
             0x2202, 0x2206, 0x2207, 0x2208, 0x2209, 0x2282, 0x2283, 0x222A, 0x2229}
  }

  /** The class of a character; `None` for ASCII control characters, which cost nothing. */
  function Classify(ch: char, inWord: bool, letters: set<char>): Option<CharClass> {
    var code := ch as int;
    if code < 0x80 then
      if IsLetter(ch) then Some(Latin)
      else if IsDigit(ch) then Some(if inWord then DigitInWord else Digit)
      else if code < 0x20 || code == 0x7F then (if ch == '\n' || ch == '\t' then Some(Newline) else None)
      else if ch == ' ' then Some(Space)
      else Some(AsciiPunctuation(ch))
    else if IsEmoji(code) then Some(Emoji)
    else if IsCjk(code) then Some(Cjk)
    else if 0x3040 <= code <= 0x30FF then Some(Kana)
    else if 0xAC00 <= code <= 0xD7AF then Some(Hangul)
    else if 0x0400 <= code <= 0x04FF then Some(Cyrillic)
    else if 0x0600 <= code <= 0x06FF then Some(Arabic)
    else if 0x0900 <= code <= 0x097F then Some(Devanagari)
    else if 0x0E00 <= code <= 0x0E7F then Some(Thai)
    else if IsWideSpace(code) then Some(Space)
    else if ch in letters then Some(OtherAlpha)
    else if IsWideMath(code) then Some(Math)
    else Some(Symbol)
  }

  predicate ContinuesWord(c: CharClass) {
    c.Latin? || c.Digit? || c.DigitInWord?
  }

  /** What one character adds, and whether the text is inside a word after it. */
  function Step(ch: char, inWord: bool, letters: set<char>): (nat, bool) {
    match Classify(ch, inWord, letters)
    case None => (0, inWord)
    case Some(c) => (if !inWord || !ContinuesWord(c) then Weight(c) else 0, ContinuesWord(c))
  }

  /** The cost of a text that starts inside a word or outside one. */
  function CostFrom(inWord: bool, text: string, letters: set<char>): nat
    decreases |text|
  {
    if text == "" then 0
    else
      var (cost, next) := Step(text[0], inWord, letters);
      cost + CostFrom(next, text[1..], letters)
  }

  function Cost(text: string, letters: set<char>): nat {
    CostFrom(false, text, letters)
  }

  function CeilTokens(hundredths: nat): nat {
    (hundredths + 99) / 100
  }

  function EstimateTokens(text: string, letters: set<char>): nat {
    CeilTokens(Cost(text, letters))
  }

  method EstimateText(text: string, letters: set<char>) returns (tokens: nat)
    ensures tokens == EstimateTokens(text, letters)
  {
    if text == "" { return 0; }
    var total, inWord := 0, false;
    for i := 0 to |text|
      invariant total + CostFrom(inWord, text[i..], letters) == Cost(text, letters)
    {
      assert text[i..][1..] == text[i + 1..];
      match Classify(text[i], inWord, letters) {
        case None =>
        case Some(c) =>
          if !inWord || !ContinuesWord(c) {
            total := total + Weight(c);
          }
          inWord := ContinuesWord(c);
      }
    }
    return CeilTokens(total);
  }

  // ---------- concatenation ----------

  /** Characters the estimator sees at all. */
  predicate Counted(ch: char, letters: set<char>) {
    Classify(ch, false, letters).Some?
  }

  /** What sits at the end of a text: whether its last counted character is an ASCII letter or digit. */
  predicate EndsInWord(text: string, letters: set<char>) {
    text != "" &&
    var last := text[|text| - 1];
    if Counted(last, letters) then IsLetter(last) || IsDigit(last) else EndsInWord(text[..|text| - 1], letters)
  }

  /** What a text saves when it continues a word: the weight of its first counted character. */
  function Saving(text: string, letters: set<char>): nat {
    if text == "" then 0
    else if !Counted(text[0], letters) then Saving(text[1..], letters)
    else if IsLetter(text[0]) then Weight(Latin)
    else if IsDigit(text[0]) then Weight(Digit)
    else 0
  }

  function WordAfter(inWord: bool, text: string, letters: set<char>): bool
    decreases |text|
  {
    if text == "" then inWord else WordAfter(Step(text[0], inWord, letters).1, text[1..], letters)
  }

  lemma {:induction false} CostSplits(inWord: bool, s: string, t: string, letters: set<char>)
    ensures CostFrom(inWord, s + t, letters)
         == CostFrom(inWord, s, letters) + CostFrom(WordAfter(inWord, s, letters), t, letters)
    decreases |s|
  {
    if s == "" {
      assert s + t == t;
    } else {
      assert (s + t)[1..] == s[1..] + t;
      CostSplits(Step(s[0], inWord, letters).1, s[1..], t, letters);
    }
  }

  lemma {:induction false} WordAfterSnoc(inWord: bool, s: string, ch: char, letters: set<char>)
    ensures WordAfter(inWord, s + [ch], letters) == Step(ch, WordAfter(inWord, s, letters), letters).1
    decreases |s|
  {
    if s == "" {
      assert s + [ch] == [ch];
    } else {
      assert (s + [ch])[1..] == s[1..] + [ch];
      WordAfterSnoc(Step(s[0], inWord, letters).1, s[1..], ch, letters);
    }
  }

  lemma {:induction false} WordAfterIsEnding(s: string, letters: set<char>)
    ensures WordAfter(false, s, letters) == EndsInWord(s, letters)
  {
    if s != "" {
      var init := s[..|s| - 1];
      assert s == init + [s[|s| - 1]];
      WordAfterIsEnding(init, letters);
      WordAfterSnoc(false, init, s[|s| - 1], letters);
    }
  }

  lemma {:induction false} SavingInsideWord(t: string, letters: set<char>)
    ensures CostFrom(true, t, letters) + Saving(t, letters) == CostFrom(false, t, letters)
  {
    if t != "" && !Counted(t[0], letters) { SavingInsideWord(t[1..], letters); }
  }

  /**
    CONCATENATION LAW.  Putting two texts together costs what they cost apart, minus the weight of the
    second one's first counted character when it is an ASCII letter or digit continuing a word.
  */
  lemma ConcatenationLaw(s: string, t: string, letters: set<char>)
    ensures Cost(s + t, letters)
         == Cost(s, letters) + Cost(t, letters) - (if EndsInWord(s, letters) then Saving(t, letters) else 0)
    ensures Saving(t, letters) <= Cost(t, letters)
  {
    CostSplits(false, s, t, letters);
    WordAfterIsEnding(s, letters);
    SavingInsideWord(t, letters);
  }

  /** The estimate never falls when text is appended, and cutting a text never lowers the bill. */
  lemma AppendAndCut(s: string, t: string, letters: set<char>)
    ensures EstimateTokens(s, letters) <= EstimateTokens(s + t, letters)
    ensures EstimateTokens(s + t, letters) <= EstimateTokens(s, letters) + EstimateTokens(t, letters)
  {
    ConcatenationLaw(s, t, letters);
  }

  /** A digit inside a word is never charged, so the weight listed for it has no effect. */
  lemma DigitInWordIsFree(ch: char, inWord: bool, letters: set<char>)
    requires Classify(ch, inWord, letters) == Some(DigitInWord)
    ensures Step(ch, inWord, letters) == (0, true)
  {
  }

  // ---------- what texts cost ----------

  /** Every character in the range costs this many hundredths of a token. */
  predicate CostsEach(first: int, last: int, hundredths: nat) {
    match first
    case 0x4E00 => last == 0x9FFF && hundredths == 106
    case 0x3400 => last == 0x4DBF && hundredths == 106
    case 0x3000 => last == 0x303F && hundredths == 106
    case 0xFF00 => last == 0xFFEF && hundredths == 106
    case 0x3040 => last == 0x30FF && hundredths == 80
    case 0xAC00 => last == 0xD7AF && hundredths == 80
    case 0x0400 => last == 0x04FF && hundredths == 47
    case 0x0600 => last == 0x06FF && hundredths == 76
    case 0x0900 => last == 0x097F && hundredths == 110
    case 0x0E00 => last == 0x0E7F && hundredths == 90
    case 0x1F300 => last == 0x1FAFF && hundredths == 315
    case 0x2600 => last == 0x27BF && hundredths == 315
    case 0x09 => last == 0x0A && hundredths == 30
    case 0x20 => last == 0x20 && hundredths == 30
    case 0x21 => last == 0x22 && hundredths == 60
    case 0x28 => last == 0x29 && hundredths == 50
    case 0x2A => last == 0x2B && hundredths == 25
    case 0x2C => last == 0x2C && hundredths == 60
    case 0x2E => last == 0x2E && hundredths == 60
    case 0x2F => last == 0x2F && hundredths == 50
    case 0x40 => last == 0x40 && hundredths == 150
    case _ => false
  }

  lemma CharacterCosts(ch: char, first: int, last: int, hundredths: nat, letters: set<char>)
    requires CostsEach(first, last, hundredths) && first <= ch as int <= last
    ensures Step(ch, false, letters) == (hundredths, false)
  {
  }

  lemma CostCons(text: string, hundredths: nat, letters: set<char>)
    requires text != "" && Step(text[0], false, letters) == (hundredths, false)
    ensures Cost(text, letters) == hundredths + Cost(text[1..], letters)
  {
  }

  lemma OneMore(hundredths: nat, count: nat)
    ensures hundredths + hundredths * count == hundredths * (count + 1)
  {
  }

  /** A text in one script, or of one kind of mark, costs so much for each character. */
  lemma {:induction false} ScriptCosts(text: string, first: int, last: int, hundredths: nat, letters: set<char>)
    requires CostsEach(first, last, hundredths)
    requires forall i :: 0 <= i < |text| ==> first <= text[i] as int <= last
    ensures Cost(text, letters) == hundredths * |text|
  {
    if text != "" {
      CharacterCosts(text[0], first, last, hundredths, letters);
      ScriptCosts(text[1..], first, last, hundredths, letters);
      CostCons(text, hundredths, letters);
      OneMore(hundredths, |text| - 1);
    }
  }

  predicate IsWord(text: string) {
    text != "" && forall i :: 0 <= i < |text| ==> IsLetter(text[i]) || IsDigit(text[i])
  }

  /** The inside of a word is free. */
  lemma {:induction false} InsideWordIsFree(text: string, letters: set<char>)
    requires forall i :: 0 <= i < |text| ==> IsLetter(text[i]) || IsDigit(text[i])
    ensures CostFrom(true, text, letters) == 0 && WordAfter(true, text, letters)
    decreases |text|
  {
    if text != "" { InsideWordIsFree(text[1..], letters); }
  }

  /** A word of any length costs what its first character does. */
  lemma WordCosts(word: string, letters: set<char>)
    requires IsWord(word)
    ensures Cost(word, letters) == if IsLetter(word[0]) then 80 else 138
    ensures WordAfter(false, word, letters)
  {
    InsideWordIsFree(word[1..], letters);
  }

  function Sentence(words: seq<string>): string {
    if words == [] then "" else if |words| == 1 then words[0] else words[0] + " " + Sentence(words[1..])
  }

  predicate AllWords(words: seq<string>) {
    words == [] || (IsWord(words[0]) && IsLetter(words[0][0]) && AllWords(words[1..]))
  }

  /** English text costs 0.8 tokens a word and 0.3 a space, however long the words are. */
  lemma {:induction false} SentenceCosts(words: seq<string>, letters: set<char>)
    requires words != [] && AllWords(words)
    ensures Cost(Sentence(words), letters) == 80 * |words| + 30 * (|words| - 1)
    decreases |words|
  {
    WordCosts(words[0], letters);
    if |words| > 1 {
      var rest := Sentence(words[1..]);
      SentenceCosts(words[1..], letters);
      CostSplits(false, words[0], " " + rest, letters);
      assert words[0] + " " + rest == words[0] + (" " + rest);
      assert (" " + rest)[1..] == rest;
    }
  }

  // ---------- requests ----------

  datatype ContentPart = Text(text: string) | Image

  datatype Message = Message(content: seq<ContentPart>)

  /** A tool definition; `parameters` is its JSON schema as text. */
  datatype Tool = Tool(name: string, description: Option<string>, parameters: string)

  datatype ChatRequest = ChatRequest(messages: seq<Message>, tools: seq<Tool>)

  const IMAGE_TOKENS: nat := 1000
  const MESSAGE_OVERHEAD: nat := 4

  function PartTokens(part: ContentPart, letters: set<char>): nat {
    match part
    case Text(text) => EstimateTokens(text, letters)
    case Image => IMAGE_TOKENS
  }

  function ContentTokens(content: seq<ContentPart>, letters: set<char>): nat {
    if content == [] then 0
    else ContentTokens(content[..|content| - 1], letters) + PartTokens(content[|content| - 1], letters)
  }

  function MessagesTokens(messages: seq<Message>, letters: set<char>): nat {
    if messages == [] then 0
    else
      var last := messages[|messages| - 1];
      MessagesTokens(messages[..|messages| - 1], letters) + ContentTokens(last.content, letters) + MESSAGE_OVERHEAD
  }

  function ToolTokens(tool: Tool, letters: set<char>): nat {
    EstimateTokens(tool.name, letters)
    + (if tool.description.Some? then EstimateTokens(tool.description.value, letters) else 0)
    + EstimateTokens(tool.parameters, letters)
  }

  function ToolsTokens(tools: seq<Tool>, letters: set<char>): nat {
    if tools == [] then 0 else ToolsTokens(tools[..|tools| - 1], letters) + ToolTokens(tools[|tools| - 1], letters)
  }

  function PromptTokens(request: ChatRequest, letters: set<char>): nat {
    MessagesTokens(request.messages, letters) + ToolsTokens(request.tools, letters)
  }

  function CompletionTokens(text: string, letters: set<char>): nat {
    EstimateTokens(text, letters) + MESSAGE_OVERHEAD
  }

  // ---------- what a prompt is made of ----------

  function TextsOf(content: seq<ContentPart>): seq<string> {
    if content == [] then []
    else
      var last := content[|content| - 1];
      TextsOf(content[..|content| - 1]) + if last.Text? then [last.text] else []
  }

  function ImagesOf(content: seq<ContentPart>): nat {
    if content == [] then 0
    else ImagesOf(content[..|content| - 1]) + if content[|content| - 1].Image? then 1 else 0
  }

  function AllParts(messages: seq<Message>): seq<ContentPart> {
    if messages == [] then [] else AllParts(messages[..|messages| - 1]) + messages[|messages| - 1].content
  }

  function ToolTexts(tools: seq<Tool>): seq<string> {
    if tools == [] then []
    else
      var last := tools[|tools| - 1];
      ToolTexts(tools[..|tools| - 1]) + [last.name] + (if last.description.Some? then [last.description.value] else [])
      + [last.parameters]
  }

  function SumTokens(texts: seq<string>, letters: set<char>): nat {
    if texts == [] then 0
    else SumTokens(texts[..|texts| - 1], letters) + EstimateTokens(texts[|texts| - 1], letters)
  }

  lemma {:induction false} SumTokensConcat(a: seq<string>, b: seq<string>, letters: set<char>)
    ensures SumTokens(a + b, letters) == SumTokens(a, letters) + SumTokens(b, letters)
  {
    if b == [] {
      assert a + b == a;
    } else {
      assert (a + b)[..|a + b| - 1] == a + b[..|b| - 1];
      SumTokensConcat(a, b[..|b| - 1], letters);
    }
  }

  lemma SumTokensOne(text: string, letters: set<char>)
    ensures SumTokens([text], letters) == EstimateTokens(text, letters)
  {
    assert [text][..0] == [];
  }

  lemma {:induction false} ContentIsSum(content: seq<ContentPart>, letters: set<char>)
    ensures ContentTokens(content, letters) == 1000 * ImagesOf(content) + SumTokens(TextsOf(content), letters)
  {
    if content != [] {
      var init, last := content[..|content| - 1], content[|content| - 1];
      ContentIsSum(init, letters);
      if last.Text? {
        SumTokensOne(last.text, letters);
        SumTokensConcat(TextsOf(init), [last.text], letters);
      } else {
        SumTokensConcat(TextsOf(init), [], letters);
      }
    }
  }

  lemma {:induction false} ContentConcat(a: seq<ContentPart>, b: seq<ContentPart>, letters: set<char>)
    ensures ContentTokens(a + b, letters) == ContentTokens(a, letters) + ContentTokens(b, letters)
  {
    if b == [] {
      assert a + b == a;
    } else {
      assert (a + b)[..|a + b| - 1] == a + b[..|b| - 1];
      ContentConcat(a, b[..|b| - 1], letters);
    }
  }

  lemma {:induction false} MessagesAreSum(messages: seq<Message>, letters: set<char>)
    ensures MessagesTokens(messages, letters) == 4 * |messages| + ContentTokens(AllParts(messages), letters)
  {
    if messages != [] {
      var init, last := messages[..|messages| - 1], messages[|messages| - 1];
      MessagesAreSum(init, letters);
      ContentConcat(AllParts(init), last.content, letters);
    }
  }

  lemma {:induction false} ToolsAreSum(tools: seq<Tool>, letters: set<char>)
    ensures ToolsTokens(tools, letters) == SumTokens(ToolTexts(tools), letters)
  {
    if tools != [] {
      var init, last := tools[..|tools| - 1], tools[|tools| - 1];
      var description := if last.description.Some? then [last.description.value] else [];
      ToolsAreSum(init, letters);
      SumTokensOne(last.name, letters);
      SumTokensOne(last.parameters, letters);
      if last.description.Some? { SumTokensOne(last.description.value, letters); }
      SumTokensConcat(ToolTexts(init), [last.name], letters);
      SumTokensConcat(ToolTexts(init) + [last.name], description, letters);
      SumTokensConcat(ToolTexts(init) + [last.name] + description, [last.parameters], letters);
    }
  }

  /**
    WHAT A PROMPT COSTS.  Four tokens a message, a thousand an image, and the estimates of all texts, each
    counted once: those of the messages, and the names, descriptions and parameters of the tools.
  */
  lemma PromptIsSum(request: ChatRequest, letters: set<char>)
    ensures var parts := AllParts(request.messages);
      PromptTokens(request, letters) == 4 * |request.messages| + 1000 * ImagesOf(parts) +
        SumTokens(TextsOf(parts), letters) + SumTokens(ToolTexts(request.tools), letters)
  {
    MessagesAreSum(request.messages, letters);
    ContentIsSum(AllParts(request.messages), letters);
    ToolsAreSum(request.tools, letters);
  }

  method EstimatePrompt(request: ChatRequest, letters: set<char>) returns (total: nat)
    ensures total == PromptTokens(request, letters)
  {
    total := 0;
    for m := 0 to |request.messages|
      invariant total == MessagesTokens(request.messages[..m], letters)
    {
      var content := request.messages[m].content;
      ghost var before := total;
      for p := 0 to |content|
        invariant total == before + ContentTokens(content[..p], letters)
      {
        assert content[..p + 1][..p] == content[..p];
        match content[p] {
          case Text(text) =>
            var tokens := EstimateText(text, letters);
            total := total + tokens;
          case Image => total := total + IMAGE_TOKENS;
        }
      }
      assert content[..|content|] == content;
      assert request.messages[..m + 1][..m] == request.messages[..m];
      total := total + MESSAGE_OVERHEAD;
    }
    assert request.messages[..|request.messages|] == request.messages;
    for k := 0 to |request.tools|
      invariant total == MessagesTokens(request.messages, letters) + ToolsTokens(request.tools[..k], letters)
    {
      assert request.tools[..k + 1][..k] == request.tools[..k];
      var tool := request.tools[k];
      var name := EstimateText(tool.name, letters);
      total := total + name;
      if tool.description.Some? {
        var description := EstimateText(tool.description.value, letters);
        total := total + description;
      }
      var parameters := EstimateText(tool.parameters, letters);
      total := total + parameters;
    }
    assert request.tools[..|request.tools|] == request.tools;
  }
}

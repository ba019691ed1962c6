/** The retry loops: before a stream, and for a whole request. */
module Dispatch {
  import opened Wrappers

  const MAX_ATTEMPTS: nat := 3

  /**
    The loops pick a block and a key, send, and on a retryable failure try again with another key, at most
    three times; everything outside (selection, transport, upstream, billing) is an adversarial input.

    `Whole` is the loop of a non-streaming request; `Streaming` is the window before a stream starts, which
    differs in four places: an accepted reply is not parsed or charged here, a request whose usage option is
    refused is sent again without it and without using up an attempt, a failed block selection keeps the
    previous failure, and a gate's error leaves no key and another status no place behind.
  */
  datatype Mode = Whole | Streaming

  /** What an error says; the upstream's own words are a `StatusLine`. */
  datatype Message =
    | StatusLine(status: nat, detail: string)
    | SteadyPhrase
    | QueueTimeout
    | NoCredits
    | Plain(text: string)

  datatype Error =
    | UpstreamUnavailable(message: Message)
    | RateLimited(message: Message, retryAfter: Option<int>)
    | Unauthorized(message: Message)
    | Forbidden(message: Message)
    | NotFound(message: Message)
    | InsufficientCredits
    | Internal(message: Message)

  function TextOf(error: Error): Message {
    if error.InsufficientCredits? then NoCredits else error.message
  }

  function RetryHint(error: Error): Option<int> {
    if error.RateLimited? then error.retryAfter else None
  }

  /** `with_retry_hint`: fills a missing hint of a rate limit, and nothing else. */
  function WithRetryHint(error: Error, hint: Option<int>): Error {
    if error.RateLimited? && error.retryAfter.None? && hint.Some? then error.(retryAfter := hint) else error
  }

  /** Where a failure happened; `key` is missing if none was selected. */
  datatype Context = Context(block: Id, key: Option<Id>)

  datatype Failure = Failure(error: Error, detail: Message, context: Option<Context>)

  function Bare(error: Error): Failure {
    Failure(error, TextOf(error), None)
  }

  function WithContext(error: Error, context: Context): Failure {
    Failure(error, TextOf(error), Some(context))
  }

  /** One line of the retry trail. */
  datatype Note = Note(block: Option<Id>, key: Option<Id>, reason: Message)

  function NoteOf(failure: Failure): Note {
    match failure.context
    case Some(c) => Note(Some(c.block), c.key, failure.detail)
    case None => Note(None, None, failure.detail)
  }

  /** What is reported to the key's health record. */
  datatype Report =
    | HardFailure(key: Id)
    | RateLimitFailure(key: Id, hint: Option<int>)
    | TransientFailure(key: Id)
    | Success(key: Id)

  /** Why a request got no reply: it was lost in transport, or it could not even be put together. */
  datatype SendError = Unreachable(message: Message) | Unprepared(message: Message)

  function SendFailure(error: SendError): Error {
    match error
    case Unreachable(message) => UpstreamUnavailable(message)
    case Unprepared(message) => Internal(message)
  }

  /**
    What comes back for one request: nothing, or a status with the error text, the upstream's `Retry-After`,
    the back-off the key was given for it, the parse error and the charge's error, if any.  `Awaited` is a
    reply that has not come yet.
  */
  datatype Reply =
    | Lost(error: SendError)
    | Replied(status: nat, detail: string, retryAfter: Option<int>, wait: Option<int>,
              parseError: Option<Message>, chargeError: Option<Error>)
    | Awaited

  /** Why no permit was had at the block's gate: the wait timed out, or the gate is broken. */
  datatype GateError = TimedOut | Closed(message: Message)

  function GateFailure(error: GateError): Error {
    match error
    case TimedOut => UpstreamUnavailable(QueueTimeout)
    case Closed(message) => Internal(message)
  }

  /**
    What one attempt meets.  `replies` is what the upstream answers to the requests of this attempt, one
    after the other, as far as it has answered; `meanwhile` is the blocks other requests have excluded from
    the usage option since the last attempt; `openai` is whether the block speaks the format that has it.
  */
  datatype Round = Round(block: Result<Id, Error>, key: Result<Id, Error>, clientError: Option<Message>,
                         gateError: Option<GateError>, openai: bool, meanwhile: set<Id>, replies: seq<Reply>)

  datatype Winner = Winner(block: Id, key: Id)

  /** How a run stands: won, failed, or still waiting for the reply to its last request. */
  datatype End = Won(winner: Winner) | Failed(failure: Failure) | Waiting

  // ---------- the usage option ----------

  predicate Contains(text: string, word: string) {
    word <= text || (text != "" && Contains(text[1..], word))
  }

  /** The error text names the option. */
  predicate NamesOption(detail: string) {
    Contains(detail, "stream_options") || Contains(detail, "include_usage")
  }

  /** A 400 that names the option, whether or not the request carried it. */
  predicate Refuses(reply: Reply) {
    reply.Replied? && reply.status == 400 && NamesOption(reply.detail)
  }

  /** The leading refusals among the replies of an attempt. */
  function Refusals(replies: seq<Reply>): (n: nat)
    ensures n <= |replies|
    ensures n < |replies| ==> !Refuses(replies[n])
  {
    if replies == [] || !Refuses(replies[0]) then 0 else 1 + Refusals(replies[1..])
  }

  /** The reply an attempt goes by: the first, or before a stream the first that is no refusal. */
  function ReplyOf(r: Round, mode: Mode): Reply {
    var n := if mode.Streaming? then Refusals(r.replies) else 0;
    if n < |r.replies| then r.replies[n] else Awaited
  }

  /** Of `n` requests only the first can carry the option. */
  function FirstCarries(carries: bool, n: nat): seq<bool> {
    seq(n, i => carries && i == 0)
  }

  /** The requests of one attempt, each by whether its body carries the option. */
  function BodiesOf(r: Round, excluded: set<Id>, mode: Mode): seq<bool>
    requires Sends(r)
  {
    if mode.Whole? then [false]
    else FirstCarries(r.openai && r.block.value !in excluded, Refusals(r.replies) + 1)
  }

  /** The requests an attempt sends, if any; `excluded` is as of the end of the one before. */
  function SentBy(r: Round, excluded: set<Id>, mode: Mode): seq<bool> {
    if Sends(r) then BodiesOf(r, excluded + r.meanwhile, mode) else []
  }

  /** The blocks excluded once the attempt is over. */
  function ExcludedBy(r: Round, excluded: set<Id>, mode: Mode): set<Id> {
    excluded + r.meanwhile + (if mode.Streaming? && Sends(r) && Refusals(r.replies) > 0 then {r.block.value} else {})
  }

  /** The blocks excluded after some attempts. */
  function Excluded(rounds: seq<Round>, start: set<Id>, mode: Mode): set<Id> {
    if rounds == [] then start
    else ExcludedBy(rounds[|rounds| - 1], Excluded(rounds[..|rounds| - 1], start, mode), mode)
  }

  /** The requests of some attempts, in order. */
  function Bodies(rounds: seq<Round>, start: set<Id>, mode: Mode): seq<bool> {
    if rounds == [] then []
    else
      var init, r := rounds[..|rounds| - 1], rounds[|rounds| - 1];
      Bodies(init, start, mode) + SentBy(r, Excluded(init, start, mode), mode)
  }

  // ---------- what each attempt amounts to ----------

  /** The request of this attempt is sent. */
  predicate Sends(r: Round) {
    r.block.Ok? && r.key.Ok? && r.clientError.None? && r.gateError.None?
  }

  predicate Accepted(reply: Reply) {
    reply.Replied? && 200 <= reply.status < 300
  }

  /** The upstream turned the key or the request away for a reason another key may not share. */
  predicate TurnedAway(reply: Reply) {
    reply.Replied? && (reply.status == 429 || reply.status == 401 || reply.status == 403 || reply.status >= 500)
  }

  /** The attempt fails in a way that another key may mend. */
  predicate Retryable(r: Round, mode: Mode) {
    var reply := ReplyOf(r, mode);
    Sends(r) && (reply.Lost? || TurnedAway(reply) || (mode.Whole? && Accepted(reply) && reply.parseError.Some?))
  }

  predicate Wins(r: Round, mode: Mode) {
    var reply := ReplyOf(r, mode);
    Sends(r) && Accepted(reply) && (mode.Whole? ==> reply.parseError.None? && reply.chargeError.None?)
  }

  predicate Waits(r: Round, mode: Mode) {
    Sends(r) && ReplyOf(r, mode).Awaited?
  }

  function ContextOf(r: Round): Context
    requires Sends(r)
  {
    Context(r.block.value, Some(r.key.value))
  }

  /** The failure a retryable attempt leaves behind. */
  function FailureOf(r: Round, mode: Mode): Failure
    requires Retryable(r, mode)
  {
    var reply := ReplyOf(r, mode);
    match reply
    case Lost(error) => WithContext(SendFailure(error), ContextOf(r))
    case Replied(status, detail, retryAfter, wait, parseError, _) =>
      if status == 429 then
        Failure(RateLimited(SteadyPhrase, if retryAfter.Some? then retryAfter else wait), StatusLine(429, detail),
          Some(ContextOf(r)))
      else if TurnedAway(reply) then
        WithContext(UpstreamUnavailable(StatusLine(status, detail)), ContextOf(r))
      else
        WithContext(UpstreamUnavailable(parseError.value), ContextOf(r))
  }

  /** How an attempt that is neither retried nor won ends the loop; `previous` is the last retryable failure. */
  function EndOf(r: Round, mode: Mode, previous: Option<Failure>): Failure
    requires !Retryable(r, mode) && !Wins(r, mode) && !Waits(r, mode)
  {
    var reply := ReplyOf(r, mode);
    if r.block.Err? then
      if mode.Streaming? && previous.Some? then previous.value else Bare(r.block.error)
    else if r.key.Err? then
      match previous
      case Some(failure) => failure.(error := WithRetryHint(failure.error, RetryHint(r.key.error)))
      case None => WithContext(r.key.error, Context(r.block.value, None))
    else if r.clientError.Some? then
      WithContext(UpstreamUnavailable(r.clientError.value), Context(r.block.value, Some(r.key.value)))
    else if r.gateError.Some? then
      var key := if mode.Whole? then Some(r.key.value) else None;
      WithContext(GateFailure(r.gateError.value), Context(r.block.value, key))
    else if !Accepted(reply) then
      var error := UpstreamUnavailable(StatusLine(reply.status, reply.detail));
      if mode.Whole? then WithContext(error, ContextOf(r)) else Bare(error)
    else
      WithContext(reply.chargeError.value, ContextOf(r))
  }

  /** The health report an attempt causes, if any. */
  function ReportOf(r: Round, mode: Mode): seq<Report> {
    var reply := ReplyOf(r, mode);
    if !Sends(r) || reply.Awaited? then []
    else if reply.Lost? then [TransientFailure(r.key.value)]
    else if reply.status == 429 then [RateLimitFailure(r.key.value, reply.retryAfter)]
    else if reply.status == 401 || reply.status == 403 then [HardFailure(r.key.value)]
    else if reply.status >= 500 || Retryable(r, mode) then [TransientFailure(r.key.value)]
    else if Accepted(reply) then [Success(r.key.value)]
    else []
  }

  // ---------- what a whole run amounts to ----------

  /** How many attempts were retried: the leading retryable ones. */
  function Retried(rounds: seq<Round>, mode: Mode): (n: nat)
    ensures n <= |rounds|
  {
    if rounds == [] || !Retryable(rounds[0], mode) then 0 else 1 + Retried(rounds[1..], mode)
  }

  /** The attempts a run gets to. */
  function Met(rounds: seq<Round>, mode: Mode): seq<Round> {
    if Retried(rounds, mode) < |rounds| then rounds[..Retried(rounds, mode) + 1] else rounds
  }

  predicate AllRetryable(rounds: seq<Round>, mode: Mode) {
    forall i :: 0 <= i < |rounds| ==> Retryable(rounds[i], mode)
  }

  /** One note per retryable failure, in order. */
  function Trail(rounds: seq<Round>, mode: Mode): seq<Note>
    requires AllRetryable(rounds, mode)
  {
    seq(|rounds|, i requires 0 <= i < |rounds| => NoteOf(FailureOf(rounds[i], mode)))
  }

  function Reports(rounds: seq<Round>, mode: Mode): seq<Report> {
    if rounds == [] then [] else Reports(rounds[..|rounds| - 1], mode) + ReportOf(rounds[|rounds| - 1], mode)
  }

  datatype Run = Run(result: End, notes: seq<Note>, reports: seq<Report>, bodies: seq<bool>)

  /** The note for an attempt that found no key after an earlier one had failed. */
  function NoKeyNote(r: Round, afterFailure: bool): seq<Note> {
    if r.block.Ok? && r.key.Err? && afterFailure then [Note(Some(r.block.value), None, TextOf(r.key.error))] else []
  }

  /** How the attempt that is not retried leaves the run. */
  function EndFor(r: Round, mode: Mode, previous: Option<Failure>): End
    requires !Retryable(r, mode)
  {
    if Wins(r, mode) then Won(Winner(r.block.value, r.key.value))
    else if Waits(r, mode) then Waiting
    else Failed(EndOf(r, mode, previous))
  }

  /** A whole run: the leading retryable attempts, and then the one that decides. */
  ghost predicate IsRun(run: Run, rounds: seq<Round>, mode: Mode, start: set<Id>, n: nat)
    requires n <= |rounds| && AllRetryable(rounds[..n], mode)
    requires n < |rounds| ==> !Retryable(rounds[n], mode)
  {
    var previous := if n == 0 then None else Some(FailureOf(rounds[..n][n - 1], mode));
    if n == |rounds| then
      run == Run(Failed(if n == 0 then Bare(UpstreamUnavailable(SteadyPhrase)) else previous.value),
                 Trail(rounds, mode), Reports(rounds, mode), Bodies(rounds, start, mode))
    else
      && run.notes == Trail(rounds[..n], mode) + NoKeyNote(rounds[n], n > 0)
      && run.reports == Reports(rounds[..n + 1], mode)
      && run.bodies == Bodies(rounds[..n + 1], start, mode)
      && run.result == EndFor(rounds[n], mode, previous)
  }

  /** A run is decided by the first attempt that is not retried. */
  ghost predicate Decides(run: Run, rounds: seq<Round>, mode: Mode, start: set<Id>) {
    RetriedMeans(rounds, mode);
    IsRun(run, rounds, mode, start, Retried(rounds, mode))
  }

  // ---------- which attempts go on, by status ----------

  /** The text contains the word. */
  ghost predicate Has(text: string, word: string) {
    exists before, after :: text == before + word + after
  }

  /** A refusal is a 400 whose text has one of the two words. */
  lemma RefusesExactly(reply: Reply)
    ensures Refuses(reply) <==>
      reply.Replied? && reply.status == 400 &&
      (Has(reply.detail, "stream_options") || Has(reply.detail, "include_usage"))
  {
    if reply.Replied? {
      ContainsMeans(reply.detail, "stream_options");
      ContainsMeans(reply.detail, "include_usage");
    }
  }

  /** The `k`th reply is the one an attempt goes by: before a stream the first that is no refusal, else the first. */
  predicate Settles(r: Round, mode: Mode, k: nat) {
    && k < |r.replies|
    && (mode.Whole? ==> k == 0)
    && (mode.Streaming? ==> !Refuses(r.replies[k]) && forall i :: 0 <= i < k ==> Refuses(r.replies[i]))
  }

  /** A block and a key were found, and the request went out. */
  predicate WentOut(r: Round) {
    r.block.Ok? && r.key.Ok? && r.clientError == None && r.gateError == None
  }

  /**
    Another key may do better: the reply was lost, or 401, 403, 429 or 500 and above, or a whole answer is
    unreadable.
  */
  predicate AnotherMay(reply: Reply, mode: Mode) {
    match reply
    case Lost(_) => true
    case Replied(status, _, _, _, parseError, _) =>
      status == 401 || status == 403 || status == 429 || status >= 500 ||
      (mode.Whole? && 200 <= status <= 299 && parseError.Some?)
    case Awaited => false
  }

  /** The attempt is followed by another, if one is left. */
  predicate GoesOn(r: Round, mode: Mode) {
    WentOut(r) && exists k :: 0 <= k < |r.replies| && Settles(r, mode, k) && AnotherMay(r.replies[k], mode)
  }

  /** What is noted of a reply after which the run goes on. */
  function Noted(reply: Reply): Message
    requires !reply.Awaited? && (reply.Replied? && 200 <= reply.status <= 299 ==> reply.parseError.Some?)
  {
    match reply
    case Lost(error) => error.message
    case Replied(status, detail, _, _, parseError, _) =>
      if 200 <= status <= 299 then parseError.value else StatusLine(status, detail)
  }

  /** The failure such a reply leaves behind. */
  function CameBack(reply: Reply, place: Context): Failure
    requires !reply.Awaited? && (reply.Replied? && 200 <= reply.status <= 299 ==> reply.parseError.Some?)
  {
    var error :=
      if reply.Replied? && reply.status == 429 then
        RateLimited(SteadyPhrase, if reply.retryAfter.Some? then reply.retryAfter else reply.wait)
      else if reply.Lost? && reply.error.Unprepared? then Internal(reply.error.message)
      else UpstreamUnavailable(Noted(reply));
    Failure(error, Noted(reply), Some(place))
  }

  /** All attempts before the `n`th go on. */
  predicate Reaches(rounds: seq<Round>, mode: Mode, n: nat) {
    n <= |rounds| && forall i :: 0 <= i < n ==> GoesOn(rounds[i], mode)
  }

  /**
    WHICH REPLIES ARE RETRIED.  A run goes on past an attempt exactly by the status of the reply it settles on,
    and every attempt it went past left a note: its block, its key, and what came back.
  */
  lemma RunGoesOnByStatus(run: Run, rounds: seq<Round>, mode: Mode, start: set<Id>, n: nat, i: nat, k: nat)
    requires |rounds| == MAX_ATTEMPTS && Decides(run, rounds, mode, start)
    requires Reaches(rounds, mode, n) && i < n && Settles(rounds[i], mode, k)
    ensures Retried(rounds, mode) >= n && |run.notes| >= n
    ensures AnotherMay(rounds[i].replies[k], mode)
    ensures run.notes[i] ==
      Note(Some(rounds[i].block.value), Some(rounds[i].key.value), Noted(rounds[i].replies[k]))
  {
    ReachedIsRetried(rounds, mode, n);
    RetriedMeans(rounds, mode);
    FailureByStatus(rounds[i], mode, k);
    NoteOfRetried(run, rounds, mode, start, i);
  }

  /** So a run whose first attempts go on and whose next one is answered 2xx is won by that attempt's key. */
  lemma PlainAnswerWins(run: Run, rounds: seq<Round>, mode: Mode, start: set<Id>, n: nat, k: nat)
    requires |rounds| == MAX_ATTEMPTS && Decides(run, rounds, mode, start)
    requires Reaches(rounds, mode, n) && n < |rounds| && WentOut(rounds[n]) && Settles(rounds[n], mode, k)
    requires rounds[n].replies[k].Replied? && 200 <= rounds[n].replies[k].status <= 299
    requires mode.Whole? ==> rounds[n].replies[k].parseError == None && rounds[n].replies[k].chargeError == None
    ensures run.result == Won(Winner(rounds[n].block.value, rounds[n].key.value)) && |run.notes| == n
  {
    EndByStatus(rounds[n], mode, k, PreviousFailure(rounds, mode, n));
    EndsWhereItStops(run, rounds, mode, start, n);
  }

  /**
    Any other status ends the run there, with that status and the upstream's words; so does a failed charge.
    Before a stream, what is left behind does not say where that was.
  */
  lemma OtherStatusEnds(run: Run, rounds: seq<Round>, mode: Mode, start: set<Id>, n: nat, k: nat)
    requires |rounds| == MAX_ATTEMPTS && Decides(run, rounds, mode, start)
    requires Reaches(rounds, mode, n) && n < |rounds| && WentOut(rounds[n]) && Settles(rounds[n], mode, k)
    requires rounds[n].replies[k].Replied? && !AnotherMay(rounds[n].replies[k], mode)
    ensures var reply, place := rounds[n].replies[k], Context(rounds[n].block.value, Some(rounds[n].key.value));
      && |run.notes| == n
      && (!(200 <= reply.status <= 299) ==>
            run.result == Failed(Failure(UpstreamUnavailable(StatusLine(reply.status, reply.detail)),
                                         StatusLine(reply.status, reply.detail),
                                         if mode.Whole? then Some(place) else None)))
      && (200 <= reply.status <= 299 && mode.Whole? && reply.chargeError.Some? ==>
            run.result == Failed(Failure(reply.chargeError.value, TextOf(reply.chargeError.value), Some(place))))
  {
    EndByStatus(rounds[n], mode, k, PreviousFailure(rounds, mode, n));
    EndsWhereItStops(run, rounds, mode, start, n);
  }

  /** If all three attempts go on, the run ends with what came back last, where it came back. */
  lemma LastReplyEnds(run: Run, rounds: seq<Round>, mode: Mode, start: set<Id>, k: nat)
    requires |rounds| == MAX_ATTEMPTS && Decides(run, rounds, mode, start)
    requires Reaches(rounds, mode, MAX_ATTEMPTS) && Settles(rounds[MAX_ATTEMPTS - 1], mode, k)
    ensures var last := rounds[MAX_ATTEMPTS - 1];
      var reply := last.replies[k];
      && AnotherMay(reply, mode)
      && run.result == Failed(CameBack(reply, Context(last.block.value, Some(last.key.value))))
  {
    var last := MAX_ATTEMPTS - 1;
    ReachedIsRetried(rounds, mode, MAX_ATTEMPTS);
    RetriedMeans(rounds, mode);
    assert rounds[..MAX_ATTEMPTS] == rounds;
    FailureByStatus(rounds[last], mode, k);
  }

  /** An attempt that sends nothing ends the run: what could not be had decides how. */
  lemma NothingSentEnds(run: Run, rounds: seq<Round>, mode: Mode, start: set<Id>, n: nat)
    requires |rounds| == MAX_ATTEMPTS && Decides(run, rounds, mode, start)
    requires Reaches(rounds, mode, n) && n < |rounds| && !WentOut(rounds[n])
    ensures var r := rounds[n];
      && run.result.Failed?
      && var failure := run.result.failure;
      && (r.block.Err? && (mode.Whole? || n == 0) ==> failure == Failure(r.block.error, TextOf(r.block.error), None))
      && (r.block.Ok? && r.key.Err? && n == 0 ==>
            failure == Failure(r.key.error, TextOf(r.key.error), Some(Context(r.block.value, None))))
      && (r.block.Ok? && r.key.Ok? ==>
            failure.context ==
            Some(Context(r.block.value, if mode.Whole? || r.clientError.Some? then Some(r.key.value) else None)))
      && (r.block.Ok? && r.key.Ok? && r.clientError.Some? ==>
            failure.error == UpstreamUnavailable(r.clientError.value))
      && (r.block.Ok? && r.key.Ok? && r.clientError.None? ==>
            failure.error == match r.gateError.value
              case TimedOut => UpstreamUnavailable(QueueTimeout)
              case Closed(message) => Internal(message))
  {
    EndsWhereItStops(run, rounds, mode, start, n);
  }

  /**
    If an attempt after others finds no block before a stream, or no key, the run ends with what came back
    last; only a rate limit without a hint takes the hint of the key that could not be had.
  */
  lemma NothingLeftEnds(run: Run, rounds: seq<Round>, mode: Mode, start: set<Id>, n: nat, k: nat)
    requires |rounds| == MAX_ATTEMPTS && Decides(run, rounds, mode, start)
    requires 0 < n < |rounds| && Reaches(rounds, mode, n) && Settles(rounds[n - 1], mode, k)
    requires AnotherMay(rounds[n - 1].replies[k], mode)
    requires (rounds[n].block.Err? && mode.Streaming?) || (rounds[n].block.Ok? && rounds[n].key.Err?)
    ensures var last := rounds[n - 1];
      var failure := CameBack(last.replies[k], Context(last.block.value, Some(last.key.value)));
      run.result == Failed(
        if rounds[n].block.Ok? && rounds[n].key.error.RateLimited? && failure.error.RateLimited? &&
           failure.error.retryAfter.None?
        then failure.(error := RateLimited(SteadyPhrase, rounds[n].key.error.retryAfter)) else failure)
  {
    FailureByStatus(rounds[n - 1], mode, k);
    EndsWhereItStops(run, rounds, mode, start, n);
  }

  // ---------- which requests carry the option ----------

  /** Of the requests of an attempt only the first carries the option, and it does exactly if it may and can. */
  lemma OptionOnFirstRequestExactly(r: Round, excluded: set<Id>, j: nat)
    requires WentOut(r) && j < |SentBy(r, excluded, Streaming)|
    ensures SentBy(r, excluded, Streaming)[j] <==>
      j == 0 && r.openai && r.block.value !in excluded && r.block.value !in r.meanwhile
  {
  }

  /**
    A REFUSED BLOCK IS LEFT ALONE.  Once a block's upstream has refused the option, no later attempt on that
    block carries it, by any number of stream requests one after the other.
  */
  lemma RefusedBlockIsLeftAlone(rounds: seq<Round>, start: set<Id>, i: nat, j: nat)
    requires i < j < |rounds| && WentOut(rounds[i]) && rounds[i].replies != [] && Refuses(rounds[i].replies[0])
    requires WentOut(rounds[j]) && rounds[j].block == rounds[i].block
    ensures true !in SentBy(rounds[j], Excluded(rounds[..j], start, Streaming), Streaming)
  {
    ExcludedSnoc(rounds, Streaming, start, i);
    ExcludedGrows(rounds, start, i + 1, j);
    var bodies := SentBy(rounds[j], Excluded(rounds[..j], start, Streaming), Streaming);
    forall n | 0 <= n < |bodies| ensures !bodies[n] {
      OptionOnFirstRequestExactly(rounds[j], Excluded(rounds[..j], start, Streaming), n);
    }
  }

  // ---------- what every run keeps ----------

  /**
    A whole request is sent at most three times; either loop leaves at most one note per attempt, and wins with at
    most two.
  */
  lemma AtMostThreeAttempts(run: Run, rounds: seq<Round>, mode: Mode, start: set<Id>)
    requires |rounds| == MAX_ATTEMPTS && Decides(run, rounds, mode, start)
    ensures |run.notes| <= 3 && (run.result.Won? ==> |run.notes| <= 2)
    ensures mode.Whole? ==> |run.bodies| <= 3
  {
    var n := Retried(rounds, mode);
    RetriedMeans(rounds, mode);
    if mode.Whole? { WholeRequests(if n < |rounds| then rounds[..n + 1] else rounds, start); }
  }

  /** An attempt before a stream sends at most two requests exactly if the reply to the second is no refusal as well. */
  lemma TwoRequestsExactly(r: Round, excluded: set<Id>)
    requires Sends(r)
    ensures |BodiesOf(r, excluded, Streaming)| <= 2 <==>
      !(|r.replies| >= 2 && Refuses(r.replies[0]) && Refuses(r.replies[1]))
  {
    if r.replies != [] && Refuses(r.replies[0]) {
      var rest := r.replies[1..];
      assert Refusals(r.replies) == 1 + Refusals(rest);
      assert rest != [] ==> rest[0] == r.replies[1];
    }
  }

  /** The upstream of an attempt refuses only requests that carry the option. */
  predicate RefusesOnlyTheOption(r: Round, excluded: set<Id>)
    requires Sends(r)
  {
    var bodies := BodiesOf(r, excluded, Streaming);
    forall k :: 0 <= k < |bodies| && k < |r.replies| && Refuses(r.replies[k]) ==> bodies[k]
  }

  /** That holds of every attempt that sends. */
  predicate OnlyTheOptionIsRefused(rounds: seq<Round>, start: set<Id>) {
    if rounds == [] then true
    else
      var init, r := rounds[..|rounds| - 1], rounds[|rounds| - 1];
      OnlyTheOptionIsRefused(init, start) &&
      (Sends(r) ==> RefusesOnlyTheOption(r, Excluded(init, start, Streaming) + r.meanwhile))
  }

  /** Such an upstream refuses once at most, and only if the block was not excluded yet. */
  lemma RefusedOnceAtMost(r: Round, excluded: set<Id>)
    requires Sends(r) && RefusesOnlyTheOption(r, excluded)
    ensures Refusals(r.replies) <= if r.openai && r.block.value !in excluded then 1 else 0
  {
    var n := Refusals(r.replies);
    if n > 0 {
      LeadingRefusals(r.replies, n - 1);
      assert BodiesOf(r, excluded, Streaming)[n - 1];
    }
  }

  /** The blocks the attempts chose. */
  function BlocksOf(rounds: seq<Round>): set<Id> {
    if rounds == [] then {}
    else
      var last := rounds[|rounds| - 1].block;
      BlocksOf(rounds[..|rounds| - 1]) + if last.Ok? then {last.value} else {}
  }

  /**
    ONE RESEND PER BLOCK.  If upstreams refuse only requests that carry the option, any number of attempts,
    by any number of stream requests one after the other, send one request each and one more for each block
    not excluded before.
  */
  lemma OneResendPerBlock(rounds: seq<Round>, start: set<Id>)
    requires OnlyTheOptionIsRefused(rounds, start)
    ensures |Bodies(rounds, start, Streaming)| <= |rounds| + |BlocksOf(rounds) - start|
  {
    var refused := ResendsByBlock(rounds, start);
    FewerElements(refused, BlocksOf(rounds) - start);
  }

  /** So one stream request sends at most three requests and one more for each distinct block not excluded before. */
  lemma StreamRequestsBound(run: Run, rounds: seq<Round>, start: set<Id>)
    requires |rounds| == MAX_ATTEMPTS && Decides(run, rounds, Streaming, start) && OnlyTheOptionIsRefused(rounds, start)
    ensures |run.bodies| <= 3 + |BlocksOf(rounds) - start|
  {
    var n := Retried(rounds, Streaming);
    RetriedMeans(rounds, Streaming);
    var met := if n < |rounds| then n + 1 else n;
    assert rounds[..|rounds|] == rounds;
    OnlyTheOptionPrefix(rounds, start, met);
    OneResendPerBlock(rounds[..met], start);
    FewerElements(BlocksOf(rounds[..met]) - start, BlocksOf(rounds) - start);
  }

  /**
    Without that there is no bound: an upstream that answers every request with the same refusal is sent
    one after another, all but the first without the option, and the run never gets past its first attempt.
  */
  lemma StubbornRefusals(run: Run, rounds: seq<Round>, start: set<Id>, refusal: Reply, n: nat)
    requires |rounds| == MAX_ATTEMPTS && Decides(run, rounds, Streaming, start)
    requires Sends(rounds[0]) && Refuses(refusal) && rounds[0].replies == seq(n, _ => refusal)
    ensures run.result.Waiting? && |run.bodies| == n + 1 && forall k :: 1 <= k <= n ==> !run.bodies[k]
  {
    AllRefused(rounds[0].replies);
    assert rounds[..0] == [];
    RetriedIs(rounds, Streaming, 0);
    CountsSnoc(rounds, Streaming, start, 0);
  }

  /** A run succeeds exactly when an attempt wins after retryable ones only; its notes are those attempts', in order. */
  lemma SuccessExactly(run: Run, rounds: seq<Round>, mode: Mode, start: set<Id>)
    requires |rounds| == MAX_ATTEMPTS && Decides(run, rounds, mode, start)
    ensures run.result.Won? <==>
      exists n :: 0 <= n < |rounds| && AllRetryable(rounds[..n], mode) && Wins(rounds[n], mode)
    ensures run.result.Won? ==>
      var n := |run.notes|;
      && n < |rounds| && AllRetryable(rounds[..n], mode) && run.notes == Trail(rounds[..n], mode)
      && Wins(rounds[n], mode) && run.result.winner == Winner(rounds[n].block.value, rounds[n].key.value)
  {
    RetriedMeans(rounds, mode);
    WinsWhereItStops(rounds, mode);
  }

  /**
    When an attempt after a failed one finds no key, the run ends with that failure: the same kind of
    error and message, the same detail and place; only a rate limit without a hint takes the new hint.
  */
  lemma NoKeyLeftKeepsPreviousFailure(
    run: Run, rounds: seq<Round>, mode: Mode, start: set<Id>, n: nat)
    requires |rounds| == MAX_ATTEMPTS && Decides(run, rounds, mode, start)
    requires 0 < n < |rounds| && AllRetryable(rounds[..n], mode) && rounds[n].block.Ok? && rounds[n].key.Err?
    ensures var previous := FailureOf(rounds[..n][n - 1], mode);
      && run.result.Failed?
      && run.result.failure.detail == previous.detail && run.result.failure.context == previous.context
      && (previous.error.UpstreamUnavailable? ==> run.result.failure.error == previous.error)
      && (previous.error.RateLimited? ==>
            run.result.failure.error == RateLimited(previous.error.message,
              if previous.error.retryAfter.Some? then previous.error.retryAfter else RetryHint(rounds[n].key.error)))
      && |run.notes| == n + 1 && run.notes[n].key == None
  {
    RetriedIs(rounds, mode, n);
  }

  /**
    When every attempt fails, the run ends with the last failure, where it happened and in the upstream's
    own words; a rate limit carries the upstream's hint, or else the back-off the key was given for it.
  */
  lemma ExhaustedRunEndsWithLastFailure(run: Run, rounds: seq<Round>, mode: Mode, start: set<Id>)
    requires |rounds| == MAX_ATTEMPTS && Decides(run, rounds, mode, start) && AllRetryable(rounds, mode)
    ensures var last := rounds[|rounds| - 1];
      var reply := ReplyOf(last, mode);
      && run.result.Failed? && |run.notes| == 3
      && run.result.failure.context == Some(Context(last.block.value, Some(last.key.value)))
      && (TurnedAway(reply) ==> run.result.failure.detail == StatusLine(reply.status, reply.detail))
      && (run.result.failure.error.RateLimited? <==> reply.Replied? && reply.status == 429)
      && (reply.Replied? && reply.status == 429 ==>
            run.result.failure.error.retryAfter == if reply.retryAfter.Some? then reply.retryAfter else reply.wait)
  {
    assert rounds[..|rounds|] == rounds;
    RetriedIs(rounds, mode, |rounds|);
  }

  /** An error that blames the caller's credentials or rights. */
  predicate BlamesCaller(error: Error) {
    error.Unauthorized? || error.Forbidden?
  }

  /** A failure of the gateway's own: selection, or the charge; never what the upstream said. */
  predicate GatewayBlames(r: Round, mode: Mode, first: bool) {
    if r.block.Err? then BlamesCaller(r.block.error) && (mode.Whole? || first)
    else if r.key.Err? then BlamesCaller(r.key.error) && first
    else
      var reply := ReplyOf(r, mode);
      mode.Whole? && Sends(r) && Accepted(reply) && reply.parseError.None? && reply.chargeError.Some?
      && BlamesCaller(reply.chargeError.value)
  }

  /**
    The caller is told 401 or 403 exactly when the gateway's own selection or charge said so in the attempt
    that ended the run; a 401 or 403 of the upstream never comes out.
  */
  lemma UpstreamRejectionNeverComesOut(run: Run, rounds: seq<Round>, mode: Mode, start: set<Id>)
    requires |rounds| == MAX_ATTEMPTS && Decides(run, rounds, mode, start)
    ensures var n := Retried(rounds, mode);
      run.result.Failed? && BlamesCaller(run.result.failure.error) <==>
        n < |rounds| && GatewayBlames(rounds[n], mode, n == 0)
  {
    var n := Retried(rounds, mode);
    RetriedMeans(rounds, mode);
    if n > 0 { FailureBlamesNobody(rounds[..n][n - 1], mode); }
    if n < |rounds| {
      EndBlames(rounds[n], mode, if n == 0 then None else Some(FailureOf(rounds[..n][n - 1], mode)));
    }
  }

  /** What comes after the deciding attempt does not matter. */
  lemma LaterAttemptsDoNotMatter(
    run: Run, rounds: seq<Round>, others: seq<Round>, mode: Mode, start: set<Id>)
    requires |rounds| == |others| == MAX_ATTEMPTS && Decides(run, rounds, mode, start)
    requires Retried(rounds, mode) < |rounds|
    requires rounds[..Retried(rounds, mode) + 1] == others[..Retried(rounds, mode) + 1]
    ensures Decides(run, others, mode, start)
  {
    var n := Retried(rounds, mode);
    RetriedMeans(rounds, mode);
    assert rounds[..n] == rounds[..n + 1][..n] && others[..n] == others[..n + 1][..n];
    assert rounds[n] == rounds[..n + 1][n] && others[n] == others[..n + 1][n];
    RetriedIs(others, mode, n);
  }

  /** Which report reaches the key's record: 401 and 403 alone count against it, and 429 alone cools it down. */
  lemma ReportsByCause(r: Round, mode: Mode)
    requires Sends(r)
    ensures var key, reply := r.key.value, ReplyOf(r, mode);
      && (HardFailure(key) in ReportOf(r, mode) <==> reply.Replied? && (reply.status == 401 || reply.status == 403))
      && (RateLimitFailure(key, if reply.Replied? then reply.retryAfter else None) in ReportOf(r, mode) <==>
            reply.Replied? && reply.status == 429)
      && (Success(key) in ReportOf(r, mode) <==> Accepted(reply) && !Retryable(r, mode))
      && (TransientFailure(key) in ReportOf(r, mode) <==>
            reply.Lost? ||
            (reply.Replied? && (reply.status >= 500 ||
              (mode.Whole? && 200 <= reply.status <= 299 && reply.parseError.Some?))))
      && |ReportOf(r, mode)| <= 1
      && (ReportOf(r, mode) == [] ==> !Retryable(r, mode) && !Wins(r, mode))
  {
  }

  // ---------- the loops ----------

  /** The reply of one attempt in `dispatch`: whether to go on, and what to report. */
  method Examine(r: Round) returns (end: End, again: bool, reports: seq<Report>)
    requires Sends(r)
    ensures again == Retryable(r, Whole) && reports == ReportOf(r, Whole)
    ensures again ==> end == Failed(FailureOf(r, Whole))
    ensures !again ==> end == EndFor(r, Whole, None)
  {
    var key := r.key.value;
    var context := Context(r.block.value, Some(key));
    if r.replies == [] { return Waiting, false, []; }
    match r.replies[0]
    case Awaited => return Waiting, false, [];
    case Lost(error) => return Failed(WithContext(SendFailure(error), context)), true, [TransientFailure(key)];
    case Replied(status, detail, retryAfter, wait, parseError, chargeError) =>
      var failure := Failed(WithContext(UpstreamUnavailable(StatusLine(status, detail)), context));
      if status == 429 {
        var hint := if retryAfter.Some? then retryAfter else wait;
        return Failed(Failure(RateLimited(SteadyPhrase, hint), StatusLine(429, detail), Some(context))), true,
          [RateLimitFailure(key, retryAfter)];
      }
      if status == 401 || status == 403 { return failure, true, [HardFailure(key)]; }
      if status >= 500 { return failure, true, [TransientFailure(key)]; }
      if !(200 <= status < 300) { return failure, false, []; }
      if parseError.Some? {
        return Failed(WithContext(UpstreamUnavailable(parseError.value), context)), true, [TransientFailure(key)];
      }
      if chargeError.Some? {
        return Failed(WithContext(chargeError.value, context)), false, [Success(key)];
      }
      return Won(Winner(r.block.value, key)), false, [Success(key)];
  }

  /** What an attempt that sends nothing leaves behind. */
  method GiveUp(r: Round, mode: Mode, last: Option<Failure>) returns (failure: Failure, note: seq<Note>)
    requires !Sends(r)
    ensures failure == EndOf(r, mode, last) && note == NoKeyNote(r, last.Some?)
  {
    if r.block.Err? {
      return if mode.Streaming? && last.Some? then last.value else Bare(r.block.error), [];
    }
    if r.key.Err? {
      if last.None? { return WithContext(r.key.error, Context(r.block.value, None)), []; }
      var previous := last.value;
      return previous.(error := WithRetryHint(previous.error, RetryHint(r.key.error))),
             [Note(Some(r.block.value), None, TextOf(r.key.error))];
    }
    var context := Context(r.block.value, Some(r.key.value));
    if r.clientError.Some? { return WithContext(UpstreamUnavailable(r.clientError.value), context), []; }
    if mode.Streaming? { context := Context(r.block.value, None); }
    return WithContext(GateFailure(r.gateError.value), context), [];
  }

  /** What a loop has noted, reported, sent and remembered after `i` retried attempts. */
  ghost predicate Tried(rounds: seq<Round>, mode: Mode, start: set<Id>, i: nat, last: Option<Failure>,
                        notes: seq<Note>, reports: seq<Report>, bodies: seq<bool>)
  {
    && i <= |rounds| && AllRetryable(rounds[..i], mode)
    && notes == Trail(rounds[..i], mode) && reports == Reports(rounds[..i], mode) &&
      bodies == Bodies(rounds[..i], start, mode)
    && last == if i == 0 then None else Some(FailureOf(rounds[..i][i - 1], mode))
  }

  /** One round of `dispatch`. */
  method TryWhole(r: Round, last: Option<Failure>)
    returns (end: End, again: bool, note: seq<Note>, reports: seq<Report>, bodies: seq<bool>)
    ensures again == Retryable(r, Whole) && reports == ReportOf(r, Whole) && bodies == SentBy(r, {}, Whole)
    ensures again ==> end == Failed(FailureOf(r, Whole)) && note == [NoteOf(FailureOf(r, Whole))]
    ensures !again ==> end == EndFor(r, Whole, last) && note == NoKeyNote(r, last.Some?)
  {
    if r.block.Err? || r.key.Err? || r.clientError.Some? || r.gateError.Some? {
      var failure;
      failure, note := GiveUp(r, Whole, last);
      return Failed(failure), false, note, [], [];
    }
    end, again, reports := Examine(r);
    note, bodies := if again then [NoteOf(end.failure)] else [], [false];
  }

  /** `dispatch` against the attempts it would meet, the last of which is the third. */
  method Dispatch(rounds: seq<Round>) returns (end: End, notes: seq<Note>, reports: seq<Report>, bodies: seq<bool>)
    requires |rounds| == MAX_ATTEMPTS
    ensures Decides(Run(end, notes, reports, bodies), rounds, Whole, {})
  {
    notes, reports, bodies := [], [], [];
    var last: Option<Failure> := None;
    var i := 0;
    while i < MAX_ATTEMPTS
      invariant i <= MAX_ATTEMPTS && Tried(rounds, Whole, {}, i, last, notes, reports, bodies)
    {
      var verdict, again, note, reported, sent := TryWhole(rounds[i], last);
      if !again {
        TriedAndOver(rounds, Whole, {}, i, last, notes, reports, bodies);
        return verdict, notes + note, reports + reported, bodies + sent;
      }
      TriedOneMore(rounds, Whole, {}, i, last, notes, reports, bodies);
      last := Some(verdict.failure);
      notes, reports, bodies := notes + note, reports + reported, bodies + sent;
      i := i + 1;
    }
    TriedAll(rounds, Whole, {}, last, notes, reports, bodies);
    return Failed(last.value), notes, reports, bodies;
  }

  /** The blocks whose upstream has refused the usage option: process-wide, and only ever growing. */
  class ExcludedBlocks {
    var blocks: set<Id>

    constructor ()
      ensures blocks == {}
    {
      blocks := {};
    }

    /** `usage_inject_allowed`. */
    method InjectAllowed(block: Id) returns (allowed: bool)
      ensures allowed == (block !in blocks)
    {
      return block !in blocks;
    }

    /** `disable_usage_inject`. */
    method DisableInject(block: Id)
      modifies this
      ensures blocks == old(blocks) + {block}
    {
      blocks := blocks + {block};
    }
  }

  /**
    The requests of one attempt before a stream.  Every reply is examined; a refusal excludes the block,
    takes the option out of the body and sends again.
  */
  method SendUntilSettled(table: ExcludedBlocks, r: Round) returns (reply: Reply, bodies: seq<bool>)
    requires Sends(r)
    modifies table
    ensures reply == ReplyOf(r, Streaming) && bodies == BodiesOf(r, old(table.blocks), Streaming)
    ensures table.blocks == old(table.blocks) + if Refusals(r.replies) > 0 then {r.block.value} else {}
  {
    var block := r.block.value;
    var allowed := table.InjectAllowed(block);
    var carries := r.openai && allowed;
    ghost var injected := carries;
    var left := r.replies;
    bodies := [];
    while true
      invariant |bodies| <= |r.replies| && left == r.replies[|bodies|..]
      invariant Refusals(r.replies) == |bodies| + Refusals(left)
      invariant carries == (injected && bodies == []) && bodies == FirstCarries(injected, |bodies|)
      invariant table.blocks == old(table.blocks) + if bodies != [] then {block} else {}
      decreases |left|
    {
      FirstCarriesNext(injected, |bodies|);
      bodies := bodies + [carries];
      if left == [] { return Awaited, bodies; }
      if !(left[0].Replied? && left[0].status == 400 && NamesOption(left[0].detail)) { return left[0], bodies; }
      table.DisableInject(block);
      carries := false;
      left := left[1..];
    }
  }

  /** The settled reply of one attempt to open a stream. */
  method ExamineStream(r: Round, reply: Reply) returns (end: End, again: bool, reports: seq<Report>)
    requires Sends(r) && reply == ReplyOf(r, Streaming)
    ensures again == Retryable(r, Streaming) && reports == ReportOf(r, Streaming)
    ensures again ==> end == Failed(FailureOf(r, Streaming))
    ensures !again ==> end == EndFor(r, Streaming, None)
  {
    var key := r.key.value;
    var context := Context(r.block.value, Some(key));
    match reply
    case Awaited => return Waiting, false, [];
    case Lost(error) => return Failed(WithContext(SendFailure(error), context)), true, [TransientFailure(key)];
    case Replied(status, detail, retryAfter, wait, _, _) =>
      if 200 <= status < 300 { return Won(Winner(r.block.value, key)), false, [Success(key)]; }
      var failure := Failed(WithContext(UpstreamUnavailable(StatusLine(status, detail)), context));
      if status == 429 {
        var hint := if retryAfter.Some? then retryAfter else wait;
        return Failed(Failure(RateLimited(SteadyPhrase, hint), StatusLine(429, detail), Some(context))), true,
          [RateLimitFailure(key, retryAfter)];
      }
      if status == 401 || status == 403 { return failure, true, [HardFailure(key)]; }
      if status >= 500 { return failure, true, [TransientFailure(key)]; }
      return Failed(Bare(UpstreamUnavailable(StatusLine(status, detail)))), false, [];
  }

  /** One round before a stream starts. */
  method TryStream(table: ExcludedBlocks, r: Round, last: Option<Failure>)
    returns (end: End, again: bool, note: seq<Note>, reports: seq<Report>, bodies: seq<bool>)
    modifies table
    ensures again == Retryable(r, Streaming) && reports == ReportOf(r, Streaming)
    ensures bodies == SentBy(r, old(table.blocks), Streaming) &&
      table.blocks == ExcludedBy(r, old(table.blocks), Streaming)
    ensures again ==> end == Failed(FailureOf(r, Streaming)) && note == [NoteOf(FailureOf(r, Streaming))]
    ensures !again ==> end == EndFor(r, Streaming, last) && note == NoKeyNote(r, last.Some?)
  {
    // Other requests may have excluded blocks by now.
    table.blocks := table.blocks + r.meanwhile;
    if r.block.Err? || r.key.Err? || r.clientError.Some? || r.gateError.Some? {
      var failure;
      failure, note := GiveUp(r, Streaming, last);
      return Failed(failure), false, note, [], [];
    }
    var reply;
    reply, bodies := SendUntilSettled(table, r);
    end, again, reports := ExamineStream(r, reply);
    note := if again then [NoteOf(end.failure)] else [];
  }

  /** The attempts before a stream starts. */
  method Connect(table: ExcludedBlocks, rounds: seq<Round>)
    returns (end: End, notes: seq<Note>, reports: seq<Report>, bodies: seq<bool>)
    requires |rounds| == MAX_ATTEMPTS
    modifies table
    ensures Decides(Run(end, notes, reports, bodies), rounds, Streaming, old(table.blocks))
    ensures table.blocks == Excluded(Met(rounds, Streaming), old(table.blocks), Streaming)
  {
    notes, reports, bodies := [], [], [];
    ghost var start := table.blocks;
    var last: Option<Failure> := None;
    var i := 0;
    while i < MAX_ATTEMPTS
      invariant i <= MAX_ATTEMPTS && Tried(rounds, Streaming, start, i, last, notes, reports, bodies)
      invariant table.blocks == Excluded(rounds[..i], start, Streaming)
    {
      ExcludedSnoc(rounds, Streaming, start, i);
      var verdict, again, note, reported, sent := TryStream(table, rounds[i], last);
      if !again {
        TriedAndOver(rounds, Streaming, start, i, last, notes, reports, bodies);
        return verdict, notes + note, reports + reported, bodies + sent;
      }
      TriedOneMore(rounds, Streaming, start, i, last, notes, reports, bodies);
      last := Some(verdict.failure);
      notes, reports, bodies := notes + note, reports + reported, bodies + sent;
      i := i + 1;
    }
    TriedAll(rounds, Streaming, start, last, notes, reports, bodies);
    assert rounds[..i] == rounds;
    return Failed(last.value), notes, reports, bodies;
  }

  // ---------- supporting lemmas ----------

  lemma {:induction false} RetriedIs(rounds: seq<Round>, mode: Mode, n: nat)
    requires n <= |rounds| && AllRetryable(rounds[..n], mode)
    requires n < |rounds| ==> !Retryable(rounds[n], mode)
    ensures Retried(rounds, mode) == n
  {
    if n > 0 {
      assert rounds[..n][0] == rounds[0];
      assert rounds[1..][..n - 1] == rounds[..n][1..];
      RetriedIs(rounds[1..], mode, n - 1);
    }
  }

  lemma {:induction false} RetriedMeans(rounds: seq<Round>, mode: Mode)
    ensures var n := Retried(rounds, mode);
      AllRetryable(rounds[..n], mode) && (n < |rounds| ==> !Retryable(rounds[n], mode))
  {
    if rounds != [] && Retryable(rounds[0], mode) {
      RetriedMeans(rounds[1..], mode);
      var n := Retried(rounds, mode);
      assert forall i :: 1 <= i < n ==> rounds[..n][i] == rounds[1..][..n - 1][i - 1];
    }
  }

  lemma TrailSnoc(rounds: seq<Round>, mode: Mode, i: nat)
    requires i < |rounds| && AllRetryable(rounds[..i], mode) && Retryable(rounds[i], mode)
    ensures AllRetryable(rounds[..i + 1], mode)
    ensures Trail(rounds[..i + 1], mode) == Trail(rounds[..i], mode) + [NoteOf(FailureOf(rounds[i], mode))]
  {
    assert forall k :: 0 <= k < i ==> rounds[..i + 1][k] == rounds[..i][k];
  }

  lemma CountsSnoc(rounds: seq<Round>, mode: Mode, start: set<Id>, i: nat)
    requires i < |rounds|
    ensures Reports(rounds[..i + 1], mode) == Reports(rounds[..i], mode) + ReportOf(rounds[i], mode)
    ensures Bodies(rounds[..i + 1], start, mode) ==
      Bodies(rounds[..i], start, mode) + SentBy(rounds[i], Excluded(rounds[..i], start, mode), mode)
  {
    assert rounds[..i + 1][..i] == rounds[..i];
  }

  lemma TriedOneMore(rounds: seq<Round>, mode: Mode, start: set<Id>, i: nat, last: Option<Failure>,
                                        notes: seq<Note>, reports: seq<Report>, bodies: seq<bool>)
    requires Tried(rounds, mode, start, i, last, notes, reports, bodies) && i < |rounds| && Retryable(rounds[i], mode)
    ensures var failure := FailureOf(rounds[i], mode);
      Tried(rounds, mode, start, i + 1, Some(failure), notes + [NoteOf(failure)], reports + ReportOf(rounds[i], mode),
            bodies + SentBy(rounds[i], Excluded(rounds[..i], start, mode), mode))
  {
    CountsSnoc(rounds, mode, start, i);
    TrailSnoc(rounds, mode, i);
  }

  /** The attempt at hand ends the run, or keeps it waiting. */
  lemma TriedAndOver(rounds: seq<Round>, mode: Mode, start: set<Id>, i: nat, last: Option<Failure>,
                                        notes: seq<Note>, reports: seq<Report>, bodies: seq<bool>)
    requires Tried(rounds, mode, start, i, last, notes, reports, bodies) && i < |rounds| && !Retryable(rounds[i], mode)
    ensures Retried(rounds, mode) == i
    ensures Decides(
      Run(EndFor(rounds[i], mode, last), notes + NoKeyNote(rounds[i], last.Some?),
          reports + ReportOf(rounds[i], mode), bodies + SentBy(rounds[i], Excluded(rounds[..i], start, mode), mode)),
      rounds, mode, start)
  {
    RetriedIs(rounds, mode, i);
    CountsSnoc(rounds, mode, start, i);
  }

  /** No attempt is left. */
  lemma TriedAll(rounds: seq<Round>, mode: Mode, start: set<Id>, last: Option<Failure>,
                                    notes: seq<Note>, reports: seq<Report>, bodies: seq<bool>)
    requires rounds != [] && Tried(rounds, mode, start, |rounds|, last, notes, reports, bodies)
    ensures Decides(Run(Failed(last.value), notes, reports, bodies), rounds, mode, start) &&
      Retried(rounds, mode) == |rounds|
  {
    assert rounds[..|rounds|] == rounds;
    RetriedIs(rounds, mode, |rounds|);
  }

  lemma FirstCarriesNext(carries: bool, n: nat)
    ensures FirstCarries(carries, n + 1) == FirstCarries(carries, n) + [carries && n == 0]
  {
  }

  lemma ExcludedSnoc(rounds: seq<Round>, mode: Mode, start: set<Id>, i: nat)
    requires i < |rounds|
    ensures Excluded(rounds[..i + 1], start, mode) == ExcludedBy(rounds[i], Excluded(rounds[..i], start, mode), mode)
  {
    assert rounds[..i + 1][..i] == rounds[..i];
  }

  lemma {:induction false} WholeRequests(rounds: seq<Round>, start: set<Id>)
    ensures |Bodies(rounds, start, Whole)| <= |rounds|
  {
    if rounds != [] { WholeRequests(rounds[..|rounds| - 1], start); }
  }

  lemma {:induction false} LeadingRefusals(replies: seq<Reply>, k: nat)
    requires k < Refusals(replies)
    ensures Refuses(replies[k])
  {
    if k > 0 { LeadingRefusals(replies[1..], k - 1); }
  }

  lemma {:induction false} ResendsByBlock(rounds: seq<Round>, start: set<Id>) returns (refused: set<Id>)
    requires OnlyTheOptionIsRefused(rounds, start)
    ensures refused <= BlocksOf(rounds) - start && refused <= Excluded(rounds, start, Streaming) &&
      start <= Excluded(rounds, start, Streaming)
    ensures |Bodies(rounds, start, Streaming)| <= |rounds| + |refused|
  {
    refused := {};
    if rounds != [] {
      var init, r := rounds[..|rounds| - 1], rounds[|rounds| - 1];
      refused := ResendsByBlock(init, start);
      if Sends(r) {
        RefusedOnceAtMost(r, Excluded(init, start, Streaming) + r.meanwhile);
        if Refusals(r.replies) > 0 { refused := refused + {r.block.value}; }
      }
    }
  }

  lemma {:induction false} FewerElements(a: set<Id>, b: set<Id>)
    requires a <= b
    ensures |a| <= |b|
  {
    if a != {} {
      var x :| x in a;
      FewerElements(a - {x}, b - {x});
    }
  }

  lemma {:induction false} OnlyTheOptionPrefix(rounds: seq<Round>, start: set<Id>, n: nat)
    requires n <= |rounds| && OnlyTheOptionIsRefused(rounds, start)
    ensures OnlyTheOptionIsRefused(rounds[..n], start) && BlocksOf(rounds[..n]) <= BlocksOf(rounds)
  {
    if n == |rounds| {
      assert rounds[..n] == rounds;
    } else {
      var init := rounds[..|rounds| - 1];
      OnlyTheOptionPrefix(init, start, n);
      assert init[..n] == rounds[..n];
    }
  }

  lemma {:induction false} AllRefused(replies: seq<Reply>)
    requires forall k :: 0 <= k < |replies| ==> Refuses(replies[k])
    ensures Refusals(replies) == |replies|
  {
    if replies != [] { AllRefused(replies[1..]); }
  }

  lemma {:induction false} WinsWhereItStops(rounds: seq<Round>, mode: Mode)
    ensures (exists n :: 0 <= n < |rounds| && AllRetryable(rounds[..n], mode) && Wins(rounds[n], mode)) <==>
            (Retried(rounds, mode) < |rounds| && Wins(rounds[Retried(rounds, mode)], mode))
  {
    RetriedMeans(rounds, mode);
    if m :| 0 <= m < |rounds| && AllRetryable(rounds[..m], mode) && Wins(rounds[m], mode) {
      RetriedIs(rounds, mode, m);
    }
  }

  lemma FailureBlamesNobody(r: Round, mode: Mode)
    requires Retryable(r, mode)
    ensures !BlamesCaller(FailureOf(r, mode).error)
  {
  }

  lemma EndBlames(r: Round, mode: Mode, previous: Option<Failure>)
    requires !Retryable(r, mode) && (previous.Some? ==> !BlamesCaller(previous.value.error))
    ensures var end := EndFor(r, mode, previous);
      end.Failed? && BlamesCaller(end.failure.error) <==> GatewayBlames(r, mode, previous.None?)
  {
  }

  lemma {:induction false} ContainsMeans(text: string, word: string)
    ensures Contains(text, word) <==> Has(text, word)
  {
    if word <= text {
      assert text == "" + word + text[|word|..];
    } else if text != "" {
      ContainsMeans(text[1..], word);
      if Has(text[1..], word) {
        var before, after :| text[1..] == before + word + after;
        assert text == [text[0]] + before + word + after;
      }
      if Has(text, word) {
        var before, after :| text == before + word + after;
        assert before != "" && text[1..] == before[1..] + word + after;
      }
    }
  }

  lemma {:induction false} RefusalsAre(replies: seq<Reply>, k: nat)
    requires k < |replies| && !Refuses(replies[k]) && forall i :: 0 <= i < k ==> Refuses(replies[i])
    ensures Refusals(replies) == k
  {
    if k > 0 { RefusalsAre(replies[1..], k - 1); }
  }

  lemma SettledReply(r: Round, mode: Mode, k: nat)
    requires Settles(r, mode, k)
    ensures ReplyOf(r, mode) == r.replies[k]
  {
    if mode.Streaming? { RefusalsAre(r.replies, k); }
  }

  lemma GoesOnExactly(r: Round, mode: Mode)
    ensures GoesOn(r, mode) <==> Retryable(r, mode)
  {
    var n := if mode.Streaming? then Refusals(r.replies) else 0;
    if GoesOn(r, mode) {
      var k :| 0 <= k < |r.replies| && Settles(r, mode, k) && AnotherMay(r.replies[k], mode);
      SettledReply(r, mode, k);
    }
    if Retryable(r, mode) {
      forall i | 0 <= i < n ensures Refuses(r.replies[i]) { LeadingRefusals(r.replies, i); }
      assert Settles(r, mode, n);
    }
  }

  lemma FailureByStatus(r: Round, mode: Mode, k: nat)
    requires GoesOn(r, mode) && Settles(r, mode, k)
    ensures Retryable(r, mode) && AnotherMay(r.replies[k], mode)
    ensures FailureOf(r, mode) == CameBack(r.replies[k], Context(r.block.value, Some(r.key.value)))
  {
    GoesOnExactly(r, mode);
    SettledReply(r, mode, k);
  }

  lemma NoteOfRetried(run: Run, rounds: seq<Round>, mode: Mode, start: set<Id>, i: nat)
    requires |rounds| == MAX_ATTEMPTS && Decides(run, rounds, mode, start) && i < Retried(rounds, mode)
    ensures Retryable(rounds[i], mode) && |run.notes| >= Retried(rounds, mode)
    ensures run.notes[i] == NoteOf(FailureOf(rounds[i], mode))
  {
    RetriedMeans(rounds, mode);
    assert rounds[..Retried(rounds, mode)][i] == rounds[i];
  }

  lemma {:induction false} ReachedIsRetried(rounds: seq<Round>, mode: Mode, n: nat)
    requires Reaches(rounds, mode, n)
    ensures Retried(rounds, mode) >= n
  {
    if n > 0 {
      GoesOnExactly(rounds[0], mode);
      ReachedIsRetried(rounds[1..], mode, n - 1);
    }
  }

  /** What the attempt before the `n`th left, if all of them were retried. */
  ghost function PreviousFailure(rounds: seq<Round>, mode: Mode, n: nat): Option<Failure>
    requires n <= |rounds|
  {
    if n > 0 && Retryable(rounds[n - 1], mode) then Some(FailureOf(rounds[n - 1], mode)) else None
  }

  /** How an attempt that went out and is not retried ends a run, by its status. */
  lemma EndByStatus(r: Round, mode: Mode, k: nat, previous: Option<Failure>)
    requires WentOut(r) && Settles(r, mode, k) && r.replies[k].Replied? && !AnotherMay(r.replies[k], mode)
    ensures !Retryable(r, mode) && !GoesOn(r, mode) && NoKeyNote(r, true) == NoKeyNote(r, false) == []
    ensures var reply, place := r.replies[k], Context(r.block.value, Some(r.key.value));
      && (200 <= reply.status <= 299 && (mode.Whole? ==> reply.chargeError == None) ==>
            EndFor(r, mode, previous) == Won(Winner(r.block.value, r.key.value)))
      && (!(200 <= reply.status <= 299) ==>
            EndFor(r, mode, previous) ==
            Failed(Failure(UpstreamUnavailable(StatusLine(reply.status, reply.detail)),
                           StatusLine(reply.status, reply.detail), if mode.Whole? then Some(place) else None)))
      && (200 <= reply.status <= 299 && mode.Whole? && reply.chargeError.Some? ==>
            EndFor(r, mode, previous) ==
            Failed(Failure(reply.chargeError.value, TextOf(reply.chargeError.value), Some(place))))
  {
    SettledReply(r, mode, k);
    GoesOnExactly(r, mode);
  }

  lemma EndsWhereItStops(run: Run, rounds: seq<Round>, mode: Mode, start: set<Id>, n: nat)
    requires |rounds| == MAX_ATTEMPTS && Decides(run, rounds, mode, start)
    requires Reaches(rounds, mode, n) && n < |rounds| && !GoesOn(rounds[n], mode)
    ensures !Retryable(rounds[n], mode)
    ensures run.result == EndFor(rounds[n], mode, PreviousFailure(rounds, mode, n))
    ensures |run.notes| == n + |NoKeyNote(rounds[n], n > 0)|
  {
    forall i | 0 <= i < n ensures Retryable(rounds[..n][i], mode) { GoesOnExactly(rounds[i], mode); }
    GoesOnExactly(rounds[n], mode);
    RetriedIs(rounds, mode, n);
  }

  lemma {:induction false} ExcludedGrows(rounds: seq<Round>, start: set<Id>, i: nat, j: nat)
    requires i <= j <= |rounds|
    ensures Excluded(rounds[..i], start, Streaming) <= Excluded(rounds[..j], start, Streaming)
  {
    if i < j {
      ExcludedGrows(rounds, start, i, j - 1);
      ExcludedSnoc(rounds, Streaming, start, j - 1);
    }
  }
}

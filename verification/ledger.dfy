/** The billing ledger of one access key, under any interleaving of requests and top-ups. */
module Ledger {
  import opened Credits
  import Estimate
  import UsageReports
  import opened Wrappers

  /** The stored row, and also the copy of it that a request carries from authentication on. */
  datatype Row = Row(credits: int, unlimited: bool, enabled: bool)

  datatype Error = BadRequest | Unauthorized | Forbidden | NotFound | InsufficientCredits | Database

  /** A usage record: what the call cost, and what was taken for it. */
  datatype Record = Record(total: int, cost: int, charged: int)

  datatype Receipt = Receipt(record: Record, remaining: int)

  /** The effect of one settlement: the row after it, and a receipt if it was booked. */
  datatype Settled = Settled(row: Option<Row>, result: Result<Receipt, Error>)

  /** `classify_charge_failure`: the reason is read from the row as it is now. */
  function Classify(row: Option<Row>): Error {
    match row
    case None => NotFound
    case Some(r) => if !r.enabled then Forbidden else InsufficientCredits
  }

  /** Taking `cost` from a limited key: in full, or everything that is left, or a refusal. */
  function Deduct(row: Option<Row>, total: int, cost: int): Settled {
    if row.None? then
      Settled(row, Err(NotFound))
    else if row.value.enabled && row.value.credits >= cost then
      var left := row.value.credits - cost;
      Settled(Some(row.value.(credits := left)), Ok(Receipt(Record(total, cost, cost), left)))
    else if Max(row.value.credits, 0) >= cost then
      Settled(row, Err(Classify(row)))
    else
      Settled(Some(row.value.(credits := 0)), Ok(Receipt(Record(total, cost, Max(row.value.credits, 0)), 0)))
  }

  /** The effect of `billing::charge` with the request's copy of the row and the row as stored now. */
  function Settle(row: Option<Row>, snapshot: Row, allowed: bool, total: int, bp: nat): Settled {
    var cost := FinalTokens(total, bp);
    if !snapshot.enabled || !allowed then Settled(row, Err(Forbidden))
    else if total < 0 then Settled(row, Err(BadRequest))
    else if snapshot.unlimited then
      if row.None? then Settled(row, Err(Database))
      else Settled(row, Ok(Receipt(Record(total, cost, cost), if row.value.enabled then row.value.credits else 0)))
    else Deduct(row, total, cost)
  }

  // ---------- the store ----------

  /** The stored row of one key with its usage records. */
  class KeyStore {
    var row: Option<Row>
    var records: seq<Record>

    constructor (row: Row)
      ensures this.row == Some(row) && records == []
    {
      this.row, records := Some(row), [];
    }

    /** `SQL_CHARGE`: one statement that hits only an enabled row with enough credits. */
    method Charge(amount: int) returns (remaining: Option<int>)
      modifies this`row
      ensures remaining.Some? <==> old(row).Some? && old(row).value.enabled && old(row).value.credits >= amount
      ensures remaining.None? ==> row == old(row)
      ensures remaining.Some? ==>
        row == Some(old(row).value.(credits := old(row).value.credits - amount)) && remaining.value == row.value.credits
    {
      if row.Some? && row.value.enabled && row.value.credits >= amount {
        row := Some(row.value.(credits := row.value.credits - amount));
        return Some(row.value.credits);
      }
      return None;
    }

    /** `SQL_TOUCH`: the balance of an enabled row, unchanged. */
    method Touch() returns (balance: Option<int>)
      ensures balance == if row.Some? && row.value.enabled then Some(row.value.credits) else None
    {
      balance := if row.Some? && row.value.enabled then Some(row.value.credits) else None;
    }

    /** Sets the balance, whatever it was: a top-up, a correction, or the zero of an overdrawn call. */
    method SetCredits(credits: int)
      modifies this`row
      ensures row == if old(row).Some? then Some(old(row).value.(credits := credits)) else None
    {
      if row.Some? { row := Some(row.value.(credits := credits)); }
    }

    method SetUnlimited(unlimited: bool)
      modifies this`row
      ensures row == if old(row).Some? then Some(old(row).value.(unlimited := unlimited)) else None
    {
      if row.Some? { row := Some(row.value.(unlimited := unlimited)); }
    }

    method SetEnabled(enabled: bool)
      modifies this`row
      ensures row == if old(row).Some? then Some(old(row).value.(enabled := enabled)) else None
    {
      if row.Some? { row := Some(row.value.(enabled := enabled)); }
    }

    /** Deletes the key; its records go with it. */
    method Delete()
      modifies this
      ensures row == None && records == []
    {
      row, records := None, [];
    }

    /** `billing::charge`: one transaction that moves the balance and appends the record, or does neither. */
    method Book(snapshot: Row, allowed: bool, total: int, bp: nat) returns (result: Result<Receipt, Error>)
      modifies this
      ensures Settled(row, result) == Settle(old(row), snapshot, allowed, total, bp)
      ensures records == old(records) + (if result.Ok? then [result.value.record] else [])
    {
      if !snapshot.enabled || !allowed { return Err(Forbidden); }
      if total < 0 { return Err(BadRequest); }
      var cost := FinalTokens(total, bp);
      var charged, remaining;
      if snapshot.unlimited {
        var balance := Touch();
        if row.None? { return Err(Database); }
        remaining := if balance.Some? then balance.value else 0;
        charged := cost;
      } else {
        var left := Charge(cost);
        if left.Some? {
          charged, remaining := cost, left.value;
        } else {
          if row.None? { return Err(Classify(row)); }
          var leftover := Max(row.value.credits, 0);
          if leftover >= cost { return Err(Classify(row)); }
          SetCredits(0);
          charged, remaining := leftover, 0;
        }
      }
      records := records + [Record(total, cost, charged)];
      return Ok(Receipt(Record(total, cost, charged), remaining));
    }
  }

  // ---------- one settlement ----------

  /** A refused settlement changes nothing. */
  lemma RefusalChangesNothing(row: Option<Row>, snapshot: Row, allowed: bool, total: int, bp: nat)
    ensures Settle(row, snapshot, allowed, total, bp).result.Err? ==>
      Settle(row, snapshot, allowed, total, bp).row == row
  {
  }

  /** When a limited key whose copy was in order is refused: it is gone, or it was disabled but could have
      paid, or its balance is negative and the call is free. */
  lemma LimitedRefusalExactly(row: Option<Row>, snapshot: Row, total: nat, bp: nat)
    requires snapshot.enabled && !snapshot.unlimited
    ensures var cost := FinalTokens(total, bp);
      Settle(row, snapshot, true, total, bp).result.Err? <==>
      row.None? || (!row.value.enabled && row.value.credits >= cost) || (row.value.credits < 0 && cost == 0)
    ensures row.Some? && row.value.enabled && row.value.credits < 0 && FinalTokens(total, bp) == 0 ==>
      Settle(row, snapshot, true, total, bp).result == Err(InsufficientCredits)
  {
    PriceIsCeiling(total, bp);
  }

  /** A booked call of a limited key is charged in full, or short with the balance emptied. */
  lemma ShortOnlyByEmptying(row: Option<Row>, snapshot: Row, allowed: bool, total: int, bp: nat)
    requires !snapshot.unlimited && Settle(row, snapshot, allowed, total, bp).result.Ok?
    ensures var s := Settle(row, snapshot, allowed, total, bp);
      var record := s.result.value.record;
      && row.Some? && s.row.Some? && s.row.value.credits == s.result.value.remaining
      && 0 <= record.charged <= record.cost
      && (record.charged < record.cost ==> s.row.value.credits == 0 && record.charged == Max(row.value.credits, 0))
  {
    PriceIsCeiling(total, bp);
  }

  /** A booking moves exactly what it records, unless it finds the balance of a limited key below zero. */
  lemma BookingConservesExactly(row: Option<Row>, snapshot: Row, allowed: bool, total: int, bp: nat)
    requires Settle(row, snapshot, allowed, total, bp).result.Ok?
    ensures var s := Settle(row, snapshot, allowed, total, bp);
      var taken := if snapshot.unlimited then 0 else s.result.value.record.charged;
      row.Some? && s.row.Some? &&
      (s.row.value.credits + taken == row.value.credits <==> snapshot.unlimited || row.value.credits >= 0)
  {
    PriceIsCeiling(total, bp);
  }

  /** A settlement moves credits and nothing else: the row stays, or stays away, and its switches stay as they are. */
  lemma SettlementKeepsSwitches(row: Option<Row>, snapshot: Row, allowed: bool, total: int, bp: nat)
    ensures var after := Settle(row, snapshot, allowed, total, bp).row;
      && (after.Some? <==> row.Some?)
      && (row.Some? ==> after.value.unlimited == row.value.unlimited && after.value.enabled == row.value.enabled)
      && (row.Some? && snapshot.unlimited ==> after.value.credits == row.value.credits)
  {
  }

  /** What a booking records and answers: the usage and its price, and for an unlimited key the balance as it is. */
  lemma BookingAnswers(row: Option<Row>, snapshot: Row, allowed: bool, total: int, bp: nat)
    requires Settle(row, snapshot, allowed, total, bp).result.Ok?
    ensures var receipt := Settle(row, snapshot, allowed, total, bp).result.value;
      && receipt.record.total == total && receipt.record.cost == FinalTokens(total, bp) && row.Some?
      && (snapshot.unlimited ==> receipt.record.charged == receipt.record.cost)
      && (snapshot.unlimited ==> receipt.remaining == if row.value.enabled then row.value.credits else 0)
  {
  }

  /** Each reason for a refusal, by what brings it about. */
  lemma RefusalReasonsExactly(row: Option<Row>, snapshot: Row, allowed: bool, total: int, bp: nat)
    ensures var result, cost := Settle(row, snapshot, allowed, total, bp).result, FinalTokens(total, bp);
      var admitted := snapshot.enabled && allowed && total >= 0;
      && (result == Err(BadRequest) <==> snapshot.enabled && allowed && total < 0)
      && (result == Err(Database) <==> admitted && snapshot.unlimited && row.None?)
      && (result == Err(NotFound) <==> admitted && !snapshot.unlimited && row.None?)
      && (result == Err(InsufficientCredits) <==>
            admitted && !snapshot.unlimited && row.Some? && row.value.enabled && row.value.credits < 0 && cost == 0)
      && (result == Err(Forbidden) <==>
            !(snapshot.enabled && allowed) ||
            (admitted && !snapshot.unlimited && row.Some? && !row.value.enabled &&
             (row.value.credits >= cost || cost == 0)))
      && result != Err(Unauthorized)
  {
    if total >= 0 { PriceIsCeiling(total, bp); }
  }

  /** Whatever the upstream reports, a completed usage at a positive multiplier costs at least one unit. */
  lemma CompletedCallsCost(
    reported: UsageReports.Usage, request: Estimate.ChatRequest, output: string, letters: set<char>, bp: nat)
    requires bp > 0
    ensures FinalTokens(UsageReports.Complete(reported, request, output, letters).total, bp) >= 1
  {
    var usage := UsageReports.Complete(reported, request, output, letters);
    UsageReports.CompletedIsPositive(reported, request, output, letters);
    PriceIsCeiling(usage.total, bp);
  }

  // ---------- any interleaving ----------

  datatype Stage = Entered | Admitted | Closed

  /** A request in flight, with the copy of the row it was authenticated with. */
  datatype Request = Request(snapshot: Row, stage: Stage)

  datatype State = State(row: Option<Row>, records: seq<Record>, requests: seq<Request>)

  /** `i` names a request; a step for a request that is not at that stage does nothing. */
  datatype Step =
    | Authenticate
    | Admit(i: nat)
    | Finish(i: nat, allowed: bool, total: nat, bp: nat)
    | Abandon(i: nat)
    | SetCredits(credits: int)
    | SetUnlimited(unlimited: bool)
    | SetEnabled(enabled: bool)
    | Delete

  function WithStage(requests: seq<Request>, i: nat, stage: Stage): seq<Request>
    requires i < |requests|
  {
    requests[i := requests[i].(stage := stage)]
  }

  predicate IsBooking(s: State, step: Step) {
    step.Finish? && step.i < |s.requests| && s.requests[step.i].stage.Admitted?
  }

  function Booking(s: State, step: Step): Settled
    requires IsBooking(s, step)
  {
    Settle(s.row, s.requests[step.i].snapshot, step.allowed, step.total, step.bp)
  }

  function Apply(s: State, step: Step): State {
    match step
    case Authenticate =>
      if s.row.Some? && s.row.value.enabled then s.(requests := s.requests + [Request(s.row.value, Entered)]) else s
    case Admit(i) =>
      if i < |s.requests| && s.requests[i].stage.Entered? then
        var snapshot := s.requests[i].snapshot;
        s.(requests := WithStage(s.requests, i,
          if !snapshot.unlimited && snapshot.credits <= 0 then Closed else Admitted))
      else s
    case Finish(i, _, _, _) =>
      if !IsBooking(s, step) then s
      else
        var settled := Booking(s, step);
        State(settled.row, if settled.result.Ok? then s.records + [settled.result.value.record] else s.records,
              WithStage(s.requests, i, Closed))
    case Abandon(i) => if i < |s.requests| then s.(requests := WithStage(s.requests, i, Closed)) else s
    case SetCredits(credits) => if s.row.Some? then s.(row := Some(s.row.value.(credits := credits))) else s
    case SetUnlimited(unlimited) => if s.row.Some? then s.(row := Some(s.row.value.(unlimited := unlimited))) else s
    case SetEnabled(enabled) => if s.row.Some? then s.(row := Some(s.row.value.(enabled := enabled))) else s
    case Delete => s.(row := None, records := [])
  }

  function After(s: State, steps: seq<Step>): State
    decreases |steps|
  {
    if steps == [] then s else After(Apply(s, steps[0]), steps[1..])
  }

  /** What one step takes from the balance: the charge of a booking for a limited key. */
  function Taken(s: State, step: Step): int {
    if IsBooking(s, step) && Booking(s, step).result.Ok? && !s.requests[step.i].snapshot.unlimited
    then Booking(s, step).result.value.record.charged else 0
  }

  function TotalTaken(s: State, steps: seq<Step>): int
    decreases |steps|
  {
    if steps == [] then 0 else Taken(s, steps[0]) + TotalTaken(Apply(s, steps[0]), steps[1..])
  }

  predicate NoTopUp(steps: seq<Step>) {
    forall i :: 0 <= i < |steps| ==> !steps[i].SetCredits?
  }

  predicate NoNegativeSetting(steps: seq<Step>) {
    forall i :: 0 <= i < |steps| ==> steps[i].SetCredits? ==> steps[i].credits >= 0
  }

  predicate Solvent(s: State) {
    s.row.Some? ==> s.row.value.credits >= 0
  }

  lemma StepKeepsSolvent(s: State, step: Step)
    requires Solvent(s) && (step.SetCredits? ==> step.credits >= 0)
    ensures Solvent(Apply(s, step))
    ensures !step.SetCredits? && !step.Delete? && s.row.Some? ==>
      Apply(s, step).row.Some? && Apply(s, step).row.value.credits + Taken(s, step) == s.row.value.credits
  {
    if IsBooking(s, step) { PriceIsCeiling(step.total, step.bp); }
  }

  /** Over any interleaving with no negative setting, the balance is never negative. */
  lemma {:induction false} BalanceNeverNegative(s: State, steps: seq<Step>)
    requires Solvent(s) && NoNegativeSetting(steps)
    ensures Solvent(After(s, steps))
    decreases |steps|
  {
    if steps != [] {
      StepKeepsSolvent(s, steps[0]);
      BalanceNeverNegative(Apply(s, steps[0]), steps[1..]);
    }
  }

  /**
    CONSERVATION.  From the moment the balance was last set, whatever happens in between, the balance and
    the credits taken by limited bookings add up to the value that was set.
  */
  lemma {:induction false} CreditsAreConserved(s: State, steps: seq<Step>)
    requires s.row.Some? && Solvent(s) && NoTopUp(steps) && Delete !in steps
    ensures After(s, steps).row.Some? && After(s, steps).row.value.credits + TotalTaken(s, steps) == s.row.value.credits
    decreases |steps|
  {
    if steps != [] {
      assert steps[0] in steps;
      StepKeepsSolvent(s, steps[0]);
      CreditsAreConserved(Apply(s, steps[0]), steps[1..]);
    }
  }

  /** What the switch was last set to, if it was. */
  function LastUnlimited(was: bool, steps: seq<Step>): bool
    decreases |steps|
  {
    if steps == [] then was
    else LastUnlimited(if steps[0].SetUnlimited? then steps[0].unlimited else was, steps[1..])
  }

  function LastEnabled(was: bool, steps: seq<Step>): bool
    decreases |steps|
  {
    if steps == [] then was else LastEnabled(if steps[0].SetEnabled? then steps[0].enabled else was, steps[1..])
  }

  /**
    Only the panel touches a switch or the row itself: after any run a key that is left has its switches as
    last set.
  */
  lemma {:induction false} SwitchesAreAsSet(s: State, steps: seq<Step>)
    ensures After(s, steps).row.Some? <==> s.row.Some? && Delete !in steps
    ensures After(s, steps).row.Some? ==>
      && After(s, steps).row.value.unlimited == LastUnlimited(s.row.value.unlimited, steps)
      && After(s, steps).row.value.enabled == LastEnabled(s.row.value.enabled, steps)
    decreases |steps|
  {
    if steps != [] {
      assert steps == [steps[0]] + steps[1..];
      StepKeepsSwitches(s, steps[0]);
      SwitchesAreAsSet(Apply(s, steps[0]), steps[1..]);
    }
  }

  lemma StepKeepsSwitches(s: State, step: Step)
    ensures Apply(s, step).row.Some? <==> s.row.Some? && !step.Delete?
    ensures Apply(s, step).row.Some? ==>
      && Apply(s, step).row.value.unlimited == (if step.SetUnlimited? then step.unlimited else s.row.value.unlimited)
      && Apply(s, step).row.value.enabled == (if step.SetEnabled? then step.enabled else s.row.value.enabled)
  {
    if IsBooking(s, step) {
      SettlementKeepsSwitches(s.row, s.requests[step.i].snapshot, step.allowed, step.total, step.bp);
    }
  }

  /** Records are only ever added; a deletion takes the key and all of them away, for good. */
  lemma {:induction false} RecordsOnlyGrow(s: State, steps: seq<Step>)
    ensures Delete !in steps ==> s.records <= After(s, steps).records
    ensures Delete in steps || (s.row.None? && s.records == []) ==>
      After(s, steps).row == None && After(s, steps).records == []
    decreases |steps|
  {
    if steps != [] {
      assert steps == [steps[0]] + steps[1..];
      StepKeepsSwitches(s, steps[0]);
      RecordsOnlyGrow(Apply(s, steps[0]), steps[1..]);
    }
  }

  /** What was charged by the records, all together. */
  function Charged(records: seq<Record>): int {
    if records == [] then 0 else Charged(records[..|records| - 1]) + records[|records| - 1].charged
  }

  /** The key is limited, and so is every copy of it. */
  predicate Limited(s: State) {
    && (s.row.Some? ==> !s.row.value.unlimited)
    && forall i :: 0 <= i < |s.requests| ==> !s.requests[i].snapshot.unlimited
  }

  /**
    THE RECORDS ACCOUNT FOR THE BALANCE.  While a key is limited and its balance is not set, the balance and
    the charges in the usage records add up to the same number, whatever requests come, go or are refused.
  */
  lemma {:induction false} RecordsAccountForBalance(s: State, steps: seq<Step>)
    requires s.row.Some? && Solvent(s) && Limited(s) && NoTopUp(steps) && Delete !in steps
    requires forall i :: 0 <= i < |steps| ==> steps[i] != SetUnlimited(true)
    ensures After(s, steps).row.Some?
    ensures After(s, steps).row.value.credits + Charged(After(s, steps).records) ==
      s.row.value.credits + Charged(s.records)
    decreases |steps|
  {
    if steps != [] {
      assert steps[0] in steps;
      StepKeepsSolvent(s, steps[0]);
      StepRecords(s, steps[0]);
      RecordsAccountForBalance(Apply(s, steps[0]), steps[1..]);
    }
  }

  lemma StepRecords(s: State, step: Step)
    requires s.row.Some? && Limited(s) && !step.Delete? && step != SetUnlimited(true)
    ensures Limited(Apply(s, step)) && Charged(Apply(s, step).records) == Charged(s.records) + Taken(s, step)
  {
    StepKeepsSwitches(s, step);
    if IsBooking(s, step) && Booking(s, step).result.Ok? {
      assert (s.records + [Booking(s, step).result.value.record])[..|s.records|] == s.records;
    }
  }

  // ---------- the bounded leak ----------

  predicate IsOpen(r: Request) {
    !r.stage.Closed?
  }

  /** An open request that was authenticated on a limited, positive balance. */
  predicate Holds(r: Request) {
    IsOpen(r) && !r.snapshot.unlimited && r.snapshot.credits > 0
  }

  function Holders(requests: seq<Request>): nat {
    if requests == [] then 0 else Holders(requests[1..]) + (if Holds(requests[0]) then 1 else 0)
  }

  predicate Empty(s: State) {
    s.row.None? || s.row.value.credits <= 0
  }

  /** A booking for less than its cost. */
  predicate ChargesShort(s: State, step: Step) {
    IsBooking(s, step) && Booking(s, step).result.Ok? &&
      Booking(s, step).result.value.record.charged < Booking(s, step).result.value.record.cost
  }

  function ShortCharges(s: State, steps: seq<Step>): nat
    decreases |steps|
  {
    if steps == [] then 0
    else (if ChargesShort(s, steps[0]) then 1 else 0) + ShortCharges(Apply(s, steps[0]), steps[1..])
  }

  /** The state in which the balance first runs out: the one right before that step, or the first one. */
  function WhenEmptied(s: State, steps: seq<Step>): State
    decreases |steps|
  {
    if steps == [] || Empty(s) || Empty(Apply(s, steps[0])) then s else WhenEmptied(Apply(s, steps[0]), steps[1..])
  }

  /** Only requests that passed the entry check with their copy are admitted. */
  ghost predicate ProperlyAdmitted(s: State) {
    forall i :: 0 <= i < |s.requests| && s.requests[i].stage.Admitted? && !s.requests[i].snapshot.unlimited ==>
      s.requests[i].snapshot.credits > 0
  }

  lemma StepKeepsAdmission(s: State, step: Step)
    requires ProperlyAdmitted(s)
    ensures ProperlyAdmitted(Apply(s, step))
  {
  }

  lemma {:induction false} HoldersUpdate(requests: seq<Request>, i: nat, r: Request)
    requires i < |requests|
    ensures Holders(requests[i := r]) + (if Holds(requests[i]) then 1 else 0) ==
      Holders(requests) + (if Holds(r) then 1 else 0)
  {
    if i == 0 {
      assert requests[i := r][1..] == requests[1..];
    } else {
      assert requests[i := r][1..] == requests[1..][i - 1 := r];
      HoldersUpdate(requests[1..], i - 1, r);
    }
  }

  lemma {:induction false} HoldersAppend(requests: seq<Request>, r: Request)
    ensures Holders(requests + [r]) == Holders(requests) + (if Holds(r) then 1 else 0)
  {
    if requests != [] {
      assert (requests + [r])[1..] == requests[1..] + [r];
      HoldersAppend(requests[1..], r);
    } else {
      assert requests + [r] == [r];
    }
  }

  lemma ShortMeansEmptied(s: State, step: Step)
    requires ProperlyAdmitted(s) && ChargesShort(s, step)
    ensures Empty(Apply(s, step)) && Holders(Apply(s, step).requests) + 1 == Holders(s.requests)
  {
    var r := s.requests[step.i];
    if !r.snapshot.unlimited { ShortOnlyByEmptying(s.row, r.snapshot, step.allowed, step.total, step.bp); }
    HoldersUpdate(s.requests, step.i, r.(stage := Closed));
  }

  lemma ClosingLosesHolders(requests: seq<Request>, i: nat, stage: Stage)
    requires i < |requests| && (stage.Closed? || IsOpen(requests[i]))
    ensures Holders(WithStage(requests, i, stage)) <= Holders(requests)
  {
    HoldersUpdate(requests, i, requests[i].(stage := stage));
  }

  lemma EmptyGainsNoHolder(s: State, step: Step)
    requires Empty(s) && !step.SetCredits?
    ensures Holders(Apply(s, step).requests) <= Holders(s.requests)
  {
    match step
    case Authenticate => if s.row.Some? { HoldersAppend(s.requests, Request(s.row.value, Entered)); }
    case Admit(i) =>
      if i < |s.requests| && s.requests[i].stage.Entered? {
        ClosingLosesHolders(s.requests, i, Closed);
        ClosingLosesHolders(s.requests, i, Admitted);
      }
    case Finish(i, _, _, _) => if i < |s.requests| { ClosingLosesHolders(s.requests, i, Closed); }
    case Abandon(i) => if i < |s.requests| { ClosingLosesHolders(s.requests, i, Closed); }
    case _ =>
  }

  /** Once the balance has run out, every short charge uses up one of the requests that were holding. */
  lemma {:induction false} ShortChargesUseUpHolders(s: State, steps: seq<Step>)
    requires Empty(s) && ProperlyAdmitted(s) && NoTopUp(steps)
    ensures ShortCharges(s, steps) + Holders(After(s, steps).requests) <= Holders(s.requests)
    decreases |steps|
  {
    if steps != [] {
      var step := steps[0];
      StepKeepsAdmission(s, step);
      EmptyGainsNoHolder(s, step);
      if ChargesShort(s, step) { ShortMeansEmptied(s, step); }
      ShortChargesUseUpHolders(Apply(s, step), steps[1..]);
    }
  }

  /**
    BOUNDED LEAK.  Between two top-ups, the calls charged for less than their cost are at most the requests
    that were open, authenticated on a positive limited balance, when the balance first ran out.
  */
  lemma {:induction false} LeakIsBounded(s: State, steps: seq<Step>)
    requires ProperlyAdmitted(s) && NoTopUp(steps)
    ensures ShortCharges(s, steps) <= Holders(WhenEmptied(s, steps).requests)
    decreases |steps|
  {
    if Empty(s) {
      ShortChargesUseUpHolders(s, steps);
    } else if steps != [] {
      var step := steps[0];
      StepKeepsAdmission(s, step);
      if ChargesShort(s, step) { ShortMeansEmptied(s, step); }
      if Empty(Apply(s, step)) {
        if step.Finish? && step.i < |s.requests| { ClosingLosesHolders(s.requests, step.i, Closed); }
        ShortChargesUseUpHolders(Apply(s, step), steps[1..]);
      } else {
        LeakIsBounded(Apply(s, step), steps[1..]);
      }
    }
  }

  function OpenCount(requests: seq<Request>): nat {
    if requests == [] then 0 else OpenCount(requests[1..]) + (if IsOpen(requests[0]) then 1 else 0)
  }

  lemma {:induction false} HoldersAreOpen(requests: seq<Request>)
    ensures Holders(requests) <= OpenCount(requests)
  {
    if requests != [] { HoldersAreOpen(requests[1..]); }
  }

  lemma {:induction false} WhenEmptiedIsReached(s: State, steps: seq<Step>) returns (k: nat)
    ensures k <= |steps| && WhenEmptied(s, steps) == After(s, steps[..k])
    decreases |steps|
  {
    k := 0;
    if steps != [] && !Empty(s) && !Empty(Apply(s, steps[0])) {
      var later := WhenEmptiedIsReached(Apply(s, steps[0]), steps[1..]);
      k := later + 1;
      assert steps[..k][1..] == steps[1..][..later];
    }
  }

  /** If requests come one after the other, at most one call between two top-ups is charged short. */
  lemma SequentialRequestsLeakAtMostOne(s: State, steps: seq<Step>)
    requires ProperlyAdmitted(s) && NoTopUp(steps)
    requires forall k :: 0 <= k <= |steps| ==> OpenCount(After(s, steps[..k]).requests) <= 1
    ensures ShortCharges(s, steps) <= 1
  {
    LeakIsBounded(s, steps);
    var k := WhenEmptiedIsReached(s, steps);
    assert OpenCount(After(s, steps[..k]).requests) <= 1;
    HoldersAreOpen(WhenEmptied(s, steps).requests);
  }

  lemma OneStep(s: State, steps: seq<Step>, next: State, rest: seq<Step>)
    requires steps != [] && next == Apply(s, steps[0]) && rest == steps[1..]
    ensures ShortCharges(s, steps) == (if ChargesShort(s, steps[0]) then 1 else 0) + ShortCharges(next, rest)
    ensures After(s, steps) == After(next, rest)
  {
  }

  // ---------- how far the bound can be met ----------

  /** Authentication turns disabled keys away, so every copy is an enabled one. */
  predicate CopiesEnabled(s: State) {
    forall i :: 0 <= i < |s.requests| ==> s.requests[i].snapshot.enabled
  }

  lemma StepKeepsCopiesEnabled(s: State, step: Step)
    requires CopiesEnabled(s)
    ensures CopiesEnabled(Apply(s, step))
  {
  }

  /** Whatever happens, requests are properly admitted and their copies enabled. */
  lemma {:induction false} ReachedStatesAreProper(s: State, steps: seq<Step>)
    requires ProperlyAdmitted(s) && CopiesEnabled(s)
    ensures ProperlyAdmitted(After(s, steps)) && CopiesEnabled(After(s, steps))
    decreases |steps|
  {
    if steps != [] {
      StepKeepsAdmission(s, steps[0]);
      StepKeepsCopiesEnabled(s, steps[0]);
      ReachedStatesAreProper(Apply(s, steps[0]), steps[1..]);
    }
  }

  lemma {:induction false} FindHolder(requests: seq<Request>) returns (i: nat)
    requires Holders(requests) > 0
    ensures i < |requests| && Holds(requests[i])
  {
    if Holds(requests[0]) {
      i := 0;
    } else {
      var j := FindHolder(requests[1..]);
      i := j + 1;
    }
  }

  /**
    The bound is tight: every request that holds a positive limited copy can still be charged short, one
    after the other, by calls that cost more than the balance.
  */
  lemma {:induction false} EveryHolderCanChargeShort(s: State, total: nat, bp: nat) returns (steps: seq<Step>)
    requires s.row.Some? && ProperlyAdmitted(s) && CopiesEnabled(s) &&
      FinalTokens(total, bp) > Max(s.row.value.credits, 0)
    ensures NoTopUp(steps) && ShortCharges(s, steps) == Holders(s.requests)
    decreases Holders(s.requests)
  {
    steps := [];
    if Holders(s.requests) > 0 {
      var i := FindHolder(s.requests);
      var step := Finish(i, true, total, bp);
      var admitted := if s.requests[i].stage.Entered? then Apply(s, Admit(i)) else s;
      if s.requests[i].stage.Entered? {
        HoldersUpdate(s.requests, i, s.requests[i].(stage := Admitted));
        StepKeepsAdmission(s, Admit(i));
        StepKeepsCopiesEnabled(s, Admit(i));
      }
      HolderChargesShort(admitted, i, total, bp);
      StepKeepsAdmission(admitted, step);
      StepKeepsCopiesEnabled(admitted, step);
      var rest := EveryHolderCanChargeShort(Apply(admitted, step), total, bp);
      steps := [step] + rest;
      OneStep(admitted, steps, Apply(admitted, step), rest);
      if s.requests[i].stage.Entered? {
        OneStep(s, [Admit(i)] + steps, admitted, steps);
        steps := [Admit(i)] + steps;
      }
    }
  }

  /** A holder's call that costs more than is left is charged short. */
  lemma HolderChargesShort(s: State, i: nat, total: nat, bp: nat)
    requires s.row.Some? && CopiesEnabled(s) && FinalTokens(total, bp) > Max(s.row.value.credits, 0)
    requires i < |s.requests| && Holds(s.requests[i]) && s.requests[i].stage.Admitted?
    ensures var step := Finish(i, true, total, bp);
      && ChargesShort(s, step) && Apply(s, step).row.Some? && Apply(s, step).row.value.credits == 0
      && Holders(Apply(s, step).requests) == Holders(s.requests) - 1
  {
    HoldersUpdate(s.requests, i, s.requests[i].(stage := Closed));
  }

  function AdmittedHolders(requests: seq<Request>): nat {
    if requests == [] then 0
    else AdmittedHolders(requests[1..]) + (if Holds(requests[0]) && requests[0].stage.Admitted? then 1 else 0)
  }

  predicate NoneWaitsToBeAdmitted(requests: seq<Request>) {
    forall i :: 0 <= i < |requests| ==> !(Holds(requests[i]) && requests[i].stage.Entered?)
  }

  lemma {:induction false} AdmittedOrWaiting(requests: seq<Request>)
    ensures AdmittedHolders(requests) <= Holders(requests)
    ensures AdmittedHolders(requests) == Holders(requests) <==> NoneWaitsToBeAdmitted(requests)
  {
    if requests != [] {
      var rest := requests[1..];
      AdmittedOrWaiting(rest);
      assert NoneWaitsToBeAdmitted(requests) ==> NoneWaitsToBeAdmitted(rest) by {
        assert forall i :: 0 <= i < |rest| ==> rest[i] == requests[i + 1];
      }
      assert NoneWaitsToBeAdmitted(rest) && !(Holds(requests[0]) && requests[0].stage.Entered?) ==>
        NoneWaitsToBeAdmitted(requests) by {
        assert forall i :: 1 <= i < |requests| ==> requests[i] == rest[i - 1];
      }
    }
  }

  /**
    THE BOUND BY ADMITTED REQUESTS.  Once the balance has run out, the calls charged short before the next
    top-up are at most the requests admitted by then, whatever happens, exactly if no request that was
    authenticated on a positive limited balance still waits to be admitted: the entry check reads the copy.
  */
  lemma AdmittedBoundExactly(s: State)
    requires s.row.Some? && Empty(s) && ProperlyAdmitted(s) && CopiesEnabled(s)
    ensures (forall steps :: NoTopUp(steps) ==> ShortCharges(s, steps) <= AdmittedHolders(s.requests)) <==>
            NoneWaitsToBeAdmitted(s.requests)
  {
    AdmittedOrWaiting(s.requests);
    if NoneWaitsToBeAdmitted(s.requests) {
      forall steps | NoTopUp(steps) ensures ShortCharges(s, steps) <= AdmittedHolders(s.requests) {
        ShortChargesUseUpHolders(s, steps);
      }
    } else {
      assert FinalTokens(1, 10_000) == 1;
      var steps := EveryHolderCanChargeShort(s, 1, 10_000);
      assert NoTopUp(steps) && ShortCharges(s, steps) > AdmittedHolders(s.requests);
    }
  }

  /**
    Such a state is reached: two requests come in on a balance of 5, and the first, costing 9, empties it
    before the second is admitted.
  */
  lemma WaitingHolderIsReached(row: Row, first: Step)
    requires row == Row(5, false, true) && first == Finish(0, true, 9, 10_000)
    ensures var s := After(State(Some(row), [], []), [Authenticate, Authenticate, Admit(0), first]);
      && s.row.Some? && Empty(s) && ProperlyAdmitted(s) && CopiesEnabled(s)
      && AdmittedHolders(s.requests) == 0 && !NoneWaitsToBeAdmitted(s.requests)
  {
    var left := State(Some(row.(credits := 0)), [Record(9, 9, 5)], [Request(row, Closed), Request(row, Entered)]);
    TwoThenOne(row, first, left);
    var rest := left.requests[1..];
    assert rest == [Request(row, Entered)] && rest[1..] == [];
    assert AdmittedHolders(rest) == 0;
    assert Holds(left.requests[1]);
  }

  lemma {:induction false} TwoThenOne(row: Row, first: Step, left: State)
    requires row == Row(5, false, true) && first == Finish(0, true, 9, 10_000)
    requires left == State(Some(row.(credits := 0)), [Record(9, 9, 5)], [Request(row, Closed), Request(row, Entered)])
    ensures After(State(Some(row), [], []), [Authenticate, Authenticate, Admit(0), first]) == left
  {
    assert FinalTokens(9, 10_000) == 9;
    var start := State(Some(row), [], []);
    var one := start.(requests := [Request(row, Entered)]);
    var two := start.(requests := [Request(row, Entered), Request(row, Entered)]);
    var three := start.(requests := [Request(row, Admitted), Request(row, Entered)]);
    OneStep(start, [Authenticate, Authenticate, Admit(0), first], one, [Authenticate, Admit(0), first]);
    OneStep(one, [Authenticate, Admit(0), first], two, [Admit(0), first]);
    OneStep(two, [Admit(0), first], three, [first]);
    OneStep(three, [first], left, []);
  }
}

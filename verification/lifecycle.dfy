/** The health record of one upstream key, under reports with possibly outdated copies. */
module Lifecycle {
  import opened Wrappers

  const FAILURE_THRESHOLD: nat := 3

  datatype Status = Active | Paused | Disabled

  /** The row of a key, and also the copy that a request or a test carries. */
  datatype Row = Row(
    status: Status, failureCount: nat, cooldownUntil: Option<int>, lastError: Option<string>, neverDisable: bool)

  const NEW_KEY := Row(Active, 0, None, None, false)

  // ---------- the writes ----------

  /** `set_key_status`: only a return to `Active` clears the record. */
  function StatusSet(row: Row, status: Status): Row {
    if status.Active? then Row(Active, 0, None, None, row.neverDisable) else row.(status := status)
  }

  /** `note_key_failure`. */
  function FailureNoted(row: Row, count: nat, error: string): Row {
    row.(failureCount := count, lastError := Some(error))
  }

  /** `note_key_error`. */
  function ErrorNoted(row: Row, error: string): Row {
    row.(lastError := Some(error))
  }

  /** `note_key_cooldown`. */
  function CooldownNoted(row: Row, until: int, error: string): Row {
    row.(cooldownUntil := Some(until), lastError := Some(error))
  }

  /** `mark_key_success`; the status is left alone. */
  function SuccessMarked(row: Row): Row {
    row.(failureCount := 0, cooldownUntil := None, lastError := None)
  }

  /** Whether a rejection reported with this copy disables the key. */
  predicate ReachesThreshold(copy: Row) {
    copy.failureCount + 1 >= FAILURE_THRESHOLD && !copy.neverDisable
  }

  class KeyRecord {
    var status: Status
    var failureCount: nat
    var cooldownUntil: Option<int>
    var lastError: Option<string>
    var neverDisable: bool

    ghost function Contents(): Row
      reads this
    {
      Row(status, failureCount, cooldownUntil, lastError, neverDisable)
    }

    constructor ()
      ensures Contents() == NEW_KEY
    {
      status, failureCount, cooldownUntil, lastError, neverDisable := Active, 0, None, None, false;
    }

    /** What a request or a test reads before it sends. */
    method Read() returns (copy: Row)
      ensures copy == Contents()
    {
      return Row(status, failureCount, cooldownUntil, lastError, neverDisable);
    }

    method SetStatus(newStatus: Status)
      modifies this
      ensures Contents() == StatusSet(old(Contents()), newStatus)
    {
      status := newStatus;
      if newStatus.Active? { failureCount, cooldownUntil, lastError := 0, None, None; }
    }

    method NoteFailure(count: nat, error: string)
      modifies this`failureCount, this`lastError
      ensures Contents() == FailureNoted(old(Contents()), count, error)
    {
      failureCount, lastError := count, Some(error);
    }

    method NoteError(error: string)
      modifies this`lastError
      ensures Contents() == ErrorNoted(old(Contents()), error)
    {
      lastError := Some(error);
    }

    method NoteCooldown(until: int, error: string)
      modifies this`cooldownUntil, this`lastError
      ensures Contents() == CooldownNoted(old(Contents()), until, error)
    {
      cooldownUntil, lastError := Some(until), Some(error);
    }

    method MarkSuccess()
      modifies this`failureCount, this`cooldownUntil, this`lastError
      ensures Contents() == SuccessMarked(old(Contents()))
    {
      failureCount, cooldownUntil, lastError := 0, None, None;
    }

    method SetNeverDisable(flag: bool)
      modifies this`neverDisable
      ensures Contents() == old(Contents()).(neverDisable := flag)
    {
      neverDisable := flag;
    }

    /** `disable_key`: two writes, here with nothing in between. */
    method Disable(count: nat, error: string)
      modifies this
      ensures Contents() == FailureNoted(old(Contents()), count, error).(status := Disabled)
    {
      NoteFailure(count, error);
      SetStatus(Disabled);
    }

    /** `report_hard_failure`: the new count comes from the copy, not from the row. */
    method ReportHardFailure(copy: Row, error: string)
      modifies this
      ensures Contents() == FailureNoted(old(Contents()), copy.failureCount + 1, error)
                              .(status := if ReachesThreshold(copy) then Disabled else old(status))
    {
      var failures := copy.failureCount + 1;
      if failures >= FAILURE_THRESHOLD && !copy.neverDisable {
        Disable(failures, error);
        return;
      }
      NoteFailure(failures, error);
    }
  }

  // ---------- any interleaving ----------

  /**
    The row, the copies requests and tests have read, and the disabling writes that are still to come:
    those an automatic rule started, and those a failed manual test started.
  */
  datatype State = State(row: Row, copies: seq<Row>, autoPending: nat, manualPending: nat)

  /** `i` names a copy; a step for a copy that does not exist does nothing.  A pending write may also be lost. */
  datatype Step =
    | Read
    | Reject(i: nat, error: string)
    | FailTest(i: nat, error: string)
    | FinishAuto
    | FinishManual
    | LoseAuto
    | LoseManual
    | RateLimit(until: int, error: string)
    | Hiccup(error: string)
    | Succeed
    | Pause
    | Resume
    | SetExemption(flag: bool)

  function Apply(s: State, step: Step): State {
    match step
    case Read => s.(copies := s.copies + [s.row])
    case Reject(i, error) =>
      if i >= |s.copies| then s
      else
        s.(row := FailureNoted(s.row, s.copies[i].failureCount + 1, error),
           autoPending := s.autoPending + if ReachesThreshold(s.copies[i]) then 1 else 0)
    case FailTest(i, error) =>
      if i >= |s.copies| then s
      else s.(row := FailureNoted(s.row, s.copies[i].failureCount + 1, error), manualPending := s.manualPending + 1)
    case FinishAuto =>
      if s.autoPending == 0 then s else s.(row := StatusSet(s.row, Disabled), autoPending := s.autoPending - 1)
    case FinishManual =>
      if s.manualPending == 0 then s else s.(row := StatusSet(s.row, Disabled), manualPending := s.manualPending - 1)
    case LoseAuto => if s.autoPending == 0 then s else s.(autoPending := s.autoPending - 1)
    case LoseManual => if s.manualPending == 0 then s else s.(manualPending := s.manualPending - 1)
    case RateLimit(until, error) => s.(row := CooldownNoted(s.row, until, error))
    case Hiccup(error) => s.(row := ErrorNoted(s.row, error))
    case Succeed => s.(row := SuccessMarked(s.row))
    case Pause => s.(row := StatusSet(s.row, Paused))
    case Resume => s.(row := StatusSet(s.row, Active))
    case SetExemption(flag) => s.(row := s.row.(neverDisable := flag))
  }

  function After(s: State, steps: seq<Step>): State {
    if steps == [] then s else Apply(After(s, steps[..|steps| - 1]), steps[|steps| - 1])
  }

  const START := State(NEW_KEY, [], 0, 0)

  predicate IsRejection(s: State, step: Step) {
    (step.Reject? || step.FailTest?) && step.i < |s.copies|
  }

  /** How many 401/403 reports and failed tests there were. */
  function Rejections(s: State, steps: seq<Step>): nat {
    if steps == [] then 0
    else
      var init := steps[..|steps| - 1];
      Rejections(s, init) + if IsRejection(After(s, init), steps[|steps| - 1]) then 1 else 0
  }

  lemma Snoc(s: State, steps: seq<Step>, step: Step, all: seq<Step>)
    requires all == steps + [step]
    ensures After(s, all) == Apply(After(s, steps), step)
    ensures Rejections(s, all) == Rejections(s, steps) + if IsRejection(After(s, steps), step) then 1 else 0
  {
    assert all[..|steps|] == steps;
  }

  predicate CountsWithin(s: State, n: nat) {
    && s.row.failureCount <= n
    && (forall i :: 0 <= i < |s.copies| ==> s.copies[i].failureCount <= n)
    && (s.autoPending > 0 ==> n >= FAILURE_THRESHOLD)
  }

  lemma StepKeepsCounts(s: State, step: Step, n: nat)
    requires CountsWithin(s, n)
    ensures CountsWithin(Apply(s, step), n + if IsRejection(s, step) then 1 else 0)
  {
    if step.Read? {
      var all := s.copies + [s.row];
      assert forall i :: 0 <= i < |s.copies| ==> all[i] == s.copies[i];
    }
  }

  /**
    The count never exceeds the rejections there were, whatever copies they were reported with; and an
    automatic disabling is only ever under way once there were three.
  */
  lemma {:induction false} CountIsJustified(steps: seq<Step>)
    ensures After(START, steps).row.failureCount <= Rejections(START, steps)
    ensures After(START, steps).autoPending > 0 ==> Rejections(START, steps) >= FAILURE_THRESHOLD
    ensures CountsWithin(After(START, steps), Rejections(START, steps))
  {
    if steps != [] {
      var init := steps[..|steps| - 1];
      CountIsJustified(init);
      StepKeepsCounts(After(START, init), steps[|steps| - 1], Rejections(START, init));
    }
  }

  /** No automatic step ever disables a key that was rejected fewer than three times. */
  lemma {:induction false} NoAutomaticDisablingBelowThree(steps: seq<Step>)
    requires After(START, steps).row.status != Disabled && After(START, steps + [FinishAuto]).row.status == Disabled
    ensures Rejections(START, steps) >= FAILURE_THRESHOLD
  {
    CountIsJustified(steps);
    assert (steps + [FinishAuto])[..|steps|] == steps;
  }

  // ---------- who may disable, and who may bring back ----------

  predicate NeverTested(steps: seq<Step>) {
    forall i :: 0 <= i < |steps| ==> !steps[i].FailTest?
  }

  predicate KeepsExemption(steps: seq<Step>) {
    forall i :: 0 <= i < |steps| ==> steps[i] != SetExemption(false)
  }

  predicate Exempt(s: State) {
    && s.row.neverDisable && s.autoPending == 0
    && (forall i :: 0 <= i < |s.copies| ==> s.copies[i].neverDisable)
  }

  lemma StepKeepsExempt(s: State, step: Step)
    requires Exempt(s) && step != SetExemption(false)
    ensures Exempt(Apply(s, step))
    ensures s.manualPending == 0 && !step.FailTest? ==> Apply(s, step).manualPending == 0
    ensures s.manualPending == 0 && s.row.status != Disabled ==> Apply(s, step).row.status != Disabled
  {
    if step.Read? {
      var all := s.copies + [s.row];
      assert forall i :: 0 <= i < |s.copies| ==> all[i] == s.copies[i];
    }
  }

  /**
    A key that is exempt all along never has an automatic disabling under way, however often it is rejected
    and whatever manual tests find.
  */
  lemma {:induction false} ExemptKeyIsNeverAutoDisabled(s: State, steps: seq<Step>)
    requires Exempt(s) && KeepsExemption(steps)
    ensures Exempt(After(s, steps)) && After(s, steps).autoPending == 0
    ensures Apply(After(s, steps), FinishAuto) == After(s, steps)
  {
    if steps != [] {
      var init := steps[..|steps| - 1];
      ExemptKeyIsNeverAutoDisabled(s, init);
      StepKeepsExempt(After(s, init), steps[|steps| - 1]);
    }
  }

  /** So if no manual test fails either, it is never disabled at all. */
  lemma {:induction false} ExemptKeyIsNeverDisabled(s: State, steps: seq<Step>)
    requires Exempt(s) && s.manualPending == 0 && s.row.status != Disabled
    requires NeverTested(steps) && KeepsExemption(steps)
    ensures After(s, steps).row.status != Disabled && After(s, steps).manualPending == 0
  {
    if steps != [] {
      var init := steps[..|steps| - 1];
      ExemptKeyIsNeverDisabled(s, init);
      ExemptKeyIsNeverAutoDisabled(s, init);
      StepKeepsExempt(After(s, init), steps[|steps| - 1]);
    }
  }

  /**
    Only `Resume` brings a key back: neither a success nor any report changes a paused or disabled status to active.
  */
  lemma {:induction false} OnlyResumeReactivates(s: State, steps: seq<Step>)
    requires s.row.status != Active && Resume !in steps
    ensures After(s, steps).row.status != Active
  {
    if steps != [] {
      var init := steps[..|steps| - 1];
      OnlyResumeReactivates(s, init);
      assert steps[|steps| - 1] in steps;
    }
  }

  // ---------- what each column holds ----------

  /** The last step of a run that writes a column. */
  function LastWrite(s: State, steps: seq<Step>, writes: (State, Step) -> bool): Option<Step> {
    if steps == [] then None
    else
      var init, step := steps[..|steps| - 1], steps[|steps| - 1];
      if writes(After(s, init), step) then Some(step) else LastWrite(s, init, writes)
  }

  predicate WritesCooldown(s: State, step: Step) {
    step.RateLimit? || step.Succeed? || step.Resume?
  }

  /** What one step does to each column. */
  lemma StepWrites(s: State, step: Step)
    ensures Apply(s, step).row.cooldownUntil ==
      if !WritesCooldown(s, step) then s.row.cooldownUntil else if step.RateLimit? then Some(step.until) else None
    ensures Apply(s, step).row.lastError == if WritesError(s, step) then ErrorOf(step) else s.row.lastError
    ensures Apply(s, step).row.status ==
      if !WritesStatus(s, step) then s.row.status
      else if step.Pause? then Paused else if step.Resume? then Active else Disabled
    ensures Apply(s, step).row.neverDisable == if step.SetExemption? then step.flag else s.row.neverDisable
  {
  }

  /**
    THE COOLDOWN.  A rate limit cools the key down until the time it names, and the last of rate limits,
    successes and resumes decides: after a success or a resume there is no cooldown, and nothing else touches it.
  */
  lemma {:induction false} CooldownIsLastWritten(s: State, steps: seq<Step>)
    ensures After(s, steps).row.cooldownUntil == match LastWrite(s, steps, WritesCooldown)
      case None => s.row.cooldownUntil
      case Some(step) => if step.RateLimit? then Some(step.until) else None
  {
    if steps != [] {
      var init := steps[..|steps| - 1];
      CooldownIsLastWritten(s, init);
      StepWrites(After(s, init), steps[|steps| - 1]);
    }
  }

  /** The step reports an error or clears it; a report with a copy that does not exist does neither. */
  predicate WritesError(s: State, step: Step) {
    IsRejection(s, step) || step.RateLimit? || step.Hiccup? || step.Succeed? || step.Resume?
  }

  function ErrorOf(step: Step): Option<string> {
    if step.Reject? || step.FailTest? || step.RateLimit? || step.Hiccup? then Some(step.error) else None
  }

  /** The error shown is that of the last report, unless a success or a resume came after it. */
  lemma {:induction false} ErrorIsLastReported(s: State, steps: seq<Step>)
    ensures After(s, steps).row.lastError == match LastWrite(s, steps, WritesError)
      case None => s.row.lastError
      case Some(step) => ErrorOf(step)
  {
    if steps != [] {
      var init := steps[..|steps| - 1];
      ErrorIsLastReported(s, init);
      StepWrites(After(s, init), steps[|steps| - 1]);
    }
  }

  /** The step changes the status: the panel does, and a disabling write that is under way. */
  predicate WritesStatus(s: State, step: Step) {
    step.Pause? || step.Resume? ||
    (step.FinishAuto? && s.autoPending > 0) || (step.FinishManual? && s.manualPending > 0)
  }

  /** The status is that of the last step that writes it. */
  lemma {:induction false} StatusIsLastWritten(s: State, steps: seq<Step>)
    ensures After(s, steps).row.status == match LastWrite(s, steps, WritesStatus)
      case None => s.row.status
      case Some(step) => if step.Pause? then Paused else if step.Resume? then Active else Disabled
  {
    if steps != [] {
      var init := steps[..|steps| - 1];
      StatusIsLastWritten(s, init);
      StepWrites(After(s, init), steps[|steps| - 1]);
    }
  }

  predicate WritesExemption(s: State, step: Step) {
    step.SetExemption?
  }

  /** The exemption is the one last set. */
  lemma {:induction false} ExemptionIsLastSet(s: State, steps: seq<Step>)
    ensures After(s, steps).row.neverDisable == match LastWrite(s, steps, WritesExemption)
      case None => s.row.neverDisable
      case Some(step) => step.SetExemption? && step.flag
  {
    if steps != [] {
      var init := steps[..|steps| - 1];
      ExemptionIsLastSet(s, init);
      StepWrites(After(s, init), steps[|steps| - 1]);
    }
  }

  /**
    A failed test starts a disabling write of its own, and so does a rejection whose copy has two failures and
    no exemption; each is finished or lost by a step of its own kind.
  */
  lemma PendingWrites(s: State, step: Step)
    ensures Apply(s, step).autoPending == s.autoPending
      + (if step.Reject? && step.i < |s.copies| && s.copies[step.i].failureCount >= 2 && !s.copies[step.i].neverDisable
         then 1 else 0)
      - (if (step.FinishAuto? || step.LoseAuto?) && s.autoPending > 0 then 1 else 0)
    ensures Apply(s, step).manualPending == s.manualPending
      + (if step.FailTest? && step.i < |s.copies| then 1 else 0)
      - (if (step.FinishManual? || step.LoseManual?) && s.manualPending > 0 then 1 else 0)
  {
  }

  /** A copy is the row as it was when it was read, and is never changed. */
  lemma {:induction false} CopiesAreKept(s: State, steps: seq<Step>)
    ensures s.copies <= After(s, steps).copies
    ensures After(s, steps + [Read]).copies == After(s, steps).copies + [After(s, steps).row]
  {
    assert (steps + [Read])[..|steps|] == steps;
    if steps != [] { CopiesAreKept(s, steps[..|steps| - 1]); }
  }

  // ---------- separate accounts ----------

  /** Rate limits, upstream faults, and reads. */
  predicate IsLoadRelated(step: Step) {
    step.RateLimit? || step.Hiccup? || step.Read?
  }

  /** Rejections, failed tests, the disabling writes they start, and pauses. */
  predicate IsValidityRelated(step: Step) {
    step.Reject? || step.FailTest? || step.FinishAuto? || step.FinishManual? || step.LoseAuto? || step.LoseManual? ||
      step.Pause?
  }

  /** No amount of rate limiting and upstream faults testifies against a key. */
  lemma {:induction false} LoadNeverCountsAgainstKey(s: State, steps: seq<Step>)
    requires forall i :: 0 <= i < |steps| ==> IsLoadRelated(steps[i])
    ensures var t := After(s, steps);
      t.row.status == s.row.status && t.row.failureCount == s.row.failureCount
      && t.autoPending == s.autoPending && t.manualPending == s.manualPending
  {
    if steps != [] { LoadNeverCountsAgainstKey(s, steps[..|steps| - 1]); }
  }

  /** Rejections and disabling leave a running cooldown as it is. */
  lemma {:induction false} RejectionsKeepCooldown(s: State, steps: seq<Step>)
    requires forall i :: 0 <= i < |steps| ==> IsValidityRelated(steps[i])
    ensures After(s, steps).row.cooldownUntil == s.row.cooldownUntil
  {
    if steps != [] { RejectionsKeepCooldown(s, steps[..|steps| - 1]); }
  }

  // ---------- up-to-date copies ----------

  /** Every rejection is reported with a copy whose count is still the row's. */
  predicate UpToDate(s: State, steps: seq<Step>) {
    if steps == [] then true
    else
      var init, step := steps[..|steps| - 1], steps[|steps| - 1];
      UpToDate(s, init) &&
      (IsRejection(After(s, init), step) ==>
         After(s, init).copies[step.i].failureCount == After(s, init).row.failureCount)
  }

  predicate Resets(step: Step) {
    step.Succeed? || step.Resume?
  }

  /** The rejections since the last success or resume. */
  function SinceReset(s: State, steps: seq<Step>, k: nat): (n: nat)
    requires k <= |steps|
    decreases |steps| - k
  {
    if k == |steps| then 0
    else (if IsRejection(After(s, steps[..k]), steps[k]) then 1 else 0) + SinceReset(s, steps, k + 1)
  }

  /** `k` is right after the last success or resume, or the beginning if there was none. */
  predicate IsLastReset(steps: seq<Step>, k: nat) {
    k <= |steps| && (k > 0 ==> Resets(steps[k - 1])) && forall i :: k <= i < |steps| ==> !Resets(steps[i])
  }

  lemma {:induction false} SinceResetSnoc(s: State, steps: seq<Step>, k: nat)
    requires k < |steps|
    ensures SinceReset(s, steps, k) == SinceReset(s, steps[..|steps| - 1], k) +
            if IsRejection(After(s, steps[..|steps| - 1]), steps[|steps| - 1]) then 1 else 0
    decreases |steps| - k
  {
    var init := steps[..|steps| - 1];
    if k < |init| {
      assert init[..k] == steps[..k] && init[k] == steps[k];
      SinceResetSnoc(s, steps, k + 1);
    }
  }

  /** With up-to-date copies the count is exactly the rejections since the last success or resume. */
  lemma {:induction false} UpToDateCountIsExact(steps: seq<Step>, k: nat)
    requires UpToDate(START, steps) && IsLastReset(steps, k)
    ensures After(START, steps).row.failureCount == SinceReset(START, steps, k)
  {
    if steps != [] {
      var init, step := steps[..|steps| - 1], steps[|steps| - 1];
      if k < |steps| {
        assert !Resets(step);
        UpToDateCountIsExact(init, k);
        SinceResetSnoc(START, steps, k);
      } else {
        assert Resets(step);
      }
    }
  }

  /** After every prefix, the count is the rejections since the last success or resume. */
  ghost predicate ExactThroughout(steps: seq<Step>) {
    forall j, k :: 0 <= j <= |steps| && 0 <= k && IsLastReset(steps[..j], k) ==>
      After(START, steps[..j]).row.failureCount == SinceReset(START, steps[..j], k)
  }

  lemma {:induction false} UpToDatePrefix(s: State, steps: seq<Step>, j: nat)
    requires j <= |steps| && UpToDate(s, steps)
    ensures UpToDate(s, steps[..j])
  {
    if j == |steps| {
      assert steps[..j] == steps;
    } else {
      UpToDatePrefix(s, steps[..|steps| - 1], j);
      assert steps[..|steps| - 1][..j] == steps[..j];
    }
  }

  lemma LastReset(steps: seq<Step>) returns (k: nat)
    ensures IsLastReset(steps, k)
  {
    k := |steps|;
    while k > 0 && !Resets(steps[k - 1])
      invariant k <= |steps| && forall i :: k <= i < |steps| ==> !Resets(steps[i])
    {
      k := k - 1;
    }
  }

  lemma ExactPrefix(steps: seq<Step>)
    requires steps != [] && ExactThroughout(steps)
    ensures ExactThroughout(steps[..|steps| - 1])
  {
    var init := steps[..|steps| - 1];
    forall j, k | 0 <= j <= |init| && 0 <= k && IsLastReset(init[..j], k)
      ensures After(START, init[..j]).row.failureCount == SinceReset(START, init[..j], k)
    {
      assert init[..j] == steps[..j];
    }
  }

  lemma ExactLast(steps: seq<Step>, k: nat)
    requires ExactThroughout(steps) && IsLastReset(steps, k)
    ensures After(START, steps).row.failureCount == SinceReset(START, steps, k)
  {
    assert steps[..|steps|] == steps;
  }

  /** A rejection that leaves the count exact was reported with an up-to-date copy. */
  lemma {:induction false} ExactMeansUpToDate(steps: seq<Step>)
    requires ExactThroughout(steps)
    ensures UpToDate(START, steps)
  {
    if steps != [] {
      var init, step := steps[..|steps| - 1], steps[|steps| - 1];
      ExactPrefix(steps);
      ExactMeansUpToDate(init);
      if IsRejection(After(START, init), step) { ExactRejection(steps, init); }
    }
  }

  lemma {:induction false} ExactRejection(steps: seq<Step>, init: seq<Step>)
    requires steps != [] && init == steps[..|steps| - 1] && ExactThroughout(steps) && ExactThroughout(init)
    requires IsRejection(After(START, init), steps[|steps| - 1])
    ensures After(START, steps).row.failureCount == After(START, init).row.failureCount + 1
  {
    var k := LastReset(init);
    assert IsLastReset(steps, k);
    ExactLast(init, k);
    ExactLast(steps, k);
    SinceResetSnoc(START, steps, k);
  }

  /**
    EXACT COUNTS.  The count is the rejections since the last success or resume, all along a run, exactly
    if every rejection was reported with a copy whose count was still the row's.
  */
  lemma CountIsExactIffUpToDate(steps: seq<Step>)
    ensures ExactThroughout(steps) <==> UpToDate(START, steps)
  {
    if UpToDate(START, steps) {
      forall j, k | 0 <= j <= |steps| && 0 <= k && IsLastReset(steps[..j], k)
        ensures After(START, steps[..j]).row.failureCount == SinceReset(START, steps[..j], k)
      {
        UpToDatePrefix(START, steps, j);
        UpToDateCountIsExact(steps[..j], k);
      }
    }
    if ExactThroughout(steps) { ExactMeansUpToDate(steps); }
  }

  /** With up-to-date copies, a rejection starts an automatic disabling exactly if it is the third in a row or later. */
  lemma DisablesExactlyOnThird(steps: seq<Step>, k: nat, i: nat, error: string)
    requires UpToDate(START, steps + [Reject(i, error)]) && IsLastReset(steps, k)
    requires i < |After(START, steps).copies| && !After(START, steps).copies[i].neverDisable
    ensures var before, after := After(START, steps), After(START, steps + [Reject(i, error)]);
      after.autoPending > before.autoPending <==> SinceReset(START, steps, k) + 1 >= FAILURE_THRESHOLD
  {
    assert (steps + [Reject(i, error)])[..|steps|] == steps;
    UpToDateCountIsExact(steps, k);
  }

  // ---------- what outdated copies can do ----------

  /**
    An outdated copy brings back a count that a success has cleared: after a success, a single rejection
    reported with a copy read before it can disable the key.
  */
  lemma {:induction false} OutdatedCopyUndoesSuccess(s: State, i: nat, error: string)
    requires i < |s.copies| && s.copies[i].failureCount == 2 && !s.copies[i].neverDisable && s.autoPending == 0
    ensures var steps := [Succeed, Reject(i, error), FinishAuto];
      After(s, steps).row.status == Disabled && After(s, steps).row.failureCount == 3
  {
    var one, two, three := [Succeed], [Succeed, Reject(i, error)], [Succeed, Reject(i, error), FinishAuto];
    Snoc(s, [], Succeed, one);
    Snoc(s, one, Reject(i, error), two);
    Snoc(s, two, FinishAuto, three);
  }

  /** Such a copy is read in the ordinary course: after two rejections, each reported with a fresh copy. */
  lemma OutdatedCopyIsReached(error: string)
    ensures var s := After(START, [Read, Reject(0, error), Read, Reject(1, error), Read]);
      && 2 < |s.copies| && s.copies[2].failureCount == 2 && !s.copies[2].neverDisable
      && s.autoPending == 0 && s.row.status == Active
  {
    var r, t := Reject(0, error), Reject(1, error);
    var two, three, four := [Read, r], [Read, r, Read], [Read, r, Read, t];
    Snoc(START, [], Read, [Read]);
    Snoc(START, [Read], r, two);
    Snoc(START, two, Read, three);
    Snoc(START, three, t, four);
    Snoc(START, four, Read, [Read, r, Read, t, Read]);
  }

  /** Rejections reported with the same copy count once: three of them leave the count at 1 and the key active. */
  lemma SharedCopyCountsOnce(error: string)
    ensures var steps := [Read, Reject(0, error), Reject(0, error), Reject(0, error)];
      && Rejections(START, steps) == 3
      && After(START, steps).row.failureCount == 1 && After(START, steps).row.status == Active
      && After(START, steps).autoPending == 0
  {
    var r := Reject(0, error);
    var one, two, three, four := [Read], [Read, r], [Read, r, r], [Read, r, r, r];
    Snoc(START, [], Read, one);
    assert After(START, one).copies == [NEW_KEY];
    Snoc(START, one, r, two);
    Snoc(START, two, r, three);
    Snoc(START, three, r, four);
  }
}

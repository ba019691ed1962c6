/** Back-off after rate limits: the streak kept in memory, the length of a cooldown, and who can be selected when. */
module Backoff {
  import opened Lifecycle
  import opened Wrappers

  const STREAK_WINDOW: int := 60
  const RETRY_AFTER_MAX: int := 300

  // ---------- the streak ----------

  datatype Streak = Streak(count: nat, lastAt: int)

  /** One more rate limit at `now`, on top of what is remembered. */
  function Bumped(before: Option<Streak>, now: int): Streak {
    match before
    case None => Streak(1, now)
    case Some(s) => Streak((if now - s.lastAt > STREAK_WINDOW then 0 else s.count) + 1, now)
  }

  datatype Happening = Limited(key: Id, now: int) | Cleared(key: Id) | Forgotten(keys: set<Id>)

  type Streaks = map<Id, Streak>

  function Get(streaks: Streaks, key: Id): Option<Streak> {
    if key in streaks then Some(streaks[key]) else None
  }

  function Happened(streaks: Streaks, h: Happening): Streaks {
    match h
    case Limited(key, now) => streaks[key := Bumped(Get(streaks, key), now)]
    case Cleared(key) => streaks - {key}
    case Forgotten(keys) => streaks - keys
  }

  function Remembered(happenings: seq<Happening>): Streaks {
    if happenings == [] then map[]
    else Happened(Remembered(happenings[..|happenings| - 1]), happenings[|happenings| - 1])
  }

  predicate Clears(h: Happening, key: Id) {
    (h.Cleared? && h.key == key) || (h.Forgotten? && key in h.keys)
  }

  /** The times at which `key` was limited since it was last cleared or forgotten. */
  function LimitTimes(happenings: seq<Happening>, key: Id): seq<int> {
    if happenings == [] then []
    else
      var h, before := happenings[|happenings| - 1], LimitTimes(happenings[..|happenings| - 1], key);
      if Clears(h, key) then [] else if h.Limited? && h.key == key then before + [h.now] else before
  }

  /** The last `n` of `times` follow each other within a minute, and no longer suffix does. */
  predicate IsLongestSuffix(times: seq<int>, n: nat) {
    && 1 <= n <= |times|
    && (forall i :: |times| - n < i < |times| ==> times[i] - times[i - 1] <= 60)
    && (n < |times| ==> times[|times| - n] - times[|times| - n - 1] > 60)
  }

  lemma SuffixSnoc(times: seq<int>, n: nat, now: int)
    requires IsLongestSuffix(times, n)
    ensures IsLongestSuffix(times + [now], Bumped(Some(Streak(n, times[|times| - 1])), now).count)
  {
    var all := times + [now];
    assert forall i :: 0 <= i < |times| ==> all[i] == times[i];
  }

  /**
    After any run, what is remembered of a key is the length of the longest run of rate limits up to the
    last one with gaps of at most a minute, counted since the key was last cleared; nothing if there was none.
  */
  lemma {:induction false} StreakIsLongestSuffix(happenings: seq<Happening>, key: Id)
    ensures var times := LimitTimes(happenings, key);
      match Get(Remembered(happenings), key)
      case None => times == []
      case Some(s) => times != [] && s.lastAt == times[|times| - 1] && IsLongestSuffix(times, s.count)
  {
    if happenings != [] {
      var init, h := happenings[..|happenings| - 1], happenings[|happenings| - 1];
      StreakIsLongestSuffix(init, key);
      if h.Limited? && h.key == key { OneMoreLimit(Get(Remembered(init), key), LimitTimes(init, key), h.now); }
    }
  }

  lemma OneMoreLimit(before: Option<Streak>, times: seq<int>, now: int)
    requires match before
      case None => times == []
      case Some(s) => times != [] && s.lastAt == times[|times| - 1] && IsLongestSuffix(times, s.count)
    ensures IsLongestSuffix(times + [now], Bumped(before, now).count)
  {
    match before
    case None => assert IsLongestSuffix([now], 1);
    case Some(s) => SuffixSnoc(times, s.count, now);
  }

  // ---------- the cooldown ----------

  /** `backoff_secs`: the rung of the ladder 10, 15, 30. */
  function LadderSecs(failures: nat): int {
    var ladder := [10, 15, 30];
    var index := if failures == 0 then 0 else failures - 1;
    ladder[if index < |ladder| - 1 then index else |ladder| - 1]
  }

  /** `cooldown_secs`. */
  function CooldownSecs(failures: nat, retryAfter: Option<int>): int {
    match retryAfter
    case Some(secs) => if secs < 1 then 1 else if secs > RETRY_AFTER_MAX then RETRY_AFTER_MAX else secs
    case None => LadderSecs(failures)
  }

  /**
    Every cooldown is between 1 second and 5 minutes.  A hint in that range is taken as it is, whatever the
    streak; without a hint a longer streak never waits less: 10 seconds, then 15, then 30 and no more.
  */
  lemma CooldownRange(failures: nat, more: nat, retryAfter: Option<int>)
    requires failures <= more
    ensures 1 <= CooldownSecs(failures, retryAfter) <= RETRY_AFTER_MAX
    ensures retryAfter.Some? && 1 <= retryAfter.value <= RETRY_AFTER_MAX ==>
      CooldownSecs(failures, retryAfter) == retryAfter.value
    ensures retryAfter.Some? && retryAfter.value < 1 ==> CooldownSecs(failures, retryAfter) == 1
    ensures retryAfter.Some? && retryAfter.value > 300 ==> CooldownSecs(failures, retryAfter) == 300
    ensures retryAfter.Some? ==> CooldownSecs(failures, retryAfter) == CooldownSecs(more, retryAfter)
    ensures retryAfter.None? ==> 10 <= CooldownSecs(failures, retryAfter) <= CooldownSecs(more, retryAfter) <= 30
    ensures retryAfter.None? ==>
      CooldownSecs(failures, retryAfter) == if failures <= 1 then 10 else if failures == 2 then 15 else 30
  {
  }

  // ---------- who can be selected ----------

  /** A key of a block with the parts of its row that selection reads. */
  datatype Key = Key(id: Id, weight: nat, status: Status, cooldownUntil: Option<int>)

  /** `is_selectable`. */
  predicate Selectable(key: Key, now: int) {
    key.status.Active? && (key.cooldownUntil.Some? ==> key.cooldownUntil.value <= now)
  }

  /** The key is stored with that status and cooldown. */
  predicate StoredAs(key: Key, row: Row) {
    key.status == row.status && key.cooldownUntil == row.cooldownUntil
  }

  /**
    COOLING DOWN.  While a rate limit is the last thing that wrote a key's cooldown, the key can be selected
    exactly from the time on that it named, if it is active; after a success or a resume, at any time.
  */
  lemma RateLimitedKeyComesBackExactly(s: State, steps: seq<Step>, key: Key, t: int)
    requires StoredAs(key, After(s, steps).row)
    ensures match LastWrite(s, steps, WritesCooldown)
      case Some(RateLimit(until, _)) => Selectable(key, t) <==> key.status.Active? && t >= until
      case Some(_) => Selectable(key, t) <==> key.status.Active?
      case None => s.row.cooldownUntil.None? ==> (Selectable(key, t) <==> key.status.Active?)
  {
    CooldownIsLastWritten(s, steps);
  }

  predicate Cooling(key: Key, now: int) {
    key.status.Active? && key.cooldownUntil.Some? && key.cooldownUntil.value > now
  }

  /** `earliest_retry`: how long until the first cooling key of the block is back. */
  function EarliestRetry(keys: seq<Key>, now: int): Option<int> {
    if keys == [] then None
    else
      var before := EarliestRetry(keys[..|keys| - 1], now);
      var key := keys[|keys| - 1];
      if !Cooling(key, now) then before
      else
        var wait := key.cooldownUntil.value - now;
        if before.Some? && before.value <= wait then before else Some(wait)
  }

  predicate NoneSelectable(keys: seq<Key>, now: int) {
    forall i :: 0 <= i < |keys| ==> !Selectable(keys[i], now)
  }

  lemma {:induction false} EarliestRetryMeans(keys: seq<Key>, now: int)
    ensures match EarliestRetry(keys, now)
      case None => forall i :: 0 <= i < |keys| ==> !Cooling(keys[i], now)
      case Some(wait) =>
        && wait > 0
        && (exists i :: 0 <= i < |keys| && Cooling(keys[i], now) && keys[i].cooldownUntil.value == now + wait)
        && (forall i :: 0 <= i < |keys| && Cooling(keys[i], now) ==> keys[i].cooldownUntil.value >= now + wait)
  {
    if keys != [] {
      var init, n := keys[..|keys| - 1], |keys| - 1;
      EarliestRetryMeans(init, now);
      assert forall i :: 0 <= i < n ==> init[i] == keys[i];
      match EarliestRetry(init, now)
      case None =>
      case Some(wait) =>
        var i :| 0 <= i < |init| && Cooling(init[i], now) && init[i].cooldownUntil.value == now + wait;
        assert keys[i] == init[i];
    }
  }

  /**
    THE WAIT IS EXACT.  When no key can be selected but an active one is cooling, the answer is a wait that
    is positive, during which no key comes back, and after which one does.  If no key is active there is
    no such wait at any time, and no key ever comes back by itself.
  */
  lemma WaitIsExact(keys: seq<Key>, now: int)
    requires NoneSelectable(keys, now)
    ensures EarliestRetry(keys, now).Some? <==> exists i :: 0 <= i < |keys| && keys[i].status.Active?
    ensures EarliestRetry(keys, now).Some? ==>
      var wait := EarliestRetry(keys, now).value;
      && wait > 0
      && (forall t :: t < now + wait ==> NoneSelectable(keys, t))
      && !NoneSelectable(keys, now + wait)
    ensures EarliestRetry(keys, now).None? ==> forall t :: NoneSelectable(keys, t)
  {
    EarliestRetryMeans(keys, now);
    forall i | 0 <= i < |keys| && keys[i].status.Active? ensures Cooling(keys[i], now) {
      assert !Selectable(keys[i], now);
    }
    if EarliestRetry(keys, now).Some? {
      var wait := EarliestRetry(keys, now).value;
      var i :| 0 <= i < |keys| && Cooling(keys[i], now) && keys[i].cooldownUntil.value == now + wait;
      assert Selectable(keys[i], now + wait);
    }
  }
}

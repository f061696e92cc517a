/**
 The queries about managed installations. Each is written here as its SQL reads, with its own
 `MAX` subquery, and all of them are shown to filter one relation: the latest successes.
 Times are milliseconds, the resolution of SQLite's Julian days.
 */
module LatestSuccess {
  import opened Wrappers
  import AppStore

  type AppId = AppStore.AppId
  type DeviceId = AppStore.DeviceId
  type JobId = AppStore.JobId

  datatype Job = Job(app: AppId, device: DeviceId, phase: AppStore.Phase, completed: Option<int>)

  /** `live` are the apps that are not deleted. */
  datatype History = History(live: set<AppId>, jobs: map<JobId, Job>, unmanaged: set<(AppId, DeviceId)>)

  const HOUR: int := 3_600_000
  const DAY: int := 86_400_000

  // ----- the subquery that every query contains

  ghost function Completions(h: History, app: AppId, device: DeviceId): set<int> {
    set j | j in h.jobs && h.jobs[j].app == app && h.jobs[j].device == device && h.jobs[j].phase.Succeeded? && h.jobs[j].completed.Some?
      :: h.jobs[j].completed.value
  }

  ghost predicate IsGreatest(s: set<int>, m: int) {
    m in s && forall x :: x in s ==> x <= m
  }

  /** SQL's `MAX`: null over no rows. */
  ghost function Max(s: set<int>): Option<int> {
    if exists m: int :: IsGreatest(s, m) then
      var m: int :| IsGreatest(s, m);
      Some(m)
    else None
  }

  lemma {:induction false} SomeGreatest(s: set<int>) returns (m: int)
    requires s != {}
    ensures IsGreatest(s, m)
    decreases |s|
  {
    assert (forall x: int :: x !in s) ==> s == {};
    var any: int :| any in s;
    var others := s - {any};
    m := any;
    if others != {} {
      var rest := SomeGreatest(others);
      assert forall x :: x in s ==> x == any || x in others;
      m := if rest > any then rest else any;
    } else {
      assert s == {any};
    }
  }

  lemma MaxIsGreatest(s: set<int>)
    ensures Max(s).None? <==> s == {}
    ensures Max(s).Some? ==> IsGreatest(s, Max(s).value)
  {
    if s != {} {
      var m := SomeGreatest(s);
    }
  }

  /** `jobs.completed_at = (SELECT MAX(latest.completed_at) …)`; a null is equal to nothing. */
  ghost predicate CompletedLast(h: History, j: JobId)
    requires j in h.jobs
  {
    h.jobs[j].completed.Some? && h.jobs[j].completed == Max(Completions(h, h.jobs[j].app, h.jobs[j].device))
  }

  // ----- the queries

  ghost function ManagedInstallations(h: History): set<JobId> {
    set j | j in h.jobs && h.jobs[j].app in h.live && h.jobs[j].phase.Succeeded? && CompletedLast(h, j)
            && (h.jobs[j].app, h.jobs[j].device) !in h.unmanaged
  }

  function Age(job: Job, now: int): int
    requires job.completed.Some?
  {
    now - job.completed.value
  }

  ghost function RefreshDue(h: History, now: int, afterDays: nat): set<JobId> {
    set j | j in h.jobs && h.jobs[j].phase.Succeeded? && h.jobs[j].app in h.live
            && (h.jobs[j].app, h.jobs[j].device) !in h.unmanaged
            && CompletedLast(h, j) && Age(h.jobs[j], now) >= afterDays * DAY
  }

  function AttentionAfterHours(afterDays: nat): nat {
    (if afterDays == 0 then 0 else afterDays - 1) * 24
  }

  ghost function RefreshAttention(h: History, now: int, afterDays: nat): set<JobId> {
    set j | j in h.jobs && h.jobs[j].phase.Succeeded? && h.jobs[j].app in h.live
            && (h.jobs[j].app, h.jobs[j].device) !in h.unmanaged
            && CompletedLast(h, j) && Age(h.jobs[j], now) >= AttentionAfterHours(afterDays) * HOUR
  }

  /** Conversion to an integer drops the fraction, toward zero. */
  function Truncate(numerator: int, denominator: int): int
    requires denominator > 0
  {
    if numerator >= 0 then numerator / denominator else -(-numerator / denominator)
  }

  /** `MAX(0, CAST((168 - age + 23) / 24 AS INTEGER))` with the age in hours. */
  function RemainingDays(age: int): nat {
    var days := Truncate(168 * HOUR - age + 23 * HOUR, 24 * HOUR);
    if days > 0 then days else 0
  }

  ghost function InstallationValidity(h: History, now: int): map<JobId, nat> {
    map j | j in h.jobs && h.jobs[j].phase.Succeeded? && h.jobs[j].app in h.live
            && (h.jobs[j].app, h.jobs[j].device) !in h.unmanaged && CompletedLast(h, j)
      :: RemainingDays(Age(h.jobs[j], now))
  }

  // ----- the one relation

  /** A success of a live, managed pair that no success of the pair is later than. */
  predicate IsLatestSuccess(h: History, j: JobId) {
    && j in h.jobs && h.jobs[j].phase.Succeeded? && h.jobs[j].completed.Some?
    && h.jobs[j].app in h.live && (h.jobs[j].app, h.jobs[j].device) !in h.unmanaged
    && forall k | k in h.jobs && h.jobs[k].app == h.jobs[j].app && h.jobs[k].device == h.jobs[j].device
                  && h.jobs[k].phase.Succeeded? && h.jobs[k].completed.Some? :: h.jobs[k].completed.value <= h.jobs[j].completed.value
  }

  function LatestSuccesses(h: History): set<JobId> {
    set j | j in h.jobs && IsLatestSuccess(h, j)
  }

  lemma CompletedLastIsLatest(h: History, j: JobId)
    requires j in h.jobs && h.jobs[j].phase.Succeeded? && h.jobs[j].app in h.live && (h.jobs[j].app, h.jobs[j].device) !in h.unmanaged
    ensures CompletedLast(h, j) <==> IsLatestSuccess(h, j)
  {
    var all := Completions(h, h.jobs[j].app, h.jobs[j].device);
    MaxIsGreatest(all);
    if IsLatestSuccess(h, j) {
      assert h.jobs[j].completed.value in all;
      assert forall c :: c in all ==> c <= h.jobs[j].completed.value;
    }
    if CompletedLast(h, j) {
      forall k | k in h.jobs && h.jobs[k].app == h.jobs[j].app && h.jobs[k].device == h.jobs[j].device
                 && h.jobs[k].phase.Succeeded? && h.jobs[k].completed.Some? ensures h.jobs[k].completed.value <= h.jobs[j].completed.value {
        assert h.jobs[k].completed.value in all;
      }
    }
  }

  /** All the queries filter the latest successes, by age and nothing else. */
  lemma QueriesAgree(h: History, now: int, afterDays: nat)
    ensures ManagedInstallations(h) == LatestSuccesses(h)
    ensures InstallationValidity(h, now).Keys == LatestSuccesses(h)
    ensures RefreshDue(h, now, afterDays) == set j | j in LatestSuccesses(h) && Age(h.jobs[j], now) >= afterDays * DAY
    ensures RefreshAttention(h, now, afterDays)
         == set j | j in LatestSuccesses(h) && Age(h.jobs[j], now) >= AttentionAfterHours(afterDays) * HOUR
  {
    forall j | j in h.jobs && h.jobs[j].phase.Succeeded? && h.jobs[j].app in h.live && (h.jobs[j].app, h.jobs[j].device) !in h.unmanaged
      ensures CompletedLast(h, j) <==> j in LatestSuccesses(h)
    {
      CompletedLastIsLatest(h, j);
    }
    hide CompletedLast;
  }

  /** The warning for `n + 1` days names exactly the installations that are due after `n`. */
  lemma AttentionIsDueOneDayEarlier(h: History, now: int, n: nat)
    ensures RefreshAttention(h, now, n + 1) == RefreshDue(h, now, n)
  {
    hide CompletedLast;
    assert AttentionAfterHours(n + 1) * HOUR == n * DAY;
  }

  /** An installation that is due after `n` days is listed with at most `7 - n` days left. */
  lemma DueHasFewDaysLeft(h: History, now: int, n: nat, j: JobId)
    requires j in RefreshDue(h, now, n)
    ensures j in InstallationValidity(h, now)
    ensures InstallationValidity(h, now)[j] <= if n <= 7 then 7 - n else 0
  {
    RemainingAtMost(Age(h.jobs[j], now), n);
  }

  lemma RemainingAtMost(age: int, n: nat)
    requires age >= n * DAY
    ensures RemainingDays(age) <= if n <= 7 then 7 - n else 0
  {
    var numerator := 191 * HOUR - age;
    assert numerator <= (7 - n) * DAY + 23 * HOUR;
    if numerator >= 0 {
      assert n <= 7;
      assert numerator / DAY <= 7 - n;
    }
  }

  /** The days left, rounded up. */
  function DaysLeft(age: int): (days: nat)
    ensures days > 0 ==> (days - 1) * DAY < 7 * DAY - age <= days * DAY
    ensures days == 0 <==> age >= 7 * DAY
  {
    var left := 7 * DAY - age;
    if left <= 0 then 0 else (left + DAY - 1) / DAY
  }

  /**
   The listed days are the days left, rounded up, except in the last hour before a day is over:
   there they are one too few.
   */
  lemma RemainingDaysIsCeilingExactly(age: int)
    ensures
      var left := 7 * DAY - age;
      && (RemainingDays(age) == DaysLeft(age) <==> left <= 0 || left % DAY == 0 || left % DAY >= HOUR)
      && (RemainingDays(age) != DaysLeft(age) ==> RemainingDays(age) == DaysLeft(age) - 1)
  {
    var left := 7 * DAY - age;
    if left > 0 {
      var q, m := left / DAY, left % DAY;
      assert left == q * DAY + m;
      assert RemainingDays(age) == (q * DAY + m + 23 * HOUR) / DAY;
      if m >= HOUR {
        Quotient(q + 1, m + 23 * HOUR - DAY);
        Quotient(q + 1, m - 1);
      } else {
        Quotient(q, m + 23 * HOUR);
        if m > 0 {
          Quotient(q + 1, m - 1);
        } else {
          Quotient(q, DAY - 1);
        }
      }
    }
  }

  lemma Quotient(q: int, m: int)
    requires 0 <= m < DAY
    ensures (q * DAY + m) / DAY == q
  {
  }

  // ----- forgetting and restoring

  predicate ActivePair(h: History, app: AppId, device: DeviceId) {
    exists j :: j in h.jobs && h.jobs[j].app == app && h.jobs[j].device == device && AppStore.IsActive(h.jobs[j].phase)
  }

  /** `forget_managed_installation`, and its answer. */
  function Forget(h: History, app: AppId, device: DeviceId): (History, bool) {
    if ActivePair(h, app, device) then (h, false) else (h.(unmanaged := h.unmanaged + {(app, device)}), true)
  }

  /** The end of a successful job: its pair is managed again, and the job completes. Either write may fail, which is ignored. */
  function Succeed(h: History, j: JobId, now: int, restored: bool, recorded: bool): History
    requires j in h.jobs
  {
    h.(unmanaged := if restored then h.unmanaged - {(h.jobs[j].app, h.jobs[j].device)} else h.unmanaged,
       jobs := if recorded then h.jobs[j := h.jobs[j].(phase := AppStore.Succeeded, completed := Some(now))] else h.jobs)
  }

  /** Forgetting a pair removes that pair from every query, and no other; it is refused exactly while a job of the pair has not ended. */
  lemma ForgetRemovesOnePair(h: History, app: AppId, device: DeviceId)
    ensures
      var (after, forgotten) := Forget(h, app, device);
      && (forgotten <==> forall j :: j in h.jobs && h.jobs[j].app == app && h.jobs[j].device == device ==>
                           h.jobs[j].phase.Succeeded? || h.jobs[j].phase.Failed?)
      && after.jobs == h.jobs && after.live == h.live && (!forgotten ==> after == h)
      && LatestSuccesses(after)
         == if forgotten then set j | j in LatestSuccesses(h) && (h.jobs[j].app, h.jobs[j].device) != (app, device) else LatestSuccesses(h)
  {
    var (after, forgotten) := Forget(h, app, device);
    forall j | j in h.jobs ensures IsLatestSuccess(after, j) <==> IsLatestSuccess(h, j) && (!forgotten || (h.jobs[j].app, h.jobs[j].device) != (app, device)) {
    }
  }

  /** No success of the pair of `j` is later than `now`: the clock did not go back. */
  predicate NoLaterSuccess(h: History, j: JobId, now: int)
    requires j in h.jobs
  {
    forall k | k in h.jobs && h.jobs[k].app == h.jobs[j].app && h.jobs[k].device == h.jobs[j].device
               && h.jobs[k].phase.Succeeded? && h.jobs[k].completed.Some? :: h.jobs[k].completed.value <= now
  }

  /**
   When a success brings its pair back: its status must be written, its app live, the pair managed or
   made so, and the clock not gone back. Once the status is written the pair is not due whatever the
   clock did; other pairs are left alone.
   */
  lemma SuccessRestoresThePair(h: History, j: JobId, now: int, restored: bool, recorded: bool, n: nat)
    requires j in h.jobs && AppStore.IsActive(h.jobs[j].phase) && n >= 1
    ensures
      var after := Succeed(h, j, now, restored, recorded);
      var pair := (h.jobs[j].app, h.jobs[j].device);
      && (j in ManagedInstallations(after) <==>
            recorded && h.jobs[j].app in h.live && (restored || pair !in h.unmanaged) && NoLaterSuccess(h, j, now))
      && (recorded ==> forall k :: k in RefreshDue(after, now, n) ==> (h.jobs[k].app, h.jobs[k].device) != pair)
      && (forall k :: k in h.jobs && (h.jobs[k].app, h.jobs[k].device) != pair ==> (k in LatestSuccesses(after) <==> k in LatestSuccesses(h)))
  {
    hide CompletedLast;
    var after := Succeed(h, j, now, restored, recorded);
    QueriesAgree(after, now, n);
    forall k | k in h.jobs && k != j ensures after.jobs[k] == h.jobs[k] {
    }
    if recorded {
      NotDueAfterSuccess(h, j, now, restored, n);
    }
    forall k | k in h.jobs && (h.jobs[k].app, h.jobs[k].device) != (h.jobs[j].app, h.jobs[j].device)
      ensures IsLatestSuccess(after, k) <==> IsLatestSuccess(h, k)
    {
      OtherPairStays(h, after, j, k);
    }
    assert IsLatestSuccess(after, j) <==>
             recorded && h.jobs[j].app in h.live && (restored || (h.jobs[j].app, h.jobs[j].device) !in h.unmanaged) && NoLaterSuccess(h, j, now);
  }

  lemma NotDueAfterSuccess(h: History, j: JobId, now: int, restored: bool, n: nat)
    requires j in h.jobs && n >= 1
    ensures
      var after := Succeed(h, j, now, restored, true);
      forall k :: k in RefreshDue(after, now, n) ==> (h.jobs[k].app, h.jobs[k].device) != (h.jobs[j].app, h.jobs[j].device)
  {
    hide CompletedLast;
    var after := Succeed(h, j, now, restored, true);
    QueriesAgree(after, now, n);
    forall k | k in RefreshDue(after, now, n) ensures (h.jobs[k].app, h.jobs[k].device) != (h.jobs[j].app, h.jobs[j].device) {
      assert Age(after.jobs[k], now) >= DAY && IsLatestSuccess(after, k);
      assert after.jobs[j].completed == Some(now) && after.jobs[j].phase.Succeeded?;
    }
  }

  lemma OtherPairStays(h: History, after: History, j: JobId, k: JobId)
    requires j in h.jobs && k in h.jobs && (h.jobs[k].app, h.jobs[k].device) != (h.jobs[j].app, h.jobs[j].device)
    requires after.live == h.live && after.jobs.Keys == h.jobs.Keys
    requires after.jobs[j].app == h.jobs[j].app && after.jobs[j].device == h.jobs[j].device
    requires forall i :: i in h.jobs && i != j ==> after.jobs[i] == h.jobs[i]
    requires after.unmanaged == h.unmanaged || after.unmanaged == h.unmanaged - {(h.jobs[j].app, h.jobs[j].device)}
    ensures IsLatestSuccess(after, k) <==> IsLatestSuccess(h, k)
  {
  }
}

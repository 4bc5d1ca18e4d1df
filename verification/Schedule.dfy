/**
 The due times of the backup scheduler: daily or weekly occurrences on local
 dates, the half-open intervals of its ticks, and catch-up runs. Times are
 seconds, local dates are day numbers (0 is 1970-01-01, a Thursday).
 */
module Schedule {
  import opened Wrappers

  const DAY := 86400
  const CATCH_UP_SLACK := 3600
  const CATCH_UP_DELAY := 300
  const SEARCH_DAYS := 8

  /** weekday is 0 for Sunday; None is a daily schedule. */
  datatype Backups = Backups(enabled: bool, weekday: Option<nat>)

  /** The host's time zone for the schedule's time of day: when that time comes
      on a local date, and the local date of an instant. */
  datatype Zone = Zone(at: int -> int, dateOf: int -> int)

  predicate Runs(s: Backups, day: int) {
    s.weekday.Some? ==> (day + 4) % 7 == s.weekday.value
  }

  /** 1970-01-01 is a Thursday (4), the next date has the next weekday, and a date has
      one weekday. */
  lemma WeekdayOf(day: int, v: nat, w: nat)
    requires v < 7 && w < 7
    ensures Runs(Backups(true, Some(4)), 0)
    ensures Runs(Backups(true, Some(w)), day) <==> Runs(Backups(true, Some((w + 1) % 7)), day + 1)
    ensures Runs(Backups(true, Some(v)), day) && Runs(Backups(true, Some(w)), day) ==> v == w
    ensures Runs(Backups(true, None), day)
  {
  }

  ghost predicate ValidSchedule(s: Backups) {
    s.weekday.Some? ==> s.weekday.value < 7
  }

  // ---- what is asked of a time zone -----------------------------------------------------

  /** Occurrences come in the order of their dates. */
  ghost predicate Increasing(z: Zone) {
    forall d, e :: d < e ==> z.at(d) < z.at(e)
  }

  /** An occurrence is on its date or on a date next to it: a time of day that the clock
      change of a date leaves out may be moved over midnight. */
  ghost predicate NearDate(z: Zone) {
    && (forall now, d :: d > z.dateOf(now) + 1 ==> z.at(d) > now)
    && (forall now, d :: d + 1 < z.dateOf(now) ==> z.at(d) <= now)
  }

  /** An occurrence of a later date has come. */
  ghost predicate Early(s: Backups, z: Zone, now: int) {
    exists d :: d > z.dateOf(now) && Runs(s, d) && z.at(d) <= now
  }

  /** An occurrence of an earlier date is still to come. */
  ghost predicate Late(s: Backups, z: Zone, now: int) {
    exists d :: d < z.dateOf(now) && Runs(s, d) && z.at(d) > now
  }

  /** When local dates follow each other in time and every occurrence lies on its
      own date, the search is exact at all times. */
  lemma {:induction false} OrdinaryZone(z: Zone)
    requires forall t, u :: t <= u ==> z.dateOf(t) <= z.dateOf(u)
    requires forall d :: z.dateOf(z.at(d)) == d
    ensures Increasing(z) && NearDate(z)
    ensures forall s, now :: !Early(s, z, now) && !Late(s, z, now)
  {
    forall d, e | d < e ensures z.at(d) < z.at(e) {
      assert z.at(e) <= z.at(d) ==> z.dateOf(z.at(e)) <= z.dateOf(z.at(d));
    }
    forall now, d ensures d > z.dateOf(now) ==> z.at(d) > now {
      assert z.at(d) <= now ==> z.dateOf(z.at(d)) <= z.dateOf(now);
    }
    forall now, d ensures d < z.dateOf(now) ==> z.at(d) <= now {
      assert now <= z.at(d) ==> z.dateOf(now) <= z.dateOf(z.at(d));
    }
  }

  // ---- the latest and the next scheduled time ----------------------------------------------

  /** t is a scheduled time: the occurrence of a date the schedule runs on. */
  ghost predicate IsScheduled(s: Backups, z: Zone, t: int) {
    exists d :: Runs(s, d) && z.at(d) == t
  }

  ghost predicate IsLastDue(s: Backups, z: Zone, now: int, t: int) {
    && t <= now && IsScheduled(s, z, t)
    && forall d :: Runs(s, d) && z.at(d) <= now ==> z.at(d) <= t
  }

  ghost predicate IsNextDue(s: Backups, z: Zone, now: int, t: int) {
    && t > now && IsScheduled(s, z, t)
    && forall d :: Runs(s, d) && z.at(d) > now ==> z.at(d) >= t
  }

  ghost predicate IsLastToToday(s: Backups, z: Zone, now: int, t: int) {
    && t <= now && (exists d :: d <= z.dateOf(now) && Runs(s, d) && z.at(d) == t)
    && forall d :: d <= z.dateOf(now) && Runs(s, d) && z.at(d) <= now ==> z.at(d) <= t
  }

  ghost predicate IsNextFromToday(s: Backups, z: Zone, now: int, t: int) {
    && t > now && (exists d :: d >= z.dateOf(now) && Runs(s, d) && z.at(d) == t)
    && forall d :: d >= z.dateOf(now) && Runs(s, d) && z.at(d) > now ==> z.at(d) >= t
  }

  /** Of seven days in a row the schedule runs on one. */
  lemma RunsWithinAWeek(s: Backups, first: int) returns (d: int)
    requires ValidSchedule(s)
    ensures first <= d < first + 7 && Runs(s, d)
  {
    if s.weekday.None? {
      d := first;
    } else {
      d := first + (s.weekday.value - (first + 4)) % 7;
    }
  }

  /** The run time on a local date, if the schedule runs on it. */
  function ScheduledOn(s: Backups, z: Zone, day: int): (t: Option<int>)
    ensures t.Some? ==> IsScheduled(s, z, t.value)
  {
    if Runs(s, day) then Some(z.at(day)) else None
  }

  /** The latest scheduled time at or before now of the dates up to today; the search of
      nine dates always finds it. It is the latest of all exactly when no occurrence of a
      later date has come. */
  method LastDue(s: Backups, z: Zone, now: int) returns (t: Option<int>)
    requires ValidSchedule(s) && Increasing(z) && NearDate(z)
    ensures t.Some? && IsLastToToday(s, z, now, t.value)
    ensures IsLastDue(s, z, now, t.value) <==> !Early(s, z, now)
  {
    var today := z.dateOf(now);
    for i := 0 to SEARCH_DAYS + 1
      invariant forall d :: today - i < d <= today && Runs(s, d) ==> z.at(d) > now
    {
      var u := ScheduledOn(s, z, today - i);
      if u.Some? && u.value <= now {
        assert Runs(s, today - i) && z.at(today - i) == u.value;
        return u;
      }
    }
    ghost var d := RunsWithinAWeek(s, today - SEARCH_DAYS);
    return None;
  }

  /** The first scheduled time after now of the dates from today on; the same search
      finds it. It is the first of all exactly when no occurrence of an earlier date is
      still to come. */
  method NextDue(s: Backups, z: Zone, now: int) returns (t: Option<int>)
    requires ValidSchedule(s) && Increasing(z) && NearDate(z)
    ensures t.Some? && IsNextFromToday(s, z, now, t.value)
    ensures IsNextDue(s, z, now, t.value) <==> !Late(s, z, now)
  {
    var today := z.dateOf(now);
    for i := 0 to SEARCH_DAYS + 1
      invariant forall d :: today <= d < today + i && Runs(s, d) ==> z.at(d) <= now
    {
      var u := ScheduledOn(s, z, today + i);
      if u.Some? && u.value > now {
        assert Runs(s, today + i) && z.at(today + i) == u.value;
        return u;
      }
    }
    ghost var d := RunsWithinAWeek(s, today + 2);
    return None;
  }

  /** Nothing is scheduled between the two. */
  lemma {:induction false} NothingBetween(s: Backups, z: Zone, now: int, last: int, next: int, t: int)
    requires IsLastDue(s, z, now, last) && IsNextDue(s, z, now, next)
    requires IsScheduled(s, z, t)
    ensures t <= last || t >= next
  {
    var d :| Runs(s, d) && z.at(d) == t;
  }

  const DAILY: Backups := Backups(true, None)

  /** The clock goes from 23:30 to 00:30 at the end of date -1, and 23:45 is moved on by
      the hour: past midnight nextDue does not see it any more. */
  const EVENING: Zone := Zone(
    d => if d < -1 then d * DAY + 85500 else if d == -1 then -900 else d * DAY + 81900,
    t => if t < -1800 then t / DAY else (t + 3600) / DAY)

  lemma {:induction false} NextDueMisses()
    ensures Increasing(EVENING) && NearDate(EVENING) && Late(DAILY, EVENING, -1800)
    ensures IsNextDue(DAILY, EVENING, -1800, -900) && IsNextFromToday(DAILY, EVENING, -1800, 81900)
  {
    assert EVENING.dateOf(-1800) == 0;
    assert Runs(DAILY, -1) && EVENING.at(-1) == -900;
    assert Runs(DAILY, 0) && EVENING.at(0) == 81900;
  }

  // ---- ticks -----------------------------------------------------------------------------------

  /** A scheduled time of a date up to today lies in (prev, now]: what a tick sees. */
  ghost predicate DueIn(s: Backups, z: Zone, prev: int, now: int) {
    exists d :: d <= z.dateOf(now) && Runs(s, d) && prev < z.at(d) <= now
  }

  lemma {:induction false} DueMeans(s: Backups, z: Zone, prev: int, now: int, last: int)
    requires IsLastToToday(s, z, now, last)
    ensures last > prev <==> DueIn(s, z, prev, now)
  {
    var d :| d <= z.dateOf(now) && Runs(s, d) && z.at(d) == last;
    if last > prev {
      assert Runs(s, d) && prev < z.at(d) <= now;
    }
  }

  /** In how many of the intervals between one tick and the next t lies. */
  function DueTimes(ticks: seq<int>, t: int): nat {
    if |ticks| < 2 then 0
    else DueTimes(ticks[..|ticks| - 1], t) + (if ticks[|ticks| - 2] < t <= ticks[|ticks| - 1] then 1 else 0)
  }

  /** How often the clock was set back over t. */
  function SetBack(ticks: seq<int>, t: int): nat {
    if |ticks| < 2 then 0
    else SetBack(ticks[..|ticks| - 1], t) + (if ticks[|ticks| - 1] < t <= ticks[|ticks| - 2] then 1 else 0)
  }

  ghost predicate Nondecreasing(ticks: seq<int>) {
    forall i, j :: 0 <= i < j < |ticks| ==> ticks[i] <= ticks[j]
  }

  /** A scheduled time is due once when the ticks pass it, and once more each time
      the clock is set back over it and passes it again. */
  lemma {:induction false} DueOncePerPassing(ticks: seq<int>, t: int)
    requires ticks != []
    ensures DueTimes(ticks, t) == SetBack(ticks, t) + (if ticks[0] < t <= ticks[|ticks| - 1] then 1 else 0)
                                  - (if ticks[|ticks| - 1] < t <= ticks[0] then 1 else 0)
  {
    if |ticks| > 1 {
      DueOncePerPassing(ticks[..|ticks| - 1], t);
    }
  }

  /** Ticks that never go back: each scheduled time they pass is in exactly one
      interval. */
  lemma {:induction false} DueOnce(ticks: seq<int>, t: int)
    requires ticks != [] && Nondecreasing(ticks)
    ensures SetBack(ticks, t) == 0
    ensures DueTimes(ticks, t) == if ticks[0] < t <= ticks[|ticks| - 1] then 1 else 0
  {
    if |ticks| > 1 {
      DueOnce(ticks[..|ticks| - 1], t);
      DueOncePerPassing(ticks, t);
    }
  }

  // ---- the scheduler -----------------------------------------------------------------------------

  datatype Trigger = Scheduled | CatchUp | Manual

  datatype Attempt = Attempt(trigger: Trigger, started: bool)

  function Interval(s: Backups): int {
    if s.weekday.Some? then 7 * DAY else DAY
  }

  /** No run has succeeded for longer than the interval and an hour, or the last
      success lies in the future. */
  function Missed(s: Backups, lastSuccess: Option<int>, now: int): bool {
    || lastSuccess.None?
    || now - lastSuccess.value > Interval(s) + CATCH_UP_SLACK
    || lastSuccess.value - now > 60
  }

  /** In hours: a run was missed when none has succeeded for 25 hours, or a week and an
      hour, or the last success is more than a minute ahead. */
  lemma MissedMeans(s: Backups, lastSuccess: Option<int>, now: int)
    ensures Missed(s, lastSuccess, now)
       <==> || lastSuccess.None?
            || now - lastSuccess.value > (if s.weekday.Some? then 169 else 25) * 3600
            || lastSuccess.value - now > 60
  {
  }

  class BackupScheduler {
    var stopped: bool
    var running: bool
    var lastSuccess: Option<int>
    var catchUpAt: Option<int>
    ghost var attempts: seq<Attempt>

    constructor (lastSuccess: Option<int>)
      ensures !stopped && !running && this.lastSuccess == lastSuccess && catchUpAt == None && attempts == []
    {
      stopped, running, catchUpAt := false, false, None;
      this.lastSuccess := lastSuccess;
      attempts := [];
    }

    /** A catch-up run is planned when a run was missed. */
    method PlanCatchUp(s: Backups, now: int)
      modifies `catchUpAt
      ensures catchUpAt == if s.enabled && Missed(s, lastSuccess, now) then Some(now + CATCH_UP_DELAY) else old(catchUpAt)
    {
      if !s.enabled || !Missed(s, lastSuccess, now) {
        return;
      }
      catchUpAt := Some(now + CATCH_UP_DELAY);
    }

    /** Begins a run unless one is going or the scheduler has stopped. */
    method Start(trigger: Trigger) returns (ok: bool)
      modifies `running, `attempts
      ensures ok <==> !old(running) && !stopped
      ensures running == (old(running) || ok)
      ensures attempts == old(attempts) + [Attempt(trigger, ok)]
    {
      ok := !stopped && !running;
      if ok {
        running := true;
      }
      attempts := attempts + [Attempt(trigger, ok)];
    }

    /** One attempt when a scheduled time that it sees lies in (prev, now], however many
        lie in it; else one when a catch-up is due and still needed. */
    method Tick(s: Backups, z: Zone, prev: int, now: int)
      requires ValidSchedule(s) && Increasing(z) && NearDate(z)
      modifies `running, `attempts, `catchUpAt
      ensures !s.enabled ==> attempts == old(attempts) && catchUpAt == None
      ensures s.enabled && DueIn(s, z, prev, now) ==>
                && attempts == old(attempts) + [Attempt(Scheduled, !old(running) && !stopped)]
                && catchUpAt == None
      ensures s.enabled && !DueIn(s, z, prev, now) ==>
                var due := old(catchUpAt).Some? && now >= old(catchUpAt).value;
                && catchUpAt == (if due then None else old(catchUpAt))
                && attempts == if due && Missed(s, lastSuccess, now)
                               then old(attempts) + [Attempt(CatchUp, !old(running) && !stopped)] else old(attempts)
    {
      var catchUp := catchUpAt;
      if !s.enabled {
        catchUpAt := None;
        return;
      }
      var due := LastDue(s, z, now);
      DueMeans(s, z, prev, now, due.value);
      if due.value > prev {
        catchUpAt := None;
        var _ := Start(Scheduled);
      } else if catchUp.Some? && now >= catchUp.value {
        catchUpAt := None;
        if Missed(s, lastSuccess, now) {
          var _ := Start(CatchUp);
        }
      }
    }

    /** A whole run of the scheduler: the catch-up is planned, then one tick after the
        other. `due` are the ticks with a scheduled attempt: exactly those that
        see a scheduled time in their interval. */
    method Loop(s: Backups, z: Zone, ticks: seq<int>) returns (ghost due: seq<nat>, ghost caught: Option<nat>)
      requires ValidSchedule(s) && Increasing(z) && NearDate(z)
      requires s.enabled && ticks != []
      modifies `running, `attempts, `catchUpAt
      ensures |OfTrigger(attempts, Scheduled)| == |OfTrigger(old(attempts), Scheduled)| + |due|
      ensures IsDue(s, z, ticks, due)
      ensures |OfTrigger(attempts, CatchUp)| == |OfTrigger(old(attempts), CatchUp)| + (if caught.Some? then 1 else 0)
      ensures var plan := if Missed(s, lastSuccess, ticks[0]) then Some(ticks[0] + 300) else old(catchUpAt);
              IsCaught(s, z, plan, lastSuccess, ticks, |ticks|, caught)
      ensures |OfTrigger(attempts, Manual)| == |OfTrigger(old(attempts), Manual)|
    {
      hide DueIn, Missed, Waits, IsCaught, DueUpTo, OfTrigger, IsDue;
      PlanCatchUp(s, ticks[0]);
      ghost var plan := catchUpAt;
      NoneYet(s, z, plan, lastSuccess, ticks);
      var prev := ticks[0];
      due, caught := [], None;
      for i := 1 to |ticks|
        invariant prev == ticks[i - 1]
        invariant |OfTrigger(attempts, Scheduled)| == |OfTrigger(old(attempts), Scheduled)| + |due|
        invariant DueUpTo(s, z, ticks, i, due)
        invariant catchUpAt == if Waits(s, z, plan, ticks, i) then plan else None
        invariant |OfTrigger(attempts, CatchUp)| == |OfTrigger(old(attempts), CatchUp)| + (if caught.Some? then 1 else 0)
        invariant |OfTrigger(attempts, Manual)| == |OfTrigger(old(attempts), Manual)|
        invariant IsCaught(s, z, plan, lastSuccess, ticks, i, caught)
      {
        ghost var before := attempts;
        Tick(s, z, prev, ticks[i]);
        AttemptAdded(before, attempts);
        DueNext(s, z, ticks, i, due);
        CaughtNext(s, z, plan, lastSuccess, ticks, i, caught);
        if DueIn(s, z, prev, ticks[i]) {
          due := due + [i];
        } else if CatchUpAt(s, z, plan, ticks, i) && Missed(s, lastSuccess, ticks[i]) {
          caught := Some(i);
        }
        prev := ticks[i];
      }
      AllDue(s, z, ticks, due);
    }
  }

  lemma AscendAdd(due: seq<nat>, i: nat)
    requires Ascending(due) && forall k :: k in due ==> k < i
    ensures Ascending(due + [i])
  {
    forall j | 0 <= j < |due| ensures due[j] < i {
      assert due[j] in due;
    }
  }

  /** A scheduled time that tick i sees lies in the interval that ends with it. */
  ghost predicate DueAt(s: Backups, z: Zone, ticks: seq<int>, i: nat) {
    0 < i < |ticks| && DueIn(s, z, ticks[i - 1], ticks[i])
  }

  ghost predicate Ascending(due: seq<nat>) {
    forall i, j :: 0 <= i < j < |due| ==> due[i] < due[j]
  }

  /** `due` are the ticks with a scheduled attempt, as Loop gives them. */
  ghost predicate IsDue(s: Backups, z: Zone, ticks: seq<int>, due: seq<nat>) {
    Ascending(due) && forall i :: i in due <==> DueAt(s, z, ticks, i)
  }

  /** Over ticks that never go back each scheduled time lies in the interval of at most one
      scheduled attempt, and of one when the ticks pass it, unless an occurrence
      of a later date has come at one of them. */
  lemma {:induction false} OneAttemptEach(s: Backups, z: Zone, ticks: seq<int>, due: seq<nat>, t: int)
    requires ticks != [] && Nondecreasing(ticks) && IsScheduled(s, z, t) && IsDue(s, z, ticks, due)
    ensures forall i, j :: i in due && j in due && Covers(ticks, i, t) && Covers(ticks, j, t) ==> i == j
    ensures (exists i :: i in due && Covers(ticks, i, t)) ==> ticks[0] < t <= ticks[|ticks| - 1]
    ensures (forall now <- ticks :: !Early(s, z, now)) && ticks[0] < t <= ticks[|ticks| - 1]
            ==> exists i :: i in due && Covers(ticks, i, t)
  {
    if (forall now <- ticks :: !Early(s, z, now)) && ticks[0] < t <= ticks[|ticks| - 1] {
      var i := Passing(ticks, t);
      var d :| Runs(s, d) && z.at(d) == t;
      assert !Early(s, z, ticks[i]);
      assert DueIn(s, z, ticks[i - 1], ticks[i]);
      assert DueAt(s, z, ticks, i) && Covers(ticks, i, t);
    }
  }

  /** In general the tick that passes the occurrence of a date is due exactly when it is
      not before that date, or an earlier occurrence that it sees lies in its interval. */
  lemma {:induction false} PassedExactly(s: Backups, z: Zone, ticks: seq<int>, due: seq<nat>, d: int, i: nat)
    requires Increasing(z) && IsDue(s, z, ticks, due) && Runs(s, d) && Covers(ticks, i, z.at(d))
    ensures i in due <==> || d <= z.dateOf(ticks[i])
                          || exists e :: e < d && Runs(s, e) && e <= z.dateOf(ticks[i]) && ticks[i - 1] < z.at(e)
  {
    assert DueAt(s, z, ticks, i) <==> DueIn(s, z, ticks[i - 1], ticks[i]);
    if d <= z.dateOf(ticks[i]) {
      assert DueIn(s, z, ticks[i - 1], ticks[i]);
    }
  }

  /** The clock goes from 24:00 to 01:00 at the end of date -1, and 00:30 is moved back by
      the hour, to 23:30 of the date before. */
  const MIDNIGHT: Zone := Zone(
    d => if d < 0 then d * DAY + 1800 else d * DAY - 1800,
    t => if t < 0 then t / DAY else (t + 3600) / DAY)

  /** No tick then sees the run of that date: at 23:30 it belongs to the next date,
      and on that date it is before the tick before. */
  lemma {:induction false} NeverAttempted(due: seq<nat>)
    requires IsDue(DAILY, MIDNIGHT, [-2400, -1800, 0, 600], due)
    ensures Increasing(MIDNIGHT) && NearDate(MIDNIGHT) && Early(DAILY, MIDNIGHT, -1800)
    ensures IsScheduled(DAILY, MIDNIGHT, -1800) && due == []
  {
    var ticks := [-2400, -1800, 0, 600];
    assert Runs(DAILY, 0) && MIDNIGHT.at(0) == -1800;
    forall i ensures !DueAt(DAILY, MIDNIGHT, ticks, i) {
    }
    AscendingUnique(due, []);
  }

  /** A schedule of every day at 00:33:20 in a zone without clock changes. */
  const STEADY: Zone := Zone(d => d * DAY + 2000, t => t / DAY)

  /** A clock set back by half an hour after a run makes the same scheduled time
      due again, and there are two scheduled attempts; the comment of the code says it
      does not. */
  lemma {:induction false} DueAgainAfterSetBack(due: seq<nat>)
    requires IsDue(DAILY, STEADY, [0, 3600, 1800, 3600], due)
    ensures Increasing(STEADY) && NearDate(STEADY) && IsScheduled(DAILY, STEADY, 2000)
    ensures due == [1, 3] && DueTimes([0, 3600, 1800, 3600], 2000) == 2
  {
    var ticks := [0, 3600, 1800, 3600];
    assert Runs(DAILY, 0) && STEADY.at(0) == 2000;
    forall i: nat ensures DueAt(DAILY, STEADY, ticks, i) <==> i == 1 || i == 3 {
      assert i == 1 || i == 3 ==> DueIn(DAILY, STEADY, ticks[i - 1], ticks[i]);
    }
    AscendingUnique(due, [1, 3]);
    assert [0, 3600][..1] == [0];
    assert DueTimes([0, 3600], 2000) == 1;
    assert [0, 3600, 1800][..2] == [0, 3600];
    assert DueTimes([0, 3600, 1800], 2000) == 1;
    assert ticks[..3] == [0, 3600, 1800];
  }

  /** What the attempts are decides the list. */
  lemma {:induction false} AscendingUnique(a: seq<nat>, b: seq<nat>)
    requires Ascending(a) && Ascending(b) && forall i :: i in a <==> i in b
    ensures a == b
  {
    assert (a != [] ==> a[0] in a) && (b != [] ==> b[0] in b);
    if a != [] && b != [] {
      WithoutLast(a);
      WithoutLast(b);
      hide Ascending;
      var x, y, l := a[..|a| - 1], b[..|b| - 1], a[|a| - 1];
      assert a == x + [l] && b == y + [b[|b| - 1]];
      assert l in b && b[|b| - 1] in a && b[|b| - 1] == l;
      assert forall i :: i in x <==> i in y;
      AscendingUnique(x, y);
    }
  }

  lemma WithoutLast(a: seq<nat>)
    requires Ascending(a) && a != []
    ensures var x := a[..|a| - 1];
            && Ascending(x) && (forall i :: i in x <==> i in a && i != a[|a| - 1])
            && forall i <- a :: i <= a[|a| - 1]
  {
    var x := a[..|a| - 1];
    assert a == x + [a[|a| - 1]];
    assert forall k :: 0 <= k < |x| ==> x[k] < a[|a| - 1];
  }

  predicate Covers(ticks: seq<int>, i: nat, t: int) {
    0 < i < |ticks| && ticks[i - 1] < t <= ticks[i]
  }

  lemma {:induction false} Passing(ticks: seq<int>, t: int) returns (i: nat)
    requires ticks != [] && ticks[0] < t <= ticks[|ticks| - 1]
    ensures Covers(ticks, i, t)
  {
    var n := |ticks|;
    if ticks[n - 2] < t {
      i := n - 1;
    } else {
      i := Passing(ticks[..n - 1], t);
    }
  }

  /** The attempts of one kind. */
  function OfTrigger(attempts: seq<Attempt>, t: Trigger): seq<Attempt> {
    if attempts == [] then []
    else
      OfTrigger(attempts[..|attempts| - 1], t)
      + (if attempts[|attempts| - 1].trigger == t then [attempts[|attempts| - 1]] else [])
  }

  /** The planned catch-up still waits before tick i: no tick came at its time, and none
      was due. */
  ghost predicate Waits(s: Backups, z: Zone, plan: Option<int>, ticks: seq<int>, i: nat)
    requires i <= |ticks|
  {
    plan.Some? && forall j :: 0 < j < i ==> ticks[j] < plan.value && !DueAt(s, z, ticks, j)
  }

  /** Tick i is the one at which the planned catch-up comes up: the first at or after its
      time, with no scheduled attempt up to it. */
  ghost predicate CatchUpAt(s: Backups, z: Zone, plan: Option<int>, ticks: seq<int>, i: nat) {
    0 < i < |ticks| && Waits(s, z, plan, ticks, i) && ticks[i] >= plan.value && !DueAt(s, z, ticks, i)
  }

  /** Of the first n ticks `caught` is the one with the catch-up attempt, if there is one. */
  ghost predicate IsCaught(s: Backups, z: Zone, plan: Option<int>, lastSuccess: Option<int>, ticks: seq<int>, n: nat, caught: Option<nat>) {
    forall i: nat :: caught == Some(i) <==> i < n && CatchUpAt(s, z, plan, ticks, i) && Missed(s, lastSuccess, ticks[i])
  }

  ghost predicate DueUpTo(s: Backups, z: Zone, ticks: seq<int>, n: nat, due: seq<nat>) {
    Ascending(due) && forall i: nat :: i in due <==> i < n && DueAt(s, z, ticks, i)
  }

  lemma NoneYet(s: Backups, z: Zone, plan: Option<int>, lastSuccess: Option<int>, ticks: seq<int>)
    requires ticks != []
    ensures Waits(s, z, plan, ticks, 1) <==> plan.Some?
    ensures IsCaught(s, z, plan, lastSuccess, ticks, 1, None) && DueUpTo(s, z, ticks, 1, [])
  {
  }

  lemma DueNext(s: Backups, z: Zone, ticks: seq<int>, i: nat, due: seq<nat>)
    requires DueUpTo(s, z, ticks, i, due) && 0 < i < |ticks|
    ensures DueUpTo(s, z, ticks, i + 1, if DueIn(s, z, ticks[i - 1], ticks[i]) then due + [i] else due)
  {
    hide DueIn;
    if DueIn(s, z, ticks[i - 1], ticks[i]) {
      AscendAdd(due, i);
    }
  }

  lemma AllDue(s: Backups, z: Zone, ticks: seq<int>, due: seq<nat>)
    requires DueUpTo(s, z, ticks, |ticks|, due)
    ensures IsDue(s, z, ticks, due)
  {
    hide DueIn;
  }

  lemma CaughtNext(s: Backups, z: Zone, plan: Option<int>, lastSuccess: Option<int>, ticks: seq<int>, i: nat, caught: Option<nat>)
    requires IsCaught(s, z, plan, lastSuccess, ticks, i, caught) && 0 < i < |ticks|
    ensures var now := CatchUpAt(s, z, plan, ticks, i) && Missed(s, lastSuccess, ticks[i]);
            IsCaught(s, z, plan, lastSuccess, ticks, i + 1, if now then Some(i) else caught) && (now ==> caught.None?)
    ensures Waits(s, z, plan, ticks, i + 1)
       <==> Waits(s, z, plan, ticks, i) && ticks[i] < plan.value && !DueIn(s, z, ticks[i - 1], ticks[i])
    ensures Waits(s, z, plan, ticks, i) ==> plan.Some?
    ensures CatchUpAt(s, z, plan, ticks, i)
       <==> Waits(s, z, plan, ticks, i) && ticks[i] >= plan.value && !DueIn(s, z, ticks[i - 1], ticks[i])
  {
    hide DueIn, Missed;
  }

  lemma AttemptAdded(before: seq<Attempt>, after: seq<Attempt>)
    ensures forall a, t :: after == before + [a]
                           ==> OfTrigger(after, t) == OfTrigger(before, t) + if a.trigger == t then [a] else []
  {
    assert forall a :: after == before + [a] ==> after[..|after| - 1] == before;
  }

  // ---- the stamp of a run -----------------------------------------------------------------------------

  /** The whole second a run is named after: the next second after the last run
      when that was less than a minute ahead or at the same second. */
  function StampOf(last: Option<int>, nowNanos: int): int {
    var at := nowNanos / 1_000_000_000;
    if last.Some? && at <= last.value && last.value - at < 60 then last.value + 1 else at
  }

  /** The stamps of runs one after the other. */
  function Stamps(starts: seq<int>): (stamps: seq<int>)
    ensures |stamps| == |starts|
  {
    if starts == [] then []
    else
      var before := Stamps(starts[..|starts| - 1]);
      before + [StampOf(if before == [] then None else Some(before[|before| - 1]), starts[|starts| - 1])]
  }

  /** Two runs one after the other never share a stamp, whatever the clock does. */
  lemma {:induction false} ConsecutiveStampsDiffer(starts: seq<int>)
    ensures forall i :: 0 < i < |starts| ==> Stamps(starts)[i] != Stamps(starts)[i - 1]
  {
    if starts != [] {
      var before := starts[..|starts| - 1];
      ConsecutiveStampsDiffer(before);
      var stamps := Stamps(starts);
      forall i | 0 < i < |starts| ensures stamps[i] != stamps[i - 1] {
        assert i < |before| ==> stamps[i] == Stamps(before)[i];
        assert stamps[i - 1] == Stamps(before)[i - 1];
      }
    }
  }

  const SECOND := 1_000_000_000

  ghost predicate StampsAscend(stamps: seq<int>) {
    forall i, j :: 0 <= i < j < |stamps| ==> stamps[i] < stamps[j]
  }

  /** No run begins a minute or more before the second that an earlier run can have
      pushed the stamp of the run before it to. */
  ghost predicate NoLongWayBack(starts: seq<int>) {
    forall j, i :: 0 <= j < i < |starts| ==> Back(starts, j, i)
  }

  predicate Back(starts: seq<int>, j: nat, i: nat)
    requires j < i < |starts|
  {
    Pushed(starts, j, i) - starts[i] / SECOND < 60
  }

  /** The second that run j asks for, one more for each run up to run i - 1. */
  function Pushed(starts: seq<int>, j: nat, i: nat): int
    requires j < i <= |starts|
  {
    starts[j] / SECOND + (i - 1 - j)
  }

  /** While stamps ascend, the last one is the latest second that a run so far asks for,
      counting one more for each run since. */
  lemma {:induction false} LastStamp(starts: seq<int>)
    requires starts != [] && StampsAscend(Stamps(starts))
    ensures var n := |starts|; var last := Stamps(starts)[n - 1];
            && (forall j :: 0 <= j < n ==> Pushed(starts, j, |starts|) <= last)
            && exists j :: 0 <= j < n && Pushed(starts, j, |starts|) == last
  {
    var n := |starts|;
    var at := starts[n - 1] / SECOND;
    if n > 1 {
      var before := starts[..n - 1];
      PrefixStamps(starts);
      LastStamp(before);
      var prev := Stamps(before)[n - 2];
      assert Stamps(starts)[n - 2] < Stamps(starts)[n - 1];
      forall j | 0 <= j < n - 1 ensures Pushed(starts, j, n) == Pushed(before, j, n - 1) + 1 {
      }
      var j :| 0 <= j < n - 1 && Pushed(before, j, n - 1) == prev;
      assert Pushed(starts, j, n) == prev + 1;
    }
    assert Pushed(starts, n - 1, n) == at;
  }

  lemma PrefixStamps(starts: seq<int>)
    requires starts != []
    ensures var before := starts[..|starts| - 1];
            && Stamps(starts)[..|before|] == Stamps(before)
            && (StampsAscend(Stamps(starts)) ==> StampsAscend(Stamps(before)))
  {
    var before := starts[..|starts| - 1];
    assert forall i :: 0 <= i < |before| ==> Stamps(starts)[i] == Stamps(before)[i];
  }

  /** Exactly when all stamps ascend, in terms of the clock alone. Then no two are the
      same; when two are is said by SharedExactly. */
  lemma {:induction false} StampsAscendExactly(starts: seq<int>)
    ensures StampsAscend(Stamps(starts)) <==> NoLongWayBack(starts)
  {
    if |starts| > 1 {
      var n := |starts|;
      var before := starts[..n - 1];
      StampsAscendExactly(before);
      PrefixStamps(starts);
      PrefixBack(starts);
      if StampsAscend(Stamps(before)) {
        LastStamp(before);
        var prev := Stamps(before)[n - 2];
        assert Stamps(starts) == Stamps(before) + [StampOf(Some(prev), starts[n - 1])];
        NextAscends(before, starts[n - 1], prev);
        hide Stamps, StampOf, NoneBehind;
        AscendNext(Stamps(before), StampOf(Some(prev), starts[n - 1]));
      }
    }
  }

  lemma AscendNext(stamps: seq<int>, next: int)
    requires stamps != [] && StampsAscend(stamps)
    ensures StampsAscend(stamps + [next]) <==> stamps[|stamps| - 1] < next
  {
    var all := stamps + [next];
    if StampsAscend(all) {
      assert all[|stamps| - 1] < all[|stamps|];
    }
  }

  lemma PrefixBack(starts: seq<int>)
    requires starts != []
    ensures var n := |starts|; NoLongWayBack(starts) <==> NoLongWayBack(starts[..n - 1]) && NoneBehind(starts[..n - 1], 0, starts[n - 1])
  {
    var before := starts[..|starts| - 1];
    var x := starts[|starts| - 1];
    forall j, i | 0 <= j < i < |before| ensures Back(before, j, i) <==> Back(starts, j, i) {
      assert before[j] == starts[j] && before[i] == starts[i];
    }
    forall j | 0 <= j < |before| ensures Pushed(before, j, |before|) - x / SECOND < 60 <==> Back(starts, j, |before|) {
    }
    if NoLongWayBack(before) && NoneBehind(before, 0, x) {
      forall j, i | 0 <= j < i < |starts| ensures Back(starts, j, i) {
        if i < |before| {
          assert Back(before, j, i);
        } else {
          assert Pushed(before, j, |before|) - x / SECOND < 60;
        }
      }
    }
    if NoLongWayBack(starts) {
      forall j, i | 0 <= j < i < |before| ensures Back(before, j, i) {
        assert Back(starts, j, i);
      }
      forall j | 0 <= j < |before| ensures Pushed(before, j, |before|) - x / SECOND < 60 {
        assert Back(starts, j, |before|);
      }
    }
  }

  /** The next stamp is later exactly when the clock is not a minute behind the last. */
  lemma NextAscends(before: seq<int>, x: int, prev: int)
    requires before != [] && forall j :: 0 <= j < |before| ==> Pushed(before, j, |before|) <= prev
    requires exists j :: 0 <= j < |before| && Pushed(before, j, |before|) == prev
    ensures prev < StampOf(Some(prev), x) <==> NoneBehind(before, 0, x)
  {
    var j :| 0 <= j < |before| && Pushed(before, j, |before|) == prev;
    hide Pushed;
    assert NoneBehind(before, 0, x) ==> prev - x / SECOND < 60;
  }

  /** A run at x is no minute behind the runs from f on. */
  predicate NoneBehind(before: seq<int>, f: nat, x: int) {
    forall j :: f <= j < |before| ==> Pushed(before, j, |before|) - x / SECOND < 60
  }

  // ---- when two runs share a stamp -----------------------------------------------------------------------

  /** The run with which the stretch of the last run begins: a run begins a new one when
      it is a minute or more behind what a run of the stretch before asks for. */
  function First(starts: seq<int>): (f: nat)
    requires starts != []
    ensures f < |starts|
  {
    var n := |starts|;
    if n == 1 then 0
    else
      var f := First(starts[..n - 1]);
      if NoneBehind(starts[..n - 1], f, starts[n - 1]) then f else n - 1
  }

  /** The latest second that the runs from f to k - 1 ask for. */
  function Latest(starts: seq<int>, f: nat, k: nat): int
    requires f < k <= |starts|
  {
    var p := Pushed(starts, k - 1, |starts|);
    if k == f + 1 then p
    else
      var g := Latest(starts, f, k - 1);
      if g < p then p else g
  }

  /** What the stretch of the last run asks for. */
  function Asked(starts: seq<int>): int
    requires starts != []
  {
    Latest(starts, First(starts), |starts|)
  }

  lemma {:induction false} LatestIs(starts: seq<int>, f: nat, k: nat)
    requires f < k <= |starts|
    ensures var g := Latest(starts, f, k);
            && (forall j :: f <= j < k ==> Pushed(starts, j, |starts|) <= g)
            && exists j :: f <= j < k && Pushed(starts, j, |starts|) == g
  {
    if k > f + 1 {
      LatestIs(starts, f, k - 1);
    } else {
      assert Pushed(starts, f, |starts|) == Latest(starts, f, k);
    }
  }

  /** What the stretch of the last run asks for, one run later. */
  lemma {:induction false} LatestNext(starts: seq<int>, f: nat, k: nat)
    requires f < k < |starts|
    ensures Latest(starts, f, k) == Latest(starts[..|starts| - 1], f, k) + 1
  {
    if k > f + 1 {
      LatestNext(starts, f, k - 1);
    }
  }

  /** The stamp of a run is the latest second that its stretch asks for. */
  lemma {:induction false} StampIsAsked(starts: seq<int>)
    requires starts != []
    ensures Stamps(starts)[|starts| - 1] == Asked(starts)
  {
    var n := |starts|;
    if n > 1 {
      var before := starts[..n - 1];
      var prev := Stamps(before)[n - 2];
      var f := First(before);
      StampIsAsked(before);
      assert Stamps(starts)[n - 1] == StampOf(Some(prev), starts[n - 1]);
      LatestIs(before, f, n - 1);
      LatestNext(starts, f, n - 1);
      hide Stamps, Latest;
      var j :| f <= j < n - 1 && Pushed(before, j, n - 1) == prev;
      assert NoneBehind(before, f, starts[n - 1]) <==> prev - starts[n - 1] / SECOND < 60 by {
        hide Pushed;
      }
      AskedNext(starts, f);
    }
  }

  lemma AskedNext(starts: seq<int>, f: nat)
    requires f < |starts| - 1
    ensures var at := starts[|starts| - 1] / SECOND;
            && Latest(starts, |starts| - 1, |starts|) == at
            && var g := Latest(starts, f, |starts| - 1); Latest(starts, f, |starts|) == if g < at then at else g
  {
  }

  /** The runs up to run i. */
  function UpTo(starts: seq<int>, i: nat): seq<int>
    requires i < |starts|
  {
    starts[..i + 1]
  }

  lemma {:induction false} StampAt(starts: seq<int>, i: nat)
    requires i < |starts|
    ensures Stamps(starts)[i] == Asked(UpTo(starts, i))
  {
    if i == |starts| - 1 {
      assert UpTo(starts, i) == starts;
      StampIsAsked(starts);
    } else {
      var before := starts[..|starts| - 1];
      assert UpTo(before, i) == UpTo(starts, i);
      StampAt(before, i);
    }
  }

  /** In one stretch a later run asks for a later second. */
  lemma InOneStretch(starts: seq<int>, i: nat, j: nat)
    requires i < j < |starts| && First(UpTo(starts, i)) == First(UpTo(starts, j))
    ensures Asked(UpTo(starts, i)) < Asked(UpTo(starts, j))
  {
    var p, q := UpTo(starts, i), UpTo(starts, j);
    var f := First(p);
    LatestIs(p, f, i + 1);
    LatestIs(q, f, j + 1);
    var k :| f <= k < i + 1 && Pushed(p, k, |p|) == Asked(p);
    assert Pushed(q, k, |q|) == Pushed(p, k, |p|) + (j - i);
  }

  /** Exactly when the backup of run j replaces the one of run i: the two are of
      different stretches that ask for the same second. */
  lemma {:induction false} SharedExactly(starts: seq<int>, i: nat, j: nat)
    requires i < j < |starts|
    ensures Stamps(starts)[i] == Stamps(starts)[j]
       <==> First(UpTo(starts, i)) != First(UpTo(starts, j)) && Asked(UpTo(starts, i)) == Asked(UpTo(starts, j))
  {
    StampAt(starts, i);
    StampAt(starts, j);
    if First(UpTo(starts, i)) == First(UpTo(starts, j)) {
      InOneStretch(starts, i, j);
    }
  }

  /** Without a long way back all runs are one stretch, so no two share a stamp. */
  lemma {:induction false} OneStretch(starts: seq<int>)
    requires starts != [] && NoLongWayBack(starts)
    ensures First(starts) == 0
    ensures forall i, j :: 0 <= i < j < |starts| ==> Stamps(starts)[i] != Stamps(starts)[j]
  {
    StampsAscendExactly(starts);
    if |starts| > 1 {
      PrefixBack(starts);
      OneStretch(starts[..|starts| - 1]);
    }
  }

  /** A long way back need not make two runs share a stamp. */
  lemma LongWayBackUnshared()
    ensures var starts := [1000 * SECOND, 900 * SECOND, 2000 * SECOND];
            !NoLongWayBack(starts) && Stamps(starts) == [1000, 900, 2000]
  {
    var a, b, c := 1000 * SECOND, 900 * SECOND, 2000 * SECOND;
    assert [a][..0] == [] && [a, b][..1] == [a] && [a, b, c][..2] == [a, b];
    assert Stamps([a]) == [1000];
    assert Stamps([a, b]) == [1000, 900];
    assert !Back([a, b, c], 0, 1);
  }

  /** A clock set back by 100 seconds between two runs: a third run has the stamp of the
      first, and its backup replaces it. */
  lemma StampShared()
    ensures Stamps([1000 * SECOND, 900 * SECOND, 1000 * SECOND]) == [1000, 900, 1000]
  {
    var a, b, c := 1000 * SECOND, 900 * SECOND, 1000 * SECOND;
    assert [a][..0] == [] && [a, b][..1] == [a] && [a, b, c][..2] == [a, b];
    assert Stamps([a]) == [1000];
    assert Stamps([a, b]) == [1000, 900];
  }
}

/**
 Recurring schedules: a tick selects the due rows, oldest first, and fires each one once, which records the
 occurrence, inserts a run with its job and moves the schedule on by one period.  A tick is one transaction
 without savepoints: when an occurrence is recorded already, the failed insert aborts all of it.
 */
module Scheduler {
  import opened Wrappers
  import opened Sums

  type RunId = nat
  type JobId = nat

  /** Times and periods in milliseconds; schedules are named by their place in the identifier order. */
  datatype Schedule = Schedule(enabled: bool, next: int, period: Period, last: Option<int>)

  type Period = p: int | p > 0 witness 1

  datatype Rows = Rows(schedules: seq<Schedule>, occurrences: map<(nat, int), RunId>,
                       runs: map<RunId, nat>, jobs: map<JobId, RunId>)

  const EMPTY := Rows([], map[], map[], map[])

  predicate Due(c: Schedule, now: int) {
    c.enabled && c.next <= now
  }

  /******* The ordered, limited selection *******/

  predicate Earlier(schedules: seq<Schedule>, i: nat, j: nat)
    requires i < |schedules| && j < |schedules|
  {
    schedules[i].next < schedules[j].next || (schedules[i].next == schedules[j].next && i <= j)
  }

  predicate InRange(schedules: seq<Schedule>, rows: seq<nat>) {
    forall k | 0 <= k < |rows| :: rows[k] < |schedules|
  }

  function InsertRow(schedules: seq<Schedule>, i: nat, rows: seq<nat>): (r: seq<nat>)
    requires i < |schedules| && InRange(schedules, rows)
    ensures InRange(schedules, r)
  {
    if rows == [] || Earlier(schedules, i, rows[0]) then [i] + rows
    else [rows[0]] + InsertRow(schedules, i, rows[1..])
  }

  function DueRows(schedules: seq<Schedule>, n: nat, now: int): (rows: seq<nat>)
    requires n <= |schedules|
    ensures InRange(schedules, rows)
  {
    if n == 0 then []
    else if Due(schedules[n - 1], now) then InsertRow(schedules, n - 1, DueRows(schedules, n - 1, now))
    else DueRows(schedules, n - 1, now)
  }

  function Selected(s: Rows, now: int, limit: nat): seq<nat> {
    var due := DueRows(s.schedules, |s.schedules|, now);
    if |due| <= limit then due else due[..limit]
  }

  predicate OldestFirst(schedules: seq<Schedule>, rows: seq<nat>)
    requires InRange(schedules, rows)
  {
    forall k, l | 0 <= k < l < |rows| :: Earlier(schedules, rows[k], rows[l]) && rows[k] != rows[l]
  }

  lemma {:induction false} InsertRowMembers(schedules: seq<Schedule>, i: nat, rows: seq<nat>, x: nat)
    requires i < |schedules| && InRange(schedules, rows)
    ensures x in InsertRow(schedules, i, rows) <==> x == i || x in rows
  {
    if rows == [] || Earlier(schedules, i, rows[0]) {
    } else {
      InsertRowMembers(schedules, i, rows[1..], x);
    }
  }

  lemma {:induction false} InsertRowSorts(schedules: seq<Schedule>, i: nat, rows: seq<nat>)
    requires i < |schedules| && InRange(schedules, rows) && OldestFirst(schedules, rows) && i !in rows
    ensures OldestFirst(schedules, InsertRow(schedules, i, rows))
  {
    if rows == [] || Earlier(schedules, i, rows[0]) {
    } else {
      InsertRowSorts(schedules, i, rows[1..]);
      var rest := InsertRow(schedules, i, rows[1..]);
      forall k | 0 <= k < |rest| ensures Earlier(schedules, rows[0], rest[k]) && rows[0] != rest[k] {
        InsertRowMembers(schedules, i, rows[1..], rest[k]);
      }
    }
  }

  lemma {:induction false} DueRowsMembers(schedules: seq<Schedule>, n: nat, now: int, x: nat)
    requires n <= |schedules|
    ensures x in DueRows(schedules, n, now) <==> x < n && Due(schedules[x], now)
  {
    if n > 0 {
      DueRowsMembers(schedules, n - 1, now, x);
      if Due(schedules[n - 1], now) { InsertRowMembers(schedules, n - 1, DueRows(schedules, n - 1, now), x); }
    }
  }

  lemma {:induction false} DueRowsSorted(schedules: seq<Schedule>, n: nat, now: int)
    requires n <= |schedules|
    ensures OldestFirst(schedules, DueRows(schedules, n, now))
  {
    if n > 0 {
      DueRowsSorted(schedules, n - 1, now);
      if Due(schedules[n - 1], now) {
        DueRowsMembers(schedules, n - 1, now, n - 1);
        InsertRowSorts(schedules, n - 1, DueRows(schedules, n - 1, now));
      }
    }
  }

  /** A tick selects distinct due rows, as many as the limit allows, and none while an earlier due row is left out. */
  lemma SelectionRight(s: Rows, now: int, limit: nat)
    ensures var rows := Selected(s, now, limit);
            && InRange(s.schedules, rows) && OldestFirst(s.schedules, rows)
            && (forall k, l | 0 <= k < l < |rows| ::
                  var a, b := s.schedules[rows[k]].next, s.schedules[rows[l]].next;
                  a <= b && (a == b ==> rows[k] < rows[l]))
            && (forall k | 0 <= k < |rows| :: Due(s.schedules[rows[k]], now))
            && |rows| <= limit
            && (forall x: nat | x < |s.schedules| && Due(s.schedules[x], now) && x !in rows ::
                  |rows| == limit && forall k | 0 <= k < |rows| :: Earlier(s.schedules, rows[k], x))
  {
    DueRowsSorted(s.schedules, |s.schedules|, now);
    forall x: nat
      ensures x in DueRows(s.schedules, |s.schedules|, now) <==> x < |s.schedules| && Due(s.schedules[x], now)
    {
      DueRowsMembers(s.schedules, |s.schedules|, now, x);
    }
    var due := DueRows(s.schedules, |s.schedules|, now);
    var rows := Selected(s, now, limit);
    forall k | 0 <= k < |rows| ensures Due(s.schedules[rows[k]], now) { assert rows[k] in due; }
    forall x: nat | x < |s.schedules| && Due(s.schedules[x], now) && x !in rows
      ensures |rows| == limit && forall k | 0 <= k < |rows| :: Earlier(s.schedules, rows[k], x)
    {
      assert x in due;
      var l :| 0 <= l < |due| && due[l] == x;
      assert limit <= l;
    }
  }

  /******* Firing *******/

  predicate Recorded(s: Rows, i: nat, at: int) {
    (i, at) in s.occurrences
  }

  /** What a fired row inserts and updates. */
  function Advance(s: Rows, i: nat, run: RunId, job: JobId): Rows
    requires i < |s.schedules|
  {
    var c := s.schedules[i];
    s.(runs := s.runs[run := i], occurrences := s.occurrences[(i, c.next) := run], jobs := s.jobs[job := run],
       schedules := s.schedules[i := c.(last := Some(c.next), next := c.next + c.period)])
  }

  /** The occurrence that row `i` is due for is recorded already. */
  predicate Stuck(s: Rows, i: nat)
    requires i < |s.schedules|
  {
    Recorded(s, i, s.schedules[i].next)
  }

  /** Firing these rows violates the key of the occurrences. */
  predicate Blocked(s: Rows, rows: seq<nat>)
    requires InRange(s.schedules, rows)
  {
    exists k :: 0 <= k < |rows| && Stuck(s, rows[k])
  }

  predicate Fresh(s: Rows, draws: seq<(RunId, JobId)>) {
    && (forall k | 0 <= k < |draws| :: draws[k].0 !in s.runs && draws[k].1 !in s.jobs)
    && (forall k, l | 0 <= k < l < |draws| :: draws[k].0 != draws[l].0 && draws[k].1 != draws[l].1)
  }

  function FireAll(s: Rows, rows: seq<nat>, draws: seq<(RunId, JobId)>): (t: Rows)
    requires InRange(s.schedules, rows) && |rows| <= |draws|
    ensures |t.schedules| == |s.schedules|
    decreases |rows|
  {
    if rows == [] then s else FireAll(Advance(s, rows[0], draws[0].0, draws[0].1), rows[1..], draws[1..])
  }

  predicate Drawn(s: Rows, now: int, limit: nat, draws: seq<(RunId, JobId)>) {
    |Selected(s, now, limit)| <= |draws| && Fresh(s, draws)
  }

  datatype Event =
    | Tick(now: int, limit: nat, draws: seq<(RunId, JobId)>)
    | Create(first: int, period: Period)
    | Set(schedule: nat, enabled: bool, next: Option<int>)

  function Step(s: Rows, e: Event): Rows {
    match e
    case Tick(now, limit, draws) =>
      SelectionRight(s, now, limit);
      var rows := Selected(s, now, limit);
      if Drawn(s, now, limit, draws) && !Blocked(s, rows) then FireAll(s, rows, draws) else s
    case Create(first, period) => s.(schedules := s.schedules + [Schedule(true, first, period, None)])
    case Set(i, enabled, next) =>
      if i >= |s.schedules| then s
      else
        var c := s.schedules[i];
        s.(schedules := s.schedules[i := c.(enabled := enabled, next := if next.Some? then next.value else c.next)])
  }

  function After(s: Rows, events: seq<Event>): Rows
    decreases |events|
  {
    if events == [] then s else After(Step(s, events[0]), events[1..])
  }

  /******* What is recorded exists *******/

  function JobsOf(jobs: map<JobId, RunId>, run: RunId): set<JobId> {
    set j | j in jobs && jobs[j] == run
  }

  ghost predicate RecordOk(s: Rows, key: (nat, int))
    requires key in s.occurrences
  {
    var run := s.occurrences[key];
    key.0 < |s.schedules| && run in s.runs && s.runs[run] == key.0 && |JobsOf(s.jobs, run)| == 1
  }

  ghost predicate Inv(s: Rows) {
    && (forall key | key in s.occurrences :: RecordOk(s, key))
    && (forall a, b | a in s.occurrences && b in s.occurrences && a != b :: s.occurrences[a] != s.occurrences[b])
    && (forall j | j in s.jobs :: s.jobs[j] in s.runs)
  }

  lemma JobsOfOther(jobs: map<JobId, RunId>, run: RunId, newRun: RunId, job: JobId)
    requires job !in jobs && run != newRun
    ensures JobsOf(jobs[job := newRun], run) == JobsOf(jobs, run)
  {
  }

  lemma NewRecord(s: Rows, i: nat, run: RunId, job: JobId)
    requires Inv(s) && i < |s.schedules| && run !in s.runs && job !in s.jobs
    ensures RecordOk(Advance(s, i, run, job), (i, s.schedules[i].next))
  {
    var t := Advance(s, i, run, job);
    assert JobsOf(t.jobs, run) == {job};
  }

  lemma OldRecord(s: Rows, i: nat, run: RunId, job: JobId, key: (nat, int))
    requires Inv(s) && i < |s.schedules| && run !in s.runs && job !in s.jobs
    requires key in s.occurrences && key != (i, s.schedules[i].next)
    ensures RecordOk(Advance(s, i, run, job), key) && s.occurrences[key] != run
  {
    assert RecordOk(s, key);
    JobsOfOther(s.jobs, s.occurrences[key], run, job);
  }

  lemma AdvanceKeepsInv(s: Rows, i: nat, run: RunId, job: JobId)
    requires Inv(s) && i < |s.schedules| && run !in s.runs && job !in s.jobs
    ensures Inv(Advance(s, i, run, job))
  {
    var t := Advance(s, i, run, job);
    var added := (i, s.schedules[i].next);
    forall key | key in t.occurrences ensures RecordOk(t, key) && (key != added ==> t.occurrences[key] != run) {
      if key == added { NewRecord(s, i, run, job); } else { OldRecord(s, i, run, job, key); }
    }
  }

  lemma AdvanceKeepsFresh(s: Rows, i: nat, draws: seq<(RunId, JobId)>)
    requires i < |s.schedules| && draws != [] && Fresh(s, draws)
    ensures Fresh(Advance(s, i, draws[0].0, draws[0].1), draws[1..])
  {
  }

  lemma {:induction false} FireAllKeepsInv(s: Rows, rows: seq<nat>, draws: seq<(RunId, JobId)>)
    requires Inv(s) && InRange(s.schedules, rows) && |rows| <= |draws| && Fresh(s, draws)
    ensures Inv(FireAll(s, rows, draws))
    decreases |rows|
  {
    if rows != [] {
      AdvanceKeepsInv(s, rows[0], draws[0].0, draws[0].1);
      AdvanceKeepsFresh(s, rows[0], draws);
      FireAllKeepsInv(Advance(s, rows[0], draws[0].0, draws[0].1), rows[1..], draws[1..]);
    }
  }

  lemma StepKeepsInv(s: Rows, e: Event)
    requires Inv(s)
    ensures Inv(Step(s, e))
  {
    var t := Step(s, e);
    match e
    case Tick(now, limit, draws) =>
      SelectionRight(s, now, limit);
      if Drawn(s, now, limit, draws) {
        FireAllKeepsInv(s, Selected(s, now, limit), draws);
      }
    case Create(_, _) => KeepRecords(s, t);
    case Set(_, _, _) => KeepRecords(s, t);
  }

  lemma KeepRecords(s: Rows, t: Rows)
    requires Inv(s) && t == s.(schedules := t.schedules) && |t.schedules| >= |s.schedules|
    ensures Inv(t)
  {
  }

  /** In every run each recorded occurrence has its own run, and that run exactly one job. */
  lemma {:induction false} InvAlways(s: Rows, events: seq<Event>)
    requires Inv(s)
    ensures Inv(After(s, events)) && |After(s, events).schedules| >= |s.schedules|
    decreases |events|
  {
    if events != [] {
      StepKeepsInv(s, events[0]);
      if events[0].Tick? { SelectionRight(s, events[0].now, events[0].limit); }
      InvAlways(Step(s, events[0]), events[1..]);
    }
  }

  /******* One schedule through a run *******/

  predicate Selects(s: Rows, e: Event, i: nat) {
    e.Tick? && i < |s.schedules| && Drawn(s, e.now, e.limit, e.draws) && i in Selected(s, e.now, e.limit)
  }

  /** The tick selects row `i`, and no selected row aborts it. */
  predicate Fires(s: Rows, e: Event, i: nat) {
    Selects(s, e, i) && (SelectionRight(s, e.now, e.limit); !Blocked(s, Selected(s, e.now, e.limit)))
  }

  predicate Moves(e: Event, i: nat) {
    e.Set? && e.schedule == i && e.next.Some?
  }

  lemma {:induction false} FireAllEffect(s: Rows, rows: seq<nat>, draws: seq<(RunId, JobId)>, i: nat)
    requires InRange(s.schedules, rows) && |rows| <= |draws| && i < |s.schedules|
    requires forall k, l | 0 <= k < l < |rows| :: rows[k] != rows[l]
    ensures var t := FireAll(s, rows, draws);
            var fires := i in rows;
            var c := s.schedules[i];
            && t.schedules[i] == (if fires then c.(last := Some(c.next), next := c.next + c.period) else c)
            && forall at :: Recorded(t, i, at) <==> Recorded(s, i, at) || (fires && at == c.next)
    decreases |rows|
  {
    if rows != [] {
      FireAllEffect(Advance(s, rows[0], draws[0].0, draws[0].1), rows[1..], draws[1..], i);
    }
  }

  /** What one event does to one schedule: at most one firing, which records the occurrence it was due for. */
  lemma StepEffect(s: Rows, e: Event, i: nat)
    requires i < |s.schedules| && !Moves(e, i)
    ensures var t := Step(s, e);
            var c := s.schedules[i];
            && i < |t.schedules| && t.schedules[i].period == c.period
            && t.schedules[i].next == (if Fires(s, e, i) then c.next + c.period else c.next)
            && forall at :: Recorded(t, i, at) <==> Recorded(s, i, at) || (Fires(s, e, i) && at == c.next)
  {
    if e.Tick? {
      SelectionRight(s, e.now, e.limit);
      if Drawn(s, e.now, e.limit, e.draws) { FireAllEffect(s, Selected(s, e.now, e.limit), e.draws, i); }
    }
  }

  /** A tick fires all the rows it selects or none: none exactly when one of them is stuck. */
  lemma TickAllOrNothing(s: Rows, e: Event, i: nat)
    requires Selects(s, e, i)
    ensures InRange(s.schedules, Selected(s, e.now, e.limit))
    ensures var blocked := Blocked(s, Selected(s, e.now, e.limit));
            && (Fires(s, e, i) <==> !blocked)
            && (Step(s, e) == s <==> blocked)
  {
    SelectionRight(s, e.now, e.limit);
    StepEffect(s, e, i);
  }

  /** One stuck row that a tick selects keeps every schedule from firing in it. */
  lemma StuckStopsTick(s: Rows, e: Event, i: nat)
    requires e.Tick? && i < |s.schedules| && Stuck(s, i) && i in Selected(s, e.now, e.limit)
    ensures Step(s, e) == s
  {
    SelectionRight(s, e.now, e.limit);
    var rows := Selected(s, e.now, e.limit);
    var k :| 0 <= k < |rows| && rows[k] == i;
    assert Stuck(s, rows[k]);
  }

  /** Enabled is what the last edit says. */
  lemma EnabledKept(s: Rows, e: Event, i: nat)
    requires i < |s.schedules|
    ensures i < |Step(s, e).schedules|
    ensures Step(s, e).schedules[i].enabled ==
            if e.Set? && e.schedule == i then e.enabled else s.schedules[i].enabled
  {
    if e.Tick? {
      SelectionRight(s, e.now, e.limit);
      if Drawn(s, e.now, e.limit, e.draws) { FireAllKeepsEnabled(s, Selected(s, e.now, e.limit), e.draws, i); }
    }
  }

  lemma {:induction false} FireAllKeepsEnabled(s: Rows, rows: seq<nat>, draws: seq<(RunId, JobId)>, i: nat)
    requires InRange(s.schedules, rows) && |rows| <= |draws| && i < |s.schedules|
    ensures FireAll(s, rows, draws).schedules[i].enabled == s.schedules[i].enabled
    decreases |rows|
  {
    if rows != [] { FireAllKeepsEnabled(Advance(s, rows[0], draws[0].0, draws[0].1), rows[1..], draws[1..], i); }
  }

  lemma SelectedDue(s: Rows, now: int, limit: nat, i: nat)
    ensures i in Selected(s, now, limit) ==> i < |s.schedules| && Due(s.schedules[i], now)
  {
    SelectionRight(s, now, limit);
  }

  /** A schedule that is paused does not fire until someone enables it. */
  lemma {:induction false} PausedNeverFires(s: Rows, events: seq<Event>, i: nat)
    requires i < |s.schedules| && !s.schedules[i].enabled
    requires forall k | 0 <= k < |events| :: !(events[k].Set? && events[k].schedule == i && events[k].enabled)
    ensures Firings(s, events, i) == 0
    decreases |events|
  {
    if events != [] {
      var e := events[0];
      EnabledKept(s, e, i);
      if e.Tick? { SelectedDue(s, e.now, e.limit, i); }
      PausedNeverFires(Step(s, e), events[1..], i);
    }
  }

  predicate OldestEnabled(s: Rows, i: nat) {
    && i < |s.schedules| && s.schedules[i].enabled
    && forall x: nat | x < |s.schedules| && s.schedules[x].enabled && x != i :: !Earlier(s.schedules, x, i)
  }

  lemma OldestSelected(s: Rows, i: nat, now: int, limit: nat)
    requires OldestEnabled(s, i)
    ensures Selected(s, now, limit) != [] ==> i in Selected(s, now, limit)
  {
    SelectionRight(s, now, limit);
    var rows := Selected(s, now, limit);
    if rows != [] && rows[0] != i {
      assert Due(s.schedules[rows[0]], now) && !Earlier(s.schedules, rows[0], i);
      assert Due(s.schedules[i], now);
    }
  }

  /**
   A stuck schedule whose next time is the oldest stops the scheduler: no number of ticks, at any times and with
   any limits, fires anything, until someone edits a schedule.
   */
  lemma {:induction false} StuckOldestStopsAll(s: Rows, events: seq<Event>, i: nat)
    requires OldestEnabled(s, i) && Stuck(s, i)
    requires forall k | 0 <= k < |events| :: events[k].Tick?
    ensures After(s, events) == s
    decreases |events|
  {
    if events != [] {
      var e := events[0];
      SelectionRight(s, e.now, e.limit);
      var rows := Selected(s, e.now, e.limit);
      if i in rows {
        StuckStopsTick(s, e, i);
      } else {
        OldestSelected(s, i, e.now, e.limit);
      }
      StuckOldestStopsAll(s, events[1..], i);
    }
  }

  predicate Unmoved(events: seq<Event>, i: nat) {
    forall k | 0 <= k < |events| :: !Moves(events[k], i)
  }

  function Firings(s: Rows, events: seq<Event>, i: nat): nat
    decreases |events|
  {
    if events == [] then 0
    else (if Fires(s, events[0], i) then 1 else 0) + Firings(Step(s, events[0]), events[1..], i)
  }

  function TimeOf(first: int, period: int, j: int): int {
    first + j * period
  }

  lemma TimeSteps(first: int, period: int, j: int)
    ensures TimeOf(first, period, j + 1) == TimeOf(first, period, j) + period
    ensures TimeOf(first + period, period, j) == TimeOf(first, period, j + 1)
  {
  }

  lemma {:induction false} TimeOrder(first: int, period: Period, j: int, k: int)
    requires j < k
    ensures TimeOf(first, period, j) < TimeOf(first, period, k)
    decreases k - j
  {
  }

  /** The state of a schedule that started at `first` and has fired `k` times. */
  ghost predicate Regular(s: Rows, i: nat, first: int, k: nat) {
    && i < |s.schedules|
    && s.schedules[i].next == TimeOf(first, s.schedules[i].period, k)
    && (forall j: nat | j < k :: Recorded(s, i, TimeOf(first, s.schedules[i].period, j)))
    && (forall at | Recorded(s, i, at) :: exists j: nat :: j < k && at == TimeOf(first, s.schedules[i].period, j))
  }

  lemma RegularNotRecorded(s: Rows, i: nat, first: int, k: nat)
    requires Regular(s, i, first, k)
    ensures !Recorded(s, i, s.schedules[i].next)
  {
  }

  lemma RegularKept(s: Rows, e: Event, i: nat, first: int, k: nat)
    requires Regular(s, i, first, k) && !Moves(e, i)
    ensures Regular(Step(s, e), i, first, if Fires(s, e, i) then k + 1 else k)
  {
    StepEffect(s, e, i);
    var t := Step(s, e);
    var p := s.schedules[i].period;
    TimeSteps(first, p, k);
    forall at | Recorded(t, i, at)
      ensures exists j: nat :: j < (if Fires(s, e, i) then k + 1 else k) && at == TimeOf(first, p, j)
    {
      if !Recorded(s, i, at) { assert at == TimeOf(first, p, k); }
    }
  }

  /**
   An unedited schedule that started at `first` and has fired `k` times has recorded exactly the occurrences
   first, first + P, ..., first + (k - 1) P, is next due at first + k P, and finds that time unrecorded.
   */
  lemma {:induction false} ScheduleArithmetic(s: Rows, events: seq<Event>, i: nat, first: int, k: nat)
    requires Regular(s, i, first, k) && Unmoved(events, i)
    ensures var u := After(s, events);
            && Regular(u, i, first, k + Firings(s, events, i))
            && !Recorded(u, i, u.schedules[i].next)
    decreases |events|
  {
    if events == [] {
      RegularNotRecorded(s, i, first, k);
    } else {
      RegularKept(s, events[0], i, first, k);
      ScheduleArithmetic(Step(s, events[0]), events[1..], i, first, if Fires(s, events[0], i) then k + 1 else k);
    }
  }

  /** A new schedule is regular from its first time on. */
  lemma CreatedRegular(s: Rows, first: int, period: Period)
    requires Inv(s)
    ensures Regular(Step(s, Create(first, period)), |s.schedules|, first, 0)
  {
  }

  /** While it is enabled it is due at `now` exactly until floor((now - first) / P) + 1 firings have happened. */
  lemma DueExactlyUntil(s: Rows, i: nat, first: int, k: nat, now: int)
    requires Regular(s, i, first, k) && s.schedules[i].enabled
    ensures Due(s.schedules[i], now) <==> k < (now - first) / s.schedules[i].period + 1
  {
    QuotientBound(now - first, s.schedules[i].period, k);
  }

  lemma QuotientBound(x: int, p: Period, k: int)
    ensures k * p <= x <==> k <= x / p
  {
    var q := x / p;
    assert q * p <= x < (q + 1) * p;
    if k <= q { assert k * p <= q * p; } else { assert k * p >= (q + 1) * p; }
  }

  /******* Edited schedules *******/

  /** None of the times still to come is recorded already. */
  ghost predicate Clear(s: Rows, i: nat)
    requires i < |s.schedules|
  {
    forall j: nat :: !Recorded(s, i, TimeOf(s.schedules[i].next, s.schedules[i].period, j))
  }

  /**
   A clear schedule stays clear, and a tick that selects it fires it exactly when none of the selected
   rows is stuck.
   */
  lemma ClearKept(s: Rows, e: Event, i: nat)
    requires i < |s.schedules| && Clear(s, i) && !Moves(e, i)
    ensures i < |Step(s, e).schedules| && Clear(Step(s, e), i)
    ensures Selects(s, e, i) ==>
              && InRange(s.schedules, Selected(s, e.now, e.limit))
              && (Fires(s, e, i) <==> !Blocked(s, Selected(s, e.now, e.limit)))
              && !Stuck(s, i)
  {
    if Selects(s, e, i) { TickAllOrNothing(s, e, i); }
    StepEffect(s, e, i);
    var c, t := s.schedules[i], Step(s, e);
    assert TimeOf(c.next, c.period, 0) == c.next;
    forall j: nat ensures !Recorded(t, i, TimeOf(t.schedules[i].next, c.period, j)) {
      if Fires(s, e, i) {
        TimeSteps(c.next, c.period, j);
        TimeOrder(c.next, c.period, 0, j + 1);
      }
    }
  }

  /** A schedule whose `j`-th time to come is recorded fires at most `j` more times, ever, unless it is moved again. */
  lemma {:induction false} RecordedTimeBlocks(s: Rows, events: seq<Event>, i: nat, j: nat)
    requires i < |s.schedules| && Unmoved(events, i)
    requires Recorded(s, i, TimeOf(s.schedules[i].next, s.schedules[i].period, j))
    ensures Firings(s, events, i) <= j
    decreases |events|
  {
    if events != [] {
      var c := s.schedules[i];
      StepEffect(s, events[0], i);
      assert TimeOf(c.next, c.period, 0) == c.next;
      if Fires(s, events[0], i) {
        TimeSteps(c.next, c.period, j - 1);
        RecordedTimeBlocks(Step(s, events[0]), events[1..], i, j - 1);
      } else {
        RecordedTimeBlocks(Step(s, events[0]), events[1..], i, j);
      }
    }
  }

  /** Moving a schedule back onto a time it has fired for stops it for good. */
  lemma MovedBackSticks(s: Rows, i: nat, first: int, k: nat, j: nat, enabled: bool, events: seq<Event>)
    requires Regular(s, i, first, k) && j < k && Unmoved(events, i)
    ensures var moved := Step(s, Set(i, enabled, Some(TimeOf(first, s.schedules[i].period, j))));
            Firings(moved, events, i) == 0
  {
    var moved := Step(s, Set(i, enabled, Some(TimeOf(first, s.schedules[i].period, j))));
    var c := moved.schedules[i];
    assert TimeOf(c.next, c.period, 0) == c.next;
    RecordedTimeBlocks(moved, events, i, 0);
  }

  /******* Clearing a backlog *******/

  /** How often schedule `c` still has to fire before it is no longer due at `now`. */
  function Overdue(c: Schedule, now: int): nat {
    if Due(c, now) then (now - c.next) / c.period + 1 else 0
  }

  function OverdueOf(s: Rows, now: int): nat -> int {
    (i: nat) => if i < |s.schedules| then Overdue(s.schedules[i], now) else 0
  }

  function Backlog(s: Rows, now: int): int {
    Sum(|s.schedules|, OverdueOf(s, now))
  }

  lemma OverdueFalls(c: Schedule, now: int)
    requires Due(c, now)
    ensures Overdue(c.(last := Some(c.next), next := c.next + c.period), now) == Overdue(c, now) - 1
  {
    var x, p := now - c.next, c.period;
    var q := x / p;
    QuotientBound(x, p, q);
    QuotientBound(x, p, q + 1);
    if x >= p {
      var r := (x - p) / p;
      QuotientBound(x - p, p, r);
      QuotientBound(x - p, p, r + 1);
      QuotientBound(x - p, p, q - 1);
      QuotientBound(x, p, r + 1);
      QuotientBound(x, p, r + 2);
      assert (q - 1) * p == q * p - p && (r + 1) * p == r * p + p && (r + 2) * p == (r + 1) * p + p;
    } else {
      QuotientBound(x, p, 1);
    }
  }

  ghost predicate AllClear(s: Rows) {
    forall i | 0 <= i < |s.schedules| :: Clear(s, i)
  }

  /** With all schedules clear no tick is aborted. */
  lemma ClearNotBlocked(s: Rows, rows: seq<nat>)
    requires AllClear(s) && InRange(s.schedules, rows)
    ensures !Blocked(s, rows)
  {
    forall k | 0 <= k < |rows| ensures !Stuck(s, rows[k]) {
      var c := s.schedules[rows[k]];
      assert Clear(s, rows[k]) && TimeOf(c.next, c.period, 0) == c.next;
    }
  }

  lemma AdvanceKeepsClear(s: Rows, i: nat, run: RunId, job: JobId)
    requires AllClear(s) && i < |s.schedules|
    ensures AllClear(Advance(s, i, run, job))
  {
    var c, t := s.schedules[i], Advance(s, i, run, job);
    assert Clear(s, i) && TimeOf(c.next, c.period, 0) == c.next;
    forall k | 0 <= k < |t.schedules| ensures Clear(t, k) {
      assert Clear(s, k);
      if k == i {
        forall j: nat ensures !Recorded(t, i, TimeOf(t.schedules[i].next, c.period, j)) {
          TimeSteps(c.next, c.period, j);
          TimeOrder(c.next, c.period, 0, j + 1);
        }
      }
    }
  }

  /** Each selected row takes exactly one firing off the backlog. */
  lemma {:induction false} FireAllWorks(s: Rows, rows: seq<nat>, draws: seq<(RunId, JobId)>, now: int)
    requires AllClear(s) && InRange(s.schedules, rows) && |rows| <= |draws|
    requires forall k, l | 0 <= k < l < |rows| :: rows[k] != rows[l]
    requires forall k | 0 <= k < |rows| :: Due(s.schedules[rows[k]], now)
    ensures AllClear(FireAll(s, rows, draws)) && Backlog(FireAll(s, rows, draws), now) == Backlog(s, now) - |rows|
    decreases |rows|
  {
    if rows != [] {
      var i := rows[0];
      var t := Advance(s, i, draws[0].0, draws[0].1);
      AdvanceKeepsClear(s, i, draws[0].0, draws[0].1);
      OverdueFalls(s.schedules[i], now);
      SumPoint(|s.schedules|, OverdueOf(s, now), OverdueOf(t, now), i);
      FireAllWorks(t, rows[1..], draws[1..], now);
    }
  }

  predicate TicksAt(events: seq<Event>, now: int) {
    forall k | 0 <= k < |events| :: events[k].Tick? && events[k].now == now && events[k].limit >= 1
  }

  /** Every tick could draw its fresh identifiers. */
  predicate Supplied(s: Rows, events: seq<Event>)
    decreases |events|
  {
    events != [] ==>
      && (events[0].Tick? ==> Drawn(s, events[0].now, events[0].limit, events[0].draws))
      && Supplied(Step(s, events[0]), events[1..])
  }

  lemma {:induction false} BacklogCovers(s: Rows, now: int, i: nat)
    requires i < |s.schedules|
    ensures Backlog(s, now) >= Overdue(s.schedules[i], now)
  {
    var f := OverdueOf(s, now);
    var none: nat -> int := (k: nat) => if k == i then f(i) else 0;
    SumLeq(|s.schedules|, none, f);
    var zero: nat -> int := (k: nat) => 0;
    SumPoint(|s.schedules|, zero, none, i);
    SumZero(|s.schedules|, zero);
  }

  lemma {:induction false} SumZero(n: nat, f: nat -> int)
    requires forall i: nat | i < n :: f(i) == 0
    ensures Sum(n, f) == 0
  {
    if n > 0 { SumZero(n - 1, f); }
  }

  /**
   A tick at `now` reduces the backlog by the number of rows it selects, so `Backlog` many ticks clear
   everything due.
   */
  lemma {:induction false} TicksClearBacklog(s: Rows, events: seq<Event>, now: int)
    requires AllClear(s) && TicksAt(events, now) && Supplied(s, events) && Backlog(s, now) <= |events|
    ensures var u := After(s, events);
            AllClear(u) && forall i | 0 <= i < |u.schedules| :: !Due(u.schedules[i], now)
    decreases |events|
  {
    if events == [] {
      forall i | 0 <= i < |s.schedules| ensures !Due(s.schedules[i], now) {
        BacklogCovers(s, now, i);
        if Due(s.schedules[i], now) { QuotientBound(now - s.schedules[i].next, s.schedules[i].period, 0); }
      }
    } else {
      var e := events[0];
      SelectionRight(s, now, e.limit);
      var rows := Selected(s, now, e.limit);
      ClearNotBlocked(s, rows);
      FireAllWorks(s, rows, e.draws, now);
      if rows == [] {
        NoRowsNoBacklog(s, now, e.limit);
      }
      TicksClearBacklog(Step(s, e), events[1..], now);
    }
  }

  lemma NoRowsNoBacklog(s: Rows, now: int, limit: nat)
    requires limit >= 1 && Selected(s, now, limit) == []
    ensures Backlog(s, now) == 0
  {
    SelectionRight(s, now, limit);
    forall i: nat | i < |s.schedules| ensures !Due(s.schedules[i], now) {
      assert i !in Selected(s, now, limit);
    }
    SumZero(|s.schedules|, OverdueOf(s, now));
  }

  /******* The service method *******/

  class SchedulerService {
    var schedules: seq<Schedule>
    var occurrences: map<(nat, int), RunId>
    var runs: map<RunId, nat>
    var jobs: map<JobId, RunId>

    function State(): Rows
      reads this
    {
      Rows(schedules, occurrences, runs, jobs)
    }

    constructor ()
      ensures State() == EMPTY && Inv(State())
    {
      schedules, occurrences, runs, jobs := [], map[], map[], map[];
    }

    method CreateSchedule(first: int, period: Period) returns (schedule: nat)
      requires Inv(State())
      modifies this
      ensures Inv(State()) && State() == Step(old(State()), Create(first, period)) && schedule == |old(schedules)|
    {
      StepKeepsInv(State(), Create(first, period));
      schedule := |schedules|;
      schedules := schedules + [Schedule(true, first, period, None)];
    }

    method SetSchedule(i: nat, enabled: bool, moved: Option<int>) returns (reply: Reply<()>)
      requires Inv(State())
      modifies this
      ensures Inv(State()) && State() == Step(old(State()), Set(i, enabled, moved))
      ensures reply == if i < |old(schedules)| then Ok(()) else Refused(NotFound)
    {
      StepKeepsInv(State(), Set(i, enabled, moved));
      if i >= |schedules| {
        return Refused(NotFound);
      }
      var c := schedules[i];
      schedules := schedules[i := c.(enabled := enabled, next := if moved.Some? then moved.value else c.next)];
      reply := Ok(());
    }

    /** One due row: inserts the run, records the occurrence, or fails if that is recorded. */
    method FireRow(i: nat, run: RunId, job: JobId) returns (ok: bool)
      requires i < |schedules| && run !in runs
      modifies this
      ensures ok <==> !Stuck(old(State()), i)
      ensures ok ==> State() == Advance(old(State()), i, run, job)
    {
      var at := schedules[i].next;
      runs := runs[run := i];
      if (i, at) in occurrences {
        return false;
      }
      occurrences := occurrences[(i, at) := run];
      jobs := jobs[job := run];
      schedules := schedules[i := schedules[i].(last := Some(at), next := at + schedules[i].period)];
      ok := true;
    }

    static predicate OncePerRow(rows: seq<nat>) {
      forall k, l | 0 <= k < l < |rows| :: rows[k] != rows[l]
    }

    /** Advancing one row does not make another one stuck. */
    static lemma OthersStuck(s: Rows, rows: seq<nat>, run: RunId, job: JobId)
      requires InRange(s.schedules, rows) && rows != [] && OncePerRow(rows) && !Stuck(s, rows[0])
      ensures Blocked(s, rows) <==> Blocked(Advance(s, rows[0], run, job), rows[1..])
    {
      var t := Advance(s, rows[0], run, job);
      forall k | 0 < k < |rows| ensures Stuck(s, rows[k]) <==> Stuck(t, rows[1..][k - 1]) { }
      if Blocked(s, rows) {
        var k :| 0 <= k < |rows| && Stuck(s, rows[k]);
        assert Stuck(t, rows[1..][k - 1]);
      }
      if Blocked(t, rows[1..]) {
        var k :| 0 <= k < |rows[1..]| && Stuck(t, rows[1..][k]);
        assert Stuck(s, rows[k + 1]);
      }
    }

    /** The loop over the selected rows, up to the first failure. */
    method FireRows(due: seq<nat>, draws: seq<(RunId, JobId)>) returns (ok: bool)
      requires InRange(schedules, due) && |due| <= |draws| && Fresh(State(), draws) && OncePerRow(due)
      modifies this
      ensures ok <==> !Blocked(old(State()), due)
      ensures ok ==> State() == FireAll(old(State()), due, draws)
    {
      ghost var begun := State();
      for k := 0 to |due|
        invariant InRange(schedules, due[k..]) && Fresh(State(), draws[k..]) && OncePerRow(due[k..])
        invariant FireAll(State(), due[k..], draws[k..]) == FireAll(begun, due, draws)
        invariant Blocked(State(), due[k..]) <==> Blocked(begun, due)
      {
        ghost var before := State();
        ok := FireRow(due[k], draws[k].0, draws[k].1);
        if !ok {
          assert Stuck(before, due[k..][0]);
          return;
        }
        assert due[k..][1..] == due[k + 1..] && draws[k..][1..] == draws[k + 1..];
        AdvanceKeepsFresh(before, due[k], draws[k..]);
        OthersStuck(before, due[k..], draws[k].0, draws[k].1);
      }
      ok := true;
    }

    /**
     `draws` are the random identifiers the tick draws.  It returns the number of rows selected, or nothing when
     an occurrence was recorded already and the transaction is rolled back.
     */
    method SchedulerTick(now: int, limit: nat, draws: seq<(RunId, JobId)>) returns (count: Option<nat>)
      requires Inv(State()) && Drawn(State(), now, limit, draws)
      modifies this
      ensures Inv(State()) && State() == Step(old(State()), Tick(now, limit, draws))
      ensures var due := Selected(old(State()), now, limit);
              InRange(old(State()).schedules, due) && count == if Blocked(old(State()), due) then None else Some(|due|)
    {
      StepKeepsInv(State(), Tick(now, limit, draws));
      SelectionRight(State(), now, limit);
      var due := Selected(State(), now, limit);
      var begun := State();
      var ok := FireRows(due, draws);
      if ok {
        return Some(|due|);
      }
      schedules, occurrences, runs, jobs := begun.schedules, begun.occurrences, begun.runs, begun.jobs;
      count := None;
    }
  }
}

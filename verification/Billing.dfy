/**
 Subscription billing for one organization: the provider's subscription and its webhook events, the event rows
 with their jobs, and the stored subscription, which keeps the value with the latest provider time.
 */
module Billing {
  import opened Wrappers

  datatype Plan = Pro | Team

  datatype OrgPlan = Community | Paid(plan: Plan)

  datatype Status = Trialing | Active | PastDue | Incomplete | IncompleteExpired | Paused | Unpaid | Cancelled

  function EntitledPlan(plan: Plan, status: Status): OrgPlan {
    if status == Trialing || status == Active || status == PastDue then Paid(plan) else Community
  }

  /** A trialing, active or past-due subscription entitles to its plan, and every other to the community plan. */
  lemma EntitledExactly(plan: Plan)
    ensures EntitledPlan(plan, Trialing) == EntitledPlan(plan, Active) == EntitledPlan(plan, PastDue) == Paid(plan)
    ensures EntitledPlan(plan, Incomplete) == EntitledPlan(plan, IncompleteExpired) == Community
    ensures EntitledPlan(plan, Paused) == EntitledPlan(plan, Unpaid) == EntitledPlan(plan, Cancelled) == Community
  {
  }

  /** A subscription as the provider reports it: `None` for a price or a status the service does not know. */
  datatype Value = Value(plan: Option<Plan>, status: Option<Status>)

  predicate Known(v: Value) {
    v.plan.Some? && v.status.Some?
  }

  /** The stored row: provider time, which version of the provider's subscription it shows, plan and status. */
  datatype Stored = Stored(at: int, version: nat, plan: Plan, status: Status)

  /******* The last-writer-wins register *******/

  function Reconciled(prior: Option<Stored>, x: Stored): Option<Stored> {
    if prior.Some? && prior.value.at > x.at then prior else Some(x)
  }

  function Replay(prior: Option<Stored>, xs: seq<Stored>): Option<Stored>
    decreases |xs|
  {
    if xs == [] then prior else Replay(Reconciled(prior, xs[0]), xs[1..])
  }

  /** Index `k` is the last one among those with the latest time. */
  predicate Newest(xs: seq<Stored>, k: nat) {
    && k < |xs|
    && (forall i | 0 <= i < |xs| :: xs[i].at <= xs[k].at)
    && (forall i | k < i < |xs| :: xs[i].at < xs[k].at)
  }

  lemma {:induction false} NewestExists(xs: seq<Stored>) returns (k: nat)
    requires xs != []
    ensures Newest(xs, k)
  {
    var n := |xs| - 1;
    if n == 0 {
      k := 0;
    } else {
      k := NewestExists(xs[..n]);
      if xs[n].at >= xs[k].at { k := n; }
    }
  }

  lemma {:induction false} ReplayLast(prior: Option<Stored>, xs: seq<Stored>)
    requires xs != []
    ensures Replay(prior, xs) == Reconciled(Replay(prior, xs[..|xs| - 1]), xs[|xs| - 1])
    decreases |xs|
  {
    if |xs| > 1 {
      ReplayLast(Reconciled(prior, xs[0]), xs[1..]);
      assert xs[1..][..|xs| - 2] == xs[..|xs| - 1][1..];
    }
  }

  /** Applying any snapshots in any order ends in the last applied of those with the latest time. */
  lemma {:induction false} ReplayKeepsNewest(xs: seq<Stored>, k: nat)
    requires Newest(xs, k)
    ensures Replay(None, xs) == Some(xs[k])
    decreases |xs|
  {
    var n := |xs| - 1;
    ReplayLast(None, xs);
    if k == n {
      if n > 0 {
        var j := NewestExists(xs[..n]);
        ReplayKeepsNewest(xs[..n], j);
      }
    } else {
      ReplayKeepsNewest(xs[..n], k);
    }
  }

  predicate DistinctTimes(xs: seq<Stored>) {
    forall i, j | 0 <= i < |xs| && 0 <= j < |xs| && xs[i].at == xs[j].at :: xs[i] == xs[j]
  }

  lemma SomeElement(xs: seq<Stored>, ys: seq<Stored>)
    requires forall x :: x in xs ==> x in ys
    ensures xs != [] ==> ys != []
  {
    if xs != [] { assert xs[0] in xs; }
  }

  /** With one snapshot per time, order and repetition do not matter. */
  lemma OrderIrrelevant(xs: seq<Stored>, ys: seq<Stored>)
    requires DistinctTimes(xs) && forall x :: x in xs <==> x in ys
    ensures Replay(None, xs) == Replay(None, ys)
  {
    SomeElement(ys, xs);
    if xs != [] {
      assert xs[0] in xs;
      var k := NewestExists(xs);
      var l := NewestExists(ys);
      ReplayKeepsNewest(xs, k);
      ReplayKeepsNewest(ys, l);
      assert xs[k] in ys && ys[l] in xs;
    }
  }

  /******* Events, jobs and the provider *******/

  datatype EventState = Unseen | Queued | Processing | Processed | Ignored | Failed | DeadLetter

  datatype JobState = JobQueued | JobSucceeded | JobDeadLetter

  /**
   A webhook event: its time stamp in whole seconds, how many changes the provider had made by then, whether its
   type is one the service handles and names a subscription, and the row's progress.  `fetched` and `applied` are
   local to the call that processes it; `alive` is false once that call's process has died.
   */
  datatype Row = Row(stamp: int, upTo: nat, supported: bool, subscription: bool, state: EventState, attempts: nat,
                     job: Option<JobState>, fetched: Option<nat>, applied: bool, alive: bool)

  datatype Change = Change(stamp: int, value: Value)

  /**
   `clock` is the provider's clock; `answers` are the provider's answers to the service's own updates, by the
   version they show, until the service has stored them.
   */
  datatype Sys = Sys(clock: int, changes: seq<Change>, rows: seq<Row>, answers: seq<Option<nat>>,
                     stored: Option<Stored>, plan: OrgPlan)

  datatype Step =
    | Changed(time: int, value: Value)          // the provider changes the subscription and emits an event
    | Emitted(time: int, supported: bool, subscription: bool)
    | Ingest(i: nat, linked: bool)
    | Claim(i: nat)
    | Ignore(i: nat)
    | Fetch(i: nat)
    | Reconcile(i: nat)
    | Complete(i: nat)
    | Fail(i: nat)
    | Crash(i: nat)
    | Answer                                    // the provider answers an update that the service asked for
    | StoreAnswer(k: nat, now: int)             // and the service stores that answer, at its own time

  const MAX_ATTEMPTS := 8

  /** Event times are whole seconds; times are milliseconds. */
  function Stamp(time: int): int {
    time - time % 1000
  }

  function NewRow(time: int, upTo: nat, supported: bool, subscription: bool): Row {
    Row(Stamp(time), upTo, supported, subscription, Unseen, 0, None, None, false, true)
  }

  function SetJob(job: Option<JobState>, state: JobState): Option<JobState> {
    if job.None? || job.value == JobSucceeded then job else Some(state)
  }

  predicate InHand(r: Row) {
    r.state == Processing && r.alive
  }

  predicate Enabled(s: Sys, e: Step) {
    match e
    case Changed(time, _) => s.clock <= time
    case Emitted(time, _, _) => s.clock <= time
    case Ingest(i, _) => i < |s.rows| && s.rows[i].state == Unseen
    case Claim(i) => i < |s.rows| && (s.rows[i].state == Queued || s.rows[i].state == Failed)
    case Ignore(i) => i < |s.rows| && InHand(s.rows[i]) && !s.rows[i].supported
    case Fetch(i) =>
      i < |s.rows| && InHand(s.rows[i]) && s.rows[i].supported && s.rows[i].subscription
      && s.rows[i].fetched.None? && s.changes != []
    case Reconcile(i) =>
      i < |s.rows| && InHand(s.rows[i]) && s.rows[i].fetched.Some? && !s.rows[i].applied
      && s.rows[i].fetched.value < |s.changes| && Known(s.changes[s.rows[i].fetched.value].value)
    case Complete(i) =>
      i < |s.rows| && InHand(s.rows[i]) && s.rows[i].supported && (s.rows[i].subscription ==> s.rows[i].applied)
    case Fail(i) => i < |s.rows| && InHand(s.rows[i]) && s.rows[i].supported
    case Crash(i) => i < |s.rows| && InHand(s.rows[i])
    case Answer => s.changes != []
    case StoreAnswer(k, _) =>
      k < |s.answers| && s.answers[k].Some?
      && s.answers[k].value < |s.changes| && Known(s.changes[s.answers[k].value].value)
  }

  /**
   The reconciliation transaction: a stale value changes nothing; another one is stored and sets the
   organization's plan.
   */
  function Store(s: Sys, at: int, version: nat): Sys
    requires version < |s.changes| && Known(s.changes[version].value)
  {
    var v := s.changes[version].value;
    if s.stored.Some? && s.stored.value.at > at then s
    else s.(stored := Some(Stored(at, version, v.plan.value, v.status.value)),
            plan := EntitledPlan(v.plan.value, v.status.value))
  }

  function AfterFailure(r: Row): Row {
    var dead := r.attempts >= MAX_ATTEMPTS;
    r.(state := if dead then DeadLetter else Failed, job := SetJob(r.job, if dead then JobDeadLetter else JobQueued),
       fetched := None, applied := false)
  }

  function Next(s: Sys, e: Step): Sys {
    if !Enabled(s, e) then s
    else
      match e
      case Changed(time, value) =>
        s.(clock := time, changes := s.changes + [Change(Stamp(time), value)],
           rows := s.rows + [NewRow(time, |s.changes| + 1, true, true)])
      case Emitted(time, supported, subscription) =>
        s.(clock := time, rows := s.rows + [NewRow(time, |s.changes|, supported, subscription)])
      case Ingest(i, linked) =>
        s.(rows := s.rows[i := s.rows[i].(state := Queued, job := if linked then Some(JobQueued) else None)])
      case Claim(i) => s.(rows := s.rows[i := s.rows[i].(state := Processing, attempts := s.rows[i].attempts + 1)])
      case Ignore(i) =>
        s.(rows := s.rows[i := s.rows[i].(state := Ignored, job := SetJob(s.rows[i].job, JobSucceeded))])
      case Fetch(i) => s.(rows := s.rows[i := s.rows[i].(fetched := Some(|s.changes| - 1))])
      case Reconcile(i) =>
        Store(s, s.rows[i].stamp, s.rows[i].fetched.value).(rows := s.rows[i := s.rows[i].(applied := true)])
      case Complete(i) =>
        s.(rows := s.rows[i := s.rows[i].(state := Processed, job := SetJob(s.rows[i].job, JobSucceeded))])
      case Fail(i) => s.(rows := s.rows[i := AfterFailure(s.rows[i])])
      case Crash(i) => s.(rows := s.rows[i := s.rows[i].(alive := false)])
      case Answer => s.(answers := s.answers + [Some(|s.changes| - 1)])
      case StoreAnswer(k, now) => Store(s, now, s.answers[k].value).(answers := s.answers[k := None])
  }

  function After(s: Sys, steps: seq<Step>): Sys
    decreases |steps|
  {
    if steps == [] then s else After(Next(s, steps[0]), steps[1..])
  }

  const EMPTY := Sys(0, [], [], [], None, Community)

  /******* Event rows and their jobs *******/

  /** The job, when there is one, mirrors its event. */
  predicate JobMatches(r: Row) {
    match r.state
    case Unseen => r.job.None?
    case Queued => r.job.None? || r.job.value == JobQueued
    case Processing => r.job.None? || r.job.value == JobQueued
    case Failed => r.job.None? || r.job.value == JobQueued
    case Processed => r.job.None? || r.job.value == JobSucceeded
    case Ignored => r.job.None? || r.job.value == JobSucceeded
    case DeadLetter => r.job.None? || r.job.value == JobDeadLetter
  }

  predicate AttemptsMatch(r: Row) {
    match r.state
    case Unseen => r.attempts == 0
    case Queued => r.attempts == 0
    case Failed => 1 <= r.attempts < MAX_ATTEMPTS
    case DeadLetter => r.attempts == MAX_ATTEMPTS
    case Processing => 1 <= r.attempts <= MAX_ATTEMPTS
    case Processed => 1 <= r.attempts <= MAX_ATTEMPTS
    case Ignored => 1 <= r.attempts <= MAX_ATTEMPTS
  }

  /** Only events of unsupported types are ignored, and only the others are processed or fail. */
  predicate KindMatches(r: Row) {
    && (r.state == Ignored ==> !r.supported)
    && (r.state == Processed || r.state == Failed || r.state == DeadLetter ==> r.supported)
  }

  predicate RowsOk(s: Sys) {
    forall i | 0 <= i < |s.rows| :: JobMatches(s.rows[i]) && AttemptsMatch(s.rows[i]) && KindMatches(s.rows[i])
  }

  predicate Terminal(state: EventState) {
    state == Processed || state == Ignored || state == DeadLetter
  }

  lemma StepKeepsRows(s: Sys, e: Step)
    requires RowsOk(s)
    ensures RowsOk(Next(s, e)) && |Next(s, e).rows| >= |s.rows|
  {
  }

  /** A row at rest: finished for good, or abandoned by a call whose process died. */
  predicate AtRest(r: Row) {
    Terminal(r.state) || (r.state == Processing && !r.alive)
  }

  lemma AtRestKept(s: Sys, e: Step, i: nat)
    requires i < |s.rows| && AtRest(s.rows[i])
    ensures i < |Next(s, e).rows| && Next(s, e).rows[i] == s.rows[i]
  {
  }

  lemma StepAttempts(s: Sys, e: Step, i: nat)
    requires i < |s.rows|
    ensures i < |Next(s, e).rows|
    ensures Next(s, e).rows[i].attempts == s.rows[i].attempts + (if Enabled(s, e) && e == Claim(i) then 1 else 0)
  {
  }

  function ClaimsOf(s: Sys, steps: seq<Step>, i: nat): nat
    decreases |steps|
  {
    if steps == [] then 0
    else (if Enabled(s, steps[0]) && steps[0] == Claim(i) then 1 else 0) + ClaimsOf(Next(s, steps[0]), steps[1..], i)
  }

  /**
   Over every run an event is claimed at most eight times, counting those before; its job keeps mirroring it; a
   processed, ignored or dead-lettered event never changes again, and neither does one whose process died.
   */
  lemma {:induction false} EventLife(s: Sys, steps: seq<Step>, i: nat)
    requires RowsOk(s) && i < |s.rows|
    ensures var u := After(s, steps);
            && i < |u.rows| && RowsOk(u)
            && u.rows[i].attempts == s.rows[i].attempts + ClaimsOf(s, steps, i) <= 8
            && (u.rows[i].state == DeadLetter ==> u.rows[i].attempts == 8)
            && (u.rows[i].state == Failed ==> u.rows[i].attempts < 8)
            && (AtRest(s.rows[i]) ==> u.rows[i] == s.rows[i])
    decreases |steps|
  {
    if steps != [] {
      StepKeepsRows(s, steps[0]);
      StepAttempts(s, steps[0], i);
      if AtRest(s.rows[i]) { AtRestKept(s, steps[0], i); }
      EventLife(Next(s, steps[0]), steps[1..], i);
    }
  }

  /******* Convergence to the provider's subscription *******/

  /** What holds whatever the times: rows follow the provider's clock, and a value is fetched after its event. */
  predicate RowClocked(s: Sys, r: Row) {
    && r.stamp <= Stamp(s.clock) && r.upTo <= |s.changes|
    && (forall i | 0 <= i < |s.changes| ::
          if i < r.upTo then s.changes[i].stamp <= r.stamp else s.changes[i].stamp >= r.stamp)
    && (r.fetched.Some? ==> r.upTo <= r.fetched.value + 1 <= |s.changes| && r.supported && r.subscription)
    && (r.applied ==> r.fetched.Some? && s.stored.Some? && r.stamp <= s.stored.value.at)
    && (r.state == Processed ==> r.supported && (r.subscription ==> r.applied))
  }

  predicate StoredShows(s: Sys) {
    s.stored.Some? ==>
      var x := s.stored.value;
      && x.version < |s.changes| && s.changes[x.version].value == Value(Some(x.plan), Some(x.status))
      && s.plan == EntitledPlan(x.plan, x.status)
  }

  predicate Clocked(s: Sys) {
    && StoredShows(s)
    && (forall i | 0 <= i < |s.changes| :: s.changes[i].stamp <= Stamp(s.clock))
    && (forall k | 0 <= k < |s.rows| :: RowClocked(s, s.rows[k]))
    && (forall k | 0 <= k < |s.answers| && s.answers[k].Some? :: s.answers[k].value < |s.changes|)
  }

  /** Every change that the stored version does not show can still be stored: its event will not be taken for stale. */
  predicate NoneShutOut(s: Sys) {
    s.stored.Some? ==>
      forall i | s.stored.value.version < i < |s.changes| :: s.stored.value.at <= s.changes[i].stamp
  }

  /** Every event that was applied has left at least the changes made before it in the stored version. */
  predicate NoneUndone(s: Sys) {
    s.stored.Some? ==> Covers(s, s.stored.value.version)
  }

  predicate Covers(s: Sys, version: nat) {
    forall k | 0 <= k < |s.rows| && s.rows[k].applied :: s.rows[k].upTo <= version + 1
  }

  /** Nothing is lost: what is stored is right for the events applied, and the others can still get through. */
  predicate Sound(s: Sys) {
    NoneShutOut(s) && NoneUndone(s)
  }

  predicate AnswerShows(s: Sys, version: nat, now: int) {
    Covers(s, version) && forall i | version < i < |s.changes| :: now <= s.changes[i].stamp
  }

  /**
   What a step must not do.  A change must not fall before the stored time.  A fetched value must not be stored over
   an equal time when an event newer than the value has been applied.  An answer must not be stored at a time later
   than a change that it does not show, nor over such an event.
   */
  predicate Harmless(s: Sys, e: Step) {
    Enabled(s, e) ==>
    match e
    case Changed(time, _) => s.stored.Some? ==> s.stored.value.at <= Stamp(time)
    case Reconcile(i) =>
      s.stored.Some? && s.stored.value.at == s.rows[i].stamp ==> Covers(s, s.rows[i].fetched.value)
    case StoreAnswer(k, now) => (s.stored.Some? && s.stored.value.at > now) || AnswerShows(s, s.answers[k].value, now)
    case Emitted(_, _, _) => true
    case Ingest(_, _) => true
    case Claim(_) => true
    case Ignore(_) => true
    case Fetch(_) => true
    case Complete(_) => true
    case Fail(_) => true
    case Crash(_) => true
    case Answer => true
  }

  predicate PlanFollows(s: Sys) {
    s.stored.Some? ==> s.plan == EntitledPlan(s.stored.value.plan, s.stored.value.status)
  }

  /** In every run, whatever is lost, the organization has the plan that the stored subscription entitles it to. */
  lemma {:induction false} PlanFollowsStored(s: Sys, steps: seq<Step>)
    requires PlanFollows(s)
    ensures PlanFollows(After(s, steps))
    decreases |steps|
  {
    if steps != [] { PlanFollowsStored(Next(s, steps[0]), steps[1..]); }
  }

  lemma StampMonotone(a: int, b: int)
    requires a <= b
    ensures Stamp(a) <= Stamp(b)
  {
  }

  lemma ChangedClocked(s: Sys, e: Step)
    requires Clocked(s) && (e.Changed? || e.Emitted?)
    ensures Clocked(Next(s, e))
  {
    if Enabled(s, e) { StampMonotone(s.clock, e.time); }
    var t := Next(s, e);
    forall k | 0 <= k < |t.rows| ensures RowClocked(t, t.rows[k]) {
      if k < |s.rows| { assert RowClocked(s, s.rows[k]); }
    }
  }

  lemma StoringClocked(s: Sys, e: Step)
    requires Clocked(s) && (e.Reconcile? || e.StoreAnswer?)
    ensures Clocked(Next(s, e))
  {
    var t := Next(s, e);
    forall k | 0 <= k < |t.rows| ensures RowClocked(t, t.rows[k]) { assert RowClocked(s, s.rows[k]); }
  }

  lemma OtherClocked(s: Sys, e: Step)
    requires Clocked(s) && RowsOk(s) && !e.Changed? && !e.Emitted? && !e.Reconcile? && !e.StoreAnswer?
    ensures Clocked(Next(s, e))
  {
    var t := Next(s, e);
    forall k | 0 <= k < |t.rows| ensures RowClocked(t, t.rows[k]) { assert RowClocked(s, s.rows[k]); }
  }

  lemma StepClocked(s: Sys, e: Step)
    requires Clocked(s) && RowsOk(s)
    ensures Clocked(Next(s, e)) && RowsOk(Next(s, e))
  {
    StepKeepsRows(s, e);
    if e.Changed? || e.Emitted? {
      ChangedClocked(s, e);
    } else if e.Reconcile? || e.StoreAnswer? {
      StoringClocked(s, e);
    } else {
      OtherClocked(s, e);
    }
  }

  /** An event is stamped after the changes made by then, and before the later ones. */
  lemma RowSees(s: Sys, k: nat, c: nat)
    requires Clocked(s) && k < |s.rows| && c < |s.changes|
    ensures if c < s.rows[k].upTo then s.changes[c].stamp <= s.rows[k].stamp else s.rows[k].stamp <= s.changes[c].stamp
  {
    assert RowClocked(s, s.rows[k]);
  }

  lemma ReconcileSound(s: Sys, i: nat)
    requires Clocked(s) && Sound(s) && Enabled(s, Reconcile(i))
    ensures Sound(Next(s, Reconcile(i))) <==> Harmless(s, Reconcile(i))
  {
    var r, v := s.rows[i], s.rows[i].fetched.value;
    assert RowClocked(s, r);
    if s.stored.Some? && s.stored.value.at > r.stamp {
      StaleSound(s, i);
    } else {
      StoredUnshut(s, i);
      StoredCovers(s, i);
    }
  }

  /** A stale event's changes are all shown already. */
  lemma StaleSound(s: Sys, i: nat)
    requires Clocked(s) && Sound(s) && Enabled(s, Reconcile(i))
    requires s.stored.Some? && s.stored.value.at > s.rows[i].stamp
    ensures Sound(Next(s, Reconcile(i)))
  {
    var r, x := s.rows[i], s.stored.value;
    assert RowClocked(s, r);
    if x.version + 1 < |s.changes| { RowSees(s, i, x.version + 1); }
    var t := Next(s, Reconcile(i));
    forall k | 0 <= k < |t.rows| && t.rows[k].applied ensures t.rows[k].upTo <= x.version + 1 {
      if k != i { assert s.rows[k].applied; }
    }
  }

  lemma StoredUnshut(s: Sys, i: nat)
    requires Clocked(s) && Enabled(s, Reconcile(i)) && !(s.stored.Some? && s.stored.value.at > s.rows[i].stamp)
    ensures NoneShutOut(Next(s, Reconcile(i)))
  {
    var r, v := s.rows[i], s.rows[i].fetched.value;
    assert RowClocked(s, r);
    forall c | v < c < |s.changes| ensures r.stamp <= s.changes[c].stamp { }
  }

  /** Over an earlier time the value always covers what was applied. */
  lemma StoredCovers(s: Sys, i: nat)
    requires Clocked(s) && Enabled(s, Reconcile(i)) && !(s.stored.Some? && s.stored.value.at > s.rows[i].stamp)
    ensures NoneUndone(Next(s, Reconcile(i))) <==> Harmless(s, Reconcile(i))
  {
    var r, v := s.rows[i], s.rows[i].fetched.value;
    var t := Next(s, Reconcile(i));
    assert RowClocked(s, r);
    assert t.stored.value.version == v;
    CoversSame(s, i, v);
    if s.stored.None? || s.stored.value.at < r.stamp {
      forall k | 0 <= k < |s.rows| && s.rows[k].applied ensures s.rows[k].upTo <= v + 1 {
        assert RowClocked(s, s.rows[k]);
        if v + 1 < |s.changes| { RowSees(s, k, v + 1); }
      }
    }
  }

  lemma CoversSame(s: Sys, i: nat, v: nat)
    requires i < |s.rows| && s.rows[i].upTo <= v + 1 && Enabled(s, Reconcile(i))
    ensures Covers(Next(s, Reconcile(i)), v) <==> Covers(s, v)
  {
    var t := Next(s, Reconcile(i));
    if Covers(s, v) {
      forall k | 0 <= k < |t.rows| && t.rows[k].applied ensures t.rows[k].upTo <= v + 1 {
        if k != i { assert s.rows[k].applied; }
      }
    }
    if Covers(t, v) {
      forall k | 0 <= k < |s.rows| && s.rows[k].applied ensures s.rows[k].upTo <= v + 1 {
        assert t.rows[k].applied;
      }
    }
  }

  lemma ChangedSound(s: Sys, e: Step)
    requires Clocked(s) && Sound(s) && (e.Changed? || e.Emitted?)
    ensures Sound(Next(s, e)) <==> Harmless(s, e)
  {
    var t := Next(s, e);
    if e.Changed? && Enabled(s, e) {
      assert t.changes[|s.changes|].stamp == Stamp(e.time);
    }
  }

  lemma OtherSound(s: Sys, e: Step)
    requires Clocked(s) && RowsOk(s) && Sound(s) && !e.Changed? && !e.Emitted? && !e.Reconcile?
    ensures Sound(Next(s, e)) <==> Harmless(s, e)
  {
    var t := Next(s, e);
    if s.stored.Some? && !e.StoreAnswer? {
      forall k | 0 <= k < |t.rows| && t.rows[k].applied ensures t.rows[k].upTo <= s.stored.value.version + 1 {
        assert s.rows[k].applied;
      }
    }
  }

  /** One step loses something exactly when it is not harmless. */
  lemma StepSound(s: Sys, e: Step)
    requires Clocked(s) && RowsOk(s) && Sound(s)
    ensures Sound(Next(s, e)) <==> Harmless(s, e)
  {
    if e.Changed? || e.Emitted? {
      ChangedSound(s, e);
    } else if e.Reconcile? && Enabled(s, e) {
      ReconcileSound(s, e.i);
    } else if !e.Reconcile? {
      OtherSound(s, e);
    }
  }

  predicate HarmlessRun(s: Sys, steps: seq<Step>)
    decreases |steps|
  {
    steps != [] ==> Harmless(s, steps[0]) && HarmlessRun(Next(s, steps[0]), steps[1..])
  }

  predicate SoundThroughout(s: Sys, steps: seq<Step>)
    decreases |steps|
  {
    Sound(s) && (steps != [] ==> SoundThroughout(Next(s, steps[0]), steps[1..]))
  }

  /** Nothing is lost at any point of a run exactly when every step of it is harmless. */
  lemma {:induction false} NothingLostExactlyIf(s: Sys, steps: seq<Step>)
    requires Clocked(s) && RowsOk(s) && Sound(s)
    ensures SoundThroughout(s, steps) <==> HarmlessRun(s, steps)
    ensures Clocked(After(s, steps)) && (HarmlessRun(s, steps) ==> Sound(After(s, steps)))
    decreases |steps|
  {
    if steps != [] {
      var t := Next(s, steps[0]);
      StepClocked(s, steps[0]);
      StepSound(s, steps[0]);
      if Sound(t) {
        NothingLostExactlyIf(t, steps[1..]);
      } else {
        ClockedAlways(t, steps[1..]);
      }
    }
  }

  lemma {:induction false} ClockedAlways(s: Sys, steps: seq<Step>)
    requires Clocked(s) && RowsOk(s)
    ensures Clocked(After(s, steps)) && RowsOk(After(s, steps))
    decreases |steps|
  {
    if steps != [] {
      StepClocked(s, steps[0]);
      ClockedAlways(Next(s, steps[0]), steps[1..]);
    }
  }

  /******* What that means for the organization *******/

  /**
   When no step was harmful: once any subscription event is processed that the provider emitted with or after its
   latest change, the stored subscription is the provider's and the organization has the plan it is entitled to,
   however the other events were ordered, repeated, retried, lost or dead-lettered.
   */
  lemma LatestChangeWins(steps: seq<Step>, i: nat)
    requires HarmlessRun(EMPTY, steps)
    ensures var u := After(EMPTY, steps);
            (i < |u.rows| && u.rows[i].state == Processed && u.rows[i].subscription && u.changes != []
             && u.rows[i].upTo == |u.changes|) ==>
              && u.stored.Some? && u.stored.value.version == |u.changes| - 1
              && u.changes[|u.changes| - 1].value == Value(Some(u.stored.value.plan), Some(u.stored.value.status))
              && u.plan == EntitledPlan(u.stored.value.plan, u.stored.value.status)
  {
    NothingLostExactlyIf(EMPTY, steps);
    var u := After(EMPTY, steps);
    if i < |u.rows| { assert RowClocked(u, u.rows[i]); }
  }

  /** Every change comes in a later second than all events before it, and the service asks for no changes itself. */
  predicate Apart(s: Sys, steps: seq<Step>)
    decreases |steps|
  {
    steps != [] ==>
      && !steps[0].StoreAnswer?
      && (steps[0].Changed? ==> forall k | 0 <= k < |s.rows| :: s.rows[k].stamp < Stamp(steps[0].time))
      && Apart(Next(s, steps[0]), steps[1..])
  }

  /** Events of different changes bear different stamps, and only events were stored. */
  predicate Distinguished(s: Sys) {
    && (forall k, c | 0 <= k < |s.rows| && s.rows[k].upTo <= c < |s.changes| :: s.rows[k].stamp < s.changes[c].stamp)
    && (s.stored.Some? ==> exists k :: 0 <= k < |s.rows| && s.rows[k].stamp == s.stored.value.at)
  }

  lemma ApartHarmless(s: Sys, e: Step)
    requires Clocked(s) && Distinguished(s) && Apart(s, [e])
    ensures Harmless(s, e) && Distinguished(Next(s, e))
  {
    var t := Next(s, e);
    if s.stored.Some? {
      var k :| 0 <= k < |s.rows| && s.rows[k].stamp == s.stored.value.at;
      assert RowClocked(s, s.rows[k]);
      assert t.rows[k].stamp == s.rows[k].stamp;
    }
    if e.Reconcile? && Enabled(s, e) {
      var r, v := s.rows[e.i], s.rows[e.i].fetched.value;
      assert RowClocked(s, r) && t.rows[e.i].stamp == r.stamp;
      forall k | 0 <= k < |s.rows| && s.rows[k].applied && s.stored.Some? && s.stored.value.at == r.stamp
        ensures s.rows[k].upTo <= v + 1
      {
        assert RowClocked(s, s.rows[k]);
        if v + 1 < |s.changes| { RowSees(s, k, v + 1); }
      }
    }
  }

  /** Such runs are harmless, so the latest change wins in them. */
  lemma {:induction false} ApartRunHarmless(s: Sys, steps: seq<Step>)
    requires Clocked(s) && RowsOk(s) && Distinguished(s) && Apart(s, steps)
    ensures HarmlessRun(s, steps)
    decreases |steps|
  {
    if steps != [] {
      assert Apart(s, [steps[0]]);
      ApartHarmless(s, steps[0]);
      StepClocked(s, steps[0]);
      ApartRunHarmless(Next(s, steps[0]), steps[1..]);
    }
  }

  /******* What a harmful step leads to *******/

  lemma {:induction false} AfterConcat(s: Sys, a: seq<Step>, b: seq<Step>)
    ensures After(s, a + b) == After(After(s, a), b)
    decreases |a|
  {
    if a == [] {
      assert a + b == b;
    } else {
      assert (a + b)[0] == a[0] && (a + b)[1..] == a[1..] + b;
      AfterConcat(Next(s, a[0]), a[1..], b);
    }
  }

  lemma AfterFour(s: Sys, steps: seq<Step>)
    requires |steps| == 4
    ensures After(s, steps) == Next(Next(Next(Next(s, steps[0]), steps[1]), steps[2]), steps[3])
  {
    var s1 := Next(s, steps[0]);
    var s2 := Next(s1, steps[1]);
    var s3 := Next(s2, steps[2]);
    assert steps[1..][1..] == steps[2..] && steps[2..][1..] == steps[3..] && steps[3..][1..] == [];
    assert After(s, steps) == After(s1, steps[1..]) == After(s2, steps[2..]) == After(s3, steps[3..]);
    assert After(s3, steps[3..]) == After(Next(s3, steps[3]), []);
  }

  lemma AfterOne(s: Sys, e: Step)
    ensures After(s, [e]) == Next(s, e)
  {
    assert [e][1..] == [];
  }

  /** One undisturbed delivery and processing of event `i`. */
  function Delivery(i: nat): seq<Step> {
    [Ingest(i, true), Claim(i), Fetch(i), Reconcile(i)] + [Complete(i)]
  }

  /** An event stamped before the stored time is processed in vain. */
  lemma ShutOutEventIsStale(s: Sys, i: nat)
    requires i < |s.rows| && s.rows[i] == s.rows[i].(state := Unseen, fetched := None, applied := false, alive := true)
    requires s.rows[i].supported && s.rows[i].subscription && s.changes != [] && Known(s.changes[|s.changes| - 1].value)
    requires s.stored.Some? && s.stored.value.at > s.rows[i].stamp
    ensures var u := After(s, Delivery(i));
            && |u.rows| == |s.rows| && u.rows[i].state == Processed && u.rows[i].upTo == s.rows[i].upTo
            && u.changes == s.changes && u.stored == s.stored && u.plan == s.plan
  {
    AfterConcat(s, [Ingest(i, true), Claim(i), Fetch(i), Reconcile(i)], [Complete(i)]);
    AfterFour(s, [Ingest(i, true), Claim(i), Fetch(i), Reconcile(i)]);
    DeliveredAndFetched(s, i);
    var t := Next(Next(Next(s, Ingest(i, true)), Claim(i)), Fetch(i));
    AfterOne(Next(t, Reconcile(i)), Complete(i));
  }

  lemma DeliveredAndFetched(s: Sys, i: nat)
    requires i < |s.rows| && s.rows[i] == s.rows[i].(state := Unseen, fetched := None, applied := false, alive := true)
    requires s.rows[i].supported && s.rows[i].subscription && s.changes != []
    ensures Next(Next(Next(s, Ingest(i, true)), Claim(i)), Fetch(i)) ==
            s.(rows := s.rows[i := s.rows[i].(state := Processing, attempts := s.rows[i].attempts + 1,
                                              job := Some(JobQueued), fetched := Some(|s.changes| - 1))])
  {
    var t := Next(s, Ingest(i, true));
    assert t == s.(rows := s.rows[i := s.rows[i].(state := Queued, job := Some(JobQueued))]);
  }

  /** A change before the stored time: its event is processed, and the stored version still does not show it. */
  lemma EarlyChangeIsLost(s: Sys, time: int, value: Value)
    requires Clocked(s) && !Harmless(s, Changed(time, value)) && Known(value)
    ensures var u := After(Next(s, Changed(time, value)), Delivery(|s.rows|));
            && |u.rows| == |s.rows| + 1 && u.rows[|s.rows|].state == Processed && u.rows[|s.rows|].upTo == |u.changes|
            && u.stored.Some? && u.stored.value.version < |u.changes| - 1
  {
    ShutOutEventIsStale(Next(s, Changed(time, value)), |s.rows|);
  }

  /** A later change that an answer's time passes over: the same. */
  lemma PassedOverChangeIsLost(s: Sys, k: nat, now: int, i: nat)
    requires Clocked(s) && Enabled(s, StoreAnswer(k, now)) && !(s.stored.Some? && s.stored.value.at > now)
    requires i < |s.rows| && s.rows[i] == s.rows[i].(state := Unseen, fetched := None, applied := false, alive := true)
    requires s.rows[i].supported && s.rows[i].subscription && s.rows[i].upTo > s.answers[k].value + 1
    requires s.rows[i].stamp < now && Known(s.changes[|s.changes| - 1].value)
    ensures var u := After(Next(s, StoreAnswer(k, now)), Delivery(i));
            && |u.rows| == |s.rows| && u.rows[i].state == Processed
            && u.stored.Some? && u.stored.value.version + 1 < u.rows[i].upTo
  {
    ShutOutEventIsStale(Next(s, StoreAnswer(k, now)), i);
  }

  /**
   An older value over an equal time: an applied event is completed, and the stored version does not
   show its change.
   */
  lemma OverwrittenEventIsLost(s: Sys, i: nat, q: nat)
    requires Enabled(s, Reconcile(i)) && q < |s.rows| && q != i
    requires s.stored.Some? && s.stored.value.at == s.rows[i].stamp
    requires InHand(s.rows[q]) && s.rows[q].supported && s.rows[q].applied
    requires s.rows[q].upTo > s.rows[i].fetched.value + 1
    ensures !Harmless(s, Reconcile(i))
    ensures var u := Next(Next(s, Reconcile(i)), Complete(q));
            && |u.rows| == |s.rows| && u.rows[q].state == Processed
            && u.stored.Some? && u.stored.value.version + 1 < u.rows[q].upTo
  {
  }

  const PRO: Value := Value(Some(Pro), Some(Active))
  const ENDED: Value := Value(Some(Pro), Some(Cancelled))

  const FIRST_EVENT: seq<Step> := [Changed(1100, PRO), Ingest(0, true), Claim(0), Fetch(0)]
  const SECOND_EVENT: seq<Step> := [Changed(1900, ENDED), Ingest(1, true), Claim(1), Fetch(1)]
  const BOTH_STORED: seq<Step> := [Reconcile(1), Complete(1), Reconcile(0), Complete(0)]

  function Fetched(time: int, upTo: nat, version: nat): Row {
    NewRow(time, upTo, true, true).(
      state := Processing, attempts := 1, job := Some(JobQueued), fetched := Some(version))
  }

  const ONE_FETCHED: Sys := Sys(1100, [Change(1000, PRO)], [Fetched(1100, 1, 0)], [], None, Community)
  const BOTH_FETCHED: Sys :=
    Sys(1900, [Change(1000, PRO), Change(1000, ENDED)], [Fetched(1100, 1, 0), Fetched(1900, 2, 1)], [], None, Community)

  lemma FirstFetched()
    ensures After(EMPTY, FIRST_EVENT) == ONE_FETCHED
  {
    AfterFour(EMPTY, FIRST_EVENT);
  }

  lemma SecondFetched()
    ensures After(ONE_FETCHED, SECOND_EVENT) == BOTH_FETCHED
  {
    AfterFour(ONE_FETCHED, SECOND_EVENT);
    var t := Next(ONE_FETCHED, SECOND_EVENT[0]);
    assert t.rows == [Fetched(1100, 1, 0), NewRow(1900, 2, true, true)];
  }

  lemma LaterStored()
    ensures Next(Next(BOTH_FETCHED, Reconcile(1)), Complete(1)) ==
            BOTH_FETCHED.(
              rows := [Fetched(1100, 1, 0),
                       Fetched(1900, 2, 1).(state := Processed, applied := true, job := Some(JobSucceeded))],
              stored := Some(Stored(1000, 1, Pro, Cancelled)))
  {
  }

  lemma StoredInOrder()
    ensures var u := After(BOTH_FETCHED, BOTH_STORED);
            && u.plan == Paid(Pro) && u.changes == [Change(1000, PRO), Change(1000, ENDED)]
            && |u.rows| == 2 && u.rows[0].state == Processed && u.rows[1].state == Processed
  {
    AfterFour(BOTH_FETCHED, BOTH_STORED);
    LaterStored();
    EarlierStored(Next(Next(BOTH_FETCHED, Reconcile(1)), Complete(1)));
  }

  lemma EarlierStored(s: Sys)
    requires |s.rows| == 2 && s.rows[0] == Fetched(1100, 1, 0) && s.rows[1].state == Processed
    requires s.changes == BOTH_FETCHED.changes && s.stored.Some? && s.stored.value.at == 1000
    ensures var u := Next(Next(s, Reconcile(0)), Complete(0));
            && u.plan == Paid(Pro) && u.changes == s.changes
            && |u.rows| == 2 && u.rows[0].state == Processed && u.rows[1].state == Processed
  {
  }

  /**
   A run from the start.  Two changes within one second carry the same stamp; the first event, fetched between them
   and stored last, leaves the outdated subscription although both events are processed.
   */
  lemma SameSecondLosesLatest()
    ensures var u := After(EMPTY, FIRST_EVENT + SECOND_EVENT + BOTH_STORED);
            && |u.rows| == 2 && u.rows[0].state == Processed && u.rows[1].state == Processed
            && u.changes == [Change(1000, PRO), Change(1000, ENDED)]
            && u.plan == Paid(Pro) && EntitledPlan(Pro, Cancelled) == Community
  {
    AfterConcat(EMPTY, FIRST_EVENT + SECOND_EVENT, BOTH_STORED);
    AfterConcat(EMPTY, FIRST_EVENT, SECOND_EVENT);
    FirstFetched();
    SecondFetched();
    StoredInOrder();
  }

  const ANSWERED: seq<Step> := [Changed(1100, PRO), Answer, Changed(5000, ENDED), StoreAnswer(0, 9000)]

  lemma AnswerStored()
    ensures After(EMPTY, ANSWERED) ==
            Sys(5000, [Change(1000, PRO), Change(5000, ENDED)],
                [NewRow(1100, 1, true, true), NewRow(5000, 2, true, true)],
                [None], Some(Stored(9000, 0, Pro, Active)), Paid(Pro))
  {
    AfterFour(EMPTY, ANSWERED);
  }

  /** Another one, seconds apart: a change between the provider's answer and the service's store of it is lost. */
  lemma SlowAnswerLosesLatest()
    ensures var u := After(EMPTY, ANSWERED + Delivery(1));
            && |u.rows| == 2 && u.rows[1].state == Processed && u.rows[1].upTo == |u.changes|
            && u.changes == [Change(1000, PRO), Change(5000, ENDED)] && u.plan == Paid(Pro)
  {
    AfterConcat(EMPTY, ANSWERED, Delivery(1));
    AnswerStored();
    ShutOutEventIsStale(After(EMPTY, ANSWERED), 1);
  }

  /******* The service *******/

  class BillingService {
    var clock: int                 // the provider's side
    var changes: seq<Change>
    var rows: seq<Row>
    var answers: seq<Option<nat>>
    var stored: Option<Stored>
    var plan: OrgPlan

    function State(): Sys
      reads this
    {
      Sys(clock, changes, rows, answers, stored, plan)
    }

    constructor ()
      ensures State() == EMPTY && RowsOk(State())
    {
      clock, changes, rows, answers, stored, plan := 0, [], [], [], None, Community;
    }

    /** The insert of a verified delivery; a second delivery of the event changes nothing. */
    method IngestEvent(i: nat, linked: bool) returns (duplicate: bool)
      requires RowsOk(State()) && i < |rows|
      modifies this
      ensures RowsOk(State()) && State() == Next(old(State()), Ingest(i, linked))
      ensures duplicate <==> old(rows)[i].state != Unseen
    {
      StepKeepsRows(State(), Ingest(i, linked));
      if rows[i].state != Unseen {
        return true;
      }
      rows := rows[i := rows[i].(state := Queued, job := if linked then Some(JobQueued) else None)];
      duplicate := false;
    }

    method ClaimEvent(i: nat) returns (claimed: bool)
      requires RowsOk(State()) && i < |rows|
      modifies this
      ensures RowsOk(State()) && State() == Next(old(State()), Claim(i))
      ensures claimed <==> old(rows)[i].state == Queued || old(rows)[i].state == Failed
    {
      StepKeepsRows(State(), Claim(i));
      claimed := rows[i].state == Queued || rows[i].state == Failed;
      if claimed {
        rows := rows[i := rows[i].(state := Processing, attempts := rows[i].attempts + 1)];
      }
    }

    /** Stores `value`, version `version` of the provider's subscription, unless a later one is stored. */
    method ReconcileSubscription(at: int, version: nat, linked: bool) returns (reply: Reply<bool>)
      requires version < |changes|
      modifies this
      ensures reply.Ok? <==> Known(old(changes)[version].value) && linked
      ensures State() == if reply.Ok? then Store(old(State()), at, version) else old(State())
      ensures reply.Ok? ==> (reply.value <==> old(stored).Some? && old(stored).value.at > at)
    {
      var value := changes[version].value;
      if value.plan.None? || value.status.None? {
        return Refused(ConfigInvalid);
      }
      if !linked {
        return Refused(NotFound);
      }
      if stored.Some? && stored.value.at > at {
        return Ok(true);
      }
      stored := Some(Stored(at, version, value.plan.value, value.status.value));
      plan := EntitledPlan(value.plan.value, value.status.value);
      reply := Ok(false);
    }

    /** The end of `changeSubscription`: stores the provider's answer `k` at the service's own time. */
    method StoreOwnChange(k: nat, now: int)
      requires Enabled(State(), StoreAnswer(k, now))
      modifies this
      ensures State() == Next(old(State()), StoreAnswer(k, now))
    {
      var reply := ReconcileSubscription(now, answers[k].value, true);
      answers := answers[k := None];
    }

    method IgnoreEvent(i: nat)
      requires RowsOk(State()) && Enabled(State(), Ignore(i))
      modifies this
      ensures RowsOk(State()) && State() == Next(old(State()), Ignore(i))
    {
      StepKeepsRows(State(), Ignore(i));
      rows := rows[i := rows[i].(state := Ignored, job := SetJob(rows[i].job, JobSucceeded))];
    }

    method CompleteEvent(i: nat)
      requires RowsOk(State()) && Enabled(State(), Complete(i))
      modifies this
      ensures RowsOk(State()) && State() == Next(old(State()), Complete(i))
    {
      StepKeepsRows(State(), Complete(i));
      rows := rows[i := rows[i].(state := Processed, job := SetJob(rows[i].job, JobSucceeded))];
    }

    /** The handler for any error after the claim: the eighth attempt is the last. */
    method FailEvent(i: nat)
      requires RowsOk(State()) && Enabled(State(), Fail(i))
      modifies this
      ensures RowsOk(State()) && State() == Next(old(State()), Fail(i))
      ensures old(rows)[i].attempts == 8 <==> rows[i].state == DeadLetter
    {
      StepKeepsRows(State(), Fail(i));
      var terminal := rows[i].attempts >= MAX_ATTEMPTS;
      var row := rows[i].(fetched := None, applied := false);
      if terminal {
        rows := rows[i := row.(state := DeadLetter, job := SetJob(row.job, JobDeadLetter))];
      } else {
        rows := rows[i := row.(state := Failed, job := SetJob(row.job, JobQueued))];
      }
    }
  }
}

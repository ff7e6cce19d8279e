/**
 The run/job lease protocol: two tables, written by ten kinds of transaction.

 Each transaction is one atomic step on `Tables`.  Two of them (claim and submit) update
 the run row with no guard on its state, so what keeps a finished run finished is the
 coupling between the two tables that `Inv` states.
 */
module Leases {
  import opened Wrappers

  type OrgId = nat
  type RunId = nat
  type JobId = nat
  type RunnerId = nat

  /** Content hashes are taken to be injective, so a hash is its content. */
  datatype Hash = ContentHash(content: string)

  datatype RunState = RunQueued | RunRunning | RunCompleted | RunFailed | RunCancelled
  datatype JobState = JobQueued | JobLeased | JobSucceeded | JobFailed | JobCancelled | JobDeadLetter

  datatype Run = Run(org: OrgId, repo: nat, state: RunState, runner: Option<RunnerId>,
                     result: Option<string>, hash: Option<Hash>)

  datatype Job = Job(org: OrgId, run: Option<RunId>, benchmark: bool, state: JobState,
                     requirements: set<string>, priority: int, createdAt: int, availableAt: int,
                     owner: Option<RunnerId>, expiresAt: Option<int>, attempts: nat, maxAttempts: nat)

  datatype Runner = Runner(org: OrgId, active: bool, capabilities: set<string>)

  datatype Created = Created(runId: RunId, jobId: JobId, replay: bool)

  datatype KeyRow = KeyRow(request: Hash, runId: RunId, jobId: JobId, expiresAt: int)

  datatype Tables = Tables(runs: map<RunId, Run>, jobs: map<JobId, Job>,
                           runners: map<RunnerId, Runner>, keys: map<(OrgId, Hash), KeyRow>)

  const DAY_MS: int := 24 * 60 * 60 * 1000
  const DEFAULT_MAX_ATTEMPTS: nat := 3

  /******* The transactions *******/

  predicate Live(job: Job) {
    job.state == JobQueued || job.state == JobLeased
  }

  predicate Open(run: Run) {
    run.state == RunQueued || run.state == RunRunning
  }

  /** A new run with its one job, as `createRun` and `schedulerTick` insert them. */
  function InsertRun(t: Tables, org: OrgId, repo: nat, runId: RunId, jobId: JobId, now: int): Tables {
    t.(runs := t.runs[runId := Run(org, repo, RunQueued, None, None, None)],
       jobs := t.jobs[jobId := Job(org, Some(runId), true, JobQueued, {}, 0, now, now,
                                   None, None, 0, DEFAULT_MAX_ATTEMPTS)])
  }

  /** `createRun`: the key row is looked up only while unexpired, but its primary key outlives it. */
  function Create(t: Tables, org: OrgId, repo: nat, versionKnown: bool, key: Hash, request: Hash,
                  runId: RunId, jobId: JobId, now: int): (Tables, Reply<Created>)
  {
    if (org, key) in t.keys && t.keys[(org, key)].expiresAt > now then
      var row := t.keys[(org, key)];
      if row.request != request then (t, Refused(ConfigInvalid))
      else (t, Ok(Created(row.runId, row.jobId, true)))
    else if !versionKnown then (t, Refused(AuthUnavailable))
    else if runId in t.runs || jobId in t.jobs || (org, key) in t.keys then (t, Refused(Conflict))
    else
      var u := InsertRun(t, org, repo, runId, jobId, now);
      (u.(keys := u.keys[(org, key) := KeyRow(request, runId, jobId, now + DAY_MS)]),
       Ok(Created(runId, jobId, false)))
  }

  /** The WHERE clause of the claim query. */
  predicate Claimable(t: Tables, runner: RunnerId, org: OrgId, now: int, j: JobId) {
    && j in t.jobs && runner in t.runners
    && var job := t.jobs[j];
       && job.org == org && job.benchmark && t.runners[runner].active && Live(job)
       && job.availableAt <= now
       && (job.state == JobQueued || (job.expiresAt.Some? && job.expiresAt.value <= now))
       && job.requirements <= t.runners[runner].capabilities
  }

  /** The ORDER BY of the claim query: priority descending, then age, then id. */
  predicate Precedes(t: Tables, i: JobId, j: JobId)
    requires i in t.jobs && j in t.jobs
  {
    var a, b := t.jobs[i], t.jobs[j];
    || a.priority > b.priority
    || (a.priority == b.priority &&
        (a.createdAt < b.createdAt || (a.createdAt == b.createdAt && i < j)))
  }

  function Claim(t: Tables, runner: RunnerId, j: JobId, now: int, leaseMs: int): Tables
    requires j in t.jobs
  {
    var job := t.jobs[j];
    var claimed := job.(state := JobLeased, owner := Some(runner), expiresAt := Some(now + leaseMs),
                        attempts := job.attempts + 1);
    var runs := if job.run.Some? && job.run.value in t.runs
                then t.runs[job.run.value := t.runs[job.run.value].(state := RunRunning, runner := Some(runner))]
                else t.runs;
    t.(jobs := t.jobs[j := claimed], runs := runs)
  }

  function Extend(t: Tables, runner: RunnerId, j: JobId, now: int, leaseMs: int): (Tables, Reply<()>) {
    if j in t.jobs && t.jobs[j].owner == Some(runner) && t.jobs[j].state == JobLeased
       && t.jobs[j].expiresAt.Some? && t.jobs[j].expiresAt.value > now
    then (t.(jobs := t.jobs[j := t.jobs[j].(expiresAt := Some(now + leaseMs))]), Ok(()))
    else (t, Refused(AuthUnavailable))
  }

  function Release(job: Job, state: JobState): Job {
    job.(state := state, owner := None, expiresAt := None)
  }

  function CompleteRun(run: Run, result: string): Run {
    run.(state := RunCompleted, result := Some(result), hash := Some(ContentHash(result)))
  }

  /** A runner's result.  The run update carries no guard on the run's state. */
  function Submit(t: Tables, runner: RunnerId, org: OrgId, j: JobId, result: string): (Tables, Reply<bool>) {
    if j !in t.jobs || t.jobs[j].org != org || t.jobs[j].run.None? || t.jobs[j].run.value !in t.runs
    then (t, Refused(AuthUnavailable))
    else
      var job := t.jobs[j];
      var run := t.runs[job.run.value];
      if job.state == JobSucceeded then
        if run.runner != Some(runner) then (t, Refused(AuthUnavailable))
        else if run.hash != Some(ContentHash(result)) then (t, Refused(ConfigInvalid))
        else (t, Ok(true))
      else if job.owner != Some(runner) then (t, Refused(AuthUnavailable))
      else if job.state != JobLeased || runner !in t.runners || !t.runners[runner].active
      then (t, Refused(AuthUnavailable))
      else
        (t.(runs := t.runs[job.run.value := CompleteRun(run, result)],
            jobs := t.jobs[j := Release(job, JobSucceeded)]),
         Ok(false))
  }

  /** Requeue or dead-letter.  `Pow2` is the back-off in seconds before it is capped. */
  function Pow2(n: nat): nat {
    if n == 0 then 1 else 2 * Pow2(n - 1)
  }

  function Backoff(attempts: nat): int {
    1000 * (if Pow2(attempts) < 300 then Pow2(attempts) else 300)
  }

  function Fail(t: Tables, runner: RunnerId, j: JobId, retryable: bool, now: int): (Tables, Reply<()>) {
    if j in t.jobs && t.jobs[j].owner == Some(runner) && t.jobs[j].state == JobLeased then
      var job := t.jobs[j];
      if !retryable || job.attempts >= job.maxAttempts
      then (t.(jobs := t.jobs[j := Release(job, JobDeadLetter)]), Ok(()))
      else (t.(jobs := t.jobs[j := Release(job, JobQueued).(availableAt := now + Backoff(job.attempts))]), Ok(()))
    else (t, Refused(AuthUnavailable))
  }

  function Requeued(jobs: map<JobId, Job>, runner: RunnerId, now: int): map<JobId, Job> {
    map j | j in jobs ::
      if jobs[j].owner == Some(runner) && jobs[j].state == JobLeased
      then Release(jobs[j], JobQueued).(availableAt := now)
      else jobs[j]
  }

  function Revoke(t: Tables, org: OrgId, runner: RunnerId, now: int): (Tables, Reply<()>) {
    if runner in t.runners && t.runners[runner].org == org && t.runners[runner].active then
      (t.(runners := t.runners[runner := t.runners[runner].(active := false)],
          jobs := Requeued(t.jobs, runner, now)), Ok(()))
    else (t, Refused(NotFound))
  }

  /** Every live job of run `r` moved to `state`; the other rows untouched. */
  function Settled(jobs: map<JobId, Job>, r: RunId, state: JobState): map<JobId, Job> {
    map j | j in jobs :: if jobs[j].run == Some(r) && Live(jobs[j]) then Release(jobs[j], state) else jobs[j]
  }

  function CancelRun(t: Tables, org: OrgId, r: RunId): (Tables, Reply<()>) {
    if r in t.runs && t.runs[r].org == org && Open(t.runs[r]) then
      (t.(runs := t.runs[r := t.runs[r].(state := RunCancelled)], jobs := Settled(t.jobs, r, JobCancelled)), Ok(()))
    else (t, Refused(Conflict))
  }

  /** The second writer of results: a GitHub Actions credential for one repository. */
  function ActionsSubmit(t: Tables, org: OrgId, repo: nat, r: RunId, result: string): (Tables, Reply<bool>) {
    if r !in t.runs || t.runs[r].org != org || t.runs[r].repo != repo then (t, Refused(Forbidden))
    else
      var run := t.runs[r];
      if run.state == RunCompleted then
        (t, if run.hash != Some(ContentHash(result)) then Refused(Conflict) else Ok(true))
      else if !Open(run) then (t, Refused(Conflict))
      else
        (t.(runs := t.runs[r := CompleteRun(run, result)], jobs := Settled(t.jobs, r, JobSucceeded)), Ok(false))
  }

  /** The control-plane half of a hosted cancellation, for the lease's job and that job's run. */
  function HostedCancel(t: Tables, j: JobId): Tables {
    if j !in t.jobs || t.jobs[j].run.None? || t.jobs[j].run.value !in t.runs then t
    else
      var job := t.jobs[j];
      var r := job.run.value;
      var jobs := if job.state == JobSucceeded || job.state == JobCancelled then t.jobs
                  else t.jobs[j := Release(job, JobCancelled)];
      var runs := if t.runs[r].state == RunCompleted || t.runs[r].state == RunCancelled then t.runs
                  else t.runs[r := t.runs[r].(state := RunCancelled)];
      t.(jobs := jobs, runs := runs)
  }

  /** A hosted request lets only its own machine claim the job, if the job is still queued. */
  function Require(t: Tables, org: OrgId, j: JobId, requirements: set<string>): Tables {
    if j in t.jobs && t.jobs[j].org == org && t.jobs[j].state == JobQueued
    then t.(jobs := t.jobs[j := t.jobs[j].(requirements := requirements)])
    else t
  }

  /******* Runs of the protocol *******/

  datatype Action =
    | ACreate(org: OrgId, repo: nat, versionKnown: bool, key: Hash, request: Hash, runId: RunId, jobId: JobId, now: int)
    | ASchedule(org: OrgId, repo: nat, runId: RunId, jobId: JobId, now: int)
    | AClaim(runner: RunnerId, org: OrgId, job: JobId, now: int, leaseMs: int)
    | AExtend(runner: RunnerId, job: JobId, now: int, leaseMs: int)
    | ASubmit(runner: RunnerId, org: OrgId, job: JobId, result: string)
    | AFail(runner: RunnerId, job: JobId, retryable: bool, now: int)
    | ARevoke(org: OrgId, runner: RunnerId, now: int)
    | ACancel(org: OrgId, run: RunId)
    | AActions(org: OrgId, repo: nat, run: RunId, result: string)
    | AHostedCancel(job: JobId)
    | ARequire(org: OrgId, job: JobId, requirements: set<string>)   // a hosted request pins its queued job
    | ARetireRunner(runner: RunnerId)   // hosted completion and reconcile revoke without requeueing
    | ARegister(runner: RunnerId, row: Runner)

  function Apply(t: Tables, a: Action): Tables {
    match a
    case ACreate(org, repo, known, key, request, runId, jobId, now) =>
      Create(t, org, repo, known, key, request, runId, jobId, now).0
    case ASchedule(org, repo, runId, jobId, now) =>
      if runId in t.runs || jobId in t.jobs then t else InsertRun(t, org, repo, runId, jobId, now)
    case AClaim(runner, org, j, now, leaseMs) =>
      if Claimable(t, runner, org, now, j) then Claim(t, runner, j, now, leaseMs) else t
    case AExtend(runner, j, now, leaseMs) => Extend(t, runner, j, now, leaseMs).0
    case ASubmit(runner, org, j, result) => Submit(t, runner, org, j, result).0
    case AFail(runner, j, retryable, now) => Fail(t, runner, j, retryable, now).0
    case ARevoke(org, runner, now) => Revoke(t, org, runner, now).0
    case ACancel(org, r) => CancelRun(t, org, r).0
    case AActions(org, repo, r, result) => ActionsSubmit(t, org, repo, r, result).0
    case AHostedCancel(j) => HostedCancel(t, j)
    case ARequire(org, j, requirements) => Require(t, org, j, requirements)
    case ARetireRunner(runner) =>
      if runner in t.runners then t.(runners := t.runners[runner := t.runners[runner].(active := false)]) else t
    case ARegister(runner, row) =>
      if runner in t.runners then t else t.(runners := t.runners[runner := row])
  }

  /** The tables after a whole interleaving. */
  function After(t: Tables, run: seq<Action>): Tables
    decreases |run|
  {
    if run == [] then t else After(Apply(t, run[0]), run[1..])
  }

  /******* The coupling invariant *******/

  ghost predicate JobOk(t: Tables, j: JobId)
    requires j in t.jobs
  {
    var job := t.jobs[j];
    && (job.state == JobLeased <==> job.owner.Some?)
    && (job.state == JobLeased <==> job.expiresAt.Some?)
    && (job.run.Some? ==>
          && job.run.value in t.runs
          && var run := t.runs[job.run.value];
             && run.org == job.org
             && (Live(job) ==> Open(run))
             && (job.state == JobLeased ==> run.state == RunRunning && run.runner == job.owner)
             && (job.state == JobSucceeded ==> run.state == RunCompleted))
  }

  ghost predicate RunOk(run: Run) {
    && (run.state == RunCompleted <==> run.hash.Some?)
    && run.hash == (if run.result.Some? then Some(ContentHash(run.result.value)) else None)
  }

  ghost predicate OneJobPerRun(t: Tables) {
    forall i, j | i in t.jobs && j in t.jobs && t.jobs[i].run.Some? && t.jobs[i].run == t.jobs[j].run :: i == j
  }

  ghost predicate KeysOk(t: Tables) {
    forall k | k in t.keys :: t.keys[k].runId in t.runs && t.keys[k].jobId in t.jobs
  }

  ghost predicate Inv(t: Tables) {
    && (forall j | j in t.jobs :: JobOk(t, j))
    && (forall r | r in t.runs :: RunOk(t.runs[r]))
    && OneJobPerRun(t)
    && KeysOk(t)
  }

  const EMPTY: Tables := Tables(map[], map[], map[], map[])

  lemma InsertKeepsInv(t: Tables, org: OrgId, repo: nat, runId: RunId, jobId: JobId, now: int)
    requires Inv(t) && runId !in t.runs && jobId !in t.jobs
    ensures Inv(InsertRun(t, org, repo, runId, jobId, now))
  {
  }

  /** Rewriting one job and its own run keeps the coupling when the two new rows agree. */
  lemma RewriteKeepsInv(t: Tables, j: JobId, job: Job, run: Run)
    requires Inv(t) && j in t.jobs && t.jobs[j].run.Some?
    requires job.run == t.jobs[j].run && RunOk(run)
    requires JobOk(t.(jobs := t.jobs[j := job], runs := t.runs[job.run.value := run]), j)
    ensures Inv(t.(jobs := t.jobs[j := job], runs := t.runs[job.run.value := run]))
  {
  }

  /** Rewriting one job and no run. */
  lemma RewriteJobKeepsInv(t: Tables, j: JobId, job: Job)
    requires Inv(t) && j in t.jobs && job.run == t.jobs[j].run
    requires JobOk(t.(jobs := t.jobs[j := job]), j)
    ensures Inv(t.(jobs := t.jobs[j := job]))
  {
  }

  lemma ClaimKeepsInv(t: Tables, runner: RunnerId, org: OrgId, j: JobId, now: int, leaseMs: int)
    requires Inv(t) && Claimable(t, runner, org, now, j)
    ensures Inv(Claim(t, runner, j, now, leaseMs))
  {
    assert JobOk(t, j);
    var u := Claim(t, runner, j, now, leaseMs);
    if t.jobs[j].run.Some? {
      RewriteKeepsInv(t, j, u.jobs[j], u.runs[t.jobs[j].run.value]);
    } else {
      RewriteJobKeepsInv(t, j, u.jobs[j]);
    }
  }

  lemma SubmitKeepsInv(t: Tables, runner: RunnerId, org: OrgId, j: JobId, result: string)
    requires Inv(t)
    ensures Inv(Submit(t, runner, org, j, result).0)
  {
  }

  lemma FailKeepsInv(t: Tables, runner: RunnerId, j: JobId, retryable: bool, now: int)
    requires Inv(t)
    ensures Inv(Fail(t, runner, j, retryable, now).0)
  {
  }

  lemma RequeueKeepsInv(t: Tables, u: Tables, runner: RunnerId, now: int)
    requires Inv(t) && u == t.(runners := u.runners, jobs := Requeued(t.jobs, runner, now))
    ensures Inv(u)
  {
  }

  lemma SettleKeepsInv(t: Tables, r: RunId, run: Run, state: JobState)
    requires Inv(t) && r in t.runs && Open(t.runs[r]) && run.org == t.runs[r].org && RunOk(run)
    requires state == JobCancelled || (state == JobSucceeded && run.state == RunCompleted)
    ensures Inv(t.(runs := t.runs[r := run], jobs := Settled(t.jobs, r, state)))
  {
    var u := t.(runs := t.runs[r := run], jobs := Settled(t.jobs, r, state));
    forall j | j in u.jobs ensures JobOk(u, j) { assert JobOk(t, j); }
  }

  lemma HostedCancelKeepsInv(t: Tables, j: JobId)
    requires Inv(t)
    ensures Inv(HostedCancel(t, j))
  {
    if j in t.jobs && t.jobs[j].run.Some? {
      assert JobOk(t, j);
      var job, run := t.jobs[j], t.runs[t.jobs[j].run.value];
      assert RunOk(run);
      HostedCancelRewrites(t, j);
      RewriteKeepsInv(t, j,
        if job.state == JobSucceeded || job.state == JobCancelled then job else Release(job, JobCancelled),
        if run.state == RunCompleted || run.state == RunCancelled then run else run.(state := RunCancelled));
    }
  }

  lemma HostedCancelRewrites(t: Tables, j: JobId)
    requires j in t.jobs && t.jobs[j].run.Some? && t.jobs[j].run.value in t.runs
    ensures var job, run := t.jobs[j], t.runs[t.jobs[j].run.value];
            var job' := if job.state == JobSucceeded || job.state == JobCancelled then job
                        else Release(job, JobCancelled);
            var run' := if run.state == RunCompleted || run.state == RunCancelled then run
                        else run.(state := RunCancelled);
            HostedCancel(t, j) == t.(jobs := t.jobs[j := job'], runs := t.runs[job.run.value := run'])
  {
    assert t.jobs == t.jobs[j := t.jobs[j]] && t.runs == t.runs[t.jobs[j].run.value := t.runs[t.jobs[j].run.value]];
  }

  lemma ExtendKeepsInv(t: Tables, runner: RunnerId, j: JobId, now: int, leaseMs: int)
    requires Inv(t)
    ensures Inv(Extend(t, runner, j, now, leaseMs).0)
  {
    var u := Extend(t, runner, j, now, leaseMs).0;
    if u != t {
      assert JobOk(t, j);
      RewriteJobKeepsInv(t, j, u.jobs[j]);
    }
  }

  lemma RequireKeepsInv(t: Tables, org: OrgId, j: JobId, requirements: set<string>)
    requires Inv(t)
    ensures Inv(Require(t, org, j, requirements))
  {
    var u := Require(t, org, j, requirements);
    if u != t {
      assert JobOk(t, j);
      RewriteJobKeepsInv(t, j, u.jobs[j]);
    }
  }

  /** Runner rows are not part of the coupling. */
  lemma RunnersKeepInv(t: Tables, runners: map<RunnerId, Runner>)
    requires Inv(t)
    ensures Inv(t.(runners := runners))
  {
    forall j | j in t.jobs ensures JobOk(t.(runners := runners), j) { assert JobOk(t, j); }
  }

  lemma CreateKeepsInv(t: Tables, org: OrgId, repo: nat, known: bool, key: Hash, request: Hash,
                       runId: RunId, jobId: JobId, now: int)
    requires Inv(t)
    ensures Inv(Create(t, org, repo, known, key, request, runId, jobId, now).0)
  {
    var u := Create(t, org, repo, known, key, request, runId, jobId, now).0;
    if u != t {
      InsertKeepsInv(t, org, repo, runId, jobId, now);
      var v := InsertRun(t, org, repo, runId, jobId, now);
      forall j | j in u.jobs ensures JobOk(u, j) { assert JobOk(v, j); }
    }
  }

  lemma RevokeKeepsInv(t: Tables, org: OrgId, runner: RunnerId, now: int)
    requires Inv(t)
    ensures Inv(Revoke(t, org, runner, now).0)
  {
    var u := Revoke(t, org, runner, now).0;
    if u != t { RequeueKeepsInv(t, u, runner, now); }
  }

  lemma CancelKeepsInv(t: Tables, org: OrgId, r: RunId)
    requires Inv(t)
    ensures Inv(CancelRun(t, org, r).0)
  {
    if CancelRun(t, org, r).0 != t { SettleKeepsInv(t, r, t.runs[r].(state := RunCancelled), JobCancelled); }
  }

  lemma ActionsKeepInv(t: Tables, org: OrgId, repo: nat, r: RunId, result: string)
    requires Inv(t)
    ensures Inv(ActionsSubmit(t, org, repo, r, result).0)
  {
    if ActionsSubmit(t, org, repo, r, result).0 != t {
      SettleKeepsInv(t, r, CompleteRun(t.runs[r], result), JobSucceeded);
    }
  }

  /** New runs, from a caller or a schedule. */
  lemma InsertsKeepInv(t: Tables, a: Action)
    requires Inv(t) && (a.ACreate? || a.ASchedule?)
    ensures Inv(Apply(t, a))
  {
    match a
    case ACreate(org, repo, known, key, request, runId, jobId, now) =>
      CreateKeepsInv(t, org, repo, known, key, request, runId, jobId, now);
    case ASchedule(org, repo, runId, jobId, now) =>
      if runId !in t.runs && jobId !in t.jobs { InsertKeepsInv(t, org, repo, runId, jobId, now); }
  }

  /** What a runner does with a job. */
  lemma RunnerStepsKeepInv(t: Tables, a: Action)
    requires Inv(t) && (a.AClaim? || a.AExtend? || a.ASubmit? || a.AFail? || a.ARequire?)
    ensures Inv(Apply(t, a))
  {
    match a
    case AClaim(runner, org, j, now, leaseMs) =>
      if Claimable(t, runner, org, now, j) { ClaimKeepsInv(t, runner, org, j, now, leaseMs); }
    case AExtend(runner, j, now, leaseMs) => ExtendKeepsInv(t, runner, j, now, leaseMs);
    case ASubmit(runner, org, j, result) => SubmitKeepsInv(t, runner, org, j, result);
    case AFail(runner, j, retryable, now) => FailKeepsInv(t, runner, j, retryable, now);
    case ARequire(org, j, requirements) => RequireKeepsInv(t, org, j, requirements);
  }

  /** What ends a run or a runner from outside. */
  lemma EndsKeepInv(t: Tables, a: Action)
    requires Inv(t) && (a.ARevoke? || a.ACancel? || a.AActions? || a.AHostedCancel? || a.ARetireRunner? || a.ARegister?)
    ensures Inv(Apply(t, a))
  {
    match a
    case ARevoke(org, runner, now) => RevokeKeepsInv(t, org, runner, now);
    case ACancel(org, r) => CancelKeepsInv(t, org, r);
    case AActions(org, repo, r, result) => ActionsKeepInv(t, org, repo, r, result);
    case AHostedCancel(j) => HostedCancelKeepsInv(t, j);
    case ARetireRunner(runner) => RunnersKeepInv(t, Apply(t, a).runners);
    case ARegister(runner, row) => RunnersKeepInv(t, Apply(t, a).runners);
  }

  /** Every transaction keeps the coupling of jobs and runs. */
  lemma InvKept(t: Tables, a: Action)
    requires Inv(t)
    ensures Inv(Apply(t, a))
  {
    if a.ACreate? || a.ASchedule? {
      InsertsKeepInv(t, a);
    } else if a.AClaim? || a.AExtend? || a.ASubmit? || a.AFail? || a.ARequire? {
      RunnerStepsKeepInv(t, a);
    } else {
      EndsKeepInv(t, a);
    }
  }

  lemma {:induction false} InvAlways(t: Tables, run: seq<Action>)
    requires Inv(t)
    ensures Inv(After(t, run))
    decreases |run|
  {
    if run != [] {
      InvKept(t, run[0]);
      InvAlways(Apply(t, run[0]), run[1..]);
    }
  }

  /******* Safety over whole runs *******/

  predicate Finished(run: Run) {
    run.state == RunCompleted || run.state == RunCancelled
  }

  /** One step leaves a finished run's row alone, although claim and submit do not look at its state. */
  lemma FinishedKept(t: Tables, a: Action, r: RunId)
    requires Inv(t) && r in t.runs && Finished(t.runs[r])
    ensures r in Apply(t, a).runs && Apply(t, a).runs[r] == t.runs[r]
  {
    if a.AClaim? && a.job in t.jobs { assert JobOk(t, a.job); }
    if a.ASubmit? && a.job in t.jobs { assert JobOk(t, a.job); }
  }

  /** No interleaving reopens a completed or cancelled run, or changes its result, hash or runner. */
  lemma {:induction false} FinishedRunFrozen(t: Tables, run: seq<Action>, r: RunId)
    requires Inv(t) && r in t.runs && Finished(t.runs[r])
    ensures r in After(t, run).runs && After(t, run).runs[r] == t.runs[r]
    decreases |run|
  {
    if run != [] {
      FinishedKept(t, run[0], r);
      InvKept(t, run[0]);
      FinishedRunFrozen(Apply(t, run[0]), run[1..], r);
    }
  }

  /** The coupling is what protects the run: drop it, and the unguarded update reopens a cancelled run. */
  lemma UncoupledSubmitReopens()
    ensures exists t, a, r :: !Inv(t) && r in t.runs && t.runs[r].state == RunCancelled
                              && r in Apply(t, a).runs && Apply(t, a).runs[r].state == RunCompleted
  {
    var run := Run(0, 0, RunCancelled, Some(7), None, None);
    var job := Job(0, Some(1), true, JobLeased, {}, 0, 0, 0, Some(7), Some(9), 1, 3);
    var t := Tables(map[1 := run], map[2 := job], map[7 := Runner(0, true, {})], map[]);
    assert !JobOk(t, 2);
    assert Apply(t, ASubmit(7, 0, 2, "r")).runs[1].state == RunCompleted;
  }

  /** Step `a` is the one that accepts a result for run `r`. */
  predicate Accepts(t: Tables, a: Action, r: RunId) {
    && r in Apply(t, a).runs && Apply(t, a).runs[r].state == RunCompleted
    && (r in t.runs ==> t.runs[r].state != RunCompleted)
  }

  function Acceptances(t: Tables, run: seq<Action>, r: RunId): nat
    decreases |run|
  {
    if run == [] then 0
    else (if Accepts(t, run[0], r) then 1 else 0) + Acceptances(Apply(t, run[0]), run[1..], r)
  }

  /** A result is accepted only into an open run, from its leaseholder or from Actions, and is stored intact. */
  lemma AcceptedInto(t: Tables, a: Action, r: RunId)
    requires Inv(t) && Accepts(t, a, r)
    ensures r in t.runs && Open(t.runs[r])
    ensures a.ASubmit? || a.AActions?
    ensures Apply(t, a).runs[r].result == Some(a.result) && Apply(t, a).runs[r].hash == Some(ContentHash(a.result))
    ensures a.ASubmit? ==> a.job in t.jobs && t.jobs[a.job].run == Some(r) && t.jobs[a.job].owner == Some(a.runner)
                           && t.runs[r].runner == Some(a.runner)
    ensures forall j | j in Apply(t, a).jobs && Apply(t, a).jobs[j].run == Some(r) :: !Live(Apply(t, a).jobs[j])
  {
    if a.ASubmit? && a.job in t.jobs {
      assert JobOk(t, a.job);
      forall j | j in t.jobs && t.jobs[j].run == Some(r) ensures j == a.job { }
    }
  }

  /** Over a whole interleaving a run accepts at most one result, and none once it is finished. */
  lemma {:induction false} AcceptedAtMostOnce(t: Tables, run: seq<Action>, r: RunId)
    requires Inv(t)
    ensures Acceptances(t, run, r) <= 1
    ensures r in t.runs && Finished(t.runs[r]) ==> Acceptances(t, run, r) == 0
    decreases |run|
  {
    if run != [] {
      InvKept(t, run[0]);
      AcceptedAtMostOnce(Apply(t, run[0]), run[1..], r);
      if Accepts(t, run[0], r) { AcceptedInto(t, run[0], r); }
      if r in t.runs && Finished(t.runs[r]) { FinishedKept(t, run[0], r); }
    }
  }

  /** The transactions that update every job of a runner or a run. */
  predicate Sweeps(a: Action) {
    a.ARevoke? || a.ACancel? || a.AActions?
  }

  lemma SucceededSwept(t: Tables, a: Action, j: JobId)
    requires Inv(t) && j in t.jobs && t.jobs[j].state == JobSucceeded && Sweeps(a)
    ensures j in Apply(t, a).jobs && Apply(t, a).jobs[j] == t.jobs[j]
  {
    assert JobOk(t, j);
  }

  /** A runner's result is accepted exactly from the active holder of a job of a run. */
  lemma AcceptedExactlyIf(t: Tables, runner: RunnerId, org: OrgId, j: JobId, result: string)
    requires Inv(t)
    ensures Submit(t, runner, org, j, result).1 == Ok(false) <==>
              && j in t.jobs && t.jobs[j].org == org && t.jobs[j].run.Some? && t.jobs[j].owner == Some(runner)
              && runner in t.runners && t.runners[runner].active
    ensures Submit(t, runner, org, j, result).1 != Ok(false) ==> Submit(t, runner, org, j, result).0 == t
    ensures Submit(t, runner, org, j, result).1 == Ok(false) ==>
              Submit(t, runner, org, j, result).0.jobs[j] ==
              t.jobs[j].(state := JobSucceeded, owner := None, expiresAt := None)
  {
    if j in t.jobs { assert JobOk(t, j); }
  }

  /**
   The Actions path: a result is accepted exactly for an open run of that organization and repository, repeated
   exactly with the result the run already has, and forbidden exactly for a run that is not theirs.
   */
  lemma ActionsExactlyIf(t: Tables, org: OrgId, repo: nat, r: RunId, result: string, j: JobId)
    requires Inv(t)
    ensures var (u, reply) := ActionsSubmit(t, org, repo, r, result);
            var theirs := r in t.runs && t.runs[r].org == org && t.runs[r].repo == repo;
            && (reply == Refused(Forbidden) <==> !theirs)
            && (reply == Ok(false) <==> theirs && Open(t.runs[r]))
            && (reply == Ok(true) <==> theirs && t.runs[r].result == Some(result) && t.runs[r].state == RunCompleted)
            && (reply != Ok(false) ==> u == t)
            && (reply == Ok(false) ==>
                  && u.runs == t.runs[r := t.runs[r].(state := RunCompleted, result := Some(result),
                                                      hash := Some(ContentHash(result)))]
                  && u.jobs.Keys == t.jobs.Keys
                  && (j in t.jobs ==>
                        if t.jobs[j].run == Some(r) && t.jobs[j].state in {JobQueued, JobLeased}
                        then u.jobs[j].state == JobSucceeded && u.jobs[j].owner.None?
                        else u.jobs[j] == t.jobs[j]))
  {
    if r in t.runs { assert RunOk(t.runs[r]); }
  }

  /** Only its own organization cancels a run, while queued or running, or revokes a runner, while active. */
  lemma OwnersOnly(t: Tables, org: OrgId, r: RunId, runner: RunnerId, now: int)
    ensures CancelRun(t, org, r).1.Ok? <==>
              r in t.runs && t.runs[r].org == org && t.runs[r].state in {RunQueued, RunRunning}
    ensures Revoke(t, org, runner, now).1.Ok? <==>
              runner in t.runners && t.runners[runner].org == org && t.runners[runner].active
    ensures !CancelRun(t, org, r).1.Ok? ==> CancelRun(t, org, r).0 == t
    ensures !Revoke(t, org, runner, now).1.Ok? ==> Revoke(t, org, runner, now).0 == t
  {
  }

  /** A runner that was retired can claim nothing and complete nothing, and registering never touches a known runner. */
  lemma RetiredRunnerStops(t: Tables, runner: RunnerId, row: Runner, org: OrgId, j: JobId, at: int, result: string)
    ensures var u := Apply(t, ARetireRunner(runner));
            && u.runs == t.runs && u.jobs == t.jobs
            && (runner in t.runners ==> u.runners == t.runners[runner := t.runners[runner].(active := false)])
            && !Claimable(u, runner, org, at, j) && Submit(u, runner, org, j, result).1 != Ok(false)
    ensures var u := Apply(t, ARegister(runner, row));
            u == if runner in t.runners then t else t.(runners := t.runners[runner := row])
  {
  }

  /** A run is created exactly for a known version, fresh identifiers and a key that was never used. */
  lemma CreatedExactlyIf(t: Tables, org: OrgId, repo: nat, known: bool, key: Hash, request: Hash, runId: RunId,
                         jobId: JobId, now: int)
    ensures var (u, reply) := Create(t, org, repo, known, key, request, runId, jobId, now);
            && (reply.Ok? && !reply.value.replay <==>
                  known && runId !in t.runs && jobId !in t.jobs && (org, key) !in t.keys)
            && (u != t ==> reply == Ok(Created(runId, jobId, false)))
            && (reply.Ok? && reply.value.replay ==> (org, key) in t.keys && u == t)
  {
  }

  /** A succeeded job stays succeeded and stays attached to its run. */
  lemma SucceededKept(t: Tables, a: Action, j: JobId)
    requires Inv(t) && j in t.jobs && t.jobs[j].state == JobSucceeded
    ensures j in Apply(t, a).jobs && Apply(t, a).jobs[j] == t.jobs[j]
  {
    assert JobOk(t, j);
    if Sweeps(a) { SucceededSwept(t, a, j); }
  }

  lemma {:induction false} SucceededFrozen(t: Tables, run: seq<Action>, j: JobId)
    requires Inv(t) && j in t.jobs && t.jobs[j].state == JobSucceeded
    ensures j in After(t, run).jobs && After(t, run).jobs[j] == t.jobs[j]
    decreases |run|
  {
    if run != [] {
      SucceededKept(t, run[0], j);
      InvKept(t, run[0]);
      SucceededFrozen(Apply(t, run[0]), run[1..], j);
    }
  }

  /**
   After an accepted submission, whatever the others do in between, a submission of result `again`
   to that job is a replay exactly when it is the same runner with the same content, and it never
   changes a row.
   */
  lemma SubmitThenReplay(t: Tables, runner: RunnerId, org: OrgId, j: JobId, result: string,
                         between: seq<Action>, other: RunnerId, again: string)
    requires Inv(t) && Submit(t, runner, org, j, result).1 == Ok(false)
    ensures var u := After(Submit(t, runner, org, j, result).0, between);
            && Submit(u, other, org, j, again).0 == u
            && (Submit(u, other, org, j, again).1 == Ok(true) <==> other == runner && again == result)
            && Submit(u, other, org, j, again).1 != Ok(false)
  {
    var v := Submit(t, runner, org, j, result).0;
    var r := t.jobs[j].run.value;
    assert JobOk(t, j);
    SubmitKeepsInv(t, runner, org, j, result);
    SucceededFrozen(v, between, j);
    FinishedRunFrozen(v, between, r);
  }

  /** A key row, once written, is never changed: it outlives its own expiry. */
  lemma {:induction false} KeyFrozen(t: Tables, run: seq<Action>, k: (OrgId, Hash))
    requires k in t.keys
    ensures k in After(t, run).keys && After(t, run).keys[k] == t.keys[k]
    decreases |run|
  {
    if run != [] { KeyFrozen(Apply(t, run[0]), run[1..], k); }
  }

  /**
   One idempotency key makes at most one run, for ever.  A later call with the key succeeds
   exactly for 24 hours and the same request, and then returns the first ids; once the row has
   expired every call is refused, because nothing deletes it.
   */
  lemma OneRunPerKey(t: Tables, org: OrgId, repo: nat, key: Hash, request: Hash, runId: RunId, jobId: JobId, now: int,
                     between: seq<Action>, repo': nat, known: bool, request': Hash, runId': RunId, jobId': JobId,
                     now': int)
    requires Create(t, org, repo, true, key, request, runId, jobId, now).1 == Ok(Created(runId, jobId, false))
    ensures var u := After(Create(t, org, repo, true, key, request, runId, jobId, now).0, between);
            var again := Create(u, org, repo', known, key, request', runId', jobId', now');
            && again.0 == u
            && (again.1.Ok? <==> now' < now + 86400000 && request' == request)
            && (again.1.Ok? ==> again.1.value == Created(runId, jobId, true))
  {
    var v := Create(t, org, repo, true, key, request, runId, jobId, now).0;
    assert v.keys[(org, key)] == KeyRow(request, runId, jobId, now + DAY_MS);
    KeyFrozen(v, between, (org, key));
  }

  /******* Attempts *******/

  predicate WithinMax(job: Job) {
    job.attempts <= job.maxAttempts
  }

  ghost predicate AllWithinMax(t: Tables) {
    forall j | j in t.jobs :: WithinMax(t.jobs[j])
  }

  /** The guard that the claim query lacks: it hands out a job that has used up its attempts. */
  predicate Overclaims(t: Tables, a: Action) {
    a.AClaim? && Claimable(t, a.runner, a.org, a.now, a.job) && t.jobs[a.job].attempts >= t.jobs[a.job].maxAttempts
  }

  predicate SomeOverclaim(t: Tables, run: seq<Action>)
    decreases |run|
  {
    run != [] && (Overclaims(t, run[0]) || SomeOverclaim(Apply(t, run[0]), run[1..]))
  }

  /** Attempts never fall and the limit never changes; only a claim of the job adds one. */
  lemma AttemptsStep(t: Tables, a: Action, j: JobId)
    requires j in t.jobs
    ensures var u := Apply(t, a);
            && j in u.jobs && u.jobs[j].maxAttempts == t.jobs[j].maxAttempts
            && u.jobs[j].attempts == t.jobs[j].attempts
                 + (if a.AClaim? && a.job == j && Claimable(t, a.runner, a.org, a.now, j) then 1 else 0)
  {
  }

  lemma NewJobUnattempted(t: Tables, a: Action, j: JobId)
    requires j !in t.jobs && j in Apply(t, a).jobs
    ensures Apply(t, a).jobs[j].attempts == 0 && Apply(t, a).jobs[j].maxAttempts == 3
  {
  }

  /** A step keeps every job within its limit exactly when it is not such a claim. */
  lemma StepWithinMax(t: Tables, a: Action)
    requires AllWithinMax(t)
    ensures AllWithinMax(Apply(t, a)) <==> !Overclaims(t, a)
  {
    var u := Apply(t, a);
    forall j | j in u.jobs
      ensures WithinMax(u.jobs[j]) <==> !(Overclaims(t, a) && a.job == j)
    {
      if j in t.jobs { AttemptsStep(t, a, j); } else { NewJobUnattempted(t, a, j); }
    }
    if Overclaims(t, a) { AttemptsStep(t, a, a.job); }
  }

  lemma {:induction false} BeyondMaxForGood(t: Tables, run: seq<Action>, j: JobId)
    requires j in t.jobs && !WithinMax(t.jobs[j])
    ensures j in After(t, run).jobs && !WithinMax(After(t, run).jobs[j])
    decreases |run|
  {
    if run != [] {
      AttemptsStep(t, run[0], j);
      BeyondMaxForGood(Apply(t, run[0]), run[1..], j);
    }
  }

  /** Over a whole interleaving no job is attempted more than `max_attempts` times exactly when no claim overclaims. */
  lemma {:induction false} MaxAttemptsExactlyIf(t: Tables, run: seq<Action>)
    requires AllWithinMax(t)
    ensures AllWithinMax(After(t, run)) <==> !SomeOverclaim(t, run)
    decreases |run|
  {
    if run != [] {
      var u := Apply(t, run[0]);
      StepWithinMax(t, run[0]);
      if Overclaims(t, run[0]) {
        var j :| j in u.jobs && !WithinMax(u.jobs[j]);
        BeyondMaxForGood(u, run[1..], j);
      } else {
        MaxAttemptsExactlyIf(u, run[1..]);
      }
    }
  }

  /** A claim of an expired lease, or a revocation that requeues the job: neither consults the limit. */
  predicate PutsBack(t: Tables, a: Action, j: JobId) {
    && j in t.jobs && t.jobs[j].state == JobLeased
    && (|| (a.AClaim? && a.job == j && Claimable(t, a.runner, a.org, a.now, j))
        || (a.ARevoke? && t.jobs[j].owner == Some(a.runner) && Revoke(t, a.org, a.runner, a.now).1.Ok?))
  }

  function PutBacks(t: Tables, run: seq<Action>, j: JobId): nat
    decreases |run|
  {
    if run == [] then 0
    else (if PutsBack(t, run[0], j) then 1 else 0) + PutBacks(Apply(t, run[0]), run[1..], j)
  }

  /** At most `extra` attempts above the limit, and room for one more while the job is queued. */
  predicate JobWithinLimit(job: Job, extra: nat) {
    job.attempts <= job.maxAttempts + extra && (job.state == JobQueued ==> job.attempts < job.maxAttempts + extra)
  }

  lemma StepWithinLimit(t: Tables, a: Action, j: JobId, extra: nat)
    requires j in t.jobs ==> JobWithinLimit(t.jobs[j], extra)
    ensures j in Apply(t, a).jobs ==>
              JobWithinLimit(Apply(t, a).jobs[j], extra + (if PutsBack(t, a, j) then 1 else 0))
  {
    if j in t.jobs { AttemptsStep(t, a, j); }
  }

  /**
   With no hypothesis on the interleaving: a job is attempted at most `max_attempts` times plus once for each
   reclaim of its expired lease and each revocation that requeues it.
   */
  lemma {:induction false} AttemptsBounded(t: Tables, run: seq<Action>, j: JobId, extra: nat)
    requires j in t.jobs ==> JobWithinLimit(t.jobs[j], extra)
    ensures j in After(t, run).jobs ==> JobWithinLimit(After(t, run).jobs[j], extra + PutBacks(t, run, j))
    decreases |run|
  {
    if run != [] {
      StepWithinLimit(t, run[0], j, extra);
      AttemptsBounded(Apply(t, run[0]), run[1..], j, extra + (if PutsBack(t, run[0], j) then 1 else 0));
    }
  }

  /** The bound is reached for every limit: `k` reclaims of an expired lease attempt the job `k` more times. */
  function Reclaims(runner: RunnerId, org: OrgId, j: JobId, now: int, k: nat): seq<Action>
    ensures |Reclaims(runner, org, j, now, k)| == k
  {
    if k == 0 then [] else [AClaim(runner, org, j, now, 0)] + Reclaims(runner, org, j, now, k - 1)
  }

  lemma {:induction false} ReclaimsExceedLimit(t: Tables, runner: RunnerId, org: OrgId, j: JobId, now: int, k: nat)
    requires Claimable(t, runner, org, now, j)
    ensures j in After(t, Reclaims(runner, org, j, now, k)).jobs
    ensures After(t, Reclaims(runner, org, j, now, k)).jobs[j].attempts == t.jobs[j].attempts + k
    ensures After(t, Reclaims(runner, org, j, now, k)).jobs[j].maxAttempts == t.jobs[j].maxAttempts
    ensures t.jobs[j].state == JobLeased ==> PutBacks(t, Reclaims(runner, org, j, now, k), j) == k
    decreases k
  {
    if k > 0 {
      var a := AClaim(runner, org, j, now, 0);
      var rest := Reclaims(runner, org, j, now, k - 1);
      assert ([a] + rest)[1..] == rest;
      ReclaimsExceedLimit(Claim(t, runner, j, now, 0), runner, org, j, now, k - 1);
    }
  }

  /** An accepted cancellation or Actions result for run `r`, or the hosted cancellation of its job, never refused. */
  predicate Ends(t: Tables, a: Action, r: RunId) {
    match a
    case ACancel(org, run) => run == r && CancelRun(t, org, r).1.Ok?
    case AActions(org, repo, run, result) => run == r && ActionsSubmit(t, org, repo, r, result).1 == Ok(false)
    case AHostedCancel(job) => job in t.jobs && t.jobs[job].run == Some(r)
    case _ => false
  }

  predicate SomeEnds(t: Tables, run: seq<Action>, r: RunId)
    decreases |run|
  {
    run != [] && (Ends(t, run[0], r) || SomeEnds(Apply(t, run[0]), run[1..], r))
  }

  ghost predicate DeadLetterStays(t: Tables, a: Action, j: JobId)
    requires j in t.jobs && t.jobs[j].run.Some?
  {
    var u := Apply(t, a);
    && j in u.jobs && u.jobs[j].run == t.jobs[j].run
    && u.jobs[j].state in {JobDeadLetter, JobCancelled}
    && (!Ends(t, a, t.jobs[j].run.value) ==> u.jobs[j] == t.jobs[j])
  }

  lemma DeadLetterSwept(t: Tables, a: Action, j: JobId)
    requires j in t.jobs && t.jobs[j].state == JobDeadLetter && t.jobs[j].run.Some? && JobOk(t, j)
    requires Sweeps(a) || a.AHostedCancel?
    ensures DeadLetterStays(t, a, j)
  {
  }

  lemma DeadLetterIdle(t: Tables, a: Action, j: JobId)
    requires j in t.jobs && t.jobs[j].state == JobDeadLetter && !Sweeps(a) && !a.AHostedCancel?
    ensures j in Apply(t, a).jobs && Apply(t, a).jobs[j] == t.jobs[j]
  {
  }

  lemma DeadLetterKept(t: Tables, a: Action, j: JobId)
    requires Inv(t) && j in t.jobs && t.jobs[j].state == JobDeadLetter && t.jobs[j].run.Some?
    ensures DeadLetterStays(t, a, j)
  {
    assert JobOk(t, j);
    if Sweeps(a) || a.AHostedCancel? {
      DeadLetterSwept(t, a, j);
    } else {
      DeadLetterIdle(t, a, j);
    }
  }

  /** The open run of a dead-lettered job stays exactly as it is unless such a step is accepted, and ends if one is. */
  lemma DeadLetterStrandsRun(t: Tables, a: Action, j: JobId)
    requires Inv(t) && j in t.jobs && t.jobs[j].state == JobDeadLetter && t.jobs[j].run.Some?
    requires t.jobs[j].run.value in t.runs && Open(t.runs[t.jobs[j].run.value])
    ensures var r, u := t.jobs[j].run.value, Apply(t, a);
            && r in u.runs
            && (Ends(t, a, r) ==> Finished(u.runs[r]))
            && (!Ends(t, a, r) ==> u.runs[r] == t.runs[r])
  {
    assert JobOk(t, j);
    if a.AClaim? || a.ASubmit? { DeadLetterRunNotWorked(t, a, j); }
  }

  lemma DeadLetterRunNotWorked(t: Tables, a: Action, j: JobId)
    requires Inv(t) && j in t.jobs && t.jobs[j].state == JobDeadLetter && t.jobs[j].run.Some?
    requires t.jobs[j].run.value in t.runs && (a.AClaim? || a.ASubmit?)
    ensures var r := t.jobs[j].run.value; r in Apply(t, a).runs && Apply(t, a).runs[r] == t.runs[r]
  {
    if a.job in t.jobs { assert JobOk(t, a.job) && (a.job == j || t.jobs[a.job].run != t.jobs[j].run); }
  }

  /**
   Over a whole interleaving the run stays open if and only if no such step is accepted; it and its job then stay
   exactly as they are.
   */
  lemma {:induction false} DeadLetterStrandsForEver(t: Tables, run: seq<Action>, j: JobId)
    requires Inv(t) && j in t.jobs && t.jobs[j].state == JobDeadLetter && t.jobs[j].run.Some?
    requires t.jobs[j].run.value in t.runs && Open(t.runs[t.jobs[j].run.value])
    ensures var r := t.jobs[j].run.value;
            var u := After(t, run);
            && r in u.runs && j in u.jobs
            && (Open(u.runs[r]) <==> !SomeEnds(t, run, r))
            && (!SomeEnds(t, run, r) ==> u.runs[r] == t.runs[r] && u.jobs[j] == t.jobs[j])
    decreases |run|
  {
    if run != [] {
      var r := t.jobs[j].run.value;
      DeadLetterKept(t, run[0], j);
      DeadLetterStrandsRun(t, run[0], j);
      InvKept(t, run[0]);
      if Ends(t, run[0], r) {
        FinishedRunFrozen(Apply(t, run[0]), run[1..], r);
        JobKept(Apply(t, run[0]), run[1..], j);
      } else {
        DeadLetterStrandsForEver(Apply(t, run[0]), run[1..], j);
      }
    }
  }

  lemma {:induction false} JobKept(t: Tables, run: seq<Action>, j: JobId)
    requires j in t.jobs
    ensures j in After(t, run).jobs
    decreases |run|
  {
    if run != [] {
      AttemptsStep(t, run[0], j);
      JobKept(Apply(t, run[0]), run[1..], j);
    }
  }

  /******* Leases in time *******/

  /**
   A claim leases the job until `now + leaseMs`.  From then on exactly, the others that may claim it at all can, and
   until then exactly, the claimant and nobody else can extend it.
   */
  lemma LeaseLasts(t: Tables, runner: RunnerId, org: OrgId, j: JobId, now: int, leaseMs: int,
                   other: RunnerId, org': OrgId, at: int, ms: int)
    requires Claimable(t, runner, org, now, j)
    ensures var u, job := Claim(t, runner, j, now, leaseMs), t.jobs[j];
            Claimable(u, other, org', at, j) <==>
              && at >= now + leaseMs && at >= job.availableAt && org' == job.org
              && other in t.runners && t.runners[other].active && job.requirements <= t.runners[other].capabilities
    ensures Extend(Claim(t, runner, j, now, leaseMs), other, j, at, ms).1.Ok? <==>
              other == runner && at < now + leaseMs
  {
  }

  /** An extension moves the end of the lease to `now + leaseMs`, and touches no other row. */
  lemma ExtensionLasts(t: Tables, runner: RunnerId, j: JobId, now: int, leaseMs: int, other: RunnerId, org: OrgId,
                       at: int, ms: int)
    requires Extend(t, runner, j, now, leaseMs).1.Ok?
    ensures var u := Extend(t, runner, j, now, leaseMs).0;
            && (Claimable(u, other, org, at, j) ==> at >= now + leaseMs)
            && (Extend(u, other, j, at, ms).1.Ok? <==> other == runner && at < now + leaseMs)
            && u == t.(jobs := t.jobs[j := u.jobs[j]]) && u.jobs[j].attempts == t.jobs[j].attempts
  {
  }

  /** `runner` holds job `j`, at least until `until`. */
  predicate HeldUntil(t: Tables, runner: RunnerId, j: JobId, until: int) {
    && j in t.jobs && t.jobs[j].state == JobLeased && t.jobs[j].owner == Some(runner)
    && t.jobs[j].expiresAt.Some? && t.jobs[j].expiresAt.value >= until
  }

  /** A step before that time: no claim of the job asks later, and the holder does not ask for a shorter lease. */
  predicate Meanwhile(a: Action, runner: RunnerId, j: JobId, until: int) {
    && (a.AClaim? && a.job == j ==> a.now < until)
    && (a.AExtend? && a.runner == runner && a.job == j ==> a.now + a.leaseMs >= until)
  }

  /** The holder gives the job up, or an accepted step takes it away. */
  predicate LetsGo(t: Tables, a: Action, runner: RunnerId, j: JobId)
    requires j in t.jobs
  {
    match a
    case AFail(r, job, _, _) => r == runner && job == j
    case ASubmit(r, org, job, result) => r == runner && job == j && Submit(t, r, org, j, result).1 == Ok(false)
    case ARevoke(org, r, now) => r == runner && Revoke(t, org, r, now).1.Ok?
    case ACancel(org, run) => t.jobs[j].run == Some(run) && CancelRun(t, org, run).1.Ok?
    case AActions(org, repo, run, result) =>
      t.jobs[j].run == Some(run) && ActionsSubmit(t, org, repo, run, result).1 == Ok(false)
    case AHostedCancel(job) => job == j && t.jobs[j].run.Some?
    case _ => false
  }

  lemma HeldSwept(t: Tables, a: Action, runner: RunnerId, j: JobId, until: int)
    requires HeldUntil(t, runner, j, until) && JobOk(t, j) && (Sweeps(a) || a.AHostedCancel?)
    ensures HeldUntil(Apply(t, a), runner, j, until) <==> !LetsGo(t, a, runner, j)
    ensures j in Apply(t, a).jobs && (LetsGo(t, a, runner, j) ==> Apply(t, a).jobs[j].owner.None?)
  {
  }

  /** Before the lease ends a step leaves the job with its holder exactly when it is none of these. */
  lemma HeldStep(t: Tables, a: Action, runner: RunnerId, j: JobId, until: int)
    requires HeldUntil(t, runner, j, until) && JobOk(t, j) && Meanwhile(a, runner, j, until)
    ensures HeldUntil(Apply(t, a), runner, j, until) <==> !LetsGo(t, a, runner, j)
    ensures j in Apply(t, a).jobs && (LetsGo(t, a, runner, j) ==> Apply(t, a).jobs[j].owner.None?)
  {
    if Sweeps(a) || a.AHostedCancel? { HeldSwept(t, a, runner, j, until); }
  }

  ghost predicate HeldThroughout(t: Tables, run: seq<Action>, runner: RunnerId, j: JobId, until: int)
    decreases |run|
  {
    HeldUntil(t, runner, j, until) && (run != [] ==> HeldThroughout(Apply(t, run[0]), run[1..], runner, j, until))
  }

  predicate SomeLetsGo(t: Tables, run: seq<Action>, runner: RunnerId, j: JobId)
    decreases |run|
  {
    run != [] && j in t.jobs && (LetsGo(t, run[0], runner, j) || SomeLetsGo(Apply(t, run[0]), run[1..], runner, j))
  }

  lemma {:induction false} HeldExactlyIf(t: Tables, run: seq<Action>, runner: RunnerId, j: JobId, until: int)
    requires Inv(t) && HeldUntil(t, runner, j, until)
    requires forall k | 0 <= k < |run| :: Meanwhile(run[k], runner, j, until)
    ensures HeldThroughout(t, run, runner, j, until) <==> !SomeLetsGo(t, run, runner, j)
    decreases |run|
  {
    if run != [] {
      assert Meanwhile(run[0], runner, j, until) && JobOk(t, j);
      HeldStep(t, run[0], runner, j, until);
      InvKept(t, run[0]);
      if !LetsGo(t, run[0], runner, j) { HeldExactlyIf(Apply(t, run[0]), run[1..], runner, j, until); }
    }
  }

  /**
   Exclusive leases: in every interleaving of the time of a lease the claimant keeps the job, so that nobody else
   gets it, if and only if it does not give it up and no accepted revocation, cancellation or Actions result takes it.
   */
  lemma LeaseExclusive(t: Tables, runner: RunnerId, org: OrgId, j: JobId, now: int, leaseMs: int, run: seq<Action>)
    requires Inv(t) && Claimable(t, runner, org, now, j)
    requires forall k | 0 <= k < |run| :: Meanwhile(run[k], runner, j, now + leaseMs)
    ensures var u := Claim(t, runner, j, now, leaseMs);
            HeldThroughout(u, run, runner, j, now + leaseMs) <==> !SomeLetsGo(u, run, runner, j)
  {
    ClaimKeepsInv(t, runner, org, j, now, leaseMs);
    HeldExactlyIf(Claim(t, runner, j, now, leaseMs), run, runner, j, now + leaseMs);
  }

  /** Only a runner that has the required capabilities can claim a job that a hosted request has pinned. */
  lemma RequiredPins(t: Tables, org: OrgId, j: JobId, requirements: set<string>, runner: RunnerId, org': OrgId, at: int)
    requires j in t.jobs && t.jobs[j].org == org && t.jobs[j].state == JobQueued
    ensures var u := Require(t, org, j, requirements);
            && (Claimable(u, runner, org', at, j) ==>
                  runner in t.runners && requirements <= t.runners[runner].capabilities)
            && (Claimable(t, runner, org', at, j) && requirements <= t.runners[runner].capabilities ==>
                  Claimable(u, runner, org', at, j))
  {
  }

  /**
   A new run can be claimed at once, by every active runner of the organization, after the jobs that waited longer
   or have a higher priority than 0 and before the others; its job can be requeued until its third attempt.
   */
  lemma CreatedRunStarts(t: Tables, org: OrgId, repo: nat, key: Hash, request: Hash, runId: RunId, jobId: JobId,
                         now: int, runner: RunnerId, org': OrgId, at: int)
    requires Create(t, org, repo, true, key, request, runId, jobId, now).1 == Ok(Created(runId, jobId, false))
    ensures var u := Create(t, org, repo, true, key, request, runId, jobId, now).0;
            && u.runs == t.runs[runId := Run(org, repo, RunQueued, None, None, None)]
            && u.jobs == t.jobs[jobId := u.jobs[jobId]] && u.jobs[jobId].run == Some(runId)
            && (Claimable(u, runner, org', at, jobId) <==>
                  org' == org && runner in t.runners && t.runners[runner].active && at >= now)
            && u.jobs[jobId].attempts == 0 && u.jobs[jobId].maxAttempts == 3
            && (forall i | i in t.jobs :: i in u.jobs &&
                  var job := t.jobs[i];
                  && (job.priority > 0 || (job.priority == 0 && job.createdAt < now) ==> Precedes(u, i, jobId))
                  && (job.priority < 0 || (job.priority == 0 && job.createdAt > now) ==> Precedes(u, jobId, i)))
  {
  }

  /******* Fencing and release *******/

  predicate ReclaimsBy(run: seq<Action>, runner: RunnerId, j: JobId) {
    exists k | 0 <= k < |run| :: run[k].AClaim? && run[k].runner == runner && run[k].job == j
  }

  lemma ReclaimsLater(run: seq<Action>, runner: RunnerId, j: JobId)
    requires run != [] && !ReclaimsBy(run, runner, j)
    ensures !ReclaimsBy(run[1..], runner, j) && !(run[0].AClaim? && run[0].runner == runner && run[0].job == j)
  {
    forall k | 0 <= k < |run[1..]|
      ensures !(run[1..][k].AClaim? && run[1..][k].runner == runner && run[1..][k].job == j)
    { assert run[1..][k] == run[k + 1]; }
  }

  lemma NotOwnerSwept(t: Tables, a: Action, runner: RunnerId, j: JobId)
    requires j in t.jobs && t.jobs[j].owner != Some(runner) && Sweeps(a)
    ensures j in Apply(t, a).jobs && Apply(t, a).jobs[j].owner != Some(runner)
  {
  }

  lemma NotOwnerStep(t: Tables, a: Action, runner: RunnerId, j: JobId)
    requires j in t.jobs && t.jobs[j].owner != Some(runner)
    requires !(a.AClaim? && a.runner == runner && a.job == j)
    ensures j in Apply(t, a).jobs && Apply(t, a).jobs[j].owner != Some(runner)
  {
    if Sweeps(a) { NotOwnerSwept(t, a, runner, j); }
  }

  lemma {:induction false} NotOwnerKept(t: Tables, run: seq<Action>, runner: RunnerId, j: JobId)
    requires j in t.jobs && t.jobs[j].owner != Some(runner) && !ReclaimsBy(run, runner, j)
    ensures j in After(t, run).jobs && After(t, run).jobs[j].owner != Some(runner)
    decreases |run|
  {
    if run != [] {
      ReclaimsLater(run, runner, j);
      NotOwnerStep(t, run[0], runner, j);
      NotOwnerKept(Apply(t, run[0]), run[1..], runner, j);
    }
  }

  /**
   Fencing: once a job has been reclaimed by another runner, the old holder can no longer extend,
   fail or complete it, whatever happens in between, until it claims the job again itself.
   */
  lemma Fenced(t: Tables, thief: RunnerId, org: OrgId, j: JobId, now: int, leaseMs: int, between: seq<Action>,
               holder: RunnerId, result: string, retryable: bool, later: int)
    requires Claimable(t, thief, org, now, j) && holder != thief && !ReclaimsBy(between, holder, j)
    ensures var u := After(Claim(t, thief, j, now, leaseMs), between);
            && Submit(u, holder, org, j, result).0 == u && Submit(u, holder, org, j, result).1 != Ok(false)
            && Fail(u, holder, j, retryable, later) == (u, Refused(AuthUnavailable))
            && Extend(u, holder, j, later, leaseMs) == (u, Refused(AuthUnavailable))
  {
    NotOwnerKept(Claim(t, thief, j, now, leaseMs), between, holder, j);
  }

  /** Revocation returns exactly the runner's leases to the queue, and the runner can then claim nothing. */
  lemma RevokeFrees(t: Tables, org: OrgId, runner: RunnerId, now: int, later: int, j: JobId)
    requires Inv(t) && Revoke(t, org, runner, now).1.Ok? && j in t.jobs
    ensures var u := Revoke(t, org, runner, now).0;
            && u.jobs.Keys == t.jobs.Keys && u.runs == t.runs
            && u.jobs[j].owner != Some(runner)
            && (t.jobs[j].owner == Some(runner) ==> u.jobs[j].state == JobQueued && u.jobs[j].availableAt == now
                                                    && u.jobs[j].attempts == t.jobs[j].attempts)
            && (t.jobs[j].owner != Some(runner) ==> u.jobs[j] == t.jobs[j])
            && !Claimable(u, runner, org, later, j)
  {
  }

  /** Cancelling a run stops its work and nothing else's. */
  lemma CancelStops(t: Tables, org: OrgId, r: RunId, j: JobId)
    requires Inv(t) && CancelRun(t, org, r).1.Ok? && j in t.jobs
    ensures var u := CancelRun(t, org, r).0;
            && u.runs == t.runs[r := t.runs[r].(state := RunCancelled)] && Finished(u.runs[r])
            && u.jobs.Keys == t.jobs.Keys && !(u.jobs[j].run == Some(r) && Live(u.jobs[j]))
            && (t.jobs[j].run != Some(r) || !Live(t.jobs[j]) ==> u.jobs[j] == t.jobs[j])
            && (t.jobs[j].run == Some(r) && Live(t.jobs[j]) ==> u.jobs[j].state == JobCancelled)
  {
  }

  lemma {:induction false} Pow2Grows(m: nat, n: nat)
    requires m <= n
    ensures 1 <= Pow2(m) <= Pow2(n)
    decreases n
  {
    if m < n { Pow2Grows(m, n - 1); } else if m > 0 { Pow2Grows(m - 1, n - 1); }
  }

  lemma {:induction false} FirstDelays(n: nat)
    requires n < 9
    ensures Pow2(n) == [1, 2, 4, 8, 16, 32, 64, 128, 256][n]
  {
    if n > 0 { FirstDelays(n - 1); }
  }

  /** The back-off doubles from one second up to five minutes, which the ninth attempt reaches. */
  lemma BackoffTable(attempts: nat)
    ensures Backoff(attempts) ==
            if attempts < 9 then [1000, 2000, 4000, 8000, 16000, 32000, 64000, 128000, 256000][attempts] else 300000
  {
    if attempts < 9 {
      FirstDelays(attempts);
    } else {
      FirstDelays(8);
      Pow2Grows(9, attempts);
    }
  }

  /**
   A failed attempt goes back to the queue exactly while it is retryable and under the limit.  Nobody can claim it
   before its delay is over, and from then on everybody can that could before.
   */
  lemma FailRequeues(t: Tables, runner: RunnerId, j: JobId, retryable: bool, now: int,
                     other: RunnerId, org: OrgId, at: int)
    requires Fail(t, runner, j, retryable, now).1.Ok?
    ensures var u, job := Fail(t, runner, j, retryable, now).0, t.jobs[j];
            && u.jobs[j].owner.None? && u.jobs[j].attempts == job.attempts
            && (u.jobs[j].state == JobQueued <==> retryable && job.attempts < job.maxAttempts)
            && (u.jobs[j].state != JobQueued ==> u.jobs[j].state == JobDeadLetter)
            && (u.jobs[j].state == JobQueued ==>
                  (Claimable(u, other, org, at, j) <==>
                     && at >= now + Backoff(job.attempts) && org == job.org && job.benchmark
                     && other in t.runners && t.runners[other].active
                     && job.requirements <= t.runners[other].capabilities))
            && (u.jobs[j].state == JobDeadLetter ==> !Claimable(u, other, org, at, j))
            && (forall i | i in t.jobs && i != j :: i in u.jobs && u.jobs[i] == t.jobs[i])
  {
  }
}

/**
 The control-plane service: the lease transactions as they update rows, each proved to take
 exactly the step of the `Leases` protocol, so that every theorem about interleavings there holds
 of any sequence of calls here.
 */
module CloudService {
  import opened Wrappers
  import opened Leases

  ghost predicate IsFirst(t: Tables, j: JobId, s: set<JobId>)
    requires s <= t.jobs.Keys
  {
    j in s && forall i | i in s && i != j :: Precedes(t, j, i)
  }

  /** A non-empty set of jobs has a first one in claim order. */
  lemma {:induction false} FirstExists(t: Tables, s: set<JobId>) returns (first: JobId)
    requires s != {} && s <= t.jobs.Keys
    ensures IsFirst(t, first, s)
    decreases |s|
  {
    var x :| x in s;
    first := x;
    if s != {x} {
      var y := FirstExists(t, s - {x});
      if Precedes(t, y, x) {
        first := y;
      } else {
        forall i | i in s && i != x ensures Precedes(t, x, i) {
          if i != y { assert Precedes(t, y, i); }
        }
      }
    }
  }

  class CloudService {
    var runs: map<RunId, Run>
    var jobs: map<JobId, Job>
    var runners: map<RunnerId, Runner>
    var keys: map<(OrgId, Hash), KeyRow>

    function Rows(): Tables
      reads this
    {
      Tables(runs, jobs, runners, keys)
    }

    ghost predicate Valid()
      reads this
    {
      Inv(Rows())
    }

    constructor ()
      ensures Valid() && Rows() == EMPTY
    {
      runs, jobs, runners, keys := map[], map[], map[], map[];
    }

    /** `runId` and `jobId` are the random identifiers the service draws. */
    method CreateRun(org: OrgId, repo: nat, versionKnown: bool, key: Hash, request: Hash,
                     runId: RunId, jobId: JobId, now: int)
      returns (reply: Reply<Created>)
      requires Valid()
      modifies this
      ensures Valid()
      ensures (Rows(), reply) == Create(old(Rows()), org, repo, versionKnown, key, request, runId, jobId, now)
    {
      CreateKeepsInv(Rows(), org, repo, versionKnown, key, request, runId, jobId, now);
      if (org, key) in keys && keys[(org, key)].expiresAt > now {
        var row := keys[(org, key)];
        if row.request != request {
          return Refused(ConfigInvalid);
        }
        return Ok(Created(row.runId, row.jobId, true));
      }
      if !versionKnown {
        return Refused(AuthUnavailable);
      }
      if runId in runs || jobId in jobs || (org, key) in keys {
        return Refused(Conflict);
      }
      runs := runs[runId := Run(org, repo, RunQueued, None, None, None)];
      jobs := jobs[jobId := Job(org, Some(runId), true, JobQueued, {}, 0, now, now, None, None, 0,
                                DEFAULT_MAX_ATTEMPTS)];
      keys := keys[(org, key) := KeyRow(request, runId, jobId, now + DAY_MS)];
      reply := Ok(Created(runId, jobId, false));
    }

    /**
     Claims the first claimable job that no concurrent claim has `locked`: the highest priority,
     then the oldest, then the smallest id.
     */
    method ClaimJob(runner: RunnerId, org: OrgId, now: int, leaseMs: int, locked: set<JobId>)
      returns (claimed: Option<JobId>)
      requires Valid()
      modifies this
      ensures Valid()
      ensures claimed.None? ==> Rows() == old(Rows())
                                && forall j | Claimable(old(Rows()), runner, org, now, j) :: j in locked
      ensures claimed.Some? ==>
                && Claimable(old(Rows()), runner, org, now, claimed.value) && claimed.value !in locked
                && (forall i | Claimable(old(Rows()), runner, org, now, i) && i !in locked && i != claimed.value ::
                      var a, b := old(jobs)[claimed.value], old(jobs)[i];
                      && a.priority >= b.priority
                      && (a.priority == b.priority ==> a.createdAt <= b.createdAt)
                      && (a.priority == b.priority && a.createdAt == b.createdAt ==> claimed.value < i))
                && Rows() == Apply(old(Rows()), AClaim(runner, org, claimed.value, now, leaseMs))
    {
      claimed := SelectNext(runner, org, now, locked);
      if claimed.None? {
        return;
      }
      var j := claimed.value;
      ClaimKeepsInv(Rows(), runner, org, j, now, leaseMs);
      ghost var next := Claim(Rows(), runner, j, now, leaseMs);
      var job := jobs[j];
      jobs := jobs[j := job.(state := JobLeased, owner := Some(runner), expiresAt := Some(now + leaseMs),
                             attempts := job.attempts + 1)];
      if job.run.Some? && job.run.value in runs {
        runs := runs[job.run.value := runs[job.run.value].(state := RunRunning, runner := Some(runner))];
      }
      assert Rows() == next;
    }

    /** The claim query. */
    method SelectNext(runner: RunnerId, org: OrgId, now: int, locked: set<JobId>) returns (next: Option<JobId>)
      ensures next.None? ==> forall j | Claimable(Rows(), runner, org, now, j) :: j in locked
      ensures next.Some? ==>
                && Claimable(Rows(), runner, org, now, next.value) && next.value !in locked
                && forall i | Claimable(Rows(), runner, org, now, i) && i !in locked ::
                     i == next.value || Precedes(Rows(), next.value, i)
    {
      var selected := set j | j in jobs && Claimable(Rows(), runner, org, now, j) && j !in locked;
      if selected == {} {
        assert forall j | Claimable(Rows(), runner, org, now, j) :: j in jobs && (j in selected || j in locked);
        return None;
      }
      ghost var first := FirstExists(Rows(), selected);
      assert first in selected;
      var j :| j in selected && forall i | i in selected && i != j :: Precedes(Rows(), j, i);
      next := Some(j);
    }

    method ExtendLease(runner: RunnerId, j: JobId, now: int, leaseMs: int) returns (reply: Reply<()>)
      requires Valid()
      modifies this
      ensures Valid() && (Rows(), reply) == Extend(old(Rows()), runner, j, now, leaseMs)
    {
      ExtendKeepsInv(Rows(), runner, j, now, leaseMs);
      if j in jobs && jobs[j].owner == Some(runner) && jobs[j].state == JobLeased
         && jobs[j].expiresAt.Some? && jobs[j].expiresAt.value > now {
        jobs := jobs[j := jobs[j].(expiresAt := Some(now + leaseMs))];
        return Ok(());
      }
      return Refused(AuthUnavailable);
    }

    /** Ok(true) is a replay, Ok(false) an acceptance. */
    method SubmitResult(runner: RunnerId, org: OrgId, j: JobId, result: string) returns (reply: Reply<bool>)
      requires Valid()
      modifies this
      ensures Valid() && (Rows(), reply) == Submit(old(Rows()), runner, org, j, result)
    {
      SubmitKeepsInv(Rows(), runner, org, j, result);
      if j !in jobs || jobs[j].org != org || jobs[j].run.None? || jobs[j].run.value !in runs {
        return Refused(AuthUnavailable);
      }
      var job := jobs[j];
      var run := runs[job.run.value];
      if job.state == JobSucceeded {
        if run.runner != Some(runner) {
          return Refused(AuthUnavailable);
        }
        if run.hash != Some(ContentHash(result)) {
          return Refused(ConfigInvalid);
        }
        return Ok(true);
      }
      if job.owner != Some(runner) {
        return Refused(AuthUnavailable);
      }
      if job.state != JobLeased || !(runner in runners && runners[runner].active) {
        return Refused(AuthUnavailable);
      }
      runs := runs[job.run.value := run.(state := RunCompleted, result := Some(result),
                                         hash := Some(ContentHash(result)))];
      jobs := jobs[j := job.(state := JobSucceeded, owner := None, expiresAt := None)];
      reply := Ok(false);
    }

    method FailJob(runner: RunnerId, j: JobId, retryable: bool, now: int) returns (reply: Reply<()>)
      requires Valid()
      modifies this
      ensures Valid() && (Rows(), reply) == Fail(old(Rows()), runner, j, retryable, now)
    {
      FailKeepsInv(Rows(), runner, j, retryable, now);
      if !(j in jobs && jobs[j].owner == Some(runner) && jobs[j].state == JobLeased) {
        return Refused(AuthUnavailable);
      }
      var job := jobs[j];
      var terminal := !retryable || job.attempts >= job.maxAttempts;
      var availableAt := now + Backoff(job.attempts);
      jobs := jobs[j := job.(state := if terminal then JobDeadLetter else JobQueued, owner := None, expiresAt := None,
                             availableAt := if terminal then job.availableAt else availableAt)];
      reply := Ok(());
    }

    method RevokeRunner(org: OrgId, runner: RunnerId, now: int) returns (reply: Reply<()>)
      requires Valid()
      modifies this
      ensures Valid() && (Rows(), reply) == Revoke(old(Rows()), org, runner, now)
    {
      ghost var next := Apply(Rows(), ARevoke(org, runner, now));
      RevokeKeepsInv(Rows(), org, runner, now);
      if !(runner in runners && runners[runner].org == org && runners[runner].active) {
        return Refused(NotFound);
      }
      runners := runners[runner := runners[runner].(active := false)];
      jobs := Requeued(jobs, runner, now);
      reply := Ok(());
      assert Rows() == next;
    }

    method CancelRunById(org: OrgId, r: RunId) returns (reply: Reply<()>)
      requires Valid()
      modifies this
      ensures Valid() && (Rows(), reply) == CancelRun(old(Rows()), org, r)
    {
      CancelKeepsInv(Rows(), org, r);
      if !(r in runs && runs[r].org == org && Open(runs[r])) {
        return Refused(Conflict);
      }
      runs := runs[r := runs[r].(state := RunCancelled)];
      jobs := Settled(jobs, r, JobCancelled);
      reply := Ok(());
    }

    /** The Actions path: a credential for (`org`, `repo`) submits the result of a whole run. */
    method SubmitActionsResult(org: OrgId, repo: nat, r: RunId, result: string) returns (reply: Reply<bool>)
      requires Valid()
      modifies this
      ensures Valid() && (Rows(), reply) == ActionsSubmit(old(Rows()), org, repo, r, result)
    {
      ActionsKeepInv(Rows(), org, repo, r, result);
      if r !in runs || runs[r].org != org || runs[r].repo != repo {
        return Refused(Forbidden);
      }
      if runs[r].state == RunCompleted {
        if runs[r].hash != Some(ContentHash(result)) {
          return Refused(Conflict);
        }
        return Ok(true);
      }
      if !Open(runs[r]) {
        return Refused(Conflict);
      }
      runs := runs[r := runs[r].(state := RunCompleted, result := Some(result), hash := Some(ContentHash(result)))];
      jobs := Settled(jobs, r, JobSucceeded);
      reply := Ok(false);
    }
  }
}

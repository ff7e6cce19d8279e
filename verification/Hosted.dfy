/**
 Hosted-compute leases: capacity, queue and budget reservations, and metering that bills a lease once.

 Every database transaction is one step.  `provisionNext` is two of them with a provider call in
 between, and its second one, like the updates of cancel, complete and reconcile, looks at no state.
 Row numbers are lease identifiers; settings and policies stay fixed during a run.
 */
module Hosted {
  import opened Wrappers
  import opened Sums

  type OrgId = nat

  datatype State =
    | Requested | Provisioning | Bootstrapping | Ready | Claimed | Running
    | Terminating | Terminated | Failed | Orphaned

  datatype Lease = Lease(org: OrgId, job: nat, state: State, wallMs: nat, rate: nat, estimate: nat, reserved: nat,
                         month: int, requestedAt: int, provisionedAt: Option<int>, startedAt: Option<int>,
                         terminatedAt: Option<int>, resource: Option<nat>, runner: Option<nat>, updatedAt: int)

  datatype Usage = Usage(lease: nat, org: OrgId, durationMs: nat, cost: nat)

  datatype Settings = Settings(enabled: bool, emergencyStop: bool, maxActive: nat, maxQueued: nat)

  datatype Policy = Policy(suspended: bool, maxConcurrency: nat, maxQueued: nat, monthlyBudget: Option<nat>)

  datatype Hosted = Hosted(leases: seq<Lease>, usage: seq<Usage>, settings: Settings, policies: map<OrgId, Policy>)

  const MINUTE_MS: nat := 60000
  const READY_TIMEOUT_MS: int := 120000

  /** Started minutes. */
  function Minutes(ms: nat): nat {
    (ms + MINUTE_MS - 1) / MINUTE_MS
  }

  function Cost(ms: nat, rate: nat): nat {
    Minutes(ms) * rate
  }

  /** The five states that occupy a machine. */
  predicate Occupies(s: State) {
    s == Provisioning || s == Bootstrapping || s == Ready || s == Claimed || s == Running
  }

  /** What the capacity check counts: the five, and TERMINATING. */
  predicate Counted(s: State) {
    Occupies(s) || s == Terminating
  }

  predicate IsTerminal(s: State) {
    s == Terminated || s == Failed
  }

  /** The columns that are counted or added up; `who` restricts to one organization. */
  predicate Of(l: Lease, who: Option<OrgId>) {
    who.None? || who.value == l.org
  }

  function OccupyingMark(ls: seq<Lease>, who: Option<OrgId>): nat -> int {
    (i: nat) => if i < |ls| && Of(ls[i], who) && Occupies(ls[i].state) then 1 else 0
  }

  function CountedMark(ls: seq<Lease>, who: Option<OrgId>): nat -> int {
    (i: nat) => if i < |ls| && Of(ls[i], who) && Counted(ls[i].state) then 1 else 0
  }

  function StateMark(ls: seq<Lease>, who: Option<OrgId>, s: State): nat -> int {
    (i: nat) => if i < |ls| && Of(ls[i], who) && ls[i].state == s then 1 else 0
  }

  function ReservedSince(ls: seq<Lease>, org: OrgId, month: int): nat -> int {
    (i: nat) => if i < |ls| && ls[i].org == org && ls[i].month >= month then ls[i].reserved else 0
  }

  function Occupying(ls: seq<Lease>, who: Option<OrgId>): int { Sum(|ls|, OccupyingMark(ls, who)) }
  function CountedIn(ls: seq<Lease>, who: Option<OrgId>): int { Sum(|ls|, CountedMark(ls, who)) }
  function InState(ls: seq<Lease>, who: Option<OrgId>, s: State): int { Sum(|ls|, StateMark(ls, who, s)) }

  /******* The transactions *******/

  datatype Class = Class(maxWallMs: nat, rate: Option<nat>, networkAllowed: bool)

  /** `preflight`, for an organization's entitlement and the newest version of the class, if any. */
  function Preflight(hostedEntitled: bool, classEntitled: bool, cls: Option<Class>, entitledWallMs: nat,
                     wallMs: int, budget: Option<int>): Reply<nat>
  {
    if !hostedEntitled || !classEntitled then Refused(Forbidden)
    else if cls.None? then Refused(ConfigInvalid)
    else if wallMs <= 0 || wallMs > cls.value.maxWallMs || wallMs > entitledWallMs then Refused(ConfigInvalid)
    else if !cls.value.networkAllowed || cls.value.rate.None? then Refused(ConfigInvalid)
    else if budget.None? || Cost(wallMs, cls.value.rate.value) > budget.value then Refused(ConfigInvalid)
    else Ok(Cost(wallMs, cls.value.rate.value))
  }

  /** The lease already made for a job, if there is one; `|ls|` otherwise. */
  function LeaseOf(ls: seq<Lease>, job: nat): (i: nat)
    ensures i <= |ls| && (i < |ls| ==> ls[i].job == job)
    ensures i == |ls| ==> forall k | 0 <= k < |ls| :: ls[k].job != job
  {
    if ls == [] then 0
    else if ls[0].job == job then 0
    else 1 + LeaseOf(ls[1..], job)
  }

  function NewLease(org: OrgId, job: nat, wallMs: nat, rate: nat, month: int, now: int): Lease {
    Lease(org, job, Requested, wallMs, rate, Cost(wallMs, rate), Cost(wallMs, rate), month, now,
          None, None, None, None, None, now)
  }

  function Request(h: Hosted, org: OrgId, job: nat, wallMs: nat, rate: nat, month: int, now: int)
    : (Hosted, Reply<nat>)
  {
    var i := LeaseOf(h.leases, job);
    if i < |h.leases| then (h, Ok(i))
    else if !h.settings.enabled || h.settings.emergencyStop then (h, Refused(Forbidden))
    else if org !in h.policies || h.policies[org].suspended then (h, Refused(Forbidden))
    else
      var policy := h.policies[org];
      if InState(h.leases, None, Requested) >= h.settings.maxQueued
         || InState(h.leases, Some(org), Requested) >= policy.maxQueued
      then (h, Refused(RateLimited))
      else if policy.monthlyBudget.Some?
              && Sum(|h.leases|, ReservedSince(h.leases, org, month)) + Cost(wallMs, rate) > policy.monthlyBudget.value
      then (h, Refused(ConfigInvalid))
      else (h.(leases := h.leases + [NewLease(org, job, wallMs, rate, month, now)]), Ok(i))
  }

  predicate RoomFor(h: Hosted, org: OrgId) {
    && h.settings.enabled && !h.settings.emergencyStop
    && org in h.policies && !h.policies[org].suspended
    && CountedIn(h.leases, None) < h.settings.maxActive
    && CountedIn(h.leases, Some(org)) < h.policies[org].maxConcurrency
  }

  function SetLease(h: Hosted, l: nat, lease: Lease): Hosted
    requires l < |h.leases|
  {
    h.(leases := h.leases[l := lease])
  }

  /** First half of `provisionNext`, for the lease at the head of the queue. */
  function Reserve(h: Hosted, l: nat, now: int): Hosted {
    if l < |h.leases| && h.leases[l].state == Requested && RoomFor(h, h.leases[l].org)
    then SetLease(h, l, h.leases[l].(state := Provisioning, updatedAt := now))
    else h
  }

  /** Second half, after the provider succeeded.  No guard on the state. */
  function Provisioned(h: Hosted, l: nat, resource: nat, runner: nat, now: int): Hosted {
    if l < |h.leases|
    then SetLease(h, l, h.leases[l].(state := Bootstrapping, resource := Some(resource), runner := Some(runner),
                                     provisionedAt := Some(now), updatedAt := now))
    else h
  }

  /** Second half, after the provider failed.  No guard on the state. */
  function ProvisionFailed(h: Hosted, l: nat, retryable: bool, now: int): Hosted {
    if l < |h.leases|
    then SetLease(h, l, h.leases[l].(state := if retryable then Requested else Failed, updatedAt := now))
    else h
  }

  function Heartbeat(lease: Lease, runner: nat, now: int): Lease {
    if lease.runner == Some(runner) && lease.state == Bootstrapping
    then lease.(state := Ready, updatedAt := now) else lease
  }

  function RunnerClaimed(lease: Lease, runner: nat, job: nat, now: int): Lease {
    if lease.runner == Some(runner) && lease.job == job && (lease.state == Ready || lease.state == Claimed)
    then lease.(state := Running, startedAt := if lease.startedAt.Some? then lease.startedAt else Some(now),
                updatedAt := now)
    else lease
  }

  /** The unguarded updates of cancel, complete and reconcile. */
  function Mark(h: Hosted, l: nat, state: State, stamp: bool, now: int): Hosted {
    if l < |h.leases|
    then SetLease(h, l, h.leases[l].(state := state,
                                     terminatedAt := if stamp then Some(now) else h.leases[l].terminatedAt,
                                     updatedAt := now))
    else h
  }

  predicate Metered(usage: seq<Usage>, l: nat) {
    exists u :: u in usage && u.lease == l
  }

  /** The clock is read at two places, `since` and then `now`, each for a time stamp that is missing. */
  function Duration(lease: Lease, since: int, now: int): nat {
    var start := if lease.provisionedAt.Some? then lease.provisionedAt.value else since;
    var end := if lease.terminatedAt.Some? then lease.terminatedAt.value else now;
    if end > start then end - start else 0
  }

  /** `finalizeUsage`: does nothing when a usage row exists. */
  function Finalize(h: Hosted, l: nat, since: int, now: int): Hosted {
    if l >= |h.leases| || Metered(h.usage, l) then h
    else
      var lease := h.leases[l];
      var ms := Duration(lease, since, now);
      var cost := Cost(ms, lease.rate);
      SetLease(h, l, lease.(reserved := cost)).(usage := h.usage + [Usage(l, lease.org, ms, cost)])
  }

  /******* Runs *******/

  datatype Action =
    | ARequest(org: OrgId, job: nat, wallMs: nat, rate: nat, month: int, now: int)
    | AReserve(l: nat, now: int)
    | AProvisioned(l: nat, resource: nat, runner: nat, now: int)
    | AProvisionFailed(l: nat, retryable: bool, now: int)
    | AHeartbeat(l: nat, runner: nat, now: int)
    | AClaimed(l: nat, runner: nat, job: nat, now: int)
    | AEnd(l: nat, state: State, stamp: bool, now: int)   // to TERMINATING, TERMINATED, FAILED or ORPHANED
    | AFinalize(l: nat, since: int, now: int)

  predicate Ending(s: State) {
    s == Terminating || s == Terminated || s == Failed || s == Orphaned
  }

  function Apply(h: Hosted, a: Action): Hosted {
    match a
    case ARequest(org, job, wallMs, rate, month, now) => Request(h, org, job, wallMs, rate, month, now).0
    case AReserve(l, now) => Reserve(h, l, now)
    case AProvisioned(l, resource, runner, now) => Provisioned(h, l, resource, runner, now)
    case AProvisionFailed(l, retryable, now) => ProvisionFailed(h, l, retryable, now)
    case AHeartbeat(l, runner, now) =>
      if l < |h.leases| then SetLease(h, l, Heartbeat(h.leases[l], runner, now)) else h
    case AClaimed(l, runner, job, now) =>
      if l < |h.leases| then SetLease(h, l, RunnerClaimed(h.leases[l], runner, job, now)) else h
    case AEnd(l, state, stamp, now) => if Ending(state) then Mark(h, l, state, stamp, now) else h
    case AFinalize(l, since, now) => Finalize(h, l, since, now)
  }

  function After(h: Hosted, run: seq<Action>): Hosted
    decreases |run|
  {
    if run == [] then h else After(Apply(h, run[0]), run[1..])
  }

  predicate Fresh(h: Hosted) {
    h.leases == [] && h.usage == []
  }
}

/** The hosted-compute service over its tables, each transaction proved to take a step of `Hosted`. */
module HostedService {
  import opened Wrappers
  import opened Sums
  import opened Hosted
  import opened HostedMetering

  datatype Settled = AlreadyOver | TerminatedNow | OrphanedNow

  /** Why `reconcile` gives up on an active lease. */
  predicate Lost(lease: Lease, missing: set<nat>, now: int) {
    && Occupies(lease.state)
    && (|| (lease.resource.Some? && lease.resource.value in missing)
        || (lease.state == Running && lease.startedAt.Some? && now - lease.startedAt.value > lease.wallMs)
        || ((lease.state == Bootstrapping || lease.state == Provisioning) && now - lease.updatedAt > READY_TIMEOUT_MS))
  }

  /** State by state: when an active lease is given up. */
  lemma LostByState(lease: Lease, missing: set<nat>, now: int)
    ensures var gone := lease.resource.Some? && lease.resource.value in missing;
            Lost(lease, missing, now) <==>
              match lease.state
              case Provisioning => gone || now > lease.updatedAt + 120000
              case Bootstrapping => gone || now > lease.updatedAt + 120000
              case Ready => gone
              case Claimed => gone
              case Running => gone || (lease.startedAt.Some? && now > lease.startedAt.value + lease.wallMs)
              case _ => false
  {
  }

  function LostMark(ls: seq<Lease>, missing: set<nat>, now: int): nat -> int {
    (i: nat) => if i < |ls| && Lost(ls[i], missing, now) then 1 else 0
  }

  /** Row `k` is as it was, and so is whether it is metered. */
  ghost predicate Kept(before: Hosted, after: Hosted, k: nat) {
    && k < |before.leases| && k < |after.leases| && after.leases[k] == before.leases[k]
    && (Metered(after.usage, k) <==> Metered(before.usage, k))
  }

  ghost predicate GivenUp(after: Hosted, k: nat, now: int) {
    && k < |after.leases| && after.leases[k].state == Failed && after.leases[k].terminatedAt == Some(now)
    && Metered(after.usage, k)
  }

  /** The first `n` rows have been judged, the others not touched. */
  ghost predicate Swept(before: Hosted, after: Hosted, missing: set<nat>, now: int, n: nat) {
    && |after.leases| == |before.leases|
    && (forall k: nat | k < n && k < |before.leases| ::
          if Lost(before.leases[k], missing, now) then GivenUp(after, k, now) else Kept(before, after, k))
    && (forall k: nat | n <= k < |before.leases| :: Kept(before, after, k))
  }

  /** As `Swept`, with the lost among the first `n` counted. */
  ghost predicate SweptCounting(before: Hosted, after: Hosted, missing: set<nat>, now: int, n: nat, lost: int) {
    Swept(before, after, missing, now, n) && lost == Sum(n, LostMark(before.leases, missing, now))
  }

  lemma SweptStep(before: Hosted, current: Hosted, next: Hosted, missing: set<nat>, now: int, n: nat)
    requires Swept(before, current, missing, now, n) && n < |before.leases|
    requires |next.leases| == |current.leases|
    requires forall k: nat | k < |current.leases| && k != n :: Kept(current, next, k)
    requires if Lost(before.leases[n], missing, now) then GivenUp(next, n, now) else Kept(current, next, n)
    ensures Swept(before, next, missing, now, n + 1)
  {
    assert Kept(before, current, n);
    forall k: nat | k < n
      ensures if Lost(before.leases[k], missing, now) then GivenUp(next, k, now) else Kept(before, next, k)
    {
      assert Kept(current, next, k);
    }
    forall k: nat | n + 1 <= k < |before.leases| ensures Kept(before, next, k) {
      assert Kept(current, next, k) && Kept(before, current, k);
    }
  }

  /** A resource in the provider's listing: the lease its labels name, labels of another deployment, state MISSING. */
  datatype Managed = Managed(lease: nat, foreign: bool, missing: bool)

  datatype Tally = Tally(orphans: int, foreign: int, lost: int)

  predicate Over(h: Hosted, l: nat) {
    l >= |h.leases| || IsTerminal(h.leases[l].state)
  }

  predicate Names(r: Managed, k: nat) {
    r.lease == k && !r.foreign && r.missing
  }

  predicate NamedMissing(rs: seq<Managed>, k: nat) {
    exists i :: 0 <= i < |rs| && Names(rs[i], k)
  }

  /** What the first loop of `reconcile` does about one resource. */
  function Judged(h: Hosted, r: Managed, now: int): Hosted {
    if !Over(h, r.lease) && Names(r, r.lease)
    then Finalize(Mark(h, r.lease, Failed, false, now), r.lease, now, now)
    else h
  }

  function Tallied(h: Hosted, r: Managed, t: Tally): Tally {
    if r.foreign then t.(foreign := t.foreign + 1)
    else if Over(h, r.lease) then t.(orphans := t.orphans + 1)
    else if r.missing then t.(lost := t.lost + 1)
    else t
  }

  function SweepManaged(h: Hosted, rs: seq<Managed>, now: int, t: Tally): (Hosted, Tally)
    decreases |rs|
  {
    if rs == [] then (h, t) else SweepManaged(Judged(h, rs[0], now), rs[1..], now, Tallied(h, rs[0], t))
  }

  lemma JudgedRows(h: Hosted, r: Managed, now: int, k: nat)
    requires k < |h.leases|
    ensures |Judged(h, r, now).leases| == |h.leases|
    ensures if Names(r, k) && !Over(h, k)
            then Judged(h, r, now).leases[k].state == Failed && Metered(Judged(h, r, now).usage, k)
            else Kept(h, Judged(h, r, now), k)
  {
    if !Over(h, r.lease) && Names(r, r.lease) { OneBillOnly(Mark(h, r.lease, Failed, false, now), r.lease, now, now); }
  }

  /**
   Exactly the unfinished leases that some missing resource of this deployment names become FAILED and
   are metered.
   */
  lemma {:induction false} ManagedSwept(h: Hosted, rs: seq<Managed>, now: int, t: Tally, k: nat)
    requires k < |h.leases|
    ensures var u := SweepManaged(h, rs, now, t).0;
            && |u.leases| == |h.leases|
            && if NamedMissing(rs, k) && h.leases[k].state != Terminated && h.leases[k].state != Failed
               then u.leases[k].state == Failed && Metered(u.usage, k)
               else Kept(h, u, k)
    decreases |rs|
  {
    if rs != [] {
      var v := Judged(h, rs[0], now);
      JudgedRows(h, rs[0], now, k);
      ManagedSwept(v, rs[1..], now, Tallied(h, rs[0], t), k);
      NamedSplit(rs, k);
    }
  }

  lemma NamedSplit(rs: seq<Managed>, k: nat)
    requires rs != []
    ensures NamedMissing(rs, k) <==> Names(rs[0], k) || NamedMissing(rs[1..], k)
  {
    if i :| 0 <= i < |rs| && Names(rs[i], k) {
      if i > 0 { assert Names(rs[1..][i - 1], k); }
    }
    if i :| 0 <= i < |rs[1..]| && Names(rs[1..][i], k) {
      assert Names(rs[i + 1], k);
    }
  }

  function GoneMark(h: Hosted, rs: seq<Managed>): nat -> int {
    (k: nat) => if !Over(h, k) && NamedMissing(rs, k) then 1 else 0
  }

  /** `lost` counts leases, not resources: a second missing resource of a lease is an orphan. */
  lemma {:induction false} ManagedCounted(h: Hosted, rs: seq<Managed>, now: int, t: Tally)
    ensures SweepManaged(h, rs, now, t).1.lost == t.lost + Sum(|h.leases|, GoneMark(h, rs))
    decreases |rs|
  {
    if rs == [] {
      SumSame(|h.leases|, GoneMark(h, rs), (i: nat) => 0);
      SumZero(|h.leases|);
    } else {
      var r, v := rs[0], Judged(h, rs[0], now);
      ManagedCounted(v, rs[1..], now, Tallied(h, r, t));
      forall k: nat | k < |h.leases|
        ensures GoneMark(h, rs)(k) == GoneMark(v, rs[1..])(k) + (if Names(r, k) && !Over(h, k) then 1 else 0)
      {
        JudgedRows(h, r, now, k);
        NamedSplit(rs, k);
      }
      if !Over(h, r.lease) && Names(r, r.lease) {
        SumPoint(|h.leases|, GoneMark(h, rs), GoneMark(v, rs[1..]), r.lease);
      } else {
        SumSame(|h.leases|, GoneMark(h, rs), GoneMark(v, rs[1..]));
      }
    }
  }

  function Foreigners(rs: seq<Managed>): nat {
    if rs == [] then 0 else (if rs[0].foreign then 1 else 0) + Foreigners(rs[1..])
  }

  /** The resources of this deployment whose lease is over, or was given up for an earlier one, and so is in `gone`. */
  function Orphans(h: Hosted, rs: seq<Managed>, gone: set<nat>): nat {
    if rs == [] then 0
    else
      var r := rs[0];
      (if !r.foreign && (Over(h, r.lease) || r.lease in gone) then 1 else 0)
      + Orphans(h, rs[1..], if !r.foreign && r.missing then gone + {r.lease} else gone)
  }

  /** The other two counters: the resources of other deployments, and the orphans. */
  lemma {:induction false} OthersCounted(h: Hosted, v: Hosted, rs: seq<Managed>, now: int, t: Tally, gone: set<nat>)
    requires |v.leases| == |h.leases| && forall k: nat :: Over(v, k) <==> Over(h, k) || k in gone
    ensures SweepManaged(v, rs, now, t).1.foreign == t.foreign + Foreigners(rs)
    ensures SweepManaged(v, rs, now, t).1.orphans == t.orphans + Orphans(h, rs, gone)
    decreases |rs|
  {
    if rs != [] {
      var r, next := rs[0], Judged(v, rs[0], now);
      var later := if !r.foreign && r.missing then gone + {r.lease} else gone;
      forall k: nat ensures Over(next, k) <==> Over(h, k) || k in later {
        if k < |v.leases| { JudgedRows(v, r, now, k); }
      }
      OthersCounted(h, next, rs[1..], now, Tallied(v, r, t), later);
    }
  }

  /** Queue order: request time, then id. */
  predicate Before(ls: seq<Lease>, i: nat, j: nat)
    requires i < |ls| && j < |ls|
  {
    ls[i].requestedAt < ls[j].requestedAt || (ls[i].requestedAt == ls[j].requestedAt && i < j)
  }

  class HostedComputeService {
    var leases: seq<Lease>
    var usage: seq<Usage>
    const settings: Settings
    const policies: map<OrgId, Policy>

    function Tables(): Hosted
      reads this
    {
      Hosted(leases, usage, settings, policies)
    }

    ghost predicate Valid()
      reads this
    {
      MeteringOk(Tables())
    }

    constructor (settings: Settings, policies: map<OrgId, Policy>)
      ensures Valid() && Fresh(Tables())
      ensures this.settings == settings && this.policies == policies
    {
      this.leases, this.usage, this.settings, this.policies := [], [], settings, policies;
      new;
      assert forall l :: Rows(usage, l) <= 1;
    }

    method RequestLease(org: OrgId, job: nat, wallMs: nat, rate: nat, month: int, now: int) returns (reply: Reply<nat>)
      requires Valid()
      modifies this
      ensures Valid()
      ensures (Tables(), reply) == Request(old(Tables()), org, job, wallMs, rate, month, now)
    {
      RequestKeepsMetering(Tables(), org, job, wallMs, rate, month, now);
      var replay := LeaseOf(leases, job);
      if replay < |leases| {
        return Ok(replay);
      }
      if !settings.enabled || settings.emergencyStop {
        return Refused(Forbidden);
      }
      if org !in policies || policies[org].suspended {
        return Refused(Forbidden);
      }
      var policy := policies[org];
      if InState(leases, None, Requested) >= settings.maxQueued
         || InState(leases, Some(org), Requested) >= policy.maxQueued {
        return Refused(RateLimited);
      }
      var spent := Sum(|leases|, ReservedSince(leases, org, month));
      var estimate := Cost(wallMs, rate);
      if policy.monthlyBudget.Some? && spent + estimate > policy.monthlyBudget.value {
        return Refused(ConfigInvalid);
      }
      leases := leases + [NewLease(org, job, wallMs, rate, month, now)];
      reply := Ok(replay);
    }

    /** The oldest queued lease that no concurrent call has locked; a full house leaves it queued. */
    method ReserveNext(locked: set<nat>, now: int) returns (head: Option<nat>, reserved: bool)
      requires Valid()
      modifies this
      ensures Valid()
      ensures head.None? <==> forall i | 0 <= i < |old(leases)| && i !in locked :: old(leases)[i].state != Requested
      ensures head.Some? ==>
                && head.value < |old(leases)| && head.value !in locked && old(leases)[head.value].state == Requested
                && (forall i | 0 <= i < |old(leases)| && i !in locked && old(leases)[i].state == Requested
                               && i != head.value ::
                      var a, b := old(leases)[head.value].requestedAt, old(leases)[i].requestedAt;
                      a <= b && (a == b ==> head.value < i))
                && Tables() == Reserve(old(Tables()), head.value, now)
      ensures head.None? ==> Tables() == old(Tables())
      ensures reserved <==> head.Some? && RoomFor(old(Tables()), old(leases)[head.value].org)
    {
      head, reserved := None, false;
      for i := 0 to |leases|
        invariant head.None? ==> forall k | 0 <= k < i && k !in locked :: leases[k].state != Requested
        invariant head.Some? ==>
                    && head.value < i && head.value !in locked && leases[head.value].state == Requested
                    && forall k | 0 <= k < i && k !in locked && leases[k].state == Requested && k != head.value ::
                         Before(leases, head.value, k)
      {
        if i !in locked && leases[i].state == Requested && (head.None? || Before(leases, i, head.value)) {
          head := Some(i);
        }
      }
      if head.Some? && RoomFor(Tables(), leases[head.value].org) {
        var l := head.value;
        StepKeepsMetering(Tables(), AReserve(l, now));
        leases := leases[l := leases[l].(state := Provisioning, updatedAt := now)];
        reserved := true;
      }
    }

    method RecordProvisioned(l: nat, resource: nat, runner: nat, now: int)
      requires Valid() && l < |leases|
      modifies this
      ensures Valid() && Tables() == Provisioned(old(Tables()), l, resource, runner, now)
    {
      StepKeepsMetering(Tables(), AProvisioned(l, resource, runner, now));
      leases := leases[l := leases[l].(state := Bootstrapping, resource := Some(resource), runner := Some(runner),
                                       provisionedAt := Some(now), updatedAt := now)];
    }

    /** `now` is read for the update, `since` and `end` for the bill. */
    method RecordProvisionFailure(l: nat, retryable: bool, now: int, since: int, end: int)
      requires Valid() && l < |leases|
      modifies this
      ensures Valid()
      ensures var failed := ProvisionFailed(old(Tables()), l, retryable, now);
              Tables() == if retryable then failed else Finalize(failed, l, since, end)
    {
      StepKeepsMetering(Tables(), AProvisionFailed(l, retryable, now));
      leases := leases[l := leases[l].(state := if retryable then Requested else Failed, updatedAt := now)];
      if !retryable {
        FinalizeUsage(l, since, end);
      }
    }

    /** `l` is the lease whose runner sends the heartbeat. */
    method RunnerHeartbeat(l: nat, runner: nat, now: int)
      requires Valid() && l < |leases|
      modifies this
      ensures Valid() && Tables() == Apply(old(Tables()), AHeartbeat(l, runner, now))
    {
      StepKeepsMetering(Tables(), AHeartbeat(l, runner, now));
      if leases[l].runner == Some(runner) && leases[l].state == Bootstrapping {
        leases := leases[l := leases[l].(state := Ready, updatedAt := now)];
      }
    }

    method RunnerClaimedJob(l: nat, runner: nat, job: nat, now: int)
      requires Valid() && l < |leases|
      modifies this
      ensures Valid() && Tables() == Apply(old(Tables()), AClaimed(l, runner, job, now))
    {
      StepKeepsMetering(Tables(), AClaimed(l, runner, job, now));
      var lease := leases[l];
      if lease.runner == Some(runner) && lease.job == job && (lease.state == Ready || lease.state == Claimed) {
        leases := leases[l := lease.(state := Running, updatedAt := now,
                                     startedAt := if lease.startedAt.Some? then lease.startedAt else Some(now))];
      }
    }

    method FinalizeUsage(l: nat, since: int, now: int)
      requires Valid()
      modifies this
      ensures Valid() && Tables() == Finalize(old(Tables()), l, since, now)
    {
      FinalizeKeepsMetering(Tables(), l, since, now);
      if l >= |leases| || Metered(usage, l) {
        return;
      }
      var lease := leases[l];
      var start := if lease.provisionedAt.Some? then lease.provisionedAt.value else since;
      var end := if lease.terminatedAt.Some? then lease.terminatedAt.value else now;
      var duration: nat := if end > start then end - start else 0;
      assert duration == Duration(lease, since, now);
      var cost := Minutes(duration) * lease.rate;
      usage := usage + [Usage(l, lease.org, duration, cost)];
      leases := leases[l := lease.(reserved := cost)];
    }

    /** `cancel`, undisturbed; `terminates` is the provider's answer for a lease that has a resource. */
    method Cancel(l: nat, terminates: bool, now: int) returns (outcome: Settled)
      requires Valid() && l < |leases|
      modifies this
      ensures Valid() && |leases| == |old(leases)|
      ensures outcome == AlreadyOver <==> old(leases)[l].state == Terminated || old(leases)[l].state == Failed
      ensures outcome == AlreadyOver ==> Tables() == old(Tables())
      ensures outcome == TerminatedNow ==>
                Tables() ==
                Finalize(Mark(Mark(old(Tables()), l, Terminating, false, now), l, Terminated, true, now), l, now, now)
      ensures outcome == OrphanedNow <==>
                outcome != AlreadyOver && old(leases)[l].resource.Some? && !terminates
      ensures outcome == OrphanedNow ==>
                Tables() == Mark(Mark(old(Tables()), l, Terminating, false, now), l, Orphaned, false, now)
    {
      var row := leases[l];
      if IsTerminal(row.state) {
        return AlreadyOver;
      }
      UpdateState(l, Terminating, false, now);
      if row.resource.Some? && !terminates {
        UpdateState(l, Orphaned, false, now);
        return OrphanedNow;
      }
      UpdateState(l, Terminated, true, now);
      FinalizeUsage(l, now, now);
      return TerminatedNow;
    }

    /** One unguarded UPDATE of a lease's state. */
    method UpdateState(l: nat, state: State, stamp: bool, now: int)
      requires Valid() && l < |leases| && Ending(state)
      modifies this
      ensures Valid() && |leases| == |old(leases)| && Tables() == Mark(old(Tables()), l, state, stamp, now)
    {
      StepKeepsMetering(Tables(), AEnd(l, state, stamp, now));
      leases := leases[l := leases[l].(state := state, updatedAt := now,
                                       terminatedAt := if stamp then Some(now) else leases[l].terminatedAt)];
    }

    /** `complete`, undisturbed. */
    method Complete(l: nat, terminates: bool, now: int) returns (outcome: Settled)
      requires Valid() && l < |leases|
      modifies this
      ensures Valid() && |leases| == |old(leases)|
      ensures outcome == AlreadyOver <==> old(leases)[l].state == Terminated
      ensures outcome == AlreadyOver ==> Tables() == old(Tables())
      ensures outcome == TerminatedNow ==>
                Tables() == Finalize(Mark(old(Tables()), l, Terminated, true, now), l, now, now)
      ensures outcome == OrphanedNow <==>
                old(leases)[l].state != Terminated && old(leases)[l].resource.Some? && !terminates
      ensures outcome == OrphanedNow ==> Tables() == Mark(old(Tables()), l, Orphaned, false, now)
    {
      var row := leases[l];
      if row.state == Terminated {
        return AlreadyOver;
      }
      if row.resource.Some? && !terminates {
        UpdateState(l, Orphaned, false, now);
        return OrphanedNow;
      }
      UpdateState(l, Terminated, true, now);
      FinalizeUsage(l, now, now);
      return TerminatedNow;
    }

    /** The first loop of `reconcile`, over the provider's own listing. */
    method ReconcileManaged(managed: seq<Managed>, now: int) returns (tally: Tally)
      requires Valid()
      modifies this
      ensures Valid() && (Tables(), tally) == SweepManaged(old(Tables()), managed, now, Tally(0, 0, 0))
    {
      ghost var end := SweepManaged(Tables(), managed, now, Tally(0, 0, 0));
      tally := Tally(0, 0, 0);
      for i := 0 to |managed|
        invariant Valid() && SweepManaged(Tables(), managed[i..], now, tally) == end
      {
        assert managed[i..][1..] == managed[i + 1..];
        tally := ReconcileResource(managed[i], now, tally);
      }
    }

    method ReconcileResource(r: Managed, now: int, before: Tally) returns (tally: Tally)
      requires Valid()
      modifies this
      ensures Valid() && Tables() == Judged(old(Tables()), r, now) && tally == Tallied(old(Tables()), r, before)
    {
      if r.foreign {
        return before.(foreign := before.foreign + 1);
      }
      if r.lease >= |leases| || IsTerminal(leases[r.lease].state) {
        return before.(orphans := before.orphans + 1);
      }
      tally := before;
      if r.missing {
        UpdateState(r.lease, Failed, false, now);
        FinalizeUsage(r.lease, now, now);
        tally := before.(lost := before.lost + 1);
      }
    }

    method GiveUp(l: nat, now: int)
      requires Valid() && l < |leases|
      modifies this
      ensures Valid() && Tables() == Finalize(Mark(old(Tables()), l, Failed, true, now), l, now, now)
      ensures |leases| == |old(leases)| && GivenUp(Tables(), l, now)
      ensures forall k: nat | k < |leases| && k != l :: Kept(old(Tables()), Tables(), k)
    {
      UpdateState(l, Failed, true, now);
      OneBillOnly(Tables(), l, now, now);
      FinalizeUsage(l, now, now);
    }

    method ReconcileOne(l: nat, missing: set<nat>, now: int, lost: int, ghost start: Hosted) returns (more: int)
      requires Valid() && l < |leases| && SweptCounting(start, Tables(), missing, now, l, lost)
      modifies this
      ensures Valid() && SweptCounting(start, Tables(), missing, now, l + 1, more)
    {
      ghost var before := Tables();
      assert Kept(start, before, l);
      more := lost;
      if Lost(leases[l], missing, now) {
        GiveUp(l, now);
        more := lost + 1;
      }
      SweptStep(start, before, Tables(), missing, now, l);
    }

    /**
     The second loop of `reconcile`: exactly the lost active leases become FAILED and are metered,
     and `lost` counts them.  `missing` are the resources the provider no longer knows.
     */
    method ReconcileActive(missing: set<nat>, now: int) returns (lost: int)
      requires Valid()
      modifies this
      ensures Valid() && Swept(old(Tables()), Tables(), missing, now, |leases|)
      ensures lost == Sum(|leases|, LostMark(old(leases), missing, now))
    {
      ghost var start := Tables();
      lost := 0;
      for i := 0 to |leases|
        invariant Valid() && SweptCounting(start, Tables(), missing, now, i, lost)
      {
        lost := ReconcileOne(i, missing, now, lost, start);
      }
    }
  }

  /** Finalizing lease `l` meters it and no other. */
  lemma OneBillOnly(h: Hosted, l: nat, since: int, now: int)
    requires l < |h.leases|
    ensures Metered(Finalize(h, l, since, now).usage, l)
    ensures forall k: nat | k != l :: Metered(Finalize(h, l, since, now).usage, k) <==> Metered(h.usage, k)
  {
  }
}

/** Cost against estimate, the monthly budget, and what a request is granted. */
module HostedBudget {
  import opened Wrappers
  import opened Sums
  import opened Hosted
  import opened HostedMetering

  lemma {:induction false} TimesMonotone(a: nat, b: nat, r: nat)
    ensures a <= b ==> a * r <= b * r
    ensures a < b && r > 0 ==> a * r < b * r
  {
  }

  /** A started minute counts whole. */
  lemma StartedMinutes(ms: nat, n: nat)
    ensures Minutes(ms) == n <==> 60000 * n - 60000 < ms <= 60000 * n
  {
  }

  /** A bill is `n * rate` for the `n` minutes started between two times. */
  predicate Bills(rate: nat, start: int, end: int, n: nat, cost: nat) {
    && cost == n * rate
    && 60000 * n - 60000 < (if end > start then end - start else 0) <= 60000 * n
  }

  /**
   What a lease is charged when it is metered: the minutes started from its provisioning, or the first reading of the
   clock, to its termination, or the second reading.  The usage row and the reservation both say so.
   */
  lemma ChargedByTheMinute(h: Hosted, l: nat, since: int, now: int, n: nat)
    requires l < |h.leases| && !Metered(h.usage, l)
    ensures var u, lease := Finalize(h, l, since, now), h.leases[l];
            && |u.usage| == |h.usage| + 1 && u.usage[..|h.usage|] == h.usage
            && u.usage[|h.usage|].lease == l && u.usage[|h.usage|].org == lease.org
            && u.leases == h.leases[l := lease.(reserved := u.usage[|h.usage|].cost)]
            && var start, end := if lease.provisionedAt.Some? then lease.provisionedAt.value else since,
                                 if lease.terminatedAt.Some? then lease.terminatedAt.value else now;
               && u.usage[|h.usage|].durationMs == (if end > start then end - start else 0)
               && exists minutes: nat :: Bills(lease.rate, start, end, minutes, u.usage[|h.usage|].cost)
  {
    var ms := Duration(h.leases[l], since, now);
    StartedMinutes(ms, Minutes(ms));
    var start, end := if h.leases[l].provisionedAt.Some? then h.leases[l].provisionedAt.value else since,
                      if h.leases[l].terminatedAt.Some? then h.leases[l].terminatedAt.value else now;
    assert Bills(h.leases[l].rate, start, end, Minutes(ms), Cost(ms, h.leases[l].rate));
  }

  /** A new lease reserves the price of all minutes that its wall time can start. */
  lemma ReservedByTheMinute(h: Hosted, org: OrgId, job: nat, wallMs: nat, rate: nat, month: int, now: int)
    requires LeaseOf(h.leases, job) == |h.leases|
    ensures var (u, reply) := Request(h, org, job, wallMs, rate, month, now);
            reply.Ok? ==>
              && |u.leases| == |h.leases| + 1 && u.leases[..|h.leases|] == h.leases && reply.value == |h.leases|
              && var lease := u.leases[|h.leases|];
                 && lease.state == Requested && lease.org == org && lease.job == job && lease.month == month
                 && lease.wallMs == wallMs && lease.rate == rate && lease.reserved == lease.estimate
                 && lease.provisionedAt.None? && lease.terminatedAt.None? && lease.startedAt.None?
                 && exists minutes: nat :: Bills(rate, 0, wallMs, minutes, lease.estimate)
  {
    StartedMinutes(wallMs, Minutes(wallMs));
    assert Bills(rate, 0, wallMs, Minutes(wallMs), Cost(wallMs, rate));
  }

  /** A bill stays within its estimate exactly when it starts no more minutes than the limit does. */
  lemma CostWithinEstimate(ms: nat, wallMs: nat, rate: nat)
    ensures Cost(ms, rate) <= Cost(wallMs, rate) <==> rate == 0 || Minutes(ms) <= Minutes(wallMs)
    ensures ms <= wallMs ==> Cost(ms, rate) <= Cost(wallMs, rate)
  {
  }

  /**
   The wall-time timeout itself always bills more than the limit: the clock of the bill starts when the
   machine is provisioned, that of the limit only when the job is claimed.  With a limit in whole
   minutes and a price the bill exceeds its estimate.
   */
  lemma TimeoutOvershoots(lease: Lease, now: int, since: int, later: int)
    requires lease.state == Running && lease.provisionedAt.Some? && lease.startedAt.Some?
    requires lease.provisionedAt.value <= lease.startedAt.value && now - lease.startedAt.value > lease.wallMs
    ensures var ended := lease.(state := Failed, terminatedAt := Some(now));
            && Duration(ended, since, later) > lease.wallMs
            && (lease.wallMs % MINUTE_MS == 0 && lease.rate > 0 ==>
                  Cost(Duration(ended, since, later), lease.rate) > Cost(lease.wallMs, lease.rate))
  {
    var ms := Duration(lease.(state := Failed, terminatedAt := Some(now)), since, later);
    if lease.wallMs % MINUTE_MS == 0 {
      assert Minutes(ms) > Minutes(lease.wallMs);
      TimesMonotone(Minutes(lease.wallMs), Minutes(ms), lease.rate);
    }
  }

  /**
   A lease that never got a machine, and was not stamped as terminated, is billed for what passes between the two
   readings of the clock: nothing exactly when it is free or the clock has not moved.
   */
  lemma UnprovisionedBill(lease: Lease, since: int, now: int)
    requires lease.provisionedAt.None? && lease.terminatedAt.None?
    ensures Cost(Duration(lease, since, now), lease.rate) == 0 <==> lease.rate == 0 || now <= since
  {
    var ms := Duration(lease, since, now);
    if ms > 0 && lease.rate > 0 { TimesMonotone(0, Minutes(ms), lease.rate); }
  }

  /** What a request finds: the organization is served, the queues have a place, the budget holds the estimate. */
  predicate Served(h: Hosted, org: OrgId) {
    h.settings.enabled && !h.settings.emergencyStop && org in h.policies && !h.policies[org].suspended
  }

  predicate QueueFull(h: Hosted, org: OrgId)
    requires org in h.policies
  {
    || InState(h.leases, None, Requested) >= h.settings.maxQueued
    || InState(h.leases, Some(org), Requested) >= h.policies[org].maxQueued
  }

  /** Every refusal has its own reason, and a request for a new job without one is granted. */
  lemma RefusedExactlyIf(h: Hosted, org: OrgId, job: nat, wallMs: nat, rate: nat, month: int, now: int)
    requires LeaseOf(h.leases, job) == |h.leases|
    ensures var (u, reply) := Request(h, org, job, wallMs, rate, month, now);
            && (reply == Refused(Forbidden) <==> !Served(h, org))
            && (reply == Refused(RateLimited) <==> Served(h, org) && QueueFull(h, org))
            && (reply == Refused(ConfigInvalid) <==>
                  && Served(h, org) && !QueueFull(h, org) && h.policies[org].monthlyBudget.Some?
                  && Sum(|h.leases|, ReservedSince(h.leases, org, month)) + Cost(wallMs, rate)
                     > h.policies[org].monthlyBudget.value)
            && (!reply.Ok? ==> u == h)
  {
  }

  /** The budget check counts the reservations of every month from the present one on, and of no earlier one. */
  lemma {:induction false} CountsFrom(ls: seq<Lease>, org: OrgId, month: int, n: nat)
    requires n <= |ls|
    ensures forall m | m >= month :: Sum(n, ReservedIn(ls, org, m)) <= Sum(n, ReservedSince(ls, org, month))
    ensures (forall i | 0 <= i < n && ls[i].org == org :: ls[i].month < month) ==>
              Sum(n, ReservedSince(ls, org, month)) == 0
  {
    if n > 0 {
      CountsFrom(ls, org, month, n - 1);
      forall m | m >= month ensures Sum(n, ReservedIn(ls, org, m)) <= Sum(n, ReservedSince(ls, org, month)) {
        assert Sum(n - 1, ReservedIn(ls, org, m)) <= Sum(n - 1, ReservedSince(ls, org, month));
      }
    }
  }

  /** Preflight passes exactly an entitled, priced and allowed request whose price by the minute is in the budget. */
  lemma PreflightExactlyIf(hosted: bool, entitled: bool, cls: Option<Class>, entitledWallMs: nat, wallMs: int,
                           budget: Option<int>, minutes: nat)
    requires 60000 * minutes - 60000 < wallMs <= 60000 * minutes
    ensures var reply := Preflight(hosted, entitled, cls, entitledWallMs, wallMs, budget);
            && (reply.Ok? <==>
                  && hosted && entitled && cls.Some? && cls.value.networkAllowed && cls.value.rate.Some?
                  && 0 < wallMs <= cls.value.maxWallMs && wallMs <= entitledWallMs
                  && budget.Some? && minutes * cls.value.rate.value <= budget.value)
            && (reply.Ok? ==> reply.value == minutes * cls.value.rate.value)
            && (reply == Refused(Forbidden) <==> !hosted || !entitled)
            && (!reply.Ok? && hosted && entitled ==> reply == Refused(ConfigInvalid))
  {
    if wallMs > 0 { StartedMinutes(wallMs, minutes); }
  }

  function ReservedIn(ls: seq<Lease>, org: OrgId, month: int): nat -> int {
    (i: nat) => if i < |ls| && ls[i].org == org && ls[i].month == month then ls[i].reserved else 0
  }

  ghost predicate WithinBudget(h: Hosted) {
    forall org, month {:trigger ReservedIn(h.leases, org, month)}
      | org in h.policies && h.policies[org].monthlyBudget.Some? ::
        Sum(|h.leases|, ReservedIn(h.leases, org, month)) <= h.policies[org].monthlyBudget.value
  }

  /** The bill would be free, or starts no more minutes than the lease's own limit does. */
  predicate InTime(h: Hosted, a: Action) {
    a.AFinalize? && a.l < |h.leases| && !Metered(h.usage, a.l) ==>
      h.leases[a.l].rate == 0 || Minutes(Duration(h.leases[a.l], a.since, a.now)) <= Minutes(h.leases[a.l].wallMs)
  }

  predicate InTimeRun(h: Hosted, run: seq<Action>)
    decreases |run|
  {
    run == [] || (InTime(h, run[0]) && InTimeRun(Apply(h, run[0]), run[1..]))
  }

  /** The guard that metering lacks: the bill replaces the reservation within the month's budget. */
  predicate BillFits(h: Hosted, a: Action) {
    a.AFinalize? && a.l < |h.leases| && !Metered(h.usage, a.l) ==>
      var lease := h.leases[a.l];
      lease.org in h.policies && h.policies[lease.org].monthlyBudget.Some? ==>
        Sum(|h.leases|, ReservedIn(h.leases, lease.org, lease.month)) - lease.reserved
        + Cost(Duration(lease, a.since, a.now), lease.rate) <= h.policies[lease.org].monthlyBudget.value
  }

  predicate BillsFit(h: Hosted, run: seq<Action>)
    decreases |run|
  {
    run == [] || (BillFits(h, run[0]) && BillsFit(Apply(h, run[0]), run[1..]))
  }

  ghost predicate BudgetThroughout(h: Hosted, run: seq<Action>)
    decreases |run|
  {
    WithinBudget(h) && (run == [] || BudgetThroughout(Apply(h, run[0]), run[1..]))
  }

  lemma ReservedMoves(ls: seq<Lease>, l: nat, lease: Lease, org: OrgId, month: int)
    requires l < |ls| && lease.org == ls[l].org && lease.month == ls[l].month
    ensures Sum(|ls|, ReservedIn(ls[l := lease], org, month)) ==
            Sum(|ls|, ReservedIn(ls, org, month))
            + (if lease.org == org && lease.month == month then lease.reserved - ls[l].reserved else 0)
  {
    SumPoint(|ls|, ReservedIn(ls, org, month), ReservedIn(ls[l := lease], org, month), l);
  }

  lemma RowKeepsBudget(h: Hosted, l: nat, lease: Lease)
    requires WithinBudget(h) && l < |h.leases| && lease.org == h.leases[l].org && lease.month == h.leases[l].month
    requires lease.reserved <= h.leases[l].reserved
    ensures WithinBudget(SetLease(h, l, lease))
  {
    var ms := h.leases[l := lease];
    forall org, month | org in h.policies && h.policies[org].monthlyBudget.Some?
      ensures Sum(|ms|, ReservedIn(ms, org, month)) <= h.policies[org].monthlyBudget.value
    {
      ReservedMoves(h.leases, l, lease, org, month);
    }
  }

  lemma RequestKeepsBudget(h: Hosted, org: OrgId, job: nat, wallMs: nat, rate: nat, month: int, now: int)
    requires WithinBudget(h)
    ensures WithinBudget(Request(h, org, job, wallMs, rate, month, now).0)
  {
    var u := Request(h, org, job, wallMs, rate, month, now).0;
    if u != h {
      forall o, m | o in u.policies && u.policies[o].monthlyBudget.Some?
        ensures Sum(|u.leases|, ReservedIn(u.leases, o, m)) <= u.policies[o].monthlyBudget.value
      {
        SumSame(|h.leases|, ReservedIn(h.leases, o, m), ReservedIn(u.leases, o, m));
        if o == org && m == month {
          SumLeq(|h.leases|, ReservedIn(h.leases, o, m), ReservedSince(h.leases, o, m));
        }
      }
    }
  }

  lemma FinalizeBudget(h: Hosted, l: nat, since: int, now: int)
    requires WithinBudget(h)
    ensures WithinBudget(Finalize(h, l, since, now)) <==> BillFits(h, AFinalize(l, since, now))
  {
    var u := Finalize(h, l, since, now);
    if u != h {
      var lease := u.leases[l];
      ReservedMoves(h.leases, l, lease, lease.org, lease.month);
      forall org, month | org in h.policies && h.policies[org].monthlyBudget.Some?
        ensures BillFits(h, AFinalize(l, since, now)) ==>
                  Sum(|u.leases|, ReservedIn(u.leases, org, month)) <= h.policies[org].monthlyBudget.value
      {
        ReservedMoves(h.leases, l, lease, org, month);
      }
    }
  }

  /** A step keeps every monthly budget exactly when it is no bill that does not fit. */
  lemma BudgetStepExactlyIf(h: Hosted, a: Action)
    requires WithinBudget(h)
    ensures WithinBudget(Apply(h, a)) <==> BillFits(h, a)
  {
    match a
    case ARequest(org, job, wallMs, rate, month, now) => RequestKeepsBudget(h, org, job, wallMs, rate, month, now);
    case AFinalize(l, since, now) => FinalizeBudget(h, l, since, now);
    case _ =>
      if Apply(h, a) != h {
        RowKeepsBudget(h, a.l, Apply(h, a).leases[a.l]);
        assert Apply(h, a).leases == SetLease(h, a.l, Apply(h, a).leases[a.l]).leases;
      }
  }

  /** The budgets hold at every point of a run exactly when every bill in it fits. */
  lemma {:induction false} BudgetExactlyIf(h: Hosted, run: seq<Action>)
    requires WithinBudget(h)
    ensures BudgetThroughout(h, run) <==> BillsFit(h, run)
    decreases |run|
  {
    if run != [] {
      BudgetStepExactlyIf(h, run[0]);
      if BillFits(h, run[0]) { BudgetExactlyIf(Apply(h, run[0]), run[1..]); }
    }
  }

  /** A bill within its estimate fits. */
  lemma InTimeFits(h: Hosted, a: Action)
    requires MeteringOk(h) && WithinBudget(h) && InTime(h, a)
    ensures BillFits(h, a)
  {
    if a.AFinalize? && a.l < |h.leases| && !Metered(h.usage, a.l) {
      var lease := h.leases[a.l];
      CostWithinEstimate(Duration(lease, a.since, a.now), lease.wallMs, lease.rate);
      assert ReservedIn(h.leases, lease.org, lease.month)(a.l) == lease.reserved;
    }
  }

  /** While every bill is free or starts no more minutes than its lease's limit, no month passes the monthly budget. */
  lemma {:induction false} BudgetAlways(h: Hosted, run: seq<Action>)
    requires MeteringOk(h) && WithinBudget(h) && InTimeRun(h, run)
    ensures WithinBudget(After(h, run))
    decreases |run|
  {
    if run != [] {
      InTimeFits(h, run[0]);
      BudgetStepExactlyIf(h, run[0]);
      StepKeepsMetering(h, run[0]);
      BudgetAlways(Apply(h, run[0]), run[1..]);
    }
  }

  lemma BudgetFromEmpty(h: Hosted, run: seq<Action>)
    requires Fresh(h) && InTimeRun(h, run)
    ensures WithinBudget(After(h, run))
  {
    BudgetAlways(h, run);
  }

  /******* What a request is granted *******/

  /**
   Preflight passes only an entitled organization and class, a priced class that allows the network policy, and a
   wall time within both ceilings.  A new lease then reserves exactly the estimate, which is within the caller's
   own budget, and no bill for a duration within the wall-time limit passes that budget.
   */
  lemma PreflightBacksLease(h: Hosted, org: OrgId, job: nat, hosted: bool, entitled: bool, cls: Option<Class>,
                            entitledWallMs: nat, wallMs: nat, budget: Option<int>, month: int, now: int, ms: nat)
    requires Preflight(hosted, entitled, cls, entitledWallMs, wallMs, budget).Ok?
    requires LeaseOf(h.leases, job) == |h.leases|
    ensures hosted && entitled && cls.Some? && cls.value.networkAllowed && cls.value.rate.Some? && budget.Some?
    ensures var estimate := Preflight(hosted, entitled, cls, entitledWallMs, wallMs, budget).value;
            var (u, reply) := Request(h, org, job, wallMs, cls.value.rate.value, month, now);
            reply.Ok? ==>
              && reply.value == |h.leases| && |u.leases| == |h.leases| + 1
              && var lease := u.leases[|h.leases|];
                 && lease.reserved == estimate <= budget.value
                 && 0 < lease.wallMs <= cls.value.maxWallMs && lease.wallMs <= entitledWallMs
                 && (ms <= lease.wallMs ==> Cost(ms, lease.rate) <= budget.value)
  {
    CostWithinEstimate(ms, wallMs, cls.value.rate.value);
  }

  lemma {:induction false} LeaseOfFirst(ls: seq<Lease>, more: seq<Lease>, job: nat)
    requires |ls| <= |more| && (forall i | 0 <= i < |ls| :: more[i].job == ls[i].job) && LeaseOf(ls, job) < |ls|
    ensures LeaseOf(more, job) == LeaseOf(ls, job)
  {
    if ls[0].job != job { LeaseOfFirst(ls[1..], more[1..], job); }
  }

  lemma {:induction false} JobsKept(h: Hosted, run: seq<Action>)
    ensures |After(h, run).leases| >= |h.leases|
    ensures forall i | 0 <= i < |h.leases| :: After(h, run).leases[i].job == h.leases[i].job
    decreases |run|
  {
    if run != [] { JobsKept(Apply(h, run[0]), run[1..]); }
  }

  /** One job has one lease: whatever happened since, a repeated request returns it and changes nothing. */
  lemma RequestReplays(h: Hosted, org: OrgId, job: nat, wallMs: nat, rate: nat, month: int, now: int,
                       between: seq<Action>,
                       org': OrgId, wallMs': nat, rate': nat, month': int, now': int)
    requires Request(h, org, job, wallMs, rate, month, now).1.Ok?
    ensures var (granted, reply) := Request(h, org, job, wallMs, rate, month, now);
            var u := After(granted, between);
            Request(u, org', job, wallMs', rate', month', now') == (u, reply)
  {
    var granted := Request(h, org, job, wallMs, rate, month, now).0;
    if LeaseOf(h.leases, job) == |h.leases| { LeaseOfAppend(h.leases, granted.leases[|h.leases|], job); }
    JobsKept(granted, between);
    LeaseOfFirst(granted.leases, After(granted, between).leases, job);
  }

  lemma {:induction false} LeaseOfAppend(ls: seq<Lease>, lease: Lease, job: nat)
    requires LeaseOf(ls, job) == |ls| && lease.job == job
    ensures LeaseOf(ls + [lease], job) == |ls|
  {
    if ls != [] {
      assert (ls + [lease])[1..] == ls[1..] + [lease];
      LeaseOfAppend(ls[1..], lease, job);
    }
  }
}

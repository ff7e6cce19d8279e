/** Machines and queue places of hosted compute stay within their limits, unless a provider answer comes too late. */
module HostedCapacity {
  import opened Wrappers
  import opened Sums
  import opened Hosted

  /** The state guard that the second half of `provisionNext` does not check. */
  predicate Undisturbed(h: Hosted, a: Action) {
    (a.AProvisioned? || a.AProvisionFailed?) && a.l < |h.leases| ==> h.leases[a.l].state == Provisioning
  }

  predicate UndisturbedRun(h: Hosted, run: seq<Action>)
    decreases |run|
  {
    run == [] || (Undisturbed(h, run[0]) && UndisturbedRun(Apply(h, run[0]), run[1..]))
  }

  predicate Waits(s: State) {
    s == Requested || s == Provisioning
  }

  /** Leases waiting for a machine. */
  function Waiting(h: Hosted, who: Option<OrgId>): int {
    InState(h.leases, who, Requested) + InState(h.leases, who, Provisioning)
  }

  lemma {:induction false} CountsByState(ls: seq<Lease>, who: Option<OrgId>, n: nat)
    ensures var five := Sum(n, StateMark(ls, who, Provisioning)) + Sum(n, StateMark(ls, who, Bootstrapping))
                        + Sum(n, StateMark(ls, who, Ready)) + Sum(n, StateMark(ls, who, Claimed))
                        + Sum(n, StateMark(ls, who, Running));
            && Sum(n, OccupyingMark(ls, who)) == five
            && Sum(n, CountedMark(ls, who)) == five + Sum(n, StateMark(ls, who, Terminating))
  {
    if n > 0 { CountsByState(ls, who, n - 1); }
  }

  /** The leases in the states that the capacity check counts: the five that occupy a machine, and TERMINATING. */
  function Machines(ls: seq<Lease>, who: Option<OrgId>): int {
    InState(ls, who, Provisioning) + InState(ls, who, Bootstrapping) + InState(ls, who, Ready)
    + InState(ls, who, Claimed) + InState(ls, who, Running)
  }

  /** A queued lease is provisioned exactly while its organization is served and both limits leave a machine for it. */
  lemma ReservesExactlyIf(h: Hosted, l: nat, now: int)
    requires l < |h.leases| && h.leases[l].state == Requested
    ensures var org, u := h.leases[l].org, Reserve(h, l, now);
            && Occupying(h.leases, None) == Machines(h.leases, None)
            && (u != h <==>
                  && h.settings.enabled && !h.settings.emergencyStop
                  && org in h.policies && !h.policies[org].suspended
                  && Machines(h.leases, None) + InState(h.leases, None, Terminating) < h.settings.maxActive
                  && Machines(h.leases, Some(org)) + InState(h.leases, Some(org), Terminating)
                     < h.policies[org].maxConcurrency)
            && (u != h ==> u == h.(leases := h.leases[l := h.leases[l].(state := Provisioning, updatedAt := now)]))
  {
    CountsByState(h.leases, None, |h.leases|);
    CountsByState(h.leases, Some(h.leases[l].org), |h.leases|);
    assert Reserve(h, l, now) != h <==> RoomFor(h, h.leases[l].org) by {
      if RoomFor(h, h.leases[l].org) { assert Reserve(h, l, now).leases[l].state == Provisioning; }
    }
  }

  ghost predicate WithinCapacity(h: Hosted) {
    && Occupying(h.leases, None) <= h.settings.maxActive
    && (forall org | org in h.policies :: Occupying(h.leases, Some(org)) <= h.policies[org].maxConcurrency)
    && Waiting(h, None) <= h.settings.maxQueued + h.settings.maxActive
    && (forall i | 0 <= i < |h.leases| :: h.leases[i].org in h.policies)
  }

  function B(b: bool): int { if b then 1 else 0 }

  /** Rewriting one lease row moves each count by what that row contributes. */
  lemma RowCounts(ls: seq<Lease>, l: nat, lease: Lease, who: Option<OrgId>)
    requires l < |ls| && lease.org == ls[l].org
    ensures Occupying(ls[l := lease], who) ==
            Occupying(ls, who) + (if Of(lease, who) then B(Occupies(lease.state)) - B(Occupies(ls[l].state)) else 0)
    ensures forall s :: (InState(ls[l := lease], who, s) ==
            InState(ls, who, s) + (if Of(lease, who) then B(lease.state == s) - B(ls[l].state == s) else 0))
  {
    var ms := ls[l := lease];
    SumPoint(|ls|, OccupyingMark(ls, who), OccupyingMark(ms, who), l);
    forall s ensures InState(ms, who, s) ==
      InState(ls, who, s) + (if Of(lease, who) then B(lease.state == s) - B(ls[l].state == s) else 0)
    {
      SumPoint(|ls|, StateMark(ls, who, s), StateMark(ms, who, s), l);
    }
  }

  lemma AppendCounts(ls: seq<Lease>, lease: Lease, who: Option<OrgId>)
    ensures Occupying(ls + [lease], who) == Occupying(ls, who) + B(Of(lease, who) && Occupies(lease.state))
    ensures forall s :: InState(ls + [lease], who, s) == InState(ls, who, s) + B(Of(lease, who) && lease.state == s)
  {
    var ms := ls + [lease];
    SumSame(|ls|, OccupyingMark(ls, who), OccupyingMark(ms, who));
    forall s ensures InState(ms, who, s) == InState(ls, who, s) + B(Of(lease, who) && lease.state == s) {
      SumSame(|ls|, StateMark(ls, who, s), StateMark(ms, who, s));
    }
  }

  /** The check counts at least the occupied machines, and the PROVISIONING ones are among them. */
  lemma CountsOrdered(ls: seq<Lease>, who: Option<OrgId>)
    ensures InState(ls, who, Provisioning) <= Occupying(ls, who) <= CountedIn(ls, who)
  {
    SumLeq(|ls|, StateMark(ls, who, Provisioning), OccupyingMark(ls, who));
    SumLeq(|ls|, OccupyingMark(ls, who), CountedMark(ls, who));
  }

  /** Rewriting a row without taking a new machine or a new queue place keeps the bounds. */
  lemma RowKeepsCapacity(h: Hosted, l: nat, lease: Lease)
    requires WithinCapacity(h) && l < |h.leases| && lease.org == h.leases[l].org
    requires Occupies(lease.state) ==> Occupies(h.leases[l].state)
    requires lease.state in {Requested, Provisioning} ==> h.leases[l].state in {Requested, Provisioning}
    ensures WithinCapacity(SetLease(h, l, lease))
  {
    RowCounts(h.leases, l, lease, None);
    forall org | org in h.policies
      ensures Occupying(h.leases[l := lease], Some(org)) <= h.policies[org].maxConcurrency
    {
      RowCounts(h.leases, l, lease, Some(org));
    }
  }

  lemma ReserveKeepsCapacity(h: Hosted, l: nat, now: int)
    requires WithinCapacity(h)
    ensures WithinCapacity(Reserve(h, l, now))
  {
    if Reserve(h, l, now) != h {
      var lease := h.leases[l].(state := Provisioning, updatedAt := now);
      RowCounts(h.leases, l, lease, None);
      CountsOrdered(h.leases, None);
      forall org | org in h.policies
        ensures Occupying(h.leases[l := lease], Some(org)) <= h.policies[org].maxConcurrency
      {
        RowCounts(h.leases, l, lease, Some(org));
        CountsOrdered(h.leases, Some(org));
      }
    }
  }

  lemma RequestKeepsCapacity(h: Hosted, org: OrgId, job: nat, wallMs: nat, rate: nat, month: int, now: int)
    requires WithinCapacity(h)
    ensures WithinCapacity(Request(h, org, job, wallMs, rate, month, now).0)
  {
    var u := Request(h, org, job, wallMs, rate, month, now).0;
    if u != h {
      var lease := NewLease(org, job, wallMs, rate, month, now);
      AppendCounts(h.leases, lease, None);
      CountsOrdered(h.leases, None);
      forall o | o in h.policies ensures Occupying(u.leases, Some(o)) <= h.policies[o].maxConcurrency {
        AppendCounts(h.leases, lease, Some(o));
      }
    }
  }

  lemma StepKeepsCapacity(h: Hosted, a: Action)
    requires WithinCapacity(h) && Undisturbed(h, a)
    ensures WithinCapacity(Apply(h, a))
  {
    match a
    case ARequest(org, job, wallMs, rate, month, now) => RequestKeepsCapacity(h, org, job, wallMs, rate, month, now);
    case AReserve(l, now) => ReserveKeepsCapacity(h, l, now);
    case _ =>
      if Apply(h, a) != h {
        assert Apply(h, a).leases == h.leases[a.l := Apply(h, a).leases[a.l]];
        RowKeepsCapacity(h, a.l, Apply(h, a).leases[a.l]);
        assert WithinCapacity(SetLease(h, a.l, Apply(h, a).leases[a.l]));
      }
  }

  /**
   Over every run in which a provider answer finds its lease still PROVISIONING, machines never exceed
   the global and per-organization limits, and the queue exceeds its own limit by no more than the
   machines that retryable failures can send back to it.
   */
  lemma {:induction false} CapacityAlways(h: Hosted, run: seq<Action>)
    requires WithinCapacity(h) && UndisturbedRun(h, run)
    ensures WithinCapacity(After(h, run))
    decreases |run|
  {
    if run != [] {
      StepKeepsCapacity(h, run[0]);
      CapacityAlways(Apply(h, run[0]), run[1..]);
    }
  }

  lemma CapacityFromEmpty(h: Hosted, run: seq<Action>)
    requires Fresh(h) && UndisturbedRun(h, run)
    ensures WithinCapacity(After(h, run))
  {
    CapacityAlways(h, run);
  }

  /**
   What the missing guard costs.  A success answer takes a machine more, of the deployment and of the lease's
   organization, exactly when the lease no longer occupies one.
   */
  lemma UnguardedProvisioned(h: Hosted, l: nat, resource: nat, runner: nat, now: int, who: Option<OrgId>)
    requires l < |h.leases|
    ensures var u := Provisioned(h, l, resource, runner, now);
            var was := h.leases[l];
            && Occupying(u.leases, who) == Occupying(h.leases, who) + B(Of(was, who) && !Occupies(was.state))
            && Waiting(u, who) == Waiting(h, who) - B(Of(was, who) && Waits(was.state))
  {
    var u := Provisioned(h, l, resource, runner, now);
    assert u.leases == h.leases[l := u.leases[l]];
    RowCounts(h.leases, l, u.leases[l], who);
  }

  /**
   A retryable failure frees the machine, if the lease still occupies one, and puts one lease more among the
   waiting ones exactly when the lease was no longer waiting.
   */
  lemma UnguardedFailure(h: Hosted, l: nat, retryable: bool, now: int, who: Option<OrgId>)
    requires l < |h.leases|
    ensures var u := ProvisionFailed(h, l, retryable, now);
            var was := h.leases[l];
            && Occupying(u.leases, who) == Occupying(h.leases, who) - B(Of(was, who) && Occupies(was.state))
            && Waiting(u, who) ==
               Waiting(h, who) + B(Of(was, who) && retryable) - B(Of(was, who) && Waits(was.state))
            && u.leases[l].state == (if retryable then Requested else Failed)
  {
    var u := ProvisionFailed(h, l, retryable, now);
    assert u.leases == h.leases[l := u.leases[l]];
    RowCounts(h.leases, l, u.leases[l], who);
  }

  /**
   There is room for what an unguarded answer does: a machine for a success whose lease has given up its own, a
   queue place for a retryable failure whose lease was no longer waiting.
   */
  predicate Fits(h: Hosted, a: Action) {
    && (a.AProvisioned? && a.l < |h.leases| && !Occupies(h.leases[a.l].state) ==>
          && Occupying(h.leases, None) < h.settings.maxActive
          && (h.leases[a.l].org in h.policies ==>
                Occupying(h.leases, Some(h.leases[a.l].org)) < h.policies[h.leases[a.l].org].maxConcurrency))
    && (a.AProvisionFailed? && a.l < |h.leases| && a.retryable && !Waits(h.leases[a.l].state) ==>
          Waiting(h, None) < h.settings.maxQueued + h.settings.maxActive)
  }

  lemma ProvisionedCapacity(h: Hosted, a: Action)
    requires WithinCapacity(h) && a.AProvisioned? && a.l < |h.leases|
    ensures WithinCapacity(Apply(h, a)) <==> Fits(h, a)
  {
    var org := h.leases[a.l].org;
    var u := Provisioned(h, a.l, a.resource, a.runner, a.now);
    UnguardedProvisioned(h, a.l, a.resource, a.runner, a.now, None);
    forall o | o in h.policies
      ensures Occupying(u.leases, Some(o)) ==
              Occupying(h.leases, Some(o)) + B(o == org && !Occupies(h.leases[a.l].state))
    {
      UnguardedProvisioned(h, a.l, a.resource, a.runner, a.now, Some(o));
    }
  }

  lemma FailedCapacity(h: Hosted, a: Action)
    requires WithinCapacity(h) && a.AProvisionFailed? && a.l < |h.leases|
    ensures WithinCapacity(Apply(h, a)) <==> Fits(h, a)
  {
    var u := ProvisionFailed(h, a.l, a.retryable, a.now);
    UnguardedFailure(h, a.l, a.retryable, a.now, None);
    forall o | o in h.policies ensures Occupying(u.leases, Some(o)) <= Occupying(h.leases, Some(o)) {
      UnguardedFailure(h, a.l, a.retryable, a.now, Some(o));
    }
  }

  /** A step keeps the limits exactly when what it does fits. */
  lemma CapacityStepExactlyIf(h: Hosted, a: Action)
    requires WithinCapacity(h)
    ensures WithinCapacity(Apply(h, a)) <==> Fits(h, a)
  {
    if a.AProvisioned? && a.l < |h.leases| {
      ProvisionedCapacity(h, a);
    } else if a.AProvisionFailed? && a.l < |h.leases| {
      FailedCapacity(h, a);
    } else {
      StepKeepsCapacity(h, a);
    }
  }

  predicate FitsRun(h: Hosted, run: seq<Action>)
    decreases |run|
  {
    run == [] || (Fits(h, run[0]) && FitsRun(Apply(h, run[0]), run[1..]))
  }

  ghost predicate WithinThroughout(h: Hosted, run: seq<Action>)
    decreases |run|
  {
    WithinCapacity(h) && (run == [] || WithinThroughout(Apply(h, run[0]), run[1..]))
  }

  /** The limits hold at every point of a run exactly when every provider answer in it fits. */
  lemma {:induction false} CapacityExactlyIf(h: Hosted, run: seq<Action>)
    requires WithinCapacity(h)
    ensures WithinThroughout(h, run) <==> FitsRun(h, run)
    decreases |run|
  {
    if run != [] {
      CapacityStepExactlyIf(h, run[0]);
      if Fits(h, run[0]) { CapacityExactlyIf(Apply(h, run[0]), run[1..]); }
    }
  }

  /** A full deployment: one machine allowed and in use, one lease queued behind it. */
  predicate FullHouse(h: Hosted) {
    && h.settings == Settings(true, false, 1, 1)
    && |h.leases| == 2 && h.leases[0].org == h.leases[1].org
    && h.leases[0].state == Provisioning && h.leases[1].state == Requested
    && h.policies == map[h.leases[0].org := Policy(false, 1, 1, None)]
  }

  lemma FullHouseWithin(h: Hosted)
    requires FullHouse(h)
    ensures WithinCapacity(h)
  {
  }

  lemma RoomAfterCancel(h: Hosted)
    requires FullHouse(h)
    ensures var cancelled := Apply(h, AEnd(0, Terminated, true, 1));
            && RoomFor(cancelled, h.leases[1].org) && |cancelled.leases| == 2
            && cancelled.leases[1] == h.leases[1] && cancelled.leases[0].state == Terminated
  {
  }

  /** The lease in the first row is cancelled and the one in the second gets its machine. */
  function Replaced(h: Hosted): Hosted
    requires FullHouse(h)
  {
    Apply(Apply(Apply(h, AEnd(0, Terminated, true, 1)), AReserve(1, 2)), AProvisioned(1, 7, 8, 3))
  }

  lemma ReplacedWithin(h: Hosted)
    requires FullHouse(h)
    ensures WithinCapacity(Replaced(h))
  {
    var cancelled := Apply(h, AEnd(0, Terminated, true, 1));
    FullHouseWithin(h);
    StepKeepsCapacity(h, AEnd(0, Terminated, true, 1));
    RoomAfterCancel(h);
    StepKeepsCapacity(cancelled, AReserve(1, 2));
    StepKeepsCapacity(Apply(cancelled, AReserve(1, 2)), AProvisioned(1, 7, 8, 3));
  }

  lemma ReplacedRows(h: Hosted)
    requires FullHouse(h)
    ensures var ls := Replaced(h).leases;
            |ls| == 2 && ls[0].state == Terminated && Occupies(ls[1].state)
  {
  }

  /** Without the hypothesis the limit is broken: a cancel between the two halves lets a second machine in. */
  lemma CancelBetweenBreaksCapacity(h: Hosted)
    requires FullHouse(h)
    ensures var answered := Apply(Replaced(h), AProvisioned(0, 5, 6, 4));
            && WithinCapacity(h) && WithinCapacity(Replaced(h)) && !Undisturbed(Replaced(h), AProvisioned(0, 5, 6, 4))
            && Occupying(answered.leases, None) == 2
  {
    FullHouseWithin(h);
    ReplacedWithin(h);
    ReplacedRows(h);
    TwoRows(Replaced(h).leases, None);
    UnguardedProvisioned(Replaced(h), 0, 5, 6, 4, None);
  }

  lemma TwoRows(ls: seq<Lease>, who: Option<OrgId>)
    requires |ls| == 2
    ensures Occupying(ls, who) ==
            B(Of(ls[0], who) && Occupies(ls[0].state)) + B(Of(ls[1], who) && Occupies(ls[1].state))
    ensures CountedIn(ls, who) == B(Of(ls[0], who) && Counted(ls[0].state)) + B(Of(ls[1], who) && Counted(ls[1].state))
    ensures forall s ::
              InState(ls, who, s) == B(Of(ls[0], who) && ls[0].state == s) + B(Of(ls[1], who) && ls[1].state == s)
  {
  }
}

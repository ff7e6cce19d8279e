/** One bill per lease, and reservations that always add up to bills and open estimates. */
module HostedMetering {
  import opened Wrappers
  import opened Sums
  import opened Hosted

  function BilledTo(usage: seq<Usage>, ls: seq<Lease>, org: OrgId, month: int): int {
    if usage == [] then 0
    else
      var u := usage[|usage| - 1];
      BilledTo(usage[..|usage| - 1], ls, org, month)
      + (if u.org == org && u.lease < |ls| && ls[u.lease].month >= month then u.cost else 0)
  }

  /** Estimates of the leases that have no usage row yet. */
  function OpenEstimate(h: Hosted, org: OrgId, month: int): nat -> int {
    (i: nat) => if i < |h.leases| && h.leases[i].org == org && h.leases[i].month >= month && !Metered(h.usage, i)
                then h.leases[i].estimate else 0
  }

  function Rows(usage: seq<Usage>, l: nat): nat {
    if usage == [] then 0 else Rows(usage[..|usage| - 1], l) + (if usage[|usage| - 1].lease == l then 1 else 0)
  }

  ghost predicate MeteringOk(h: Hosted) {
    && (forall u | u in h.usage :: u.lease < |h.leases| && u.org == h.leases[u.lease].org)
    && (forall l :: Rows(h.usage, l) <= 1)
    && (forall l | 0 <= l < |h.leases| && !Metered(h.usage, l) :: h.leases[l].reserved == h.leases[l].estimate)
    && (forall l | 0 <= l < |h.leases| :: h.leases[l].estimate == Cost(h.leases[l].wallMs, h.leases[l].rate))
    && (forall u | u in h.usage ::
          h.leases[u.lease].reserved == u.cost && u.cost == Cost(u.durationMs, h.leases[u.lease].rate))
    && (forall i, j | 0 <= i < j < |h.leases| :: h.leases[i].job != h.leases[j].job)
  }

  lemma {:induction false} RowsMetered(usage: seq<Usage>, l: nat)
    ensures Rows(usage, l) > 0 <==> Metered(usage, l)
  {
    if usage != [] {
      var init, last := usage[..|usage| - 1], usage[|usage| - 1];
      RowsMetered(init, l);
      assert usage == init + [last];
      if Metered(usage, l) && last.lease != l {
        var u :| u in usage && u.lease == l;
        assert u in init;
      }
    }
  }

  lemma FinalizeKeepsMetering(h: Hosted, l: nat, since: int, now: int)
    requires MeteringOk(h)
    ensures MeteringOk(Finalize(h, l, since, now))
  {
    var u := Finalize(h, l, since, now);
    if u != h {
      var row := u.usage[|h.usage|];
      assert u.usage == h.usage + [row] && u.usage[..|u.usage| - 1] == h.usage;
      RowsMetered(h.usage, l);
      forall k: nat | !Metered(u.usage, k) ensures !Metered(h.usage, k) && k != l {
        assert row in u.usage && forall w | w in h.usage :: w in u.usage;
      }
      forall w | w in h.usage ensures w.lease != l { }
    }
  }

  /** A row rewritten without touching what is billed. */
  lemma RowKeepsMetering(h: Hosted, l: nat, lease: Lease)
    requires MeteringOk(h) && l < |h.leases|
    requires lease.org == h.leases[l].org && lease.job == h.leases[l].job && lease.reserved == h.leases[l].reserved
    requires lease.wallMs == h.leases[l].wallMs && lease.rate == h.leases[l].rate
    requires lease.estimate == h.leases[l].estimate
    ensures MeteringOk(SetLease(h, l, lease))
  {
  }

  lemma RequestKeepsMetering(h: Hosted, org: OrgId, job: nat, wallMs: nat, rate: nat, month: int, now: int)
    requires MeteringOk(h)
    ensures MeteringOk(Request(h, org, job, wallMs, rate, month, now).0)
  {
  }

  /** Each step keeps the books: a lease is billed once, and reserves its estimate until it is. */
  lemma StepKeepsMetering(h: Hosted, a: Action)
    requires MeteringOk(h)
    ensures MeteringOk(Apply(h, a))
  {
    match a
    case AFinalize(l, since, now) => FinalizeKeepsMetering(h, l, since, now);
    case ARequest(org, job, wallMs, rate, month, now) => RequestKeepsMetering(h, org, job, wallMs, rate, month, now);
    case _ =>
      if Apply(h, a) != h {
        RowKeepsMetering(h, a.l, Apply(h, a).leases[a.l]);
        assert Apply(h, a) == SetLease(h, a.l, Apply(h, a).leases[a.l]);
      }
  }

  lemma {:induction false} MeteringAlways(h: Hosted, run: seq<Action>)
    requires MeteringOk(h)
    ensures MeteringOk(After(h, run))
    decreases |run|
  {
    if run != [] {
      StepKeepsMetering(h, run[0]);
      MeteringAlways(Apply(h, run[0]), run[1..]);
    }
  }

  /** Over any run from an empty table, whatever order cancel, complete and reconcile take, one bill per lease. */
  lemma BilledAtMostOnce(h: Hosted, run: seq<Action>, l: nat)
    requires Fresh(h)
    ensures Rows(After(h, run).usage, l) <= 1
  {
    assert forall k :: Rows(h.usage, k) <= 1;
    MeteringAlways(h, run);
  }

  lemma BillKept(h: Hosted, a: Action, l: nat)
    requires l < |h.leases| && Metered(h.usage, l)
    ensures l < |Apply(h, a).leases| && Metered(Apply(h, a).usage, l)
    ensures Apply(h, a).leases[l].reserved == h.leases[l].reserved
  {
  }

  /**
   What a machine's reports do: its own heartbeat, and no other, makes a lease that boots ready; its own claim of its
   own job makes a ready one run, and the first claim stamps the start.
   */
  lemma ReportsMove(h: Hosted, l: nat, runner: nat, job: nat, now: int)
    requires l < |h.leases|
    ensures var was, beat := h.leases[l], Apply(h, AHeartbeat(l, runner, now)).leases[l];
            && (beat.state != was.state <==> was.state == Bootstrapping && was.runner == Some(runner))
            && (beat.state != was.state ==> beat.state == Ready)
    ensures var was, claim := h.leases[l], Apply(h, AClaimed(l, runner, job, now)).leases[l];
            && (claim.state == Running <==>
                  || was.state == Running
                  || (was.state in {Ready, Claimed} && was.runner == Some(runner) && was.job == job))
            && (claim.state != Running ==> claim == was)
            && (claim.state != was.state ==>
                  claim.startedAt == if was.startedAt.Some? then was.startedAt else Some(now))
  {
  }

  /** From provisioning at `from` to the end at `to`: that is what the lease is billed for. */
  lemma BilledFromProvisioning(h: Hosted, l: nat, resource: nat, runner: nat, from: int, to: int, since: int, now: int)
    requires l < |h.leases| && !Metered(h.usage, l)
    ensures var booted := Provisioned(h, l, resource, runner, from);
            var ended := Apply(booted, AEnd(l, Terminated, true, to));
            var u := Finalize(ended, l, since, now);
            && booted.leases[l].state == Bootstrapping && booted.leases[l].runner == Some(runner)
            && booted.leases[l].resource == Some(resource)
            && ended.leases[l].state == Terminated
            && |u.usage| == |h.usage| + 1 && u.usage[|h.usage|].durationMs == (if to > from then to - from else 0)
  {
  }

  /** The bill is final: once metered, what a lease reserves never changes again. */
  lemma {:induction false} BillFrozen(h: Hosted, run: seq<Action>, l: nat)
    requires l < |h.leases| && Metered(h.usage, l)
    ensures l < |After(h, run).leases| && After(h, run).leases[l].reserved == h.leases[l].reserved
    decreases |run|
  {
    if run != [] {
      BillKept(h, run[0], l);
      BillFrozen(Apply(h, run[0]), run[1..], l);
    }
  }

  /** What the metered leases of an organization reserve. */
  function BilledMark(usage: seq<Usage>, ls: seq<Lease>, org: OrgId, month: int): nat -> int {
    (i: nat) => if i < |ls| && ls[i].org == org && ls[i].month >= month && Metered(usage, i) then ls[i].reserved else 0
  }

  /** The usage table adds up to the reservations of the leases it bills. */
  lemma {:induction false} BillsAddUp(usage: seq<Usage>, ls: seq<Lease>, org: OrgId, month: int)
    requires forall u | u in usage :: u.lease < |ls| && u.org == ls[u.lease].org && ls[u.lease].reserved == u.cost
    requires forall l :: Rows(usage, l) <= 1
    ensures BilledTo(usage, ls, org, month) == Sum(|ls|, BilledMark(usage, ls, org, month))
    decreases |usage|
  {
    if usage == [] {
      SumSame(|ls|, BilledMark(usage, ls, org, month), (i: nat) => 0);
      SumZero(|ls|);
    } else {
      var init, u := usage[..|usage| - 1], usage[|usage| - 1];
      assert usage == init + [u];
      forall l ensures Rows(init, l) <= 1 { assert Rows(usage, l) <= 1; }
      BillsAddUp(init, ls, org, month);
      assert Rows(usage, u.lease) == Rows(init, u.lease) + 1;
      RowsMetered(init, u.lease);
      forall i: nat | i < |ls| && i != u.lease
        ensures BilledMark(init, ls, org, month)(i) == BilledMark(usage, ls, org, month)(i)
      {
        assert Metered(init, i) <==> Metered(usage, i) by { MeteredAppend(init, u, i); }
      }
      assert Metered(usage, u.lease);
      SumPoint(|ls|, BilledMark(init, ls, org, month), BilledMark(usage, ls, org, month), u.lease);
    }
  }

  lemma MeteredAppend(usage: seq<Usage>, u: Usage, i: nat)
    requires u.lease != i
    ensures Metered(usage, i) <==> Metered(usage + [u], i)
  {
  }

  lemma {:induction false} SumZero(n: nat)
    ensures Sum(n, (i: nat) => 0) == 0
  {
    if n > 0 {
      SumZero(n - 1);
      SumSame(n - 1, (i: nat) => 0, (i: nat) => 0);
    }
  }

  /** Conservation: what an organization has reserved is what it was billed plus the estimates still open. */
  lemma ReservedIsBilledPlusOpen(h: Hosted, run: seq<Action>, org: OrgId, month: int)
    requires Fresh(h)
    ensures var u := After(h, run);
            Sum(|u.leases|, ReservedSince(u.leases, org, month))
            == BilledTo(u.usage, u.leases, org, month) + Sum(|u.leases|, OpenEstimate(u, org, month))
  {
    assert forall k :: Rows(h.usage, k) <= 1;
    MeteringAlways(h, run);
    var u := After(h, run);
    BillsAddUp(u.usage, u.leases, org, month);
    SumAdd(|u.leases|, BilledMark(u.usage, u.leases, org, month), OpenEstimate(u, org, month),
           ReservedSince(u.leases, org, month));
  }
}

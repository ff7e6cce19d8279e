/** How the optimizer compares trials: Pareto dominance, and the ranking that must agree with it. */
module Ranking {
  import opened Wrappers

  datatype Objective = Correctness | Cost | Duration | Reliability

  datatype Metrics = Metrics(
    attempts: nat, successRate: real, cost: Option<nat>, duration: Option<real>, reliability: Option<real>)

  type CandidateId = nat

  datatype Candidate = Candidate(id: CandidateId, configuration: string)

  /** A trial with metrics; `id` is distinct for every trial of a run. */
  datatype Entry = Entry(id: nat, candidate: Candidate, metrics: Metrics)

  const MAX_SAFE_INTEGER: real := 9007199254740991.0

  function OrElse(x: Option<real>, d: real): real {
    if x.Some? then x.value else d
  }

  function CostOf(m: Metrics): Option<real> {
    if m.cost.Some? then Some(m.cost.value as real) else None
  }

  /******* Dominance: a missing cost or duration is infinite *******/

  predicate LeqInf(a: Option<real>, b: Option<real>) {
    b.None? || (a.Some? && a.value <= b.value)
  }

  predicate LessInf(a: Option<real>, b: Option<real>) {
    a.Some? && (b.None? || a.value < b.value)
  }

  predicate NoWorse(o: Objective, a: Metrics, b: Metrics) {
    match o
    case Correctness => a.successRate >= b.successRate
    case Reliability => OrElse(a.reliability, -1.0) >= OrElse(b.reliability, -1.0)
    case Cost => LeqInf(CostOf(a), CostOf(b))
    case Duration => LeqInf(a.duration, b.duration)
  }

  predicate Better(o: Objective, a: Metrics, b: Metrics) {
    match o
    case Correctness => a.successRate > b.successRate
    case Reliability => OrElse(a.reliability, -1.0) > OrElse(b.reliability, -1.0)
    case Cost => LessInf(CostOf(a), CostOf(b))
    case Duration => LessInf(a.duration, b.duration)
  }

  predicate Dominates(a: Metrics, b: Metrics, os: seq<Objective>) {
    (forall o | o in os :: NoWorse(o, a, b)) && (exists o | o in os :: Better(o, a, b))
  }

  /******* Ranking: a missing cost or duration is the largest safe integer *******/

  function Difference(o: Objective, a: Metrics, b: Metrics): real {
    match o
    case Correctness => b.successRate - a.successRate
    case Reliability => OrElse(b.reliability, -1.0) - OrElse(a.reliability, -1.0)
    case Cost => OrElse(CostOf(a), MAX_SAFE_INTEGER) - OrElse(CostOf(b), MAX_SAFE_INTEGER)
    case Duration => OrElse(a.duration, MAX_SAFE_INTEGER) - OrElse(b.duration, MAX_SAFE_INTEGER)
  }

  /** The comparator says `a` comes before `b`: the first objective that differs decides, then the candidate id. */
  predicate Ranks(a: Entry, b: Entry, os: seq<Objective>) {
    if os == [] then a.candidate.id < b.candidate.id
    else
      var d := Difference(os[0], a.metrics, b.metrics);
      if d != 0.0 then d < 0.0 else Ranks(a, b, os[1..])
  }

  /** Known costs and durations are below what stands for a missing one. */
  predicate InRange(m: Metrics) {
    && (m.cost.Some? ==> m.cost.value as real < MAX_SAFE_INTEGER)
    && (m.duration.Some? ==> m.duration.value < MAX_SAFE_INTEGER)
  }

  lemma DominanceIrreflexive(a: Metrics, os: seq<Objective>)
    ensures !Dominates(a, a, os)
  {
  }

  lemma DominanceTransitive(a: Metrics, b: Metrics, c: Metrics, os: seq<Objective>)
    requires Dominates(a, b, os) && Dominates(b, c, os)
    ensures Dominates(a, c, os)
  {
  }

  /**
   For one objective the two readings of a missing value disagree on who is better exactly when a known
   value is not below the largest safe integer while the other is missing.
   */
  lemma ReadingsAgree(a: Metrics, b: Metrics)
    ensures (Better(Cost, a, b) <==> Difference(Cost, a, b) < 0.0) <==>
            !((a.cost.Some? && b.cost.None? && a.cost.value as real >= MAX_SAFE_INTEGER)
              || (a.cost.None? && b.cost.Some? && b.cost.value as real > MAX_SAFE_INTEGER))
    ensures (Better(Duration, a, b) <==> Difference(Duration, a, b) < 0.0) <==>
            !((a.duration.Some? && b.duration.None? && a.duration.value >= MAX_SAFE_INTEGER)
              || (a.duration.None? && b.duration.Some? && b.duration.value > MAX_SAFE_INTEGER))
  {
  }

  /** It is enough that the better trial is in range. */
  lemma DifferenceSign(o: Objective, a: Metrics, b: Metrics)
    requires InRange(a)
    ensures NoWorse(o, a, b) ==> Difference(o, a, b) <= 0.0
    ensures Better(o, a, b) ==> Difference(o, a, b) < 0.0
  {
  }

  /** A dominating trial in range is ranked before the trial it dominates, whatever that one's metrics. */
  lemma {:induction false} DominatingRanksFirst(a: Entry, b: Entry, os: seq<Objective>)
    requires InRange(a.metrics) && Dominates(a.metrics, b.metrics, os)
    ensures Ranks(a, b, os)
    decreases os
  {
    DifferenceSign(os[0], a.metrics, b.metrics);
    if Difference(os[0], a.metrics, b.metrics) == 0.0 {
      var o :| o in os && Better(o, a.metrics, b.metrics);
      DifferenceSign(o, a.metrics, b.metrics);
      assert o in os[1..];
      DominatingRanksFirst(a, b, os[1..]);
    }
  }

  /** A trial with these metrics is ranked before every trial that it dominates. */
  ghost predicate AlwaysRanksFirst(m: Metrics) {
    forall a: Entry, b: Entry, os | a.metrics == m && Dominates(a.metrics, b.metrics, os) :: Ranks(a, b, os)
  }

  /** The objective on which metrics are out of range. */
  function OutOfRange(m: Metrics): (o: Objective)
    requires !InRange(m)
    ensures o == Cost || o == Duration
  {
    if m.cost.Some? && m.cost.value as real >= MAX_SAFE_INTEGER then Cost else Duration
  }

  /** The same trial with neither cost nor duration known: dominated, and not ranked behind. */
  function Unmeasured(m: Metrics): Metrics {
    m.(cost := None, duration := None)
  }

  /** Out of range the ranking can put a dominated trial first. */
  lemma OutOfRangeInverts(a: Entry, b: Entry)
    requires !InRange(a.metrics) && b.metrics == Unmeasured(a.metrics) && b.candidate.id < a.candidate.id
    ensures Dominates(a.metrics, b.metrics, [OutOfRange(a.metrics)]) && Ranks(b, a, [OutOfRange(a.metrics)])
    ensures !Ranks(a, b, [OutOfRange(a.metrics)])
  {
    var o := OutOfRange(a.metrics);
    assert o in [o] && Better(o, a.metrics, b.metrics);
    assert [o][1..] == [];
    assert Difference(o, b.metrics, a.metrics) <= 0.0;
  }

  /** Domination decides the ranking exactly for metrics in range. */
  lemma AlwaysRanksFirstExactlyIf(m: Metrics)
    ensures AlwaysRanksFirst(m) <==> InRange(m)
  {
    if InRange(m) {
      forall a: Entry, b: Entry, os | a.metrics == m && Dominates(a.metrics, b.metrics, os) ensures Ranks(a, b, os) {
        DominatingRanksFirst(a, b, os);
      }
    } else {
      OutOfRangeInverts(Entry(0, Candidate(1, ""), m), Entry(1, Candidate(0, ""), Unmeasured(m)));
    }
  }

  /**
   On one objective: a higher success rate or reliability and a lower cost or duration come first, a missing
   reliability after every known one, a missing cost or duration after every one below 2^53 - 1, and equals by
   identifier.
   */
  lemma RanksByObjective(a: Entry, b: Entry)
    ensures Ranks(a, b, [Correctness]) <==>
              || a.metrics.successRate > b.metrics.successRate
              || (a.metrics.successRate == b.metrics.successRate && a.candidate.id < b.candidate.id)
    ensures a.metrics.reliability.Some? && a.metrics.reliability.value >= 0.0 ==>
              (b.metrics.reliability.None? ==> Ranks(a, b, [Reliability]))
              && (b.metrics.reliability.Some? && a.metrics.reliability.value > b.metrics.reliability.value ==>
                    Ranks(a, b, [Reliability]))
    ensures a.metrics.cost.Some? && a.metrics.cost.value < 9007199254740991 ==>
              (b.metrics.cost.None? ==> Ranks(a, b, [Cost]))
              && (b.metrics.cost.Some? && a.metrics.cost.value < b.metrics.cost.value ==> Ranks(a, b, [Cost]))
    ensures a.metrics.duration.Some? && a.metrics.duration.value < 9007199254740991.0 ==>
              (b.metrics.duration.None? ==> Ranks(a, b, [Duration]))
              && (b.metrics.duration.Some? && a.metrics.duration.value < b.metrics.duration.value ==>
                    Ranks(a, b, [Duration]))
  {
    forall o: Objective ensures Ranks(a, b, [o]) <==>
                                  var d := Difference(o, a.metrics, b.metrics);
                                  if d != 0.0 then d < 0.0 else a.candidate.id < b.candidate.id
    {
      assert [o][1..] == [];
    }
  }

  /** The first objective that tells two trials apart decides, whatever the later ones say. */
  lemma FirstObjectiveDecides(a: Entry, b: Entry, o: Objective, rest: seq<Objective>)
    ensures Difference(o, a.metrics, b.metrics) != 0.0 ==> (Ranks(a, b, [o] + rest) <==> Ranks(a, b, [o]))
    ensures Difference(o, a.metrics, b.metrics) == 0.0 ==> (Ranks(a, b, [o] + rest) <==> Ranks(a, b, rest))
  {
    assert ([o] + rest)[1..] == rest;
  }

  /** Dominance: better on some objective, while the other is better on none. */
  lemma DominatesExactlyIf(a: Metrics, b: Metrics, os: seq<Objective>)
    ensures Dominates(a, b, os) <==>
              (exists o | o in os :: Better(o, a, b)) && !(exists o | o in os :: Better(o, b, a))
  {
    forall o: Objective ensures NoWorse(o, a, b) <==> !Better(o, b, a) {}
  }

  /** What better means for each objective: a missing cost or duration is the worst. */
  lemma DominatesByObjective(a: Metrics, b: Metrics)
    ensures Dominates(a, b, [Correctness]) <==> a.successRate > b.successRate
    ensures Dominates(a, b, [Cost]) <==>
              a.cost.Some? && (b.cost.None? || a.cost.value < b.cost.value)
    ensures Dominates(a, b, [Duration]) <==>
              a.duration.Some? && (b.duration.None? || a.duration.value < b.duration.value)
    ensures a.reliability.Some? && a.reliability.value >= 0.0 ==>
              (Dominates(a, b, [Reliability]) <==>
                 b.reliability.None? || a.reliability.value > b.reliability.value)
  {
    forall o: Objective ensures Dominates(a, b, [o]) <==> NoWorse(o, a, b) && Better(o, a, b) {
      assert o in [o];
    }
  }

  /******* The ranking is a strict total order, so the sorted list is unique *******/

  lemma {:induction false} RanksTransitive(a: Entry, b: Entry, c: Entry, os: seq<Objective>)
    requires Ranks(a, b, os) && Ranks(b, c, os)
    ensures Ranks(a, c, os)
    decreases os
  {
    if os != [] {
      var d, e := Difference(os[0], a.metrics, b.metrics), Difference(os[0], b.metrics, c.metrics);
      assert Difference(os[0], a.metrics, c.metrics) == d + e;
      if d == 0.0 && e == 0.0 { RanksTransitive(a, b, c, os[1..]); }
    }
  }

  lemma {:induction false} RanksTotal(a: Entry, b: Entry, os: seq<Objective>)
    ensures !(Ranks(a, b, os) && Ranks(b, a, os))
    ensures a.candidate.id != b.candidate.id ==> Ranks(a, b, os) || Ranks(b, a, os)
    decreases os
  {
    if os != [] {
      assert Difference(os[0], a.metrics, b.metrics) == -Difference(os[0], b.metrics, a.metrics);
      RanksTotal(a, b, os[1..]);
    }
  }

  ghost predicate Sorted(s: seq<Entry>, os: seq<Objective>) {
    forall i, j | 0 <= i < j < |s| :: Ranks(s[i], s[j], os)
  }

  ghost predicate DistinctCandidates(s: seq<Entry>) {
    forall i, j | 0 <= i < j < |s| :: s[i].candidate.id != s[j].candidate.id
  }

  function Insert(x: Entry, s: seq<Entry>, os: seq<Objective>): seq<Entry> {
    if s == [] then [x]
    else if Ranks(x, s[0], os) then [x] + s
    else [s[0]] + Insert(x, s[1..], os)
  }

  function Sort(s: seq<Entry>, os: seq<Objective>): seq<Entry> {
    if s == [] then [] else Insert(s[0], Sort(s[1..], os), os)
  }

  lemma {:induction false} InsertHolds(x: Entry, s: seq<Entry>, os: seq<Objective>)
    ensures multiset(Insert(x, s, os)) == multiset(s) + multiset{x}
    ensures forall y | y in Insert(x, s, os) :: y == x || y in s
  {
    if s != [] {
      assert s == [s[0]] + s[1..];
      InsertHolds(x, s[1..], os);
    }
  }

  lemma SortedCons(x: Entry, s: seq<Entry>, os: seq<Objective>)
    requires Sorted(s, os) && forall y | y in s :: Ranks(x, y, os)
    ensures Sorted([x] + s, os)
  {
  }

  lemma {:induction false} InsertSorts(x: Entry, s: seq<Entry>, os: seq<Objective>)
    requires Sorted(s, os) && forall y | y in s :: y.candidate.id != x.candidate.id
    ensures Sorted(Insert(x, s, os), os)
  {
    if s != [] {
      forall y | y in s[1..] ensures Ranks(s[0], y, os) && y in s {}
      if Ranks(x, s[0], os) {
        forall y | y in s ensures Ranks(x, y, os) {
          if y != s[0] { RanksTransitive(x, s[0], y, os); }
        }
        SortedCons(x, s, os);
      } else {
        RanksTotal(x, s[0], os);
        InsertSorts(x, s[1..], os);
        InsertHolds(x, s[1..], os);
        SortedCons(s[0], Insert(x, s[1..], os), os);
      }
    }
  }

  lemma {:induction false} SortSorts(s: seq<Entry>, os: seq<Objective>)
    requires DistinctCandidates(s)
    ensures Sorted(Sort(s, os), os) && multiset(Sort(s, os)) == multiset(s)
  {
    if s != [] {
      SortSorts(s[1..], os);
      assert s == [s[0]] + s[1..];
      var rest := Sort(s[1..], os);
      forall y | y in rest ensures y.candidate.id != s[0].candidate.id {
        assert y in multiset(rest);
        assert y in s[1..];
      }
      InsertSorts(s[0], rest, os);
      InsertHolds(s[0], rest, os);
    }
  }

  lemma SameHead(s: seq<Entry>, t: seq<Entry>, os: seq<Objective>)
    requires Sorted(s, os) && Sorted(t, os) && multiset(s) == multiset(t) && s != []
    ensures t != [] && s[0] == t[0]
  {
    assert s[0] in multiset(t);
    assert t[0] in multiset(s);
    var i :| 0 <= i < |t| && t[i] == s[0];
    var j :| 0 <= j < |s| && s[j] == t[0];
    if i > 0 && j > 0 { RanksTotal(s[0], t[0], os); }
  }

  lemma TailMultiset(s: seq<Entry>)
    requires s != []
    ensures multiset(s[1..]) == multiset(s) - multiset{s[0]}
  {
    assert s == [s[0]] + s[1..];
  }

  /** Any sorting routine that respects the comparator returns this very list. */
  lemma {:induction false} SortedUnique(s: seq<Entry>, t: seq<Entry>, os: seq<Objective>)
    requires Sorted(s, os) && Sorted(t, os) && multiset(s) == multiset(t)
    ensures s == t
  {
    if s == [] {
      assert |multiset(t)| == 0;
    } else {
      SameHead(s, t, os);
      TailMultiset(s);
      TailMultiset(t);
      SortedUnique(s[1..], t[1..], os);
      assert s == [s[0]] + s[1..] && t == [t[0]] + t[1..];
    }
  }

  /******* The Pareto front *******/

  predicate OnFront(x: Entry, ranked: seq<Entry>, os: seq<Objective>) {
    !exists y :: y in ranked && y.id != x.id && Dominates(y.metrics, x.metrics, os)
  }

  function Front(ranked: seq<Entry>, all: seq<Entry>, os: seq<Objective>): seq<Entry> {
    if ranked == [] then []
    else (if OnFront(ranked[0], all, os) then [ranked[0]] else []) + Front(ranked[1..], all, os)
  }

  lemma {:induction false} FrontMembers(ranked: seq<Entry>, all: seq<Entry>, os: seq<Objective>)
    ensures forall x :: x in Front(ranked, all, os) <==> x in ranked && OnFront(x, all, os)
  {
    if ranked != [] { FrontMembers(ranked[1..], all, os); }
  }

  ghost predicate AllInRange(s: seq<Entry>) {
    forall x | x in s :: InRange(x.metrics)
  }

  /** With all metrics in range the first-ranked trial, the recommendation, is on the Pareto front. */
  lemma RecommendedOnFront(ranked: seq<Entry>, os: seq<Objective>)
    requires ranked != [] && Sorted(ranked, os) && AllInRange(ranked)
    ensures ranked[0] in Front(ranked, ranked, os)
  {
    FrontMembers(ranked, ranked, os);
    if y :| y in ranked && y.id != ranked[0].id && Dominates(y.metrics, ranked[0].metrics, os) {
      var i :| 0 <= i < |ranked| && ranked[i] == y;
      DominatingRanksFirst(y, ranked[0], os);
      RanksTotal(y, ranked[0], os);
    }
  }

  /** All trials but those with metrics `m` are in range. */
  ghost predicate InRangeBut(s: seq<Entry>, m: Metrics) {
    forall x | x in s :: InRange(x.metrics) || x.metrics == m
  }

  /** Trials with metrics `m` never make the recommendation leave the front. */
  ghost predicate NeverMisleads(m: Metrics) {
    forall ranked, os | ranked != [] && Sorted(ranked, os) && DistinctCandidates(ranked) && InRangeBut(ranked, m) ::
      ranked[0] in Front(ranked, ranked, os)
  }

  lemma OutOfRangeMisleads(m: Metrics)
    requires !InRange(m)
    ensures !NeverMisleads(m)
  {
    var a, b := Entry(0, Candidate(1, ""), m), Entry(1, Candidate(0, ""), Unmeasured(m));
    var ranked, os := [b, a], [OutOfRange(m)];
    OutOfRangeInverts(a, b);
    FrontMembers(ranked, ranked, os);
    assert a in ranked && Sorted(ranked, os) && DistinctCandidates(ranked) && InRangeBut(ranked, m);
    assert !OnFront(b, ranked, os);
  }

  /** So metrics in range are exactly those that the recommendation can bear. */
  lemma RecommendedExactlyIf(m: Metrics)
    ensures NeverMisleads(m) <==> InRange(m)
  {
    if InRange(m) {
      forall ranked, os | ranked != [] && Sorted(ranked, os) && InRangeBut(ranked, m)
        ensures ranked[0] in Front(ranked, ranked, os)
      {
        RecommendedOnFront(ranked, os);
      }
    } else {
      OutOfRangeMisleads(m);
    }
  }

  ghost function Dominators(s: seq<Entry>, x: Entry, os: seq<Objective>): set<Entry> {
    set z | z in s && Dominates(z.metrics, x.metrics, os)
  }

  lemma FewerDominators(s: seq<Entry>, y: Entry, x: Entry, os: seq<Objective>)
    requires y in s && Dominates(y.metrics, x.metrics, os)
    ensures Dominators(s, y, os) < Dominators(s, x, os)
  {
    forall z | z in Dominators(s, y, os) ensures z in Dominators(s, x, os) {
      DominanceTransitive(z.metrics, y.metrics, x.metrics, os);
    }
    DominanceIrreflexive(y.metrics, os);
    assert y in Dominators(s, x, os) && y !in Dominators(s, y, os);
  }

  /** Every trial off the front is dominated by one that is on it: whatever the order, the ids and the metrics. */
  lemma {:induction false} OffFrontDominated(s: seq<Entry>, os: seq<Objective>, x: Entry) returns (f: Entry)
    requires x in s && x !in Front(s, s, os)
    ensures f in Front(s, s, os) && Dominates(f.metrics, x.metrics, os)
    decreases Dominators(s, x, os)
  {
    FrontMembers(s, s, os);
    var y :| y in s && y.id != x.id && Dominates(y.metrics, x.metrics, os);
    f := y;
    if y !in Front(s, s, os) {
      FewerDominators(s, y, x, os);
      f := OffFrontDominated(s, os, y);
      DominanceTransitive(f.metrics, y.metrics, x.metrics, os);
    }
  }
}

/**
 The budgeted search loop and its cache.

 The cache key hashes everything that a result depends on and only the candidate varies during a
 search, so the cache is a map from candidates.
 */
module Optimizer {
  import opened Wrappers
  import opened Ranking

  datatype Status = COMPLETED | FAILED | CANCELLED | CACHED

  datatype Trial = Trial(id: nat, candidate: Candidate, status: Status, metrics: Option<Metrics>)

  datatype Budget = Budget(maxTrials: nat, maxCost: Option<nat>, maxAttempts: Option<nat>, maxWallMs: Option<nat>)

  /** The executor's answer for a candidate. */
  datatype Answer = Returned(metrics: Metrics) | Raised

  /** What the world does around the k-th iteration: the clock, and the abort signal before and during the trial. */
  datatype World = World(elapsed: nat -> int, abortedBefore: nat -> bool, abortedDuring: nat -> bool)

  datatype Search = Search(
    trials: seq<Trial>, attempts: nat, cost: nat, exhausted: bool, cache: Option<map<Candidate, Metrics>>)

  predicate ValidRate(m: Metrics) {
    0.0 <= m.successRate <= 1.0
  }

  predicate Spent(b: Budget, s: Search, elapsed: int) {
    || |s.trials| >= b.maxTrials
    || (b.maxAttempts.Some? && s.attempts >= b.maxAttempts.value)
    || (b.maxCost.Some? && s.cost >= b.maxCost.value)
    || (b.maxWallMs.Some? && elapsed >= b.maxWallMs.value)
  }

  function Lookup(cache: Option<map<Candidate, Metrics>>, c: Candidate): Option<Metrics> {
    if cache.Some? && c in cache.value then Some(cache.value[c]) else None
  }

  function Charge(m: Metrics): nat {
    if m.cost.Some? then m.cost.value else 0
  }

  /** One trial of candidate `c`. */
  function Try(s: Search, c: Candidate, exec: Candidate -> Answer, aborted: bool): Search {
    var cached := Lookup(s.cache, c);
    var answer := if cached.Some? then Returned(cached.value) else exec(c);
    if answer.Returned? && ValidRate(answer.metrics) then
      var m := answer.metrics;
      if cached.Some? then s.(trials := s.trials + [Trial(|s.trials|, c, CACHED, Some(m))])
      else s.(trials := s.trials + [Trial(|s.trials|, c, COMPLETED, Some(m))],
              attempts := s.attempts + m.attempts, cost := s.cost + Charge(m),
              cache := if s.cache.Some? then Some(s.cache.value[c := m]) else None)
    else s.(trials := s.trials + [Trial(|s.trials|, c, if aborted then CANCELLED else FAILED, None)])
  }

  /** The loop over the candidates still to try; `k` counts iterations. */
  function Run(s: Search, rest: seq<Candidate>, k: nat, b: Budget, exec: Candidate -> Answer, w: World): Search
    decreases |rest|
  {
    if rest == [] || w.abortedBefore(k) then s
    else if Spent(b, s, w.elapsed(k)) then s.(exhausted := true)
    else
      var next := Try(s, rest[0], exec, w.abortedDuring(k));
      if next.trials[|s.trials|].metrics.None? && w.abortedDuring(k) then next
      else Run(next, rest[1..], k + 1, b, exec, w)
  }

  function Begin(cache: Option<map<Candidate, Metrics>>): Search {
    Search([], 0, 0, false, cache)
  }

  function Ordered(baseline: Candidate, candidates: seq<Candidate>): seq<Candidate> {
    [baseline] + Others(baseline, candidates)
  }

  function Others(baseline: Candidate, candidates: seq<Candidate>): seq<Candidate> {
    if candidates == [] then []
    else (if candidates[0].id != baseline.id then [candidates[0]] else []) + Others(baseline, candidates[1..])
  }

  /** The trials that `choose` ranks. */
  function Entries(trials: seq<Trial>): seq<Entry> {
    if trials == [] then []
    else
      var t := trials[|trials| - 1];
      Entries(trials[..|trials| - 1])
      + (if t.metrics.Some? && (t.status == COMPLETED || t.status == CACHED)
         then [Entry(t.id, t.candidate, t.metrics.value)] else [])
  }

  /** The loop as it runs, proved to compute `Run`. */
  method Optimize(baseline: Candidate, candidates: seq<Candidate>, cache: Option<map<Candidate, Metrics>>,
                  b: Budget, exec: Candidate -> Answer, w: World)
    returns (result: Search)
    ensures result == Run(Begin(cache), Ordered(baseline, candidates), 0, b, exec, w)
  {
    var ordered := Ordered(baseline, candidates);
    var trials: seq<Trial> := [];
    var attempts: nat, cost: nat, exhausted := 0, 0, false;
    var store := cache;
    var k := 0;
    ghost var goal := Run(Begin(cache), ordered, 0, b, exec, w);
    while k < |ordered|
      invariant 0 <= k <= |ordered| && |trials| == k
      invariant goal == Run(Search(trials, attempts, cost, exhausted, store), ordered[k..], k, b, exec, w)
      invariant !exhausted
    {
      var candidate := ordered[k];
      if w.abortedBefore(k) {
        break;
      }
      if || k >= b.maxTrials
         || (b.maxAttempts.Some? && attempts >= b.maxAttempts.value)
         || (b.maxCost.Some? && cost >= b.maxCost.value)
         || (b.maxWallMs.Some? && w.elapsed(k) >= b.maxWallMs.value) {
        exhausted := true;
        break;
      }
      assert ordered[k..][0] == candidate && ordered[k..][1..] == ordered[k + 1..];
      ghost var before := Search(trials, attempts, cost, exhausted, store);
      var cached := Lookup(store, candidate);
      var answer := if cached.Some? then Returned(cached.value) else exec(candidate);
      if answer.Returned? && ValidRate(answer.metrics) {
        var m := answer.metrics;
        if cached.None? {
          if store.Some? {
            store := Some(store.value[candidate := m]);
          }
          attempts := attempts + m.attempts;
          cost := cost + Charge(m);
        }
        trials := trials + [Trial(k, candidate, if cached.Some? then CACHED else COMPLETED, Some(m))];
      } else {
        trials := trials + [Trial(k, candidate, if w.abortedDuring(k) then CANCELLED else FAILED, None)];
        assert Search(trials, attempts, cost, exhausted, store) == Try(before, candidate, exec, w.abortedDuring(k));
        if w.abortedDuring(k) {
          k := k + 1;
          break;
        }
      }
      assert Search(trials, attempts, cost, exhausted, store) == Try(before, candidate, exec, w.abortedDuring(k));
      k := k + 1;
    }
    result := Search(trials, attempts, cost, exhausted, store);
  }

  /******* Budgets *******/

  /** Attempts and cost of the trials that were really executed. */
  function Executed(trials: seq<Trial>): (r: (nat, nat)) {
    if trials == [] then (0, 0)
    else
      var t := trials[|trials| - 1];
      var before := Executed(trials[..|trials| - 1]);
      if t.status == COMPLETED && t.metrics.Some?
      then
        (before.0 + t.metrics.value.attempts,
         before.1 + if t.metrics.value.cost.Some? then t.metrics.value.cost.value else 0)
      else before
  }

  ghost predicate BudgetOk(b: Budget, s: Search) {
    && Executed(s.trials) == (s.attempts, s.cost)
    && |s.trials| <= b.maxTrials
    && forall i | 0 <= i < |s.trials| ::
         && (b.maxAttempts.Some? ==> Executed(s.trials[..i]).0 < b.maxAttempts.value)
         && (b.maxCost.Some? ==> Executed(s.trials[..i]).1 < b.maxCost.value)
  }

  lemma TryKeepsBudget(s: Search, c: Candidate, b: Budget, exec: Candidate -> Answer, aborted: bool, elapsed: int)
    requires BudgetOk(b, s) && !Spent(b, s, elapsed)
    ensures BudgetOk(b, Try(s, c, exec, aborted))
  {
    var next := Try(s, c, exec, aborted);
    assert next.trials[..|s.trials|] == s.trials;
    forall i | 0 <= i < |next.trials|
      ensures b.maxAttempts.Some? ==> Executed(next.trials[..i]).0 < b.maxAttempts.value
      ensures b.maxCost.Some? ==> Executed(next.trials[..i]).1 < b.maxCost.value
    {
      if i < |s.trials| { assert next.trials[..i] == s.trials[..i]; }
    }
  }

  /**
   The budgets are respected on every input: no more than `max_trials` trials, and before each trial
   the attempts and the cost of those executed so far are below their limits.
   */
  lemma {:induction false} BudgetRespected(s: Search, rest: seq<Candidate>, k: nat, b: Budget,
                                           exec: Candidate -> Answer, w: World)
    requires BudgetOk(b, s)
    ensures BudgetOk(b, Run(s, rest, k, b, exec, w))
    decreases |rest|
  {
    if rest != [] && !w.abortedBefore(k) && !Spent(b, s, w.elapsed(k)) {
      TryKeepsBudget(s, rest[0], b, exec, w.abortedDuring(k), w.elapsed(k));
      BudgetRespected(Try(s, rest[0], exec, w.abortedDuring(k)), rest[1..], k + 1, b, exec, w);
    }
  }

  /** So are they by every search from its beginning. */
  lemma SearchWithinBudget(ordered: seq<Candidate>, cache: Option<map<Candidate, Metrics>>, b: Budget,
                           exec: Candidate -> Answer, w: World)
    ensures BudgetOk(b, Run(Begin(cache), ordered, 0, b, exec, w))
  {
    BudgetRespected(Begin(cache), ordered, 0, b, exec, w);
  }

  /******* A warm cache refines a cold one *******/

  /** What a trial says, apart from where it came from. */
  datatype Finding = Finding(candidate: Candidate, metrics: Option<Metrics>)

  function Findings(trials: seq<Trial>): (r: seq<Finding>)
    ensures |r| == |trials| && forall i | 0 <= i < |r| :: r[i] == Finding(trials[i].candidate, trials[i].metrics)
  {
    if trials == [] then []
    else
      var t := trials[|trials| - 1];
      Findings(trials[..|trials| - 1]) + [Finding(t.candidate, t.metrics)]
  }

  /** The cache holds only what the executor would answer. */
  ghost predicate Faithful(cache: Option<map<Candidate, Metrics>>, exec: Candidate -> Answer) {
    cache.Some? ==> forall c | c in cache.value :: exec(c) == Returned(cache.value[c])
  }

  /** No abort and no wall-time limit. */
  ghost predicate Undisturbed(b: Budget, w: World) {
    b.maxWallMs.None? && forall k :: !w.abortedBefore(k) && !w.abortedDuring(k)
  }

  ghost predicate AtMost(warm: Search, cold: Search) {
    && Findings(warm.trials) == Findings(cold.trials)
    && warm.attempts <= cold.attempts && warm.cost <= cold.cost
  }

  lemma FindingsAppend(trials: seq<Trial>, t: Trial)
    ensures Findings(trials + [t]) == Findings(trials) + [Finding(t.candidate, t.metrics)]
  {
  }

  lemma TryKeepsFaithful(s: Search, c: Candidate, exec: Candidate -> Answer)
    requires Faithful(s.cache, exec)
    ensures Faithful(Try(s, c, exec, false).cache, exec)
    ensures var next := Try(s, c, exec, false);
            var m := if exec(c).Returned? && ValidRate(exec(c).metrics) then Some(exec(c).metrics) else None;
            Findings(next.trials) == Findings(s.trials) + [Finding(c, m)]
  {
    var next := Try(s, c, exec, false);
    FindingsAppend(s.trials, next.trials[|s.trials|]);
  }

  lemma TryRefines(warm: Search, cold: Search, c: Candidate, exec: Candidate -> Answer)
    requires AtMost(warm, cold) && Faithful(warm.cache, exec) && Faithful(cold.cache, exec)
    requires Lookup(cold.cache, c).None?
    ensures AtMost(Try(warm, c, exec, false), Try(cold, c, exec, false))
    ensures Faithful(Try(warm, c, exec, false).cache, exec) && Faithful(Try(cold, c, exec, false).cache, exec)
  {
    TryKeepsFaithful(warm, c, exec);
    TryKeepsFaithful(cold, c, exec);
  }

  lemma TryExtends(s: Search, c: Candidate, exec: Candidate -> Answer, aborted: bool)
    ensures Findings(s.trials) <= Findings(Try(s, c, exec, aborted).trials)
  {
    var next := Try(s, c, exec, aborted);
    FindingsAppend(s.trials, next.trials[|s.trials|]);
  }

  lemma {:induction false} RunExtends(s: Search, rest: seq<Candidate>, k: nat, b: Budget,
                                      exec: Candidate -> Answer, w: World)
    ensures Findings(s.trials) <= Findings(Run(s, rest, k, b, exec, w).trials)
    decreases |rest|
  {
    if rest != [] && !w.abortedBefore(k) && !Spent(b, s, w.elapsed(k)) {
      TryExtends(s, rest[0], exec, w.abortedDuring(k));
      RunExtends(Try(s, rest[0], exec, w.abortedDuring(k)), rest[1..], k + 1, b, exec, w);
    }
  }

  ghost predicate DistinctKeys(rest: seq<Candidate>) {
    forall i, j | 0 <= i < j < |rest| :: rest[i] != rest[j]
  }

  ghost predicate NotCached(cache: Option<map<Candidate, Metrics>>, rest: seq<Candidate>) {
    cache.Some? ==> forall c | c in rest :: c !in cache.value
  }

  lemma TryKeepsUncached(s: Search, rest: seq<Candidate>, exec: Candidate -> Answer)
    requires rest != [] && DistinctKeys(rest) && NotCached(s.cache, rest)
    ensures Lookup(s.cache, rest[0]).None?
    ensures DistinctKeys(rest[1..]) && NotCached(Try(s, rest[0], exec, false).cache, rest[1..])
  {
    assert rest[0] in rest;
    forall c | c in rest[1..] ensures c in rest && c != rest[0] {
      var i :| 0 <= i < |rest[1..]| && rest[1..][i] == c;
      assert rest[i + 1] == c;
    }
  }

  /** A warm search is not spent before the cold one, and with nothing but `max_trials` both are spent together. */
  lemma WarmLasts(warm: Search, cold: Search, b: Budget, elapsed: int)
    requires AtMost(warm, cold) && b.maxWallMs.None?
    ensures Spent(b, warm, elapsed) ==> Spent(b, cold, elapsed)
    ensures b.maxAttempts.None? && b.maxCost.None? ==> (Spent(b, warm, elapsed) <==> Spent(b, cold, elapsed))
  {
    assert |warm.trials| == |Findings(warm.trials)| == |cold.trials|;
  }

  lemma {:induction false} WarmRefinesFrom(warm: Search, cold: Search, rest: seq<Candidate>, k: nat, b: Budget,
                                           exec: Candidate -> Answer, w: World)
    requires AtMost(warm, cold) && Faithful(warm.cache, exec) && Faithful(cold.cache, exec)
    requires DistinctKeys(rest) && NotCached(cold.cache, rest) && Undisturbed(b, w)
    ensures Findings(Run(cold, rest, k, b, exec, w).trials) <= Findings(Run(warm, rest, k, b, exec, w).trials)
    ensures b.maxAttempts.None? && b.maxCost.None? ==>
              Findings(Run(cold, rest, k, b, exec, w).trials) == Findings(Run(warm, rest, k, b, exec, w).trials)
    decreases |rest|
  {
    if rest != [] {
      WarmLasts(warm, cold, b, w.elapsed(k));
      if Spent(b, cold, w.elapsed(k)) {
        RunExtends(warm, rest, k, b, exec, w);
      } else {
        TryKeepsUncached(cold, rest, exec);
        TryRefines(warm, cold, rest[0], exec);
        WarmRefinesFrom(Try(warm, rest[0], exec, false), Try(cold, rest[0], exec, false), rest[1..], k + 1, b, exec, w);
      }
    }
  }

  /**
   Warming the cache never changes an answer: with a deterministic executor the cold search's findings are
   a prefix of the warm one's, and with only `max_trials` set they are the same findings.
   */
  lemma WarmRefinesCold(ordered: seq<Candidate>, cache: map<Candidate, Metrics>, b: Budget,
                        exec: Candidate -> Answer, w: World)
    requires DistinctKeys(ordered) && Faithful(Some(cache), exec) && Undisturbed(b, w)
    ensures var cold := Run(Begin(None), ordered, 0, b, exec, w);
            var warm := Run(Begin(Some(cache)), ordered, 0, b, exec, w);
            && Findings(cold.trials) <= Findings(warm.trials)
            && (b.maxAttempts.None? && b.maxCost.None? ==> Entries(cold.trials) == Entries(warm.trials))
  {
    WarmRefinesFrom(Begin(Some(cache)), Begin(None), ordered, 0, b, exec, w);
    if b.maxAttempts.None? && b.maxCost.None? {
      RunShape(Begin(None), ordered, 0, b, exec, w);
      RunShape(Begin(Some(cache)), ordered, 0, b, exec, w);
      EntriesOfFindings(Run(Begin(None), ordered, 0, b, exec, w).trials,
                        Run(Begin(Some(cache)), ordered, 0, b, exec, w).trials);
    }
  }

  /** Trials are numbered in order, and have metrics exactly when they completed or came from the cache. */
  ghost predicate Shaped(trials: seq<Trial>) {
    forall i | 0 <= i < |trials| ::
      && trials[i].id == i
      && (trials[i].metrics.Some? <==> trials[i].status == COMPLETED || trials[i].status == CACHED)
      && (trials[i].metrics.Some? ==> ValidRate(trials[i].metrics.value))
  }

  lemma {:induction false} RunShape(s: Search, rest: seq<Candidate>, k: nat, b: Budget,
                                    exec: Candidate -> Answer, w: World)
    requires Shaped(s.trials)
    ensures Shaped(Run(s, rest, k, b, exec, w).trials)
    decreases |rest|
  {
    if rest != [] && !w.abortedBefore(k) && !Spent(b, s, w.elapsed(k)) {
      RunShape(Try(s, rest[0], exec, w.abortedDuring(k)), rest[1..], k + 1, b, exec, w);
    }
  }

  lemma {:induction false} EntriesOfFindings(a: seq<Trial>, c: seq<Trial>)
    requires Shaped(a) && Shaped(c) && Findings(a) == Findings(c)
    ensures Entries(a) == Entries(c)
    decreases |a|
  {
    assert |a| == |Findings(a)| == |c|;
    if a != [] {
      var n := |a| - 1;
      assert Findings(a[..n]) == Findings(a)[..n] && Findings(c[..n]) == Findings(c)[..n];
      EntriesOfFindings(a[..n], c[..n]);
      assert Findings(a)[n] == Findings(c)[n];
    }
  }

  /******* From the loop to the recommendation *******/

  ghost predicate DistinctIds(s: seq<Candidate>) {
    forall i, j | 0 <= i < j < |s| :: s[i].id != s[j].id
  }

  lemma PrependDistinct(c: Candidate, rest: seq<Candidate>)
    requires DistinctIds(rest)
    requires forall x | x in rest :: x.id != c.id
    ensures DistinctIds([c] + rest)
  {
  }

  lemma {:induction false} OthersDistinct(baseline: Candidate, candidates: seq<Candidate>)
    requires DistinctIds(candidates)
    ensures forall c | c in Others(baseline, candidates) :: c in candidates && c.id != baseline.id
    ensures DistinctIds(Others(baseline, candidates))
  {
    if candidates != [] {
      var rest := Others(baseline, candidates[1..]);
      OthersDistinct(baseline, candidates[1..]);
      forall c | c in rest ensures c.id != candidates[0].id {
        var i :| 0 <= i < |candidates[1..]| && candidates[1..][i] == c;
        assert candidates[i + 1] == c;
      }
      PrependDistinct(candidates[0], rest);
    }
  }

  ghost predicate FromPrefix(trials: seq<Trial>, ordered: seq<Candidate>) {
    |trials| <= |ordered| && forall i | 0 <= i < |trials| :: trials[i].candidate == ordered[i]
  }

  lemma {:induction false} RunTriesInOrder(s: Search, rest: seq<Candidate>, ordered: seq<Candidate>, k: nat, b: Budget,
                                           exec: Candidate -> Answer, w: World)
    requires FromPrefix(s.trials, ordered) && rest == ordered[|s.trials|..]
    ensures FromPrefix(Run(s, rest, k, b, exec, w).trials, ordered)
    decreases |rest|
  {
    if rest != [] && !w.abortedBefore(k) && !Spent(b, s, w.elapsed(k)) {
      assert rest[1..] == ordered[|s.trials| + 1..];
      RunTriesInOrder(Try(s, rest[0], exec, w.abortedDuring(k)), rest[1..], ordered, k + 1, b, exec, w);
    }
  }

  lemma {:induction false} EntriesFrom(trials: seq<Trial>, e: Entry)
    requires Shaped(trials) && e in Entries(trials)
    ensures e.id < |trials| && trials[e.id].candidate == e.candidate && trials[e.id].metrics == Some(e.metrics)
    decreases |trials|
  {
    if e in Entries(trials[..|trials| - 1]) { EntriesFrom(trials[..|trials| - 1], e); }
  }

  lemma {:induction false} EntriesDistinct(trials: seq<Trial>, ordered: seq<Candidate>)
    requires Shaped(trials) && FromPrefix(trials, ordered) && DistinctIds(ordered)
    ensures DistinctCandidates(Entries(trials))
    decreases |trials|
  {
    if trials != [] {
      var n := |trials| - 1;
      EntriesDistinct(trials[..n], ordered);
      forall e | e in Entries(trials[..n]) ensures e.id < n && e.candidate == ordered[e.id] {
        EntriesFrom(trials[..n], e);
      }
    }
  }

  /******* What a search tries *******/

  /** The places of the other candidates in the list, counted from `off`. */
  function Places(baseline: Candidate, candidates: seq<Candidate>, off: nat): seq<nat> {
    if candidates == [] then []
    else (if candidates[0].id != baseline.id then [off] else []) + Places(baseline, candidates[1..], off + 1)
  }

  ghost predicate Rising(at: seq<nat>, off: nat, end: nat) {
    (forall i | 0 <= i < |at| :: off <= at[i] < end) && forall i, j | 0 <= i < j < |at| :: at[i] < at[j]
  }

  lemma {:induction false} PlacesRise(baseline: Candidate, candidates: seq<Candidate>, off: nat)
    ensures Rising(Places(baseline, candidates, off), off, off + |candidates|)
    ensures |Places(baseline, candidates, off)| <= |candidates|
  {
    if candidates != [] { PlacesRise(baseline, candidates[1..], off + 1); }
  }

  /** The other candidates in the order given: the `i`-th stands at the `i`-th of these places. */
  lemma {:induction false} OthersInOrder(baseline: Candidate, candidates: seq<Candidate>, off: nat, i: nat)
    requires i < |Others(baseline, candidates)|
    ensures |Others(baseline, candidates)| == |Places(baseline, candidates, off)|
    ensures var at := Places(baseline, candidates, off)[i];
            off <= at < off + |candidates| && Others(baseline, candidates)[i] == candidates[at - off]
  {
    OthersCount(baseline, candidates, off);
    if candidates[0].id == baseline.id {
      OthersInOrder(baseline, candidates[1..], off + 1, i);
    } else if i > 0 {
      OthersInOrder(baseline, candidates[1..], off + 1, i - 1);
    }
  }

  lemma {:induction false} OthersCount(baseline: Candidate, candidates: seq<Candidate>, off: nat)
    ensures |Others(baseline, candidates)| == |Places(baseline, candidates, off)| <= |candidates|
  {
    if candidates != [] { OthersCount(baseline, candidates[1..], off + 1); }
  }

  /** They are exactly the candidates with another identifier than the baseline's. */
  lemma {:induction false} PlacesExactly(baseline: Candidate, candidates: seq<Candidate>, off: nat, k: nat)
    requires k < |candidates|
    ensures off + k in Places(baseline, candidates, off) <==> candidates[k].id != baseline.id
  {
    PlacesRise(baseline, candidates[1..], off + 1);
    if k > 0 {
      PlacesExactly(baseline, candidates[1..], off + 1, k - 1);
      assert off + 1 + (k - 1) == off + k;
    }
  }

  /** The abort signal ended the search: before a trial, or during one that then failed. */
  predicate StoppedByAbort(trials: seq<Trial>, k: nat, w: World) {
    || w.abortedBefore(|trials|)
    || (|trials| > k && trials[|trials| - 1].metrics.None? && w.abortedDuring(|trials| - 1))
  }

  /** One of the four limits is reached. */
  predicate LimitReached(b: Budget, trials: nat, attempts: nat, cost: nat, elapsed: int) {
    || trials >= b.maxTrials
    || (b.maxAttempts.Some? && attempts >= b.maxAttempts.value)
    || (b.maxCost.Some? && cost >= b.maxCost.value)
    || (b.maxWallMs.Some? && elapsed >= b.maxWallMs.value)
  }

  /**
   A search goes on while it is not aborted and no limit is reached, and says `exhausted` exactly in the latter
   case.
   */
  lemma {:induction false} StopsExactlyIf(s: Search, rest: seq<Candidate>, k: nat, b: Budget,
                                          exec: Candidate -> Answer, w: World)
    requires |s.trials| == k && !s.exhausted
    ensures var r := Run(s, rest, k, b, exec, w);
            && k <= |r.trials| <= k + |rest|
            && (|r.trials| < k + |rest| ==> StoppedByAbort(r.trials, k, w) || r.exhausted)
            && (r.exhausted <==>
                  && |r.trials| < k + |rest| && !StoppedByAbort(r.trials, k, w)
                  && LimitReached(b, |r.trials|, r.attempts, r.cost, w.elapsed(|r.trials|)))
    decreases |rest|
  {
    if rest != [] && !w.abortedBefore(k) && !Spent(b, s, w.elapsed(k)) {
      var next := Try(s, rest[0], exec, w.abortedDuring(k));
      TryVerdict(s, rest[0], exec, w.abortedDuring(k));
      if !(next.trials[k].metrics.None? && w.abortedDuring(k)) {
        StopsExactlyIf(next, rest[1..], k + 1, b, exec, w);
        RunKeepsTrials(next, rest[1..], k + 1, b, exec, w, k);
      }
    }
  }

  /** The `i`-th trial is that of the `i`-th candidate; it began in time, and only the last can have been aborted. */
  lemma {:induction false} TrialInOrder(s: Search, rest: seq<Candidate>, k: nat, b: Budget,
                                        exec: Candidate -> Answer, w: World, i: nat)
    requires |s.trials| == k <= i < |Run(s, rest, k, b, exec, w).trials|
    ensures var r := Run(s, rest, k, b, exec, w);
            && i - k < |rest| && r.trials[i].candidate == rest[i - k]
            && !w.abortedBefore(i) && (b.maxWallMs.Some? ==> w.elapsed(i) < b.maxWallMs.value)
            && (i + 1 < |r.trials| ==> r.trials[i].metrics.Some? || !w.abortedDuring(i))
    decreases |rest|
  {
    var next := Try(s, rest[0], exec, w.abortedDuring(k));
    TryVerdict(s, rest[0], exec, w.abortedDuring(k));
    if !(next.trials[k].metrics.None? && w.abortedDuring(k)) {
      if i == k {
        RunKeepsTrials(next, rest[1..], k + 1, b, exec, w, k);
      } else {
        TrialInOrder(next, rest[1..], k + 1, b, exec, w, i);
      }
    }
  }

  /** Without an abort and with no limit reached, the baseline and then all others are tried, each once and in order. */
  lemma TriesAll(baseline: Candidate, candidates: seq<Candidate>, cache: Option<map<Candidate, Metrics>>, b: Budget,
                 exec: Candidate -> Answer, w: World)
    requires forall k :: !w.abortedBefore(k) && !w.abortedDuring(k)
    requires b == Budget(b.maxTrials, None, None, None) && b.maxTrials > |candidates|
    ensures var r := Run(Begin(cache), Ordered(baseline, candidates), 0, b, exec, w);
            && !r.exhausted && |r.trials| == 1 + |Others(baseline, candidates)|
            && r.trials[0].candidate == baseline
            && forall i | 0 < i < |r.trials| :: r.trials[i].candidate == Others(baseline, candidates)[i - 1]
  {
    var ordered := Ordered(baseline, candidates);
    OthersCount(baseline, candidates, 0);
    StopsExactlyIf(Begin(cache), ordered, 0, b, exec, w);
    var r := Run(Begin(cache), ordered, 0, b, exec, w);
    forall i | 0 <= i < |r.trials| ensures r.trials[i].candidate == ordered[i] {
      TrialInOrder(Begin(cache), ordered, 0, b, exec, w, i);
    }
  }

  /** What the trial of `c` must be, given what the cache knew of it before the search. */
  function Verdict(i: nat, c: Candidate, known: Option<Metrics>, exec: Candidate -> Answer, aborted: bool): Trial {
    var failed := Trial(i, c, if aborted then CANCELLED else FAILED, None);
    match known
    case Some(m) => if 0.0 <= m.successRate <= 1.0 then Trial(i, c, CACHED, Some(m)) else failed
    case None =>
      match exec(c)
      case Returned(m) => if 0.0 <= m.successRate <= 1.0 then Trial(i, c, COMPLETED, Some(m)) else failed
      case Raised => failed
  }

  lemma TryVerdict(s: Search, c: Candidate, exec: Candidate -> Answer, aborted: bool)
    ensures Try(s, c, exec, aborted).trials == s.trials + [Verdict(|s.trials|, c, Lookup(s.cache, c), exec, aborted)]
  {
  }

  lemma TryKeepsLookup(s: Search, c: Candidate, exec: Candidate -> Answer, aborted: bool, d: Candidate)
    requires d != c
    ensures Lookup(Try(s, c, exec, aborted).cache, d) == Lookup(s.cache, d)
  {
  }

  ghost predicate KnownAs(cache: Option<map<Candidate, Metrics>>, rest: seq<Candidate>,
                          known: Candidate -> Option<Metrics>)
  {
    forall c | c in rest :: Lookup(cache, c) == known(c)
  }

  lemma TryKeepsKnown(s: Search, rest: seq<Candidate>, exec: Candidate -> Answer, aborted: bool,
                      known: Candidate -> Option<Metrics>)
    requires rest != [] && DistinctKeys(rest) && KnownAs(s.cache, rest, known)
    ensures Lookup(s.cache, rest[0]) == known(rest[0])
    ensures DistinctKeys(rest[1..]) && KnownAs(Try(s, rest[0], exec, aborted).cache, rest[1..], known)
  {
    assert rest[0] in rest;
    forall c | c in rest[1..] ensures Lookup(Try(s, rest[0], exec, aborted).cache, c) == known(c) {
      var i :| 0 <= i < |rest[1..]| && rest[1..][i] == c;
      assert rest[i + 1] == c && c in rest;
      TryKeepsLookup(s, rest[0], exec, aborted, c);
    }
  }

  /** Each trial depends on its own candidate alone: earlier trials of the search do not change it. */
  lemma {:induction false} TrialsIndependent(s: Search, rest: seq<Candidate>, k: nat, b: Budget,
                                             exec: Candidate -> Answer, w: World, known: Candidate -> Option<Metrics>,
                                             i: nat)
    requires |s.trials| == k && DistinctKeys(rest) && KnownAs(s.cache, rest, known)
    requires k <= i < |Run(s, rest, k, b, exec, w).trials|
    ensures i - k < |rest|
    ensures Run(s, rest, k, b, exec, w).trials[i] ==
            Verdict(i, rest[i - k], known(rest[i - k]), exec, w.abortedDuring(i))
    decreases |rest|
  {
    var next := Try(s, rest[0], exec, w.abortedDuring(k));
    TryVerdict(s, rest[0], exec, w.abortedDuring(k));
    TryKeepsKnown(s, rest, exec, w.abortedDuring(k), known);
    if !(next.trials[k].metrics.None? && w.abortedDuring(k)) {
      if i == k {
        RunKeepsTrials(next, rest[1..], k + 1, b, exec, w, k);
      } else {
        TrialsIndependent(next, rest[1..], k + 1, b, exec, w, known, i);
      }
    }
  }

  lemma {:induction false} RunKeepsTrials(s: Search, rest: seq<Candidate>, k: nat, b: Budget,
                                          exec: Candidate -> Answer, w: World, i: nat)
    requires i < |s.trials|
    ensures i < |Run(s, rest, k, b, exec, w).trials| && Run(s, rest, k, b, exec, w).trials[i] == s.trials[i]
    decreases |rest|
  {
    if rest != [] && !w.abortedBefore(k) && !Spent(b, s, w.elapsed(k)) {
      TryVerdict(s, rest[0], exec, w.abortedDuring(k));
      RunKeepsTrials(Try(s, rest[0], exec, w.abortedDuring(k)), rest[1..], k + 1, b, exec, w, i);
    }
  }

  /** The trials that have metrics are ranked, each under its own number, and no others. */
  lemma {:induction false} EntriesExactly(trials: seq<Trial>, e: Entry)
    requires Shaped(trials)
    ensures e in Entries(trials) <==>
              e.id < |trials| && trials[e.id].candidate == e.candidate && trials[e.id].metrics == Some(e.metrics)
    decreases |trials|
  {
    if trials != [] { EntriesExactly(trials[..|trials| - 1], e); }
  }

  /******* The recommendation *******/

  /** What the cache holds and the executor answers for these candidates is in range. */
  ghost predicate AnswersInRange(cache: Option<map<Candidate, Metrics>>, exec: Candidate -> Answer,
                                 cs: seq<Candidate>)
  {
    forall c | c in cs ::
      && (cache.Some? && c in cache.value ==> InRange(cache.value[c]))
      && (exec(c).Returned? ==> InRange(exec(c).metrics))
  }

  ghost predicate TrialsInRange(trials: seq<Trial>) {
    forall i | 0 <= i < |trials| && trials[i].metrics.Some? :: InRange(trials[i].metrics.value)
  }

  lemma TryInRange(s: Search, rest: seq<Candidate>, exec: Candidate -> Answer, aborted: bool)
    requires rest != [] && TrialsInRange(s.trials) && AnswersInRange(s.cache, exec, rest)
    ensures TrialsInRange(Try(s, rest[0], exec, aborted).trials)
    ensures AnswersInRange(Try(s, rest[0], exec, aborted).cache, exec, rest[1..])
  {
    assert rest[0] in rest;
  }

  lemma {:induction false} RunInRange(s: Search, rest: seq<Candidate>, k: nat, b: Budget,
                                      exec: Candidate -> Answer, w: World)
    requires TrialsInRange(s.trials) && AnswersInRange(s.cache, exec, rest)
    ensures TrialsInRange(Run(s, rest, k, b, exec, w).trials)
    decreases |rest|
  {
    if rest != [] && !w.abortedBefore(k) && !Spent(b, s, w.elapsed(k)) {
      TryInRange(s, rest, exec, w.abortedDuring(k));
      RunInRange(Try(s, rest[0], exec, w.abortedDuring(k)), rest[1..], k + 1, b, exec, w);
    }
  }

  lemma {:induction false} SortInRange(trials: seq<Trial>, os: seq<Objective>)
    requires Shaped(trials) && TrialsInRange(trials) && DistinctCandidates(Entries(trials))
    ensures AllInRange(Sort(Entries(trials), os))
  {
    SortSorts(Entries(trials), os);
    forall e | e in Sort(Entries(trials), os) ensures InRange(e.metrics) {
      assert e in multiset(Entries(trials));
      EntriesFrom(trials, e);
    }
  }

  /**
   End to end, whatever the budgets, cache, clock and aborts: a ranked trial off the Pareto front is dominated by
   one on it, and the recommended trial is on the front if all cached and answered metrics are in range.
   */
  lemma RecommendationSound(baseline: Candidate, candidates: seq<Candidate>,
                            cache: Option<map<Candidate, Metrics>>, b: Budget,
                            exec: Candidate -> Answer, w: World, os: seq<Objective>)
    requires DistinctIds(candidates)
    ensures var ranked := Sort(Entries(Run(Begin(cache), Ordered(baseline, candidates), 0, b, exec, w).trials), os);
            var front := Front(ranked, ranked, os);
            && (ranked != [] && AnswersInRange(cache, exec, Ordered(baseline, candidates)) ==> ranked[0] in front)
            && forall x | x in ranked && x !in front :: exists f :: f in front && Dominates(f.metrics, x.metrics, os)
  {
    var ordered := Ordered(baseline, candidates);
    var trials := Run(Begin(cache), ordered, 0, b, exec, w).trials;
    var ranked := Sort(Entries(trials), os);
    if ranked != [] && AnswersInRange(cache, exec, ordered) {
      OthersDistinct(baseline, candidates);
      PrependDistinct(baseline, Others(baseline, candidates));
      RunShape(Begin(cache), ordered, 0, b, exec, w);
      RunTriesInOrder(Begin(cache), ordered, ordered, 0, b, exec, w);
      RunInRange(Begin(cache), ordered, 0, b, exec, w);
      EntriesDistinct(trials, ordered);
      SortSorts(Entries(trials), os);
      SortInRange(trials, os);
      RecommendedOnFront(ranked, os);
    }
    forall x | x in ranked && x !in Front(ranked, ranked, os)
      ensures exists f :: f in Front(ranked, ranked, os) && Dominates(f.metrics, x.metrics, os)
    {
      var f := OffFrontDominated(ranked, os, x);
    }
  }
}

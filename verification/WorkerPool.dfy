/**
 The local benchmark runner: workers that share one cursor over the sorted jobs, retry each job within two
 budgets, and append one link each to a chain of file writes.  An event is one stretch of code between two
 awaits, so a list of events is one interleaving.
 */
module WorkerPool {
  import opened Wrappers

  datatype RetryClass = Provider | Infrastructure

  datatype Limits = Limits(provider: nat, infrastructure: nat) {
    function Of(c: RetryClass): nat {
      if c.Provider? then provider else infrastructure
    }
  }

  /** Task and agent identifiers by their rank in the locale order. */
  datatype Job = Job(task: int, agent: int, index: nat)

  datatype Result = Result(job: Job, evidence: int, retries: seq<RetryClass>)

  /** What the run file lists: for each position its finished attempt, if there is one yet. */
  type Snapshot = seq<Option<Result>>

  datatype Worker =
    | Idle(last: Option<nat>)                              // about to claim; `last` is the position it ran before
    | Running(position: nat, retries: seq<RetryClass>)
    | Waiting(position: nat, link: nat)                    // awaiting its link of the write chain
    | Returned
    | Thrown(at: nat)

  /**
   Links `0 .. done` of the write chain are written, link `done` is being written when `writing` holds its
   snapshot, and a failed link breaks the chain for every later one.  `stored` lists the successive contents of
   the run file, `calls` how often each position was invoked.
   */
  datatype Pool = Pool(jobs: seq<Job>, limits: Limits, workers: seq<Worker>, cursor: nat, slots: Snapshot,
                       calls: seq<nat>, done: nat, total: nat, writing: Option<Snapshot>, broken: bool,
                       stored: seq<Snapshot>, aborted: bool)

  datatype Event =
    | Abort
    | Take(w: nat)
    | Succeed(w: nat, evidence: int)
    | Fail(w: nat, retry: Option<RetryClass>)
    | StartWrite
    | FinishWrite(ok: bool)
    | Resume(w: nat)

  function Used(retries: seq<RetryClass>, c: RetryClass): nat {
    if retries == [] then 0 else Used(retries[..|retries| - 1], c) + (if retries[|retries| - 1] == c then 1 else 0)
  }

  predicate WithinLimits(retries: seq<RetryClass>, limits: Limits) {
    Used(retries, Provider) <= limits.provider && Used(retries, Infrastructure) <= limits.infrastructure
  }

  function NoResults(n: nat): Snapshot {
    seq(n, _ => None)
  }

  /** The state in which the workers start, after the first, empty file was written. */
  function Start(jobs: seq<Job>, parallelism: nat, limits: Limits): Pool {
    var n := |jobs|;
    Pool(jobs, limits, seq(if parallelism < n then parallelism else n, _ => Idle(None)), 0, NoResults(n),
         seq(n, _ => 0), 0, 0, None, false, [NoResults(n)], false)
  }

  function SetWorker(s: Pool, w: nat, worker: Worker): Pool
    requires w < |s.workers|
  {
    s.(workers := s.workers[w := worker])
  }

  function TakeJob(s: Pool, w: nat): Pool
    requires w < |s.workers| && |s.calls| == |s.jobs|
  {
    if s.aborted then SetWorker(s, w, Returned)
    else if s.cursor >= |s.jobs| then SetWorker(s, w, Returned).(cursor := s.cursor + 1)
    else SetWorker(s, w, Running(s.cursor, [])).(cursor := s.cursor + 1,
                                                 calls := s.calls[s.cursor := s.calls[s.cursor] + 1])
  }

  function StoreResult(s: Pool, w: nat, evidence: int): Pool
    requires w < |s.workers| && s.workers[w].Running? && s.workers[w].position < |s.jobs| == |s.slots|
  {
    var p := s.workers[w].position;
    SetWorker(s, w, Waiting(p, s.total)).(
      slots := s.slots[p := Some(Result(s.jobs[p], evidence, s.workers[w].retries))], total := s.total + 1)
  }

  /** A retryable error within its budget starts the next call; any other error leaves the worker. */
  function RetryOrThrow(s: Pool, w: nat, retry: Option<RetryClass>): Pool
    requires w < |s.workers| && s.workers[w].Running? && s.workers[w].position < |s.calls|
  {
    var p, retries := s.workers[w].position, s.workers[w].retries;
    if retry.None? || Used(retries, retry.value) >= s.limits.Of(retry.value) then SetWorker(s, w, Thrown(p))
    else SetWorker(s, w, Running(p, retries + [retry.value])).(calls := s.calls[p := s.calls[p] + 1])
  }

  function EndWrite(s: Pool, ok: bool): Pool
    requires s.writing.Some?
  {
    if ok then s.(done := s.done + 1, writing := None, stored := s.stored + [s.writing.value])
    else s.(writing := None, broken := true)
  }

  function ResumeWorker(s: Pool, w: nat): Pool
    requires w < |s.workers| && s.workers[w].Waiting?
  {
    if s.workers[w].link < s.done then SetWorker(s, w, Idle(Some(s.workers[w].position)))
    else SetWorker(s, w, Thrown(s.workers[w].position))
  }

  predicate Enabled(s: Pool, e: Event) {
    match e
    case Abort => !s.aborted
    case Take(w) => w < |s.workers| && s.workers[w].Idle?
    case Succeed(w, _) => w < |s.workers| && s.workers[w].Running?
    case Fail(w, _) => w < |s.workers| && s.workers[w].Running?
    case StartWrite => s.done < s.total && s.writing.None? && !s.broken
    case FinishWrite(_) => s.writing.Some?
    case Resume(w) => w < |s.workers| && s.workers[w].Waiting? && (s.workers[w].link < s.done || s.broken)
  }

  function Step(s: Pool, e: Event): Pool
    requires Inv(s)
  {
    if !Enabled(s, e) then s
    else
      match e
      case Abort => s.(aborted := true)
      case Take(w) => TakeJob(s, w)
      case Succeed(w, evidence) => assert WorkerOk(s, w); StoreResult(s, w, evidence)
      case Fail(w, retry) => assert WorkerOk(s, w); RetryOrThrow(s, w, retry)
      case StartWrite => s.(writing := Some(s.slots))
      case FinishWrite(ok) => EndWrite(s, ok)
      case Resume(w) => ResumeWorker(s, w)
  }

  /******* The invariant *******/

  /** Every attempt listed in `a` is listed, unchanged, in `b`. */
  predicate Grows(a: Snapshot, b: Snapshot) {
    |a| == |b| && forall p | 0 <= p < |a| && a[p].Some? :: b[p] == a[p]
  }

  predicate Shape(s: Pool) {
    && |s.slots| == |s.calls| == |s.jobs|
    && |s.stored| == s.done + 1 && s.done <= s.total
    && (s.writing.Some? ==> s.done < s.total && !s.broken)
  }

  function LastStored(s: Pool): Snapshot
    requires Shape(s)
  {
    s.stored[s.done]
  }

  predicate FilesOk(s: Pool)
    requires Shape(s)
  {
    && (forall k | 0 <= k < s.done :: Grows(s.stored[k], s.stored[k + 1]))
    && Grows(LastStored(s), s.slots)
    && (s.writing.Some? ==> Grows(LastStored(s), s.writing.value) && Grows(s.writing.value, s.slots))
  }

  predicate Holds(worker: Worker, p: nat) {
    match worker
    case Running(q, _) => p == q
    case Waiting(q, _) => p == q
    case Thrown(q) => p == q
    case Idle(_) => false
    case Returned => false
  }

  predicate Claimed(s: Pool, p: nat) {
    p < s.cursor && p < |s.jobs|
  }

  predicate WorkerOk(s: Pool, w: nat)
    requires w < |s.workers| && Shape(s) && FilesOk(s)
  {
    match s.workers[w]
    case Idle(last) => last.Some? ==> Claimed(s, last.value) && LastStored(s)[last.value].Some?
    case Running(p, retries) =>
      Claimed(s, p) && s.slots[p].None? && WithinLimits(retries, s.limits) && s.calls[p] == 1 + |retries|
    case Waiting(p, l) =>
      && Claimed(s, p) && s.slots[p].Some? && l < s.total
      && (l < s.done ==> LastStored(s)[p].Some?)
      && (l == s.done && s.writing.Some? ==> s.writing.value[p].Some?)
    case Returned => s.aborted || s.cursor >= |s.jobs|
    case Thrown(p) => Claimed(s, p)
  }

  /** Someone is still responsible for position `p`. */
  ghost predicate Attended(s: Pool, p: nat) {
    exists w :: 0 <= w < |s.workers| && Holds(s.workers[w], p)
  }

  ghost predicate SlotOk(s: Pool, p: nat)
    requires p < |s.jobs| && Shape(s) && FilesOk(s)
  {
    if p >= s.cursor then s.slots[p].None? && s.calls[p] == 0
    else
      && s.calls[p] <= 1 + s.limits.provider + s.limits.infrastructure
      && (LastStored(s)[p].None? ==> Attended(s, p))
      && (s.slots[p].Some? ==>
            && s.slots[p].value.job == s.jobs[p] && s.calls[p] == 1 + |s.slots[p].value.retries|
            && WithinLimits(s.slots[p].value.retries, s.limits))
  }

  ghost predicate OnePerPosition(s: Pool) {
    forall v: nat, w: nat, p: nat | v < |s.workers| && w < |s.workers| && v != w && Holds(s.workers[v], p) ::
      !Holds(s.workers[w], p)
  }

  predicate Awaits(s: Pool, w: nat, l: nat) {
    w < |s.workers| && s.workers[w].Waiting? && s.workers[w].link == l
  }

  ghost predicate Awaited(s: Pool, l: nat) {
    exists w: nat :: Awaits(s, w, l)
  }

  /**
   While the chain is whole, each unwritten link has its worker; once broken, some worker is or will be
   thrown out.
   */
  ghost predicate LinksOk(s: Pool) {
    if s.broken then exists w: nat :: w < |s.workers| && Doomed(s, w)
    else forall l | s.done <= l < s.total :: Awaited(s, l)
  }

  predicate Doomed(s: Pool, w: nat)
    requires w < |s.workers|
  {
    s.workers[w].Thrown? || (s.broken && s.workers[w].Waiting? && s.workers[w].link >= s.done)
  }

  ghost predicate Inv(s: Pool) {
    && Shape(s) && FilesOk(s)
    && (forall w | 0 <= w < |s.workers| :: WorkerOk(s, w))
    && (forall p | 0 <= p < |s.jobs| :: SlotOk(s, p))
    && OnePerPosition(s) && LinksOk(s)
  }

  lemma {:induction false} UsedAdds(retries: seq<RetryClass>)
    ensures Used(retries, Provider) + Used(retries, Infrastructure) == |retries|
  {
    if retries != [] { UsedAdds(retries[..|retries| - 1]); }
  }

  lemma StartInv(jobs: seq<Job>, parallelism: nat, limits: Limits)
    ensures Inv(Start(jobs, parallelism, limits))
  {
  }

  predicate OthersSame(s: Pool, t: Pool, w: nat) {
    && |t.workers| == |s.workers|
    && forall v | 0 <= v < |s.workers| && v != w :: t.workers[v] == s.workers[v]
  }

  /** Positions attended by the other workers stay attended. */
  lemma AttendedKept(s: Pool, t: Pool, w: nat, p: nat)
    requires w < |s.workers| && OthersSame(s, t, w) && Attended(s, p)
    requires Holds(s.workers[w], p) ==> Holds(t.workers[w], p)
    ensures Attended(t, p)
  {
  }

  lemma OthersElsewhere(s: Pool, w: nat, v: nat, p: nat)
    requires OnePerPosition(s) && w < |s.workers| && v < |s.workers| && v != w && Holds(s.workers[w], p)
    ensures !Holds(s.workers[v], p)
  {
  }

  lemma TakeWorkers(s: Pool, w: nat)
    requires Inv(s) && Enabled(s, Take(w))
    ensures var t := TakeJob(s, w);
            Shape(t) && FilesOk(t) && forall v | 0 <= v < |t.workers| :: WorkerOk(t, v)
  {
    var t := TakeJob(s, w);
    assert Shape(t) && FilesOk(t);
    forall v | 0 <= v < |t.workers| ensures WorkerOk(t, v) {
      assert WorkerOk(s, v);
      if v == w && t.workers[w].Running? { assert SlotOk(s, s.cursor); }
    }
  }

  /** Held positions lie below the cursor, so the one claimed now is nobody else's. */
  lemma TakePositions(s: Pool, w: nat)
    requires Inv(s) && Enabled(s, Take(w))
    ensures OnePerPosition(TakeJob(s, w))
  {
    var t := TakeJob(s, w);
    forall v: nat, u: nat, p: nat | v < |t.workers| && u < |t.workers| && v != u && Holds(t.workers[v], p)
      ensures !Holds(t.workers[u], p)
    {
      assert WorkerOk(s, v) && WorkerOk(s, u);
    }
  }

  lemma TakeKeepsInv(s: Pool, w: nat)
    requires Inv(s) && Enabled(s, Take(w))
    ensures Inv(TakeJob(s, w))
  {
    var t := TakeJob(s, w);
    assert OthersSame(s, t, w);
    TakeWorkers(s, w);
    forall p | 0 <= p < |t.jobs| ensures SlotOk(t, p) {
      assert SlotOk(s, p);
      if p == s.cursor && t.workers[w].Running? {
        assert Holds(t.workers[w], p);
      } else if p < s.cursor && LastStored(s)[p].None? {
        AttendedKept(s, t, w, p);
      }
    }
    TakePositions(s, w);
    LinksKept(s, t, w);
  }

  /** A worker that was not awaiting an unwritten link leaves the links as they were. */
  lemma LinksKept(s: Pool, t: Pool, w: nat)
    requires LinksOk(s) && w < |s.workers| && OthersSame(s, t, w)
    requires t.broken == s.broken && t.done == s.done && t.total == s.total
    requires !Doomed(s, w) || Doomed(t, w)
    requires s.workers[w].Waiting? && s.workers[w].link >= s.done ==> s.broken
    ensures LinksOk(t)
  {
    if s.broken {
      var v: nat :| v < |s.workers| && Doomed(s, v);
      assert Doomed(t, v);
    } else {
      forall l | t.done <= l < t.total ensures Awaited(t, l) {
        assert Awaited(s, l);
        var v: nat :| Awaits(s, v, l);
        assert Awaits(t, v, l);
      }
    }
  }

  lemma SucceedKeepsInv(s: Pool, w: nat, evidence: int)
    requires Inv(s) && Enabled(s, Succeed(w, evidence))
    ensures WorkerOk(s, w) && Inv(StoreResult(s, w, evidence))
  {
    assert WorkerOk(s, w);
    var p := s.workers[w].position;
    var t := StoreResult(s, w, evidence);
    assert SlotOk(s, p) && Holds(s.workers[w], p);
    SucceedWorkers(s, w, evidence);
    assert t.slots[p].value.retries == s.workers[w].retries;
    forall q | 0 <= q < |t.jobs| ensures SlotOk(t, q) {
      assert SlotOk(s, q);
      if q < s.cursor && LastStored(s)[q].None? {
        AttendedKept(s, t, w, q);
      }
    }
    PositionsKept(s, t, w);
    SucceedLinks(s, w, evidence);
  }

  lemma SucceedWorkers(s: Pool, w: nat, evidence: int)
    requires Inv(s) && Enabled(s, Succeed(w, evidence)) && WorkerOk(s, w)
    ensures var t := StoreResult(s, w, evidence);
            Shape(t) && FilesOk(t) && forall v | 0 <= v < |t.workers| :: WorkerOk(t, v)
  {
    var p := s.workers[w].position;
    var t := StoreResult(s, w, evidence);
    assert Shape(t) && FilesOk(t);
    forall v | 0 <= v < |t.workers| ensures WorkerOk(t, v) {
      assert WorkerOk(s, v);
      if v != w { OthersElsewhere(s, w, v, p); }
    }
  }

  /** The new link is awaited by the worker that appended it. */
  lemma SucceedLinks(s: Pool, w: nat, evidence: int)
    requires Inv(s) && Enabled(s, Succeed(w, evidence)) && WorkerOk(s, w)
    ensures LinksOk(StoreResult(s, w, evidence))
  {
    var t := StoreResult(s, w, evidence);
    if !s.broken {
      forall l | t.done <= l < t.total ensures Awaited(t, l) {
        if l == s.total {
          assert Awaits(t, w, l);
        } else {
          assert Awaited(s, l);
          var v: nat :| Awaits(s, v, l);
          assert Awaits(t, v, l);
        }
      }
    } else {
      var v: nat :| v < |s.workers| && Doomed(s, v);
      assert Doomed(t, v);
    }
  }

  /** A worker that keeps its position, or lets it go, collides with nobody. */
  lemma PositionsKept(s: Pool, t: Pool, w: nat)
    requires OnePerPosition(s) && w < |s.workers| && OthersSame(s, t, w)
    requires forall p: nat | Holds(t.workers[w], p) :: Holds(s.workers[w], p)
    ensures OnePerPosition(t)
  {
  }

  lemma OneMoreRetry(retries: seq<RetryClass>, c: RetryClass, limits: Limits)
    requires WithinLimits(retries, limits) && Used(retries, c) < limits.Of(c)
    ensures WithinLimits(retries + [c], limits)
    ensures |retries| + 1 <= limits.provider + limits.infrastructure
  {
    var more := retries + [c];
    assert more[..|more| - 1] == retries;
    UsedAdds(more);
  }

  /** A change at position `p` alone leaves every other worker as it was. */
  lemma OtherWorkerOk(s: Pool, t: Pool, w: nat, v: nat, p: nat)
    requires Inv(s) && w < |s.workers| && v < |s.workers| && v != w && Holds(s.workers[w], p)
    requires OthersSame(s, t, w) && t == s.(workers := t.workers, calls := t.calls) && |t.calls| == |s.calls|
    requires forall q | 0 <= q < |s.calls| && q != p :: t.calls[q] == s.calls[q]
    ensures Shape(t) && FilesOk(t) && WorkerOk(t, v)
  {
    assert WorkerOk(s, v);
    OthersElsewhere(s, w, v, p);
  }

  lemma FailOwnWorker(s: Pool, w: nat, retry: Option<RetryClass>)
    requires Inv(s) && Enabled(s, Fail(w, retry)) && WorkerOk(s, w)
    ensures var t := RetryOrThrow(s, w, retry);
            && Shape(t) && FilesOk(t) && WorkerOk(t, w) && OthersSame(s, t, w)
            && t.calls[s.workers[w].position] <= 1 + Budget(s)
  {
    assert SlotOk(s, s.workers[w].position);
    if RetryOrThrow(s, w, retry).workers[w].Running? {
      OneMoreRetry(s.workers[w].retries, retry.value, s.limits);
    }
  }

  lemma FailWorkers(s: Pool, w: nat, retry: Option<RetryClass>)
    requires Inv(s) && Enabled(s, Fail(w, retry)) && WorkerOk(s, w)
    ensures var t := RetryOrThrow(s, w, retry);
            Shape(t) && FilesOk(t) && forall v | 0 <= v < |t.workers| :: WorkerOk(t, v)
  {
    var t := RetryOrThrow(s, w, retry);
    FailOwnWorker(s, w, retry);
    forall v | 0 <= v < |t.workers| ensures WorkerOk(t, v) {
      if v != w { OtherWorkerOk(s, t, w, v, s.workers[w].position); }
    }
  }

  lemma FailSlot(s: Pool, w: nat, retry: Option<RetryClass>, q: nat)
    requires Inv(s) && Enabled(s, Fail(w, retry)) && WorkerOk(s, w) && q < |s.jobs|
    requires var t := RetryOrThrow(s, w, retry); Shape(t) && FilesOk(t) && OthersSame(s, t, w)
    requires RetryOrThrow(s, w, retry).calls[s.workers[w].position] <= 1 + Budget(s)
    ensures SlotOk(RetryOrThrow(s, w, retry), q)
  {
    assert SlotOk(s, q);
    if q < s.cursor && LastStored(s)[q].None? { AttendedKept(s, RetryOrThrow(s, w, retry), w, q); }
  }

  lemma FailKeepsInv(s: Pool, w: nat, retry: Option<RetryClass>)
    requires Inv(s) && Enabled(s, Fail(w, retry))
    ensures WorkerOk(s, w) && Inv(RetryOrThrow(s, w, retry))
  {
    assert WorkerOk(s, w);
    FailOwnWorker(s, w, retry);
    FailWorkers(s, w, retry);
    var t := RetryOrThrow(s, w, retry);
    forall q | 0 <= q < |t.jobs| ensures SlotOk(t, q) { FailSlot(s, w, retry, q); }
    PositionsKept(s, t, w);
    LinksKept(s, t, w);
  }

  lemma WritesKeepInv(s: Pool, e: Event)
    requires Inv(s) && Enabled(s, e) && (e.Abort? || e.StartWrite? || e.FinishWrite?)
    ensures Inv(Step(s, e))
  {
    var t := Step(s, e);
    forall v | 0 <= v < |t.workers| ensures WorkerOk(t, v) { assert WorkerOk(s, v); }
    WriteSlots(s, e);
    assert OnePerPosition(t);
    WriteLinks(s, e);
  }

  lemma WriteSlots(s: Pool, e: Event)
    requires Inv(s) && Enabled(s, e) && (e.Abort? || e.StartWrite? || e.FinishWrite?)
    ensures var t := Step(s, e);
            Shape(t) && FilesOk(t) && forall q | 0 <= q < |t.jobs| :: SlotOk(t, q)
  {
    var t := Step(s, e);
    assert Shape(t) && FilesOk(t);
    forall q | 0 <= q < |t.jobs| ensures SlotOk(t, q) {
      assert SlotOk(s, q);
      if q < s.cursor && LastStored(s)[q].None? && s.workers != [] {
        AttendedKept(s, t, 0, q);
      }
    }
  }

  /** A failed write dooms the worker that awaits it. */
  lemma WriteLinks(s: Pool, e: Event)
    requires Inv(s) && Enabled(s, e) && (e.Abort? || e.StartWrite? || e.FinishWrite?)
    ensures LinksOk(Step(s, e))
  {
    var t := Step(s, e);
    if t.broken && !s.broken {
      assert Awaited(s, s.done);
      var v: nat :| Awaits(s, v, s.done);
      assert Doomed(t, v);
    } else if t.broken {
      var v: nat :| v < |s.workers| && Doomed(s, v);
      assert Doomed(t, v);
    } else {
      forall l | t.done <= l < t.total ensures Awaited(t, l) {
        assert Awaited(s, l);
        var v: nat :| Awaits(s, v, l);
        assert Awaits(t, v, l);
      }
    }
  }

  lemma ResumeWorkers(s: Pool, w: nat)
    requires Inv(s) && Enabled(s, Resume(w))
    ensures var t := ResumeWorker(s, w);
            Shape(t) && FilesOk(t) && forall v | 0 <= v < |t.workers| :: WorkerOk(t, v)
  {
    var t := ResumeWorker(s, w);
    assert Shape(t) && FilesOk(t);
    forall v | 0 <= v < |t.workers| ensures WorkerOk(t, v) { assert WorkerOk(s, v); }
  }

  lemma ResumeKeepsInv(s: Pool, w: nat)
    requires Inv(s) && Enabled(s, Resume(w))
    ensures Inv(ResumeWorker(s, w))
  {
    assert WorkerOk(s, w);
    var p := s.workers[w].position;
    var t := ResumeWorker(s, w);
    assert Holds(s.workers[w], p) && SlotOk(s, p);
    ResumeWorkers(s, w);
    forall q | 0 <= q < |t.jobs| ensures SlotOk(t, q) {
      assert SlotOk(s, q);
      if q < s.cursor && LastStored(s)[q].None? {
        AttendedKept(s, t, w, q);
      }
    }
    PositionsKept(s, t, w);
    LinksKept(s, t, w);
  }

  lemma StepKeepsInv(s: Pool, e: Event)
    requires Inv(s)
    ensures Inv(Step(s, e))
  {
    if Enabled(s, e) {
      match e
      case Abort => WritesKeepInv(s, e);
      case Take(w) => TakeKeepsInv(s, w);
      case Succeed(w, evidence) => SucceedKeepsInv(s, w, evidence);
      case Fail(w, retry) => FailKeepsInv(s, w, retry);
      case StartWrite => WritesKeepInv(s, e);
      case FinishWrite(_) => WritesKeepInv(s, e);
      case Resume(w) => ResumeKeepsInv(s, w);
    }
  }

  /******* Whole runs *******/

  ghost function After(s: Pool, events: seq<Event>): Pool
    requires Inv(s)
    decreases |events|
  {
    if events == [] then s
    else StepKeepsInv(s, events[0]); After(Step(s, events[0]), events[1..])
  }

  lemma StepFrame(s: Pool, e: Event)
    requires Inv(s)
    ensures var t := Step(s, e);
            t.jobs == s.jobs && t.limits == s.limits && |t.workers| == |s.workers|
  {
  }

  lemma {:induction false} InvAlways(s: Pool, events: seq<Event>)
    requires Inv(s)
    ensures Inv(After(s, events)) && After(s, events).jobs == s.jobs && After(s, events).limits == s.limits
    ensures |After(s, events).workers| == |s.workers|
    decreases |events|
  {
    if events != [] {
      StepKeepsInv(s, events[0]);
      StepFrame(s, events[0]);
      InvAlways(Step(s, events[0]), events[1..]);
    }
  }

  predicate Claims(s: Pool, e: Event) {
    Enabled(s, e) && e.Take? && !s.aborted && s.cursor < |s.jobs|
  }

  /** The positions claimed in the course of a run, in order. */
  ghost function ClaimsOf(s: Pool, events: seq<Event>): seq<nat>
    requires Inv(s)
    decreases |events|
  {
    if events == [] then []
    else
      StepKeepsInv(s, events[0]);
      (if Claims(s, events[0]) then [s.cursor] else []) + ClaimsOf(Step(s, events[0]), events[1..])
  }

  lemma CursorMoves(s: Pool, e: Event)
    requires Inv(s)
    ensures Step(s, e).jobs == s.jobs && s.cursor <= Step(s, e).cursor
    ensures Claims(s, e) ==> Step(s, e).cursor == s.cursor + 1 <= |s.jobs|
    ensures !Claims(s, e) && s.cursor < |s.jobs| ==> Step(s, e).cursor == s.cursor
  {
  }

  lemma {:induction false} ClaimsFrom(s: Pool, events: seq<Event>)
    requires Inv(s)
    ensures forall i | 0 <= i < |ClaimsOf(s, events)| :: ClaimsOf(s, events)[i] == s.cursor + i
    ensures s.cursor <= |s.jobs| ==> s.cursor + |ClaimsOf(s, events)| <= |s.jobs|
    ensures ClaimsOf(s, events) != [] ==> s.cursor < |s.jobs|
    decreases |events|
  {
    if events != [] {
      StepKeepsInv(s, events[0]);
      CursorMoves(s, events[0]);
      ClaimsFrom(Step(s, events[0]), events[1..]);
    }
  }

  /** Whatever the interleaving, the jobs are claimed once each, in job order. */
  lemma ClaimedOnceInOrder(jobs: seq<Job>, parallelism: nat, limits: Limits, events: seq<Event>)
    ensures Inv(Start(jobs, parallelism, limits))
    ensures var claims := ClaimsOf(Start(jobs, parallelism, limits), events);
            |claims| <= |jobs| && forall i | 0 <= i < |claims| :: claims[i] == i
  {
    StartInv(jobs, parallelism, limits);
    ClaimsFrom(Start(jobs, parallelism, limits), events);
  }

  function InFlight(workers: seq<Worker>): set<nat> {
    set w: nat | w < |workers| && workers[w].Running? :: workers[w].position
  }

  lemma {:induction false} InFlightBound(workers: seq<Worker>)
    ensures |InFlight(workers)| <= |workers|
  {
    if workers == [] {
      assert InFlight(workers) == {};
    } else {
      var n := |workers| - 1;
      InFlightBound(workers[..n]);
      assert InFlight(workers) ==
             InFlight(workers[..n]) + (if workers[n].Running? then {workers[n].position} else {});
    }
  }

  /** At no moment are more than `parallelism` jobs running, and none is invoked beyond its two retry budgets. */
  lemma RunWithinLimits(jobs: seq<Job>, parallelism: nat, limits: Limits, events: seq<Event>)
    ensures Inv(Start(jobs, parallelism, limits))
    ensures var u := After(Start(jobs, parallelism, limits), events);
            && |InFlight(u.workers)| <= parallelism
            && |u.calls| == |jobs|
            && forall p | 0 <= p < |jobs| :: u.calls[p] <= 1 + limits.provider + limits.infrastructure
  {
    var s := Start(jobs, parallelism, limits);
    StartInv(jobs, parallelism, limits);
    InvAlways(s, events);
    var u := After(s, events);
    InFlightBound(u.workers);
    forall p | 0 <= p < |jobs| ensures u.calls[p] <= 1 + limits.provider + limits.infrastructure {
      assert SlotOk(u, p);
    }
  }

  /******* Who is thrown out *******/

  /** An error that is fatal, or whose class has no retry left, or a link of the chain that will never be written. */
  predicate ThrowsOut(s: Pool, e: Event, w: nat) {
    && w < |s.workers|
    && match e
       case Fail(v, retry) =>
         && v == w && s.workers[w].Running?
         && (retry == Some(Provider) ==> Used(s.workers[w].retries, Provider) == s.limits.provider)
         && (retry == Some(Infrastructure) ==>
               Used(s.workers[w].retries, Infrastructure) == s.limits.infrastructure)
       case Resume(v) => v == w && s.workers[w].Waiting? && s.broken && s.done <= s.workers[w].link
       case _ => false
  }

  lemma FailThrows(s: Pool, w: nat, retry: Option<RetryClass>)
    requires Inv(s) && Enabled(s, Fail(w, retry))
    ensures WorkerOk(s, w) && |RetryOrThrow(s, w, retry).workers| == |s.workers|
    ensures RetryOrThrow(s, w, retry).workers[w].Thrown? <==> ThrowsOut(s, Fail(w, retry), w)
  {
    assert WorkerOk(s, w);
  }

  lemma ResumeThrows(s: Pool, w: nat)
    requires Inv(s) && Enabled(s, Resume(w))
    ensures |ResumeWorker(s, w).workers| == |s.workers|
    ensures ResumeWorker(s, w).workers[w].Thrown? <==> ThrowsOut(s, Resume(w), w)
  {
  }

  lemma OtherEventsKeep(s: Pool, e: Event, w: nat)
    requires Inv(s) && w < |s.workers| && !(e.Fail? && e.w == w) && !(e.Resume? && e.w == w)
    ensures |Step(s, e).workers| == |s.workers|
    ensures Step(s, e).workers[w].Thrown? <==> s.workers[w].Thrown?
  {
  }

  /** An event throws a worker out exactly in these cases. */
  lemma ThrownStep(s: Pool, e: Event, w: nat)
    requires Inv(s) && w < |s.workers|
    ensures |Step(s, e).workers| == |s.workers|
    ensures Step(s, e).workers[w].Thrown? <==> s.workers[w].Thrown? || ThrowsOut(s, e, w)
  {
    if !(e.Fail? && e.w == w) && !(e.Resume? && e.w == w) {
      OtherEventsKeep(s, e, w);
    } else if Enabled(s, e) {
      if e.Fail? { FailThrows(s, w, e.retry); } else { ResumeThrows(s, w); }
    }
  }

  /** Any other error calls the same job once more. */
  lemma RetriedStep(s: Pool, w: nat, c: RetryClass)
    requires Inv(s) && Enabled(s, Fail(w, Some(c))) && !ThrowsOut(s, Fail(w, Some(c)), w)
    ensures var p, t := s.workers[w].position, Step(s, Fail(w, Some(c)));
            && p < |s.calls|
            && t == s.(workers := s.workers[w := Running(p, s.workers[w].retries + [c])],
                       calls := s.calls[p := s.calls[p] + 1])
  {
    assert WorkerOk(s, w);
  }

  ghost predicate SomeThrowsOut(s: Pool, events: seq<Event>, w: nat)
    requires Inv(s)
    decreases |events|
  {
    events != [] && (
      || ThrowsOut(s, events[0], w)
      || (StepKeepsInv(s, events[0]); SomeThrowsOut(Step(s, events[0]), events[1..], w)))
  }

  /** In every run a worker is thrown out exactly if such an event happened to it. */
  lemma {:induction false} ThrownExactlyIf(s: Pool, events: seq<Event>, w: nat)
    requires Inv(s) && w < |s.workers|
    ensures w < |After(s, events).workers|
    ensures After(s, events).workers[w].Thrown? <==> s.workers[w].Thrown? || SomeThrowsOut(s, events, w)
    decreases |events|
  {
    if events != [] {
      StepKeepsInv(s, events[0]);
      ThrownStep(s, events[0], w);
      ThrownExactlyIf(Step(s, events[0]), events[1..], w);
    }
  }

  /** What the last call of position `p` gave in a run, if it finished. */
  ghost function EvidenceFor(s: Pool, events: seq<Event>, p: nat): Option<int>
    requires Inv(s)
    decreases |events|
  {
    if events == [] then None
    else
      var e := events[0];
      StepKeepsInv(s, e);
      if Enabled(s, e) && e.Succeed? && s.workers[e.w].position == p then Some(e.evidence)
      else EvidenceFor(Step(s, e), events[1..], p)
  }

  lemma SlotStep(s: Pool, e: Event, p: nat)
    requires Inv(s) && p < |s.jobs|
    ensures var here := Enabled(s, e) && e.Succeed? && s.workers[e.w].position == p;
            && Step(s, e).jobs == s.jobs && Shape(Step(s, e))
            && (here ==>
                  && s.slots[p].None? && Step(s, e).slots[p].Some?
                  && Step(s, e).slots[p].value.evidence == e.evidence)
            && (!here ==> Step(s, e).slots[p] == s.slots[p])
  {
    StepKeepsInv(s, e);
    if e.Succeed? && Enabled(s, e) { assert WorkerOk(s, e.w); }
  }

  /** A slot holds the evidence of the call that finished its job, once one has, and nothing else ever. */
  lemma {:induction false} SlotHoldsEvidence(s: Pool, events: seq<Event>, p: nat)
    requires Inv(s) && p < |s.jobs|
    ensures var u := After(s, events);
            && p < |u.slots| && (s.slots[p].Some? ==> u.slots[p] == s.slots[p])
            && (s.slots[p].None? ==>
                  && (u.slots[p].Some? <==> EvidenceFor(s, events, p).Some?)
                  && (u.slots[p].Some? ==> u.slots[p].value.evidence == EvidenceFor(s, events, p).value))
    decreases |events|
  {
    if events != [] {
      StepKeepsInv(s, events[0]);
      SlotStep(s, events[0], p);
      SlotHoldsEvidence(Step(s, events[0]), events[1..], p);
    }
  }

  /**
   A finished attempt that the run file does not list yet belongs to a worker that still waits for its
   write or was thrown out.
   */
  lemma UnwrittenIsHeld(s: Pool, p: nat) returns (w: nat)
    requires Inv(s) && p < |s.jobs| && s.slots[p].Some? && LastStored(s)[p].None?
    ensures w < |s.workers| && (s.workers[w].Waiting? || s.workers[w].Thrown?) && Holds(s.workers[w], p)
  {
    assert SlotOk(s, p);
    w :| 0 <= w < |s.workers| && Holds(s.workers[w], p);
    assert WorkerOk(s, w);
  }

  /** A worker about to take its next job has its previous attempt in the run file already, as stored in the slots. */
  lemma NextJobAfterWrite(s: Pool, w: nat)
    requires Inv(s) && Enabled(s, Take(w)) && s.workers[w].last.Some?
    ensures var p := s.workers[w].last.value;
            p < |s.jobs| && s.slots[p].Some? && LastStored(s)[p] == s.slots[p]
  {
    assert WorkerOk(s, w);
  }

  lemma {:induction false} GrowsFar(s: Pool, i: nat, j: nat)
    requires Shape(s) && FilesOk(s) && i <= j <= s.done
    ensures Grows(s.stored[i], s.stored[j])
    decreases j - i
  {
    if i < j { GrowsFar(s, i, j - 1); }
    else { assert Grows(LastStored(s), s.slots); GrowsSelf(s, i); }
  }

  lemma GrowsSelf(s: Pool, i: nat)
    requires i < |s.stored|
    ensures Grows(s.stored[i], s.stored[i])
  {
  }

  lemma {:induction false} StoredExtends(s: Pool, events: seq<Event>)
    requires Inv(s)
    ensures s.stored <= After(s, events).stored
    decreases |events|
  {
    if events != [] {
      StepKeepsInv(s, events[0]);
      StoredExtends(Step(s, events[0]), events[1..]);
      assert s.stored <= Step(s, events[0]).stored;
    }
  }

  /** Each version of the run file lists, unchanged, all that any earlier version listed. */
  lemma FileOnlyGrows(s: Pool, events: seq<Event>, i: nat, j: nat)
    requires Inv(s) && i < |s.stored| && i <= j < |After(s, events).stored|
    ensures Grows(s.stored[i], After(s, events).stored[j])
  {
    InvAlways(s, events);
    StoredExtends(s, events);
    GrowsFar(After(s, events), i, j);
  }

  /******* How a run ends *******/

  /** The attempts a snapshot lists, in slot order. */
  function Attempts(snapshot: Snapshot): seq<Result> {
    if snapshot == [] then []
    else Attempts(snapshot[..|snapshot| - 1]) + Listed(snapshot[|snapshot| - 1])
  }

  function Listed(slot: Option<Result>): seq<Result> {
    if slot.Some? then [slot.value] else []
  }

  predicate AllReturned(s: Pool) {
    forall w | 0 <= w < |s.workers| :: s.workers[w].Returned?
  }

  lemma UnfinishedWorker(s: Pool)
    requires Inv(s)
    ensures s.broken || s.done < s.total ==> !AllReturned(s)
  {
    if s.broken {
      var w: nat :| w < |s.workers| && Doomed(s, w);
      assert !s.workers[w].Returned?;
    } else if s.done < s.total {
      assert Awaited(s, s.done);
      var w: nat :| Awaits(s, w, s.done);
      assert !s.workers[w].Returned?;
    }
  }

  lemma NobodyAttends(s: Pool, p: nat)
    requires Inv(s) && AllReturned(s) && p < |s.jobs|
    ensures p < s.cursor ==> LastStored(s)[p].Some?
    ensures LastStored(s)[p] == s.slots[p]
  {
    assert SlotOk(s, p);
    assert !Attended(s, p);
  }

  /** Once every worker has returned, the write chain has ended well and the file lists every finished attempt. */
  lemma ReturnedMeansWritten(s: Pool)
    requires Inv(s) && AllReturned(s)
    ensures !s.broken && s.done == s.total && LastStored(s) == s.slots
  {
    UnfinishedWorker(s);
    forall p | 0 <= p < |s.jobs| ensures LastStored(s)[p] == s.slots[p] { NobodyAttends(s, p); }
  }

  lemma {:induction false} FullAttempts(snapshot: Snapshot, jobs: seq<Job>)
    requires |snapshot| == |jobs|
    requires forall p | 0 <= p < |jobs| :: snapshot[p].Some? && snapshot[p].value.job == jobs[p]
    ensures |Attempts(snapshot)| == |jobs| && forall p | 0 <= p < |jobs| :: Attempts(snapshot)[p].job == jobs[p]
  {
    if jobs != [] {
      var n := |jobs| - 1;
      FullAttempts(snapshot[..n], jobs[..n]);
    }
  }

  /** A run whose workers all returned and that was never aborted has exactly one attempt per job, in job order. */
  lemma CompletedRunIsFull(jobs: seq<Job>, parallelism: nat, limits: Limits, events: seq<Event>)
    requires parallelism >= 1
    ensures Inv(Start(jobs, parallelism, limits))
    ensures var u := After(Start(jobs, parallelism, limits), events);
            AllReturned(u) && !u.aborted ==>
              && |Attempts(u.slots)| == |jobs|
              && (forall p | 0 <= p < |jobs| :: Attempts(u.slots)[p].job == jobs[p])
              && Shape(u) && LastStored(u) == u.slots
  {
    var s := Start(jobs, parallelism, limits);
    StartInv(jobs, parallelism, limits);
    InvAlways(s, events);
    var u := After(s, events);
    if AllReturned(u) && !u.aborted {
      ReturnedMeansWritten(u);
      forall p | 0 <= p < |jobs| ensures u.slots[p].Some? && u.slots[p].value.job == jobs[p] {
        assert u.workers[0].Returned? && WorkerOk(u, 0) && SlotOk(u, p);
        NobodyAttends(u, p);
      }
      FullAttempts(u.slots, jobs);
    }
  }

  /** One failed write ends the run: the file is never written again and the workers never all return. */
  lemma {:induction false} BrokenForGood(s: Pool, events: seq<Event>)
    requires Inv(s) && s.broken
    ensures var u := After(s, events); u.broken && u.stored == s.stored && !AllReturned(u)
    decreases |events|
  {
    if events == [] {
      var w: nat :| w < |s.workers| && Doomed(s, w);
      assert !s.workers[w].Returned?;
    } else {
      StepKeepsInv(s, events[0]);
      BrokenForGood(Step(s, events[0]), events[1..]);
    }
  }

  /** A write that ends well makes its snapshot the run file; any other leaves the file and breaks the chain. */
  lemma WriteEnds(s: Pool, ok: bool)
    requires Inv(s) && s.writing.Some?
    ensures var t := Step(s, FinishWrite(ok));
            && t.stored == (if ok then s.stored + [s.writing.value] else s.stored)
            && t.broken == (s.broken || !ok) && t.writing.None?
  {
  }

  ghost predicate SomeWriteFails(s: Pool, events: seq<Event>)
    requires Inv(s)
    decreases |events|
  {
    events != [] && (
      || (events[0] == FinishWrite(false) && s.writing.Some?)
      || (StepKeepsInv(s, events[0]); SomeWriteFails(Step(s, events[0]), events[1..])))
  }

  /** In every run the chain is broken exactly if some write in it failed. */
  lemma {:induction false} BrokenExactlyIf(s: Pool, events: seq<Event>)
    requires Inv(s)
    ensures After(s, events).broken <==> s.broken || SomeWriteFails(s, events)
    decreases |events|
  {
    if events != [] {
      StepKeepsInv(s, events[0]);
      if events[0].FinishWrite? && s.writing.Some? { WriteEnds(s, events[0].ok); }
      BrokenExactlyIf(Step(s, events[0]), events[1..]);
    }
  }

  predicate Over(s: Pool) {
    forall w | 0 <= w < |s.workers| :: s.workers[w].Returned? || s.workers[w].Thrown?
  }

  /** No worker is ever stuck: while one is not over, some event other than an abort can happen. */
  lemma SomethingCanHappen(s: Pool) returns (e: Event)
    requires Inv(s) && !Over(s)
    ensures Enabled(s, e) && !e.Abort?
  {
    var w :| 0 <= w < |s.workers| && !s.workers[w].Returned? && !s.workers[w].Thrown?;
    assert WorkerOk(s, w);
    e := match s.workers[w]
      case Idle(_) => Take(w)
      case Running(_, _) => Succeed(w, 0)
      case Waiting(_, l) =>
        if l < s.done || s.broken then Resume(w) else if s.writing.Some? then FinishWrite(true) else StartWrite
      case Returned => Abort
      case Thrown(_) => Abort;
  }

  /******* Every run ends *******/

  function Weight(worker: Worker, budget: int): int {
    match worker
    case Idle(_) => 1
    case Running(_, retries) => 5 + budget - |retries|
    case Waiting(_, _) => 2
    case Returned => 0
    case Thrown(_) => 0
  }

  function TotalWeight(workers: seq<Worker>, budget: int): int {
    if workers == [] then 0
    else TotalWeight(workers[..|workers| - 1], budget) + Weight(workers[|workers| - 1], budget)
  }

  function Budget(s: Pool): nat {
    s.limits.provider + s.limits.infrastructure
  }

  function Unclaimed(s: Pool): nat {
    if s.cursor < |s.jobs| then |s.jobs| - s.cursor else 0
  }

  /** An upper bound on the events still to come. */
  function Left(s: Pool): int {
    TotalWeight(s.workers, Budget(s)) + (Budget(s) + 6) * Unclaimed(s) + 2 * (s.total - s.done)
    - (if s.writing.Some? then 1 else 0) + (if s.broken then 0 else 2) + (if s.aborted then 0 else 1)
  }

  lemma {:induction false} WeightUpdate(workers: seq<Worker>, w: nat, worker: Worker, budget: int)
    requires w < |workers|
    ensures TotalWeight(workers[w := worker], budget) ==
            TotalWeight(workers, budget) - Weight(workers[w], budget) + Weight(worker, budget)
  {
    var n := |workers| - 1;
    if w == n {
      assert workers[w := worker][..n] == workers[..n];
    } else {
      assert workers[w := worker][..n] == workers[..n][w := worker];
      WeightUpdate(workers[..n], w, worker, budget);
    }
  }

  lemma {:induction false} WeightPositive(workers: seq<Worker>, budget: int)
    requires forall w | 0 <= w < |workers| :: Weight(workers[w], budget) >= 0
    ensures TotalWeight(workers, budget) >= 0
  {
    if workers != [] { WeightPositive(workers[..|workers| - 1], budget); }
  }

  lemma WorkerWeight(s: Pool, w: nat)
    requires Inv(s) && w < |s.workers|
    ensures Weight(s.workers[w], Budget(s)) >= 0
    ensures s.workers[w].Running? ==> Weight(s.workers[w], Budget(s)) >= 5
  {
    assert WorkerOk(s, w);
    if s.workers[w].Running? { UsedAdds(s.workers[w].retries); }
  }

  lemma LeftPositive(s: Pool)
    requires Inv(s)
    ensures Left(s) >= 0
  {
    forall w | 0 <= w < |s.workers| ensures Weight(s.workers[w], Budget(s)) >= 0 { WorkerWeight(s, w); }
    WeightPositive(s.workers, Budget(s));
  }

  lemma TakeFalls(s: Pool, w: nat)
    requires Inv(s) && Enabled(s, Take(w))
    ensures Left(TakeJob(s, w)) < Left(s)
  {
    var t := TakeJob(s, w);
    WeightUpdate(s.workers, w, t.workers[w], Budget(s));
    if t.workers[w].Running? {
      assert Unclaimed(t) == Unclaimed(s) - 1;
      assert (Budget(s) + 6) * Unclaimed(t) == (Budget(s) + 6) * Unclaimed(s) - (Budget(s) + 6);
    }
  }

  lemma SucceedFalls(s: Pool, w: nat, evidence: int)
    requires Inv(s) && Enabled(s, Succeed(w, evidence))
    ensures WorkerOk(s, w) && Left(StoreResult(s, w, evidence)) < Left(s)
  {
    assert WorkerOk(s, w);
    WorkerWeight(s, w);
    WeightUpdate(s.workers, w, Waiting(s.workers[w].position, s.total), Budget(s));
  }

  /** Only the worker's own weight changes with it. */
  lemma LeftMoves(s: Pool, t: Pool, w: nat, worker: Worker)
    requires w < |s.workers| && t == s.(workers := s.workers[w := worker], calls := t.calls)
    ensures Left(t) == Left(s) - Weight(s.workers[w], Budget(s)) + Weight(worker, Budget(s))
  {
    WeightUpdate(s.workers, w, worker, Budget(s));
    assert Unclaimed(t) == Unclaimed(s);
  }

  lemma FailFalls(s: Pool, w: nat, retry: Option<RetryClass>)
    requires Inv(s) && Enabled(s, Fail(w, retry))
    ensures WorkerOk(s, w) && Left(RetryOrThrow(s, w, retry)) < Left(s)
  {
    assert WorkerOk(s, w);
    WorkerWeight(s, w);
    var t := RetryOrThrow(s, w, retry);
    LeftMoves(s, t, w, t.workers[w]);
  }

  lemma EventFalls(s: Pool, e: Event)
    requires Inv(s)
    ensures if Enabled(s, e) then Left(Step(s, e)) < Left(s) else Step(s, e) == s
  {
    if Enabled(s, e) {
      match e
      case Abort =>
      case Take(w) => TakeFalls(s, w);
      case Succeed(w, evidence) => SucceedFalls(s, w, evidence);
      case Fail(w, retry) => FailFalls(s, w, retry);
      case StartWrite =>
      case FinishWrite(_) =>
      case Resume(w) => WeightUpdate(s.workers, w, ResumeWorker(s, w).workers[w], Budget(s));
    }
  }

  ghost function Happened(s: Pool, events: seq<Event>): nat
    requires Inv(s)
    decreases |events|
  {
    if events == [] then 0
    else
      StepKeepsInv(s, events[0]);
      (if Enabled(s, events[0]) then 1 else 0) + Happened(Step(s, events[0]), events[1..])
  }

  lemma {:induction false} EventsBounded(s: Pool, events: seq<Event>)
    requires Inv(s)
    ensures Happened(s, events) <= Left(s)
    decreases |events|
  {
    LeftPositive(s);
    if events != [] {
      StepKeepsInv(s, events[0]);
      EventFalls(s, events[0]);
      EventsBounded(Step(s, events[0]), events[1..]);
    }
  }

  lemma {:induction false} IdleWeight(n: nat, budget: int)
    ensures TotalWeight(seq(n, _ => Idle(None)), budget) == n
  {
    if n > 0 {
      IdleWeight(n - 1, budget);
      var workers := seq(n, _ => Idle(None));
      assert workers[..n - 1] == seq(n - 1, _ => Idle(None));
    }
  }

  /** Every run, under every interleaving, consists of at most this many events. */
  lemma RunEnds(jobs: seq<Job>, parallelism: nat, limits: Limits, events: seq<Event>)
    ensures Inv(Start(jobs, parallelism, limits))
    ensures Happened(Start(jobs, parallelism, limits), events)
            <= (limits.provider + limits.infrastructure + 6) * |jobs| + parallelism + 3
  {
    var s := Start(jobs, parallelism, limits);
    StartInv(jobs, parallelism, limits);
    EventsBounded(s, events);
    IdleWeight(|s.workers|, Budget(s));
    assert s.workers == seq(|s.workers|, _ => Idle(None));
  }

  /******* The job order *******/

  predicate Leq(x: Job, y: Job) {
    x.task < y.task || (x.task == y.task && (x.agent < y.agent || (x.agent == y.agent && x.index <= y.index)))
  }

  /** By task, then agent, then index. */
  predicate NotAfter(x: Job, y: Job) {
    && x.task <= y.task
    && (x.task == y.task ==> x.agent <= y.agent)
    && (x.task == y.task && x.agent == y.agent ==> x.index <= y.index)
  }

  predicate Sorted(jobs: seq<Job>) {
    forall i, j | 0 <= i < j < |jobs| :: NotAfter(jobs[i], jobs[j])
  }

  function RunsOf(task: int, agent: int, runs: nat): seq<Job> {
    seq(runs, i requires 0 <= i => Job(task, agent, i))
  }

  function JobsOfTask(task: int, agents: seq<int>, runs: nat): seq<Job> {
    if agents == [] then [] else RunsOf(task, agents[0], runs) + JobsOfTask(task, agents[1..], runs)
  }

  function AllJobs(tasks: seq<int>, agents: seq<int>, runs: nat): seq<Job> {
    if tasks == [] then [] else JobsOfTask(tasks[0], agents, runs) + AllJobs(tasks[1..], agents, runs)
  }

  function Insert(x: Job, jobs: seq<Job>): seq<Job> {
    if jobs == [] || Leq(x, jobs[0]) then [x] + jobs else [jobs[0]] + Insert(x, jobs[1..])
  }

  function SortJobs(jobs: seq<Job>): seq<Job> {
    if jobs == [] then [] else Insert(jobs[0], SortJobs(jobs[1..]))
  }

  lemma SortedCons(x: Job, jobs: seq<Job>)
    requires Sorted(jobs) && forall y | y in jobs :: NotAfter(x, y)
    ensures Sorted([x] + jobs)
  {
  }

  lemma {:induction false} InsertSorts(x: Job, jobs: seq<Job>)
    requires Sorted(jobs)
    ensures Sorted(Insert(x, jobs)) && multiset(Insert(x, jobs)) == multiset(jobs) + multiset{x}
    ensures forall y | y in Insert(x, jobs) :: y == x || y in jobs
  {
    if jobs != [] {
      forall y | y in jobs[1..] ensures NotAfter(jobs[0], y) && y in jobs {}
      assert jobs == [jobs[0]] + jobs[1..];
      if Leq(x, jobs[0]) {
        SortedCons(x, jobs);
      } else {
        InsertSorts(x, jobs[1..]);
        SortedCons(jobs[0], Insert(x, jobs[1..]));
      }
    }
  }

  lemma {:induction false} SortSorts(jobs: seq<Job>)
    ensures Sorted(SortJobs(jobs)) && multiset(SortJobs(jobs)) == multiset(jobs)
  {
    if jobs != [] {
      SortSorts(jobs[1..]);
      InsertSorts(jobs[0], SortJobs(jobs[1..]));
      assert jobs == [jobs[0]] + jobs[1..];
    }
  }

  lemma {:induction false} JobsOfTaskMembers(task: int, agents: seq<int>, runs: nat, j: Job)
    ensures j in JobsOfTask(task, agents, runs) <==> j.task == task && j.agent in agents && j.index < runs
  {
    if agents != [] {
      JobsOfTaskMembers(task, agents[1..], runs, j);
      assert j in RunsOf(task, agents[0], runs) <==> j.task == task && j.agent == agents[0] && j.index < runs by {
        if j.index < runs { assert RunsOf(task, agents[0], runs)[j.index] == Job(task, agents[0], j.index); }
      }
    }
  }

  lemma {:induction false} AllJobsMembers(tasks: seq<int>, agents: seq<int>, runs: nat, j: Job)
    ensures j in AllJobs(tasks, agents, runs) <==> j.task in tasks && j.agent in agents && j.index < runs
  {
    if tasks != [] {
      AllJobsMembers(tasks[1..], agents, runs, j);
      JobsOfTaskMembers(tasks[0], agents, runs, j);
    }
  }

  function JobsListed(results: seq<Result>): seq<Job> {
    seq(|results|, i requires 0 <= i < |results| => results[i].job)
  }

  /**
   A benchmark that completes lists an attempt for exactly the (task, agent, index) triples asked for, as often
   as they were asked for, and sorted, whatever the interleaving and the input order were.
   */
  lemma BenchmarkComplete(tasks: seq<int>, agents: seq<int>, runs: nat, parallelism: nat, limits: Limits,
                          events: seq<Event>, j: Job)
    requires parallelism >= 1
    ensures var plan := SortJobs(AllJobs(tasks, agents, runs));
            && Inv(Start(plan, parallelism, limits))
            && var u := After(Start(plan, parallelism, limits), events);
               AllReturned(u) && !u.aborted ==>
                 var listed := JobsListed(Attempts(u.slots));
                 && Sorted(listed) && multiset(listed) == multiset(AllJobs(tasks, agents, runs))
                 && (j in listed <==> j.task in tasks && j.agent in agents && j.index < runs)
  {
    var asked := AllJobs(tasks, agents, runs);
    var plan := SortJobs(asked);
    SortSorts(asked);
    CompletedRunIsFull(plan, parallelism, limits, events);
    AllJobsMembers(tasks, agents, runs, j);
    var u := After(Start(plan, parallelism, limits), events);
    if AllReturned(u) && !u.aborted {
      assert JobsListed(Attempts(u.slots)) == plan;
      assert j in asked <==> j in multiset(plan);
    }
  }

  /******* The retry loop of one job *******/

  datatype Outcome = Finished | Retryable(retryClass: RetryClass) | Fatal

  /**
   Calls the attempt until it finishes, fails for good, or fails in a class whose budget is used up;
   `outcomes(i)` is what call `i` gives.
   */
  method CallWithRetries(limits: Limits, outcomes: nat -> Outcome)
    returns (calls: nat, retries: seq<RetryClass>, finished: bool)
    ensures calls == 1 + |retries| && calls <= 1 + limits.provider + limits.infrastructure
    ensures WithinLimits(retries, limits)
    ensures forall i | 0 <= i < |retries| :: outcomes(i) == Retryable(retries[i])
    ensures finished <==> outcomes(calls - 1).Finished?
    ensures outcomes(calls - 1).Retryable? ==>
              var c := outcomes(calls - 1).retryClass; Used(retries, c) == limits.Of(c)
  {
    calls, retries := 0, [];
    while true
      invariant calls == |retries| && WithinLimits(retries, limits)
      invariant forall i | 0 <= i < |retries| :: outcomes(i) == Retryable(retries[i])
      decreases limits.provider + limits.infrastructure - |retries|
    {
      UsedAdds(retries);
      var outcome := outcomes(calls);
      calls := calls + 1;
      if outcome.Finished? {
        return calls, retries, true;
      }
      if outcome.Fatal? || Used(retries, outcome.retryClass) >= limits.Of(outcome.retryClass) {
        return calls, retries, false;
      }
      OneMoreRetry(retries, outcome.retryClass, limits);
      retries := retries + [outcome.retryClass];
    }
  }
}

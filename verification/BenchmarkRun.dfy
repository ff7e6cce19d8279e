/** The benchmark runner's shared variables, changed by its workers between awaits as `WorkerPool` says. */
module BenchmarkRun {
  import opened Wrappers
  import opened WorkerPool

  class BenchmarkRun {
    const jobs: seq<Job>
    const limits: Limits
    var workers: seq<Worker>
    var cursor: nat
    var slots: Snapshot
    var calls: seq<nat>
    var done: nat
    var total: nat
    var writing: Option<Snapshot>
    var broken: bool
    var stored: seq<Snapshot>
    var aborted: bool

    function State(): Pool
      reads this
    {
      Pool(jobs, limits, workers, cursor, slots, calls, done, total, writing, broken, stored, aborted)
    }

    ghost predicate Valid()
      reads this
    {
      Inv(State())
    }

    /** Sorts the jobs and writes the first, empty file. */
    constructor (tasks: seq<int>, agents: seq<int>, runs: nat, parallelism: nat, limits: Limits)
      requires runs >= 1 && parallelism >= 1
      ensures Valid() && State() == Start(SortJobs(AllJobs(tasks, agents, runs)), parallelism, limits)
    {
      jobs := SortJobs(AllJobs(tasks, agents, runs));
      this.limits := limits;
      var n := |SortJobs(AllJobs(tasks, agents, runs))|;
      workers := seq(if parallelism < n then parallelism else n, _ => Idle(None));
      cursor, slots, calls := 0, NoResults(n), seq(n, _ => 0);
      done, total, writing, broken, stored, aborted := 0, 0, None, false, [NoResults(n)], false;
      new;
      StartInv(jobs, parallelism, limits);
    }

    /** The head of a worker's loop: leaves on abort or when no job is left. */
    method ClaimNext(w: nat) returns (position: Option<nat>)
      requires Valid() && Enabled(State(), Take(w))
      modifies this
      ensures Valid() && State() == TakeJob(old(State()), w)
      ensures position == if old(aborted || cursor >= |jobs|) then None else Some(old(cursor))
    {
      TakeKeepsInv(State(), w);
      if aborted {
        workers := workers[w := Returned];
        return None;
      }
      var claimed := cursor;
      cursor := cursor + 1;
      if claimed >= |jobs| {
        workers := workers[w := Returned];
        return None;
      }
      workers := workers[w := Running(claimed, [])];
      calls := calls[claimed := calls[claimed] + 1];
      position := Some(claimed);
    }

    /** The attempt ended: its result goes into its slot and a write is appended to the chain. */
    method FinishAttempt(w: nat, evidence: int)
      requires Valid() && Enabled(State(), Succeed(w, evidence))
      modifies this
      ensures WorkerOk(old(State()), w)
      ensures Valid() && State() == StoreResult(old(State()), w, evidence)
    {
      SucceedKeepsInv(State(), w, evidence);
      var p := workers[w].position;
      slots := slots[p := Some(Result(jobs[p], evidence, workers[w].retries))];
      workers := workers[w := Waiting(p, total)];
      total := total + 1;
    }

    /** The attempt threw: `retry` is the class of a retryable error. */
    method CatchError(w: nat, retry: Option<RetryClass>) returns (again: bool)
      requires Valid() && Enabled(State(), Fail(w, retry))
      modifies this
      ensures WorkerOk(old(State()), w)
      ensures Valid() && State() == RetryOrThrow(old(State()), w, retry)
      ensures again == workers[w].Running?
    {
      FailKeepsInv(State(), w, retry);
      var p, retries := workers[w].position, workers[w].retries;
      if retry.None? {
        workers := workers[w := Thrown(p)];
        return false;
      }
      if Used(retries, retry.value) >= limits.Of(retry.value) {
        workers := workers[w := Thrown(p)];
        return false;
      }
      workers := workers[w := Running(p, retries + [retry.value])];
      calls := calls[p := calls[p] + 1];
      again := true;
    }

    /** The next link's turn: it takes its snapshot now, not when it was appended. */
    method BeginWrite()
      requires Valid() && Enabled(State(), StartWrite)
      modifies this
      ensures Valid() && State() == Step(old(State()), StartWrite)
    {
      WritesKeepInv(State(), StartWrite);
      writing := Some(slots);
    }

    method EndOfWrite(ok: bool)
      requires Valid() && Enabled(State(), FinishWrite(ok))
      modifies this
      ensures Valid() && State() == EndWrite(old(State()), ok)
    {
      WritesKeepInv(State(), FinishWrite(ok));
      if ok {
        stored := stored + [writing.value];
        done := done + 1;
      } else {
        broken := true;
      }
      writing := None;
    }

    /** The awaited link settled: the worker loops, or the rejection leaves it. */
    method AwaitWrite(w: nat)
      requires Valid() && Enabled(State(), Resume(w))
      modifies this
      ensures Valid() && State() == ResumeWorker(old(State()), w)
    {
      ResumeKeepsInv(State(), w);
      var p := workers[w].position;
      if workers[w].link < done {
        workers := workers[w := Idle(Some(p))];
      } else {
        workers := workers[w := Thrown(p)];
      }
    }

    /** The final snapshot, once all workers have returned. */
    method Completed() returns (attempts: seq<Result>, cancelled: bool)
      requires Valid() && AllReturned(State())
      ensures attempts == Attempts(LastStored(State())) == Attempts(slots) && cancelled == aborted
    {
      ReturnedMeansWritten(State());
      attempts, cancelled := Attempts(slots), aborted;
    }
  }
}

/** The leased job queue: what each transaction does to a job row, and one worker's loop over the table. */
module JobQueue {
  import opened Ordering

  const MAX_ATTEMPTS: nat := 3

  datatype Status = Queued | Leased | Running | Completed | Failed | Cancelled

  datatype Job = Job(
    jobType: string,
    createdAt: int,
    status: Status,
    leaseOwner: Option<string>,
    leaseExpiresAt: Option<int>,
    cancelRequested: bool,
    attempts: nat,
    lastError: Option<string>)

  datatype CancelOutcome = WasCancelled | Requested | NotCancellable

  /** How a handler call ends. */
  datatype Outcome =
    | NoHandler
    | Success
    | CancelSeen
    | PermanentError(message: string)
    | TransientError(message: string)

  // ----- row updates

  function NewRow(jobType: string, createdAt: int): Job {
    Job(jobType, createdAt, Queued, None, None, false, 0, None)
  }

  /** Queued, or leased by a worker whose lease has lapsed. */
  predicate Leasable(job: Job, now: int) {
    || job.status == Queued
    || ((job.status == Leased || job.status == Running) && job.leaseExpiresAt.Some? && job.leaseExpiresAt.value < now)
  }

  function LeaseRow(job: Job, owner: string, now: int, leaseFor: nat): Job {
    job.(status := Leased, leaseOwner := Some(owner), leaseExpiresAt := Some(now + leaseFor),
         attempts := job.attempts + 1)
  }

  function Truncate(error: string): string {
    if |error| > 2048 then error[..2048] else error
  }

  /** `_finish` */
  function FinishRow(job: Job, status: Status, error: Option<string>): Job {
    var recorded := if error.Some? && error.value != "" then Some(Truncate(error.value)) else None;
    job.(status := status, lastError := recorded, leaseOwner := None, leaseExpiresAt := None)
  }

  /** `_fail_in_fresh_row` */
  function FailRow(job: Job, error: string, retry: bool): Job {
    if retry && job.attempts < MAX_ATTEMPTS then
      job.(status := Queued, lastError := Some(Truncate(error)), leaseOwner := None, leaseExpiresAt := None)
    else FinishRow(job, Failed, Some(error))
  }

  /** `request_cancel` */
  function CancelRow(job: Job): (Job, CancelOutcome) {
    match job.status
    case Queued => (job.(status := Cancelled), WasCancelled)
    case Leased => (job.(cancelRequested := true), Requested)
    case Running => (job.(cancelRequested := true), Requested)
    case _ => (job, NotCancellable)
  }

  /** What the worker commits after the handler ended this way. */
  function SettleRow(job: Job, outcome: Outcome): Job {
    match outcome
    case NoHandler => FinishRow(job, Failed, Some("no handler for '" + job.jobType + "'"))
    case Success => FinishRow(job, Completed, None)
    case CancelSeen => FinishRow(job, Cancelled, None)
    case PermanentError(message) => FailRow(job, message, false)
    case TransientError(message) => FailRow(job, message, true)
  }

  predicate Terminal(status: Status) {
    status == Completed || status == Failed || status == Cancelled
  }

  /** Not held by any worker. */
  predicate Settled(status: Status) {
    status == Queued || Terminal(status)
  }

  // ----- one worker draining the queue

  /** Runs a leasable job still has in it: at least one, and as many as its attempt budget leaves. */
  function Weight(job: Job, now: int): nat {
    if !Leasable(job, now) then 0
    else if job.attempts + 1 < MAX_ATTEMPTS then MAX_ATTEMPTS - job.attempts
    else 1
  }

  function TotalWeight(jobs: seq<Job>, now: int): nat {
    if jobs == [] then 0 else Weight(jobs[0], now) + TotalWeight(jobs[1..], now)
  }

  lemma {:induction false} TotalWeightUpdate(jobs: seq<Job>, j: nat, job: Job, now: int)
    requires j < |jobs|
    ensures TotalWeight(jobs[j := job], now) == TotalWeight(jobs, now) - Weight(jobs[j], now) + Weight(job, now)
  {
    hide Weight;
    if j == 0 {
      assert jobs[0 := job][1..] == jobs[1..];
    } else {
      assert jobs[j := job][1..] == jobs[1..][j - 1 := job];
      TotalWeightUpdate(jobs[1..], j - 1, job, now);
    }
  }

  /** Leasing a job and settling it, however the handler ended, uses up at least one of its runs. */
  lemma RunUsesWeight(job: Job, owner: string, now: int, leaseFor: nat, outcome: Outcome)
    requires Leasable(job, now)
    ensures Weight(SettleRow(LeaseRow(job, owner, now, leaseFor), outcome), now) < Weight(job, now)
  {
  }

  /** One job run by a worker, and how its handler call ended. */
  datatype Execution = Execution(job: nat, outcome: Outcome)

  /** The table after these executions, each leasing its job and settling it. */
  ghost function AfterLog(rows: seq<Job>, log: seq<Execution>, owner: string, now: int, leaseFor: nat): (r: seq<Job>)
    ensures |r| == |rows|
    decreases |log|
  {
    if log == [] then rows
    else
      var before, run := AfterLog(rows, log[..|log| - 1], owner, now, leaseFor), log[|log| - 1];
      if run.job >= |rows| then before
      else before[run.job := SettleRow(LeaseRow(before[run.job], owner, now, leaseFor), run.outcome)]
  }

  /** No leasable row is older. */
  ghost predicate OldestLeasable(rows: seq<Job>, j: nat, now: int) {
    && j < |rows| && Leasable(rows[j], now)
    && forall i :: 0 <= i < |rows| && Leasable(rows[i], now) ==> rows[j].createdAt <= rows[i].createdAt
  }

  /** Each execution is of an oldest leasable job, and ends as the handler says. */
  ghost predicate IsDrain(rows: seq<Job>, log: seq<Execution>, owner: string, now: int, leaseFor: nat,
                          handler: (nat, nat) -> Outcome) {
    forall n :: 0 <= n < |log| ==>
      && OldestLeasable(AfterLog(rows, log[..n], owner, now, leaseFor), log[n].job, now)
      && log[n].outcome == handler(n, log[n].job)
  }

  lemma NothingRun(rows: seq<Job>, owner: string, now: int, leaseFor: nat, handler: (nat, nat) -> Outcome)
    ensures AfterLog(rows, [], owner, now, leaseFor) == rows && IsDrain(rows, [], owner, now, leaseFor, handler)
  {
  }

  lemma OneMoreRun(rows: seq<Job>, log: seq<Execution>, run: Execution, owner: string, now: int, leaseFor: nat,
                   handler: (nat, nat) -> Outcome)
    requires IsDrain(rows, log, owner, now, leaseFor, handler)
    requires OldestLeasable(AfterLog(rows, log, owner, now, leaseFor), run.job, now)
    requires run.outcome == handler(|log|, run.job)
    ensures IsDrain(rows, log + [run], owner, now, leaseFor, handler)
    ensures var before := AfterLog(rows, log, owner, now, leaseFor);
      AfterLog(rows, log + [run], owner, now, leaseFor) ==
        before[run.job := SettleRow(LeaseRow(before[run.job], owner, now, leaseFor), run.outcome)]
  {
    hide Leasable, SettleRow, LeaseRow;
    var more := log + [run];
    assert more[..|log|] == log && |more| - 1 == |log| && more[|log|] == run;
    assert run.job < |rows|;
    forall n | 0 <= n < |more|
      ensures OldestLeasable(AfterLog(rows, more[..n], owner, now, leaseFor), more[n].job, now)
      ensures more[n].outcome == handler(n, more[n].job)
    {
      if n < |log| {
        assert more[..n] == log[..n];
      }
    }
  }

  /** The jobs table. */
  class JobTable {
    var rows: seq<Job>

    constructor ()
      ensures rows == []
    {
      rows := [];
    }

    /** `enqueue_job` */
    method EnqueueJob(jobType: string, createdAt: int) returns (id: nat)
      modifies this
      ensures id == old(|rows|) && rows == old(rows) + [NewRow(jobType, createdAt)]
      ensures var job := rows[id];
        && job.jobType == jobType && job.createdAt == createdAt && job.status == Queued && job.attempts == 0
        && job.leaseOwner == None && job.leaseExpiresAt == None && !job.cancelRequested && job.lastError == None
    {
      id := |rows|;
      rows := rows + [NewRow(jobType, createdAt)];
    }

    /** `request_cancel` */
    method RequestCancel(id: nat) returns (outcome: CancelOutcome)
      requires id < |rows|
      modifies this
      ensures rows == old(rows[id := CancelRow(rows[id]).0]) && outcome == old(CancelRow(rows[id]).1)
      ensures match old(rows[id].status)
        case Queued => outcome == WasCancelled && rows[id] == old(rows[id]).(status := Cancelled)
        case Leased => outcome == Requested && rows[id] == old(rows[id]).(cancelRequested := true)
        case Running => outcome == Requested && rows[id] == old(rows[id]).(cancelRequested := true)
        case Completed => outcome == NotCancellable && rows == old(rows)
        case Failed => outcome == NotCancellable && rows == old(rows)
        case Cancelled => outcome == NotCancellable && rows == old(rows)
    {
      var job := rows[id];
      if job.status == Queued {
        rows := rows[id := job.(status := Cancelled)];
        return WasCancelled;
      }
      if job.status == Leased || job.status == Running {
        rows := rows[id := job.(cancelRequested := true)];
        return Requested;
      }
      assert rows == rows[id := job];
      return NotCancellable;
    }

    /** `lease_next_job`: the oldest leasable row, the earliest inserted among equals. */
    method LeaseNextJob(owner: string, now: int, leaseFor: nat) returns (leased: Option<nat>)
      modifies this
      ensures leased.None? ==> rows == old(rows) && forall j :: 0 <= j < |rows| ==> !Leasable(rows[j], now)
      ensures leased.Some? ==>
        && leased.value < |old(rows)| && Leasable(old(rows)[leased.value], now)
        && (forall j :: 0 <= j < |old(rows)| && Leasable(old(rows)[j], now) ==>
          old(rows)[leased.value].createdAt <= old(rows)[j].createdAt)
        && rows == old(rows)[leased.value := LeaseRow(old(rows)[leased.value], owner, now, leaseFor)]
      ensures leased.Some? ==>
        var before, after := old(rows)[leased.value], rows[leased.value];
        && after.status == Leased && after.leaseOwner == Some(owner)
        && after.leaseExpiresAt == Some(now + leaseFor) && after.attempts == before.attempts + 1
        && after.cancelRequested == before.cancelRequested && after.lastError == before.lastError
        && after.jobType == before.jobType && after.createdAt == before.createdAt
    {
      leased := None;
      for j := 0 to |rows|
        invariant rows == old(rows)
        invariant leased.Some? ==> leased.value < j && Leasable(rows[leased.value], now)
        invariant forall i :: 0 <= i < j && Leasable(rows[i], now) ==>
          leased.Some? && rows[leased.value].createdAt <= rows[i].createdAt
      {
        if Leasable(rows[j], now) && (leased.None? || rows[j].createdAt < rows[leased.value].createdAt) {
          leased := Some(j);
        }
      }
      if leased.Some? {
        rows := rows[leased.value := LeaseRow(rows[leased.value], owner, now, leaseFor)];
      }
    }

    /**
     `run_pending_jobs` with no other worker active and no lease expiring during the run: `now` is
     fixed, and `handler(n, id)` says how the nth execution ends.
     */
    method RunPendingJobs(owner: string, now: int, leaseFor: nat, handler: (nat, nat) -> Outcome, maxJobs: Option<nat>)
      returns (executed: nat, ghost log: seq<Execution>)
      modifies this
      ensures |log| == executed && IsDrain(old(rows), log, owner, now, leaseFor, handler)
      ensures rows == AfterLog(old(rows), log, owner, now, leaseFor)
      ensures maxJobs.None? || executed < maxJobs.value ==> forall j :: 0 <= j < |rows| ==> !Leasable(rows[j], now)
      ensures |rows| == old(|rows|)
      ensures executed + TotalWeight(rows, now) <= old(TotalWeight(rows, now))
      ensures maxJobs.Some? ==> executed <= maxJobs.value
      ensures maxJobs.None? || executed < maxJobs.value ==> forall j :: 0 <= j < |rows| ==>
        if old(Leasable(rows[j], now)) then Terminal(rows[j].status) else rows[j] == old(rows[j])
      ensures forall j :: 0 <= j < |rows| ==> old(rows[j].cancelRequested) == rows[j].cancelRequested
    {
      hide TotalWeight, Weight, SettleRow, LeaseRow, Leasable, Drained, AfterLog, IsDrain;
      executed, log := 0, [];
      NothingRun(rows, owner, now, leaseFor, handler);
      DrainedAtFirst(rows, now);
      while maxJobs.None? || executed < maxJobs.value
        invariant Drained(old(rows), rows, now)
        invariant executed + TotalWeight(rows, now) <= old(TotalWeight(rows, now))
        invariant maxJobs.Some? ==> executed <= maxJobs.value
        invariant |log| == executed && IsDrain(old(rows), log, owner, now, leaseFor, handler)
        invariant rows == AfterLog(old(rows), log, owner, now, leaseFor)
        decreases TotalWeight(rows, now)
      {
        ghost var before := rows;
        var leased := LeaseNextJob(owner, now, leaseFor);
        if leased.None? {
          DrainedIs(old(rows), rows, now);
          return;
        }
        var id := leased.value;
        var outcome := handler(executed, id);
        rows := rows[id := SettleRow(rows[id], outcome)];
        DrainStep(before, rows, id, owner, now, leaseFor, outcome);
        DrainedStep(old(rows), before, rows, id, owner, now, leaseFor, outcome);
        OneMoreRun(old(rows), log, Execution(id, outcome), owner, now, leaseFor, handler);
        executed, log := executed + 1, log + [Execution(id, outcome)];
      }
      DrainedIs(old(rows), rows, now);
    }
  }

  /** A drain so far: each row is as it was, or was leasable and is settled; no cancel flag changed. */
  ghost predicate Drained(first: seq<Job>, rows: seq<Job>, now: int) {
    |rows| == |first| && forall j :: 0 <= j < |rows| ==>
      && rows[j].cancelRequested == first[j].cancelRequested
      && (rows[j] == first[j] || (Leasable(first[j], now) && Settled(rows[j].status)))
  }

  lemma DrainedAtFirst(rows: seq<Job>, now: int)
    ensures Drained(rows, rows, now)
  {
  }

  lemma DrainedStep(first: seq<Job>, before: seq<Job>, after: seq<Job>, id: nat, owner: string, now: int, leaseFor: nat,
                    outcome: Outcome)
    requires Drained(first, before, now) && id < |before| && Leasable(before[id], now)
    requires after == before[id := SettleRow(LeaseRow(before[id], owner, now, leaseFor), outcome)]
    ensures Drained(first, after, now)
  {
    assert Settled(SettleRow(LeaseRow(before[id], owner, now, leaseFor), outcome).status);
    assert Leasable(first[id], now);
  }

  lemma DrainedIs(first: seq<Job>, rows: seq<Job>, now: int)
    requires Drained(first, rows, now)
    ensures |rows| == |first| && forall j :: 0 <= j < |rows| ==> first[j].cancelRequested == rows[j].cancelRequested
    ensures (forall j :: 0 <= j < |rows| ==> !Leasable(rows[j], now)) ==>
      forall j :: 0 <= j < |rows| ==> if Leasable(first[j], now) then Terminal(rows[j].status) else rows[j] == first[j]
  {
  }

  lemma DrainStep(before: seq<Job>, after: seq<Job>, id: nat, owner: string, now: int, leaseFor: nat, outcome: Outcome)
    requires id < |before| && Leasable(before[id], now)
    requires after == before[id := SettleRow(LeaseRow(before[id], owner, now, leaseFor), outcome)]
    ensures TotalWeight(after, now) < TotalWeight(before, now)
  {
    RunUsesWeight(before[id], owner, now, leaseFor, outcome);
    TotalWeightUpdate(before, id, SettleRow(LeaseRow(before[id], owner, now, leaseFor), outcome), now);
  }
}

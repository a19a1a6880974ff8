/** What the queue promises a job: how each ending of its handler settles it, and how often it is run. */
module JobLaws {
  import opened Ordering
  import opened JobQueue
  import opened JobProtocol

  // ----- one ending

  /** The recorded error is the first 2048 characters of the message; a job that fails with no message records none. */
  ghost predicate Records(recorded: Option<string>, message: string) {
    || (message == "" && recorded == None)
    || (message != "" && |message| <= 2048 && recorded == Some(message))
    || (|message| > 2048 && recorded.Some? && |recorded.value| == 2048 && recorded.value <= message)
  }

  /**
  Only a transient error is retried, and only below three attempts; a success, a cancellation, a permanent error and a
  missing handler end the job at any attempt count. The lease is given up and nothing else changes.
  */
  lemma SettlePolicy(job: Job, outcome: Outcome)
    ensures var settled := SettleRow(job, outcome);
      && settled.leaseOwner == None && settled.leaseExpiresAt == None
      && settled.jobType == job.jobType && settled.createdAt == job.createdAt
      && settled.attempts == job.attempts && settled.cancelRequested == job.cancelRequested
      && match outcome
        case NoHandler => settled.status == Failed && Records(settled.lastError, "no handler for '" + job.jobType + "'")
        case Success => settled.status == Completed && settled.lastError == None
        case CancelSeen => settled.status == Cancelled && settled.lastError == None
        case PermanentError(message) => settled.status == Failed && Records(settled.lastError, message)
        case TransientError(message) =>
          if job.attempts < 3 then
            settled.status == Queued &&
            if message == "" then settled.lastError == Some("") else Records(settled.lastError, message)
          else settled.status == Failed && Records(settled.lastError, message)
  {
  }

  /** A queued job can be leased, an ended one never, a held one exactly when its lease is over. */
  lemma LeasableWhen(job: Job, now: int)
    ensures Leasable(job, now) <==>
      match job.status
      case Queued => true
      case Completed => false
      case Failed => false
      case Cancelled => false
      case Leased => exists expiry :: job.leaseExpiresAt == Some(expiry) && expiry < now
      case Running => exists expiry :: job.leaseExpiresAt == Some(expiry) && expiry < now
  {
  }

  /** The step settles job `j`. */
  predicate Settles(s: State, step: Step, j: nat)
    requires Enabled(s, step)
  {
    match step
    case RejectUnknown(w) => s.workers[w].job == j
    case Complete(w) => s.workers[w].job == j
    case Record(w) => s.workers[w].job == j
    case _ => false
  }

  /** The status a step that settles a job leaves it in. */
  ghost predicate SettledAs(s: State, step: Step, job: Job, status: Status)
    requires Enabled(s, step)
  {
    match step
    case RejectUnknown(_) => status == Failed
    case Complete(_) => status == Completed
    case Record(w) =>
      (match s.workers[w].outcome
      case CancelSeen => status == Cancelled
      case PermanentError(_) => status == Failed
      case TransientError(_) => status == if job.attempts < 3 then Queued else Failed)
    case _ => true
  }

  /** What a step of the several workers does to one row of the table; every other row stays as it is. */
  lemma StepRow(s: State, step: Step, j: nat)
    requires Enabled(s, step) && j < |s.jobs|
    ensures j < |Apply(s, step).jobs|
    ensures var job, next := s.jobs[j], Apply(s, step).jobs[j];
      if step.Lease? && step.job == j then
        && (job.status == Queued || (job.leaseExpiresAt.Some? && job.leaseExpiresAt.value < s.now))
        && next == job.(status := Leased, leaseOwner := Some(step.owner),
                        leaseExpiresAt := Some(s.now + step.leaseFor), attempts := job.attempts + 1)
      else if step == Cancel(j) then
        next == if job.status == Queued then job.(status := Cancelled)
                else if Terminal(job.status) then job
                else job.(cancelRequested := true)
      else if Settles(s, step, j) then
        && SettledAs(s, step, job, next.status)
        && next == job.(status := next.status, lastError := next.lastError, leaseOwner := None, leaseExpiresAt := None)
      else next == job
  {
    hide NextToLease, Locked;
    if step.Lease? {
      Leasing(s, step.job);
    }
  }

  /** The step leases job `j` from a worker whose lease is over. */
  ghost predicate TakesOver(s: State, step: Step, j: nat) {
    step.Lease? && step.job == j && j < |s.jobs| && s.jobs[j].status != Queued
  }

  /** How many steps of the run take job `j` over. */
  ghost function Takeovers(s: State, steps: seq<Step>, j: nat): nat
    requires Valid(s, steps)
    decreases |steps|
  {
    if steps == [] then 0
    else (if TakesOver(s, steps[0], j) then 1 else 0) + Takeovers(Apply(s, steps[0]), steps[1..], j)
  }

  /** The step commits the writes of a handler of job `j`. */
  ghost predicate Completes(s: State, step: Step, j: nat)
    requires Enabled(s, step)
  {
    step.Complete? && s.workers[step.worker].job == j
  }

  /** How many steps of the run commit the writes of a handler of job `j`. */
  ghost function Commits(s: State, steps: seq<Step>, j: nat): nat
    requires Valid(s, steps)
    decreases |steps|
  {
    if steps == [] then 0
    else (if Completes(s, steps[0], j) then 1 else 0) + Commits(Apply(s, steps[0]), steps[1..], j)
  }

  lemma StepCounts(s: State, step: Step, j: nat)
    requires TableOk(s) && Enabled(s, step) && j < |s.jobs|
    ensures |Apply(s, step).jobs| == |Apply(s, step).takeovers| == |Apply(s, step).effects| > j
    ensures Apply(s, step).takeovers[j] == s.takeovers[j] + if TakesOver(s, step, j) then 1 else 0
    ensures Apply(s, step).effects[j] == s.effects[j] + if Completes(s, step, j) then 1 else 0
  {
    hide NextToLease, Locked, RowOk;
    if step.Lease? {
      Leasing(s, step.job);
    }
  }

  /** The two counters of a row count its takeovers and its commits, over every run. */
  lemma {:induction false} RunCounts(s: State, steps: seq<Step>, j: nat)
    requires TableOk(s) && Valid(s, steps) && j < |s.jobs|
    ensures j < |Run(s, steps).takeovers| && j < |Run(s, steps).effects|
    ensures Run(s, steps).takeovers[j] == s.takeovers[j] + Takeovers(s, steps, j)
    ensures Run(s, steps).effects[j] == s.effects[j] + Commits(s, steps, j)
    decreases |steps|
  {
    if steps != [] {
      StepCounts(s, steps[0], j);
      StepKeepsTable(s, steps[0]);
      hide Enabled, Apply, TableOk, TakesOver, Completes;
      RunCounts(Apply(s, steps[0]), steps[1..], j);
    }
  }

  lemma Leasing(s: State, j: nat)
    requires NextToLease(s, j)
    ensures j < |s.jobs| && Leasable(s.jobs[j], s.now)
  {
  }

  // ----- a whole drain, job by job

  /** How the executions of job `j` ended, in turn. */
  ghost function Endings(log: seq<Execution>, j: nat): seq<Outcome>
    decreases |log|
  {
    if log == [] then []
    else
      var last := log[|log| - 1];
      Endings(log[..|log| - 1], j) + if last.job == j then [last.outcome] else []
  }

  /** The status a job is left with by its last ending, after `attempts` attempts. */
  function FinalStatus(outcome: Outcome, attempts: nat): Status {
    match outcome
    case NoHandler => Failed
    case Success => Completed
    case CancelSeen => Cancelled
    case PermanentError(_) => Failed
    case TransientError(_) => if attempts < 3 then Queued else Failed
  }

  /** `row` is what `job` becomes when its executions end as `endings` say. */
  ghost predicate Became(row: Job, job: Job, endings: seq<Outcome>) {
    && row.attempts == job.attempts + |endings|
    && row.jobType == job.jobType && row.createdAt == job.createdAt && row.cancelRequested == job.cancelRequested
    && (endings == [] ==> row == job)
    && (endings != [] ==>
      var last := endings[|endings| - 1];
      && row.status == FinalStatus(last, job.attempts + |endings|)
      && row.leaseOwner == None && row.leaseExpiresAt == None
      && row.lastError == SettleRow(row, last).lastError)
  }

  /** Every ending before the last one is a transient error, below the limit of three attempts. */
  ghost predicate Retried(endings: seq<Outcome>, attempts: nat) {
    forall i :: 0 <= i < |endings| - 1 ==> endings[i].TransientError? && attempts + i + 1 < 3
  }

  lemma BecomesOneMore(row: Job, job: Job, endings: seq<Outcome>, outcome: Outcome, owner: string, now: int,
                       leaseFor: nat)
    requires Became(row, job, endings) && Retried(endings, job.attempts) && Leasable(row, now)
    ensures Became(SettleRow(LeaseRow(row, owner, now, leaseFor), outcome), job, endings + [outcome])
    ensures Retried(endings + [outcome], job.attempts)
  {
    var more := endings + [outcome];
    forall i | 0 <= i < |more| - 1 ensures more[i].TransientError? && job.attempts + i + 1 < 3 {
      assert more[i] == endings[i];
    }
  }

  /** Each row is what its own executions make of it, and only transient errors below the limit were run again. */
  lemma {:induction false} DrainedRow(rows: seq<Job>, log: seq<Execution>, owner: string, now: int, leaseFor: nat,
                                      handler: (nat, nat) -> Outcome, j: nat)
    requires j < |rows| && IsDrain(rows, log, owner, now, leaseFor, handler)
    ensures Became(AfterLog(rows, log, owner, now, leaseFor)[j], rows[j], Endings(log, j))
    ensures Retried(Endings(log, j), rows[j].attempts)
    ensures Endings(log, j) != [] ==> Leasable(rows[j], now)
    decreases |log|
  {
    hide Became, Retried, Leasable, SettleRow, LeaseRow;
    if log == [] {
      NothingBecame(rows[j]);
    } else {
      var before, run := log[..|log| - 1], log[|log| - 1];
      DrainPrefix(rows, log, owner, now, leaseFor, handler);
      DrainedRow(rows, before, owner, now, leaseFor, handler, j);
      if run.job == j {
        var row := AfterLog(rows, before, owner, now, leaseFor)[j];
        assert OldestLeasable(AfterLog(rows, before, owner, now, leaseFor), j, now);
        BecomesOneMore(row, rows[j], Endings(before, j), run.outcome, owner, now, leaseFor);
        if Endings(before, j) == [] {
          BecameNothing(row, rows[j]);
        }
      } else {
        assert Endings(log, j) == Endings(before, j);
      }
    }
  }

  lemma NothingBecame(job: Job)
    ensures Became(job, job, []) && Retried([], job.attempts)
  {
  }

  lemma BecameNothing(row: Job, job: Job)
    requires Became(row, job, [])
    ensures row == job
  {
  }

  lemma DrainPrefix(rows: seq<Job>, log: seq<Execution>, owner: string, now: int, leaseFor: nat,
                    handler: (nat, nat) -> Outcome)
    requires log != [] && IsDrain(rows, log, owner, now, leaseFor, handler)
    ensures IsDrain(rows, log[..|log| - 1], owner, now, leaseFor, handler)
  {
    hide OldestLeasable;
    var before := log[..|log| - 1];
    forall n | 0 <= n < |before|
      ensures OldestLeasable(AfterLog(rows, before[..n], owner, now, leaseFor), before[n].job, now)
      ensures before[n].outcome == handler(n, before[n].job)
    {
      assert before[..n] == log[..n];
    }
  }

  /** Nothing is left to lease. */
  ghost predicate Emptied(rows: seq<Job>, now: int) {
    forall j :: 0 <= j < |rows| ==> !Leasable(rows[j], now)
  }

  /**
  When the queue is emptied a job that could be leased was run until an ending that is not retried: every ending but
  the last is a transient error below the limit, the last is not, and it decides the job's status and last error.
  */
  lemma EmptiedRow(rows: seq<Job>, log: seq<Execution>, owner: string, now: int, leaseFor: nat,
                   handler: (nat, nat) -> Outcome, j: nat)
    requires j < |rows| && IsDrain(rows, log, owner, now, leaseFor, handler) && Leasable(rows[j], now)
    requires Emptied(AfterLog(rows, log, owner, now, leaseFor), now)
    ensures var endings := Endings(log, j);
      && endings != [] && Retried(endings, rows[j].attempts)
      && (endings[|endings| - 1].TransientError? ==> rows[j].attempts + |endings| >= 3)
      && Became(AfterLog(rows, log, owner, now, leaseFor)[j], rows[j], endings)
  {
    DrainedRow(rows, log, owner, now, leaseFor, handler, j);
    hide AfterLog, IsDrain;
    var row := AfterLog(rows, log, owner, now, leaseFor)[j];
    assert !Leasable(row, now);
    assert row == rows[j] || row.status != Queued;
  }

  /** A job whose handler never ends with a transient error is run exactly once, and ends as that run did. */
  lemma RunOnce(rows: seq<Job>, log: seq<Execution>, owner: string, now: int, leaseFor: nat,
                handler: (nat, nat) -> Outcome, j: nat)
    requires j < |rows| && IsDrain(rows, log, owner, now, leaseFor, handler) && Leasable(rows[j], now)
    requires Emptied(AfterLog(rows, log, owner, now, leaseFor), now)
    requires forall n :: !handler(n, j).TransientError?
    ensures exists n :: Endings(log, j) == [handler(n, j)]
    ensures var row := AfterLog(rows, log, owner, now, leaseFor)[j];
      && row.attempts == rows[j].attempts + 1
      && match Endings(log, j)[0]
        case NoHandler => row.status == Failed && Records(row.lastError, "no handler for '" + rows[j].jobType + "'")
        case Success => row.status == Completed && row.lastError == None
        case CancelSeen => row.status == Cancelled && row.lastError == None
        case PermanentError(message) => row.status == Failed && Records(row.lastError, message)
        case TransientError(_) => false
  {
    EmptiedRow(rows, log, owner, now, leaseFor, handler, j);
    EndingsHandled(rows, log, owner, now, leaseFor, handler, j);
    hide AfterLog, IsDrain, Emptied, Endings, SettleRow;
    var endings := Endings(log, j);
    assert !endings[0].TransientError?;
    assert |endings| == 1;
    var n :| endings[0] == handler(n, j);
    assert endings == [handler(n, j)];
    SettlePolicy(AfterLog(rows, log, owner, now, leaseFor)[j], endings[0]);
  }

  /** A job whose handler always ends with a transient error is run up to its third attempt, and then fails. */
  lemma RunThrice(rows: seq<Job>, log: seq<Execution>, owner: string, now: int, leaseFor: nat,
                  handler: (nat, nat) -> Outcome, j: nat)
    requires j < |rows| && IsDrain(rows, log, owner, now, leaseFor, handler) && Leasable(rows[j], now)
    requires Emptied(AfterLog(rows, log, owner, now, leaseFor), now)
    requires forall n :: handler(n, j).TransientError?
    ensures |Endings(log, j)| == if rows[j].attempts < 3 then 3 - rows[j].attempts else 1
    ensures var row := AfterLog(rows, log, owner, now, leaseFor)[j];
      exists n :: row.status == Failed && Records(row.lastError, handler(n, j).message)
  {
    EmptiedRow(rows, log, owner, now, leaseFor, handler, j);
    EndingsHandled(rows, log, owner, now, leaseFor, handler, j);
    hide AfterLog, IsDrain, Emptied, Endings, SettleRow, Records;
    var endings, row := Endings(log, j), AfterLog(rows, log, owner, now, leaseFor)[j];
    assert exists n :: endings[|endings| - 1] == handler(n, j);
    var n :| endings[|endings| - 1] == handler(n, j);
    if |endings| > 1 {
      assert endings[|endings| - 2].TransientError?;
    }
    SettlePolicy(row, handler(n, j));
  }

  /** Each of these endings is one the handler gives job `j`. */
  ghost predicate Handled(endings: seq<Outcome>, handler: (nat, nat) -> Outcome, j: nat) {
    forall i :: 0 <= i < |endings| ==> exists n :: endings[i] == handler(n, j)
  }

  lemma NoneHandled(handler: (nat, nat) -> Outcome, j: nat)
    ensures Handled([], handler, j)
  {
  }

  lemma HandledMore(endings: seq<Outcome>, outcome: Outcome, n: nat, handler: (nat, nat) -> Outcome, j: nat)
    requires Handled(endings, handler, j) && outcome == handler(n, j)
    ensures Handled(endings + [outcome], handler, j)
  {
    var more := endings + [outcome];
    forall i | 0 <= i < |more| ensures exists n :: more[i] == handler(n, j) {
      if i < |endings| {
        assert more[i] == endings[i];
      } else {
        assert more[i] == handler(n, j);
      }
    }
  }

  lemma {:induction false} EndingsHandled(rows: seq<Job>, log: seq<Execution>, owner: string, now: int, leaseFor: nat,
                                          handler: (nat, nat) -> Outcome, j: nat)
    requires IsDrain(rows, log, owner, now, leaseFor, handler)
    ensures Handled(Endings(log, j), handler, j)
    decreases |log|
  {
    hide OldestLeasable, Handled, AfterLog;
    if log != [] {
      DrainPrefix(rows, log, owner, now, leaseFor, handler);
      EndingsHandled(rows, log[..|log| - 1], owner, now, leaseFor, handler, j);
      var earlier, last := Endings(log[..|log| - 1], j), log[|log| - 1];
      if last.job == j {
        HandledMore(earlier, last.outcome, |log| - 1, handler, j);
      }
      assert earlier + [] == earlier;
    } else {
      NoneHandled(handler, j);
    }
  }
}

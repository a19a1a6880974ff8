/**
The job queue as a step system: several workers, a clock, crashes, retries and cancellation.

Each transaction is one step on the committed table. A worker holds the row lock from the flush
that marks the job running until it commits or rolls back, so the running status is never committed.
A cancel reads and updates its row under the row lock too, so it waits for a handler at work.
*/
module JobProtocol {
  import opened Ordering
  import opened JobQueue

  predicate IsFailure(outcome: Outcome) {
    outcome.CancelSeen? || outcome.PermanentError? || outcome.TransientError?
  }

  type Failure = o: Outcome | IsFailure(o) witness CancelSeen

  /**
  Where a worker stands: `Holding` after the lease commits, `Working` while the handler runs, `RolledBack` before a
  failure is recorded.
  */
  datatype Phase =
    | Idle
    | Holding(job: nat, deadline: int)
    | Working(job: nat, deadline: int)
    | RolledBack(job: nat, deadline: int, outcome: Failure)

  /**
  `effects` counts, per job, the handler runs whose writes were committed; `takeovers` the leases taken from an expired
  holder.
  */
  datatype State = State(now: int, jobs: seq<Job>, workers: seq<Phase>, effects: seq<nat>, takeovers: seq<nat>)

  datatype Step =
    | Tick(now: int)
    | Enqueue(jobType: string, createdAt: int)
    | Cancel(job: nat)
    | Lease(worker: nat, job: nat, owner: string, leaseFor: nat)
    | RejectUnknown(worker: nat)
    | Start(worker: nat)
    | Complete(worker: nat)
    | Rollback(worker: nat, outcome: Failure)
    | Record(worker: nat)
    | Crash(worker: nat)

  predicate InFlight(p: Phase) {
    !p.Idle?
  }

  predicate InFlightOn(s: State, w: nat, j: nat) {
    w < |s.workers| && InFlight(s.workers[w]) && s.workers[w].job == j
  }

  /** Some worker's open transaction holds the row lock. */
  predicate Locked(s: State, j: nat) {
    exists w :: 0 <= w < |s.workers| && s.workers[w].Working? && s.workers[w].job == j
  }

  /** The oldest leasable row no transaction has locked. */
  predicate NextToLease(s: State, j: nat) {
    && j < |s.jobs| && Leasable(s.jobs[j], s.now) && !Locked(s, j)
    && forall i :: 0 <= i < |s.jobs| && Leasable(s.jobs[i], s.now) && !Locked(s, i) ==>
      s.jobs[j].createdAt <= s.jobs[i].createdAt
  }

  predicate Enabled(s: State, step: Step) {
    match step
    case Tick(now) => s.now < now
    case Enqueue(_, _) => true
    case Cancel(j) => j < |s.jobs| && !Locked(s, j)
    case Lease(w, j, _, _) => w < |s.workers| && s.workers[w].Idle? && NextToLease(s, j)
    case RejectUnknown(w) => w < |s.workers| && s.workers[w].Holding? && !Locked(s, s.workers[w].job)
    case Start(w) => w < |s.workers| && s.workers[w].Holding? && !Locked(s, s.workers[w].job)
    case Complete(w) => w < |s.workers| && s.workers[w].Working?
    case Rollback(w, outcome) =>
      && w < |s.workers| && s.workers[w].Working?
      && (outcome.CancelSeen? && s.workers[w].job < |s.jobs| ==> s.jobs[s.workers[w].job].cancelRequested)
    case Record(w) => w < |s.workers| && s.workers[w].RolledBack? && !Locked(s, s.workers[w].job)
    case Crash(w) => w < |s.workers|
  }

  /** The worker commits `outcome` for the job it holds and becomes idle. */
  function Settle(s: State, w: nat, outcome: Outcome): State
    requires w < |s.workers| && InFlight(s.workers[w])
  {
    var j := s.workers[w].job;
    var idle := s.(workers := s.workers[w := Idle]);
    if j < |s.jobs| then idle.(jobs := s.jobs[j := SettleRow(s.jobs[j], outcome)]) else idle
  }

  function Apply(s: State, step: Step): State
    requires Enabled(s, step)
  {
    match step
    case Tick(now) => s.(now := now)
    case Enqueue(jobType, createdAt) =>
      s.(jobs := s.jobs + [NewRow(jobType, createdAt)], effects := s.effects + [0], takeovers := s.takeovers + [0])
    case Cancel(j) => s.(jobs := s.jobs[j := CancelRow(s.jobs[j]).0])
    case Lease(w, j, owner, leaseFor) =>
      s.(jobs := s.jobs[j := LeaseRow(s.jobs[j], owner, s.now, leaseFor)],
         workers := s.workers[w := Holding(j, s.now + leaseFor)],
         takeovers := if s.jobs[j].status == Queued || j >= |s.takeovers| then s.takeovers
                      else s.takeovers[j := s.takeovers[j] + 1])
    case RejectUnknown(w) => Settle(s, w, NoHandler)
    case Start(w) => s.(workers := s.workers[w := Working(s.workers[w].job, s.workers[w].deadline)])
    case Complete(w) =>
      var j := s.workers[w].job;
      Settle(s, w, Success).(effects := if j < |s.effects| then s.effects[j := s.effects[j] + 1] else s.effects)
    case Rollback(w, outcome) =>
      s.(workers := s.workers[w := RolledBack(s.workers[w].job, s.workers[w].deadline, outcome)])
    case Record(w) => Settle(s, w, s.workers[w].outcome)
    case Crash(w) => s.(workers := s.workers[w := Idle])
  }

  // ----- runs

  /** Every step is enabled where it is taken. */
  predicate Valid(s: State, steps: seq<Step>)
    decreases |steps|
  {
    steps == [] || (Enabled(s, steps[0]) && Valid(Apply(s, steps[0]), steps[1..]))
  }

  function Run(s: State, steps: seq<Step>): State
    requires Valid(s, steps)
    decreases |steps|
  {
    if steps == [] then s else Run(Apply(s, steps[0]), steps[1..])
  }

  predicate Init(s: State) {
    && s.jobs == [] && s.effects == [] && s.takeovers == []
    && forall w :: 0 <= w < |s.workers| ==> s.workers[w] == Idle
  }

  // ----- what every committed state satisfies

  /** The row invariant: a lease exactly while leased, never committed as running, retries only within the budget. */
  predicate RowOk(job: Job, takeovers: nat) {
    && job.status != Running
    && (job.status == Leased <==> job.leaseOwner.Some?)
    && (job.status == Leased <==> job.leaseExpiresAt.Some?)
    && (job.status == Queued ==> job.attempts < MAX_ATTEMPTS)
    && job.attempts <= MAX_ATTEMPTS + takeovers
  }

  ghost predicate TableOk(s: State) {
    && |s.effects| == |s.jobs| && |s.takeovers| == |s.jobs|
    && (forall j :: 0 <= j < |s.jobs| ==> RowOk(s.jobs[j], s.takeovers[j]))
    && (forall w :: 0 <= w < |s.workers| && InFlight(s.workers[w]) ==> s.workers[w].job < |s.jobs|)
  }

  lemma RowUpdates(job: Job, takeovers: nat, outcome: Outcome, owner: string, now: int, leaseFor: nat)
    requires RowOk(job, takeovers)
    ensures RowOk(SettleRow(job, outcome), takeovers)
    ensures RowOk(CancelRow(job).0, takeovers)
    ensures RowOk(LeaseRow(job, owner, now, leaseFor), if job.status == Queued then takeovers else takeovers + 1)
  {
  }

  lemma SettleKeepsTable(s: State, w: nat, outcome: Outcome)
    requires TableOk(s) && w < |s.workers| && InFlight(s.workers[w])
    ensures TableOk(Settle(s, w, outcome))
  {
    var j := s.workers[w].job;
    RowUpdates(s.jobs[j], s.takeovers[j], outcome, "", 0, 0);
    hide RowOk, SettleRow;
  }

  lemma StepKeepsTable(s: State, step: Step)
    requires TableOk(s) && Enabled(s, step)
    ensures TableOk(Apply(s, step))
  {
    match step
    case Tick(_) =>
    case Enqueue(_, _) =>
    case Cancel(j) => RowUpdates(s.jobs[j], s.takeovers[j], Success, "", 0, 0);
    case Lease(w, j, owner, leaseFor) => RowUpdates(s.jobs[j], s.takeovers[j], Success, owner, s.now, leaseFor);
    case RejectUnknown(w) => SettleKeepsTable(s, w, NoHandler);
    case Start(w) =>
    case Complete(w) => SettleKeepsTable(s, w, Success);
    case Rollback(w, _) =>
    case Record(w) => SettleKeepsTable(s, w, s.workers[w].outcome);
    case Crash(w) =>
  }

  /** In every committed state of every run the table invariant holds. */
  lemma {:induction false} RunKeepsTable(s: State, steps: seq<Step>)
    requires TableOk(s) && Valid(s, steps)
    ensures TableOk(Run(s, steps))
    decreases |steps|
  {
    if steps != [] {
      hide Enabled, Apply, TableOk;
      StepKeepsTable(s, steps[0]);
      RunKeepsTable(Apply(s, steps[0]), steps[1..]);
    }
  }

  lemma InitTable(s: State, steps: seq<Step>)
    requires Init(s) && Valid(s, steps)
    ensures TableOk(Run(s, steps))
  {
    RunKeepsTable(s, steps);
  }

  // ----- what every run keeps, whatever the timing

  /** A cancellation request is never forgotten, and attempts are never given back. */
  ghost predicate RowsAdvance(a: State, b: State) {
    && |a.jobs| <= |b.jobs|
    && forall j :: 0 <= j < |a.jobs| ==>
      (a.jobs[j].cancelRequested ==> b.jobs[j].cancelRequested) && a.jobs[j].attempts <= b.jobs[j].attempts
  }

  lemma {:induction false} RunAdvancesRows(s: State, steps: seq<Step>)
    requires Valid(s, steps)
    ensures RowsAdvance(s, Run(s, steps))
    decreases |steps|
  {
    if steps != [] {
      var next := Apply(s, steps[0]);
      assert RowsAdvance(s, next);
      RunAdvancesRows(next, steps[1..]);
    }
  }

  /** How often the job is leased in these steps. */
  function Leases(steps: seq<Step>, j: nat): nat {
    if steps == [] then 0 else (if steps[0].Lease? && steps[0].job == j then 1 else 0) + Leases(steps[1..], j)
  }

  /** A row's attempts count the leases of its job. */
  lemma {:induction false} RunCountsAttempts(s: State, steps: seq<Step>, j: nat)
    requires Valid(s, steps) && j < |Run(s, steps).jobs|
    ensures Run(s, steps).jobs[j].attempts == (if j < |s.jobs| then s.jobs[j].attempts else 0) + Leases(steps, j)
    decreases |steps|
  {
    if steps != [] {
      StepCountsAttempts(s, steps[0], j);
      hide Enabled, Apply;
      RunCountsAttempts(Apply(s, steps[0]), steps[1..], j);
    }
  }

  lemma StepCountsAttempts(s: State, step: Step, j: nat)
    requires Enabled(s, step)
    ensures (if j < |Apply(s, step).jobs| then Apply(s, step).jobs[j].attempts else 0) ==
      (if j < |s.jobs| then s.jobs[j].attempts else 0) + if step.Lease? && step.job == j then 1 else 0
  {
  }

  /** How many workers have leased the job and not started it. */
  function Waiting(workers: seq<Phase>, j: nat): nat {
    if workers == [] then 0
    else (if workers[0].Holding? && workers[0].job == j then 1 else 0) + Waiting(workers[1..], j)
  }

  lemma {:induction false} WaitingUpdate(workers: seq<Phase>, w: nat, p: Phase, j: nat)
    requires w < |workers|
    ensures Waiting(workers[w := p], j) + (if workers[w].Holding? && workers[w].job == j then 1 else 0)
      == Waiting(workers, j) + if p.Holding? && p.job == j then 1 else 0
  {
    if w == 0 {
      assert workers[0 := p][1..] == workers[1..];
    } else {
      assert workers[w := p][1..] == workers[1..][w - 1 := p];
      WaitingUpdate(workers[1..], w - 1, p, j);
    }
  }

  /** The step starts a handler on the job. */
  predicate Starting(s: State, step: Step, j: nat) {
    step.Start? && step.worker < |s.workers| && !s.workers[step.worker].Idle? && s.workers[step.worker].job == j
  }

  /** How often a handler is started on the job in this run. */
  function Starts(s: State, steps: seq<Step>, j: nat): nat
    requires Valid(s, steps)
    decreases |steps|
  {
    if steps == [] then 0 else (if Starting(s, steps[0], j) then 1 else 0) + Starts(Apply(s, steps[0]), steps[1..], j)
  }

  lemma StepStarts(s: State, step: Step, j: nat)
    requires Enabled(s, step)
    ensures Waiting(Apply(s, step).workers, j) + (if Starting(s, step, j) then 1 else 0)
      <= Waiting(s.workers, j) + if step.Lease? && step.job == j then 1 else 0
  {
    hide Waiting, NextToLease, Locked;
    match step
    case Tick(_) =>
    case Enqueue(_, _) =>
    case Cancel(_) =>
    case Lease(w, _, _, _) => WaitingUpdate(s.workers, w, Apply(s, step).workers[w], j);
    case RejectUnknown(w) => WaitingUpdate(s.workers, w, Idle, j);
    case Start(w) => WaitingUpdate(s.workers, w, Apply(s, step).workers[w], j);
    case Complete(w) => WaitingUpdate(s.workers, w, Idle, j);
    case Rollback(w, _) => WaitingUpdate(s.workers, w, Apply(s, step).workers[w], j);
    case Record(w) => WaitingUpdate(s.workers, w, Idle, j);
    case Crash(w) => WaitingUpdate(s.workers, w, Idle, j);
  }

  /** Every start uses up a lease. */
  lemma {:induction false} StartsWithinLeases(s: State, steps: seq<Step>, j: nat)
    requires Valid(s, steps)
    ensures Starts(s, steps, j) + Waiting(Run(s, steps).workers, j) <= Leases(steps, j) + Waiting(s.workers, j)
    decreases |steps|
  {
    if steps != [] {
      StepStarts(s, steps[0], j);
      hide Enabled, Apply, Waiting, Starting;
      StartsWithinLeases(Apply(s, steps[0]), steps[1..], j);
    }
  }

  lemma {:induction false} NoneWaiting(workers: seq<Phase>, j: nat)
    requires forall w :: 0 <= w < |workers| ==> workers[w] == Idle
    ensures Waiting(workers, j) == 0
  {
    if workers != [] {
      NoneWaiting(workers[1..], j);
    }
  }

  /** With any number of workers, handlers start on a job at most as often as the limit and its takeovers allow. */
  lemma StartsBounded(s: State, steps: seq<Step>, j: nat)
    requires Init(s) && Valid(s, steps) && j < |Run(s, steps).jobs|
    ensures j < |Run(s, steps).takeovers| && Starts(s, steps, j) <= MAX_ATTEMPTS + Run(s, steps).takeovers[j]
  {
    InitTable(s, steps);
    RunCountsAttempts(s, steps, j);
    StartsWithinLeases(s, steps, j);
    NoneWaiting(s.workers, j);
    hide Run, Starts, Waiting, Leases;
  }

  /** At most one open transaction per job. */
  ghost predicate OneTransaction(s: State) {
    forall v, w :: 0 <= v < w < |s.workers| && s.workers[v].Working? && s.workers[w].Working? ==>
      s.workers[v].job != s.workers[w].job
  }

  lemma {:induction false} RunOneTransaction(s: State, steps: seq<Step>)
    requires OneTransaction(s) && Valid(s, steps)
    ensures OneTransaction(Run(s, steps))
    decreases |steps|
  {
    if steps != [] {
      var next := Apply(s, steps[0]);
      assert OneTransaction(next);
      RunOneTransaction(next, steps[1..]);
    }
  }

  /** A handler at work on the job throughout the run. */
  ghost predicate AtWork(s: State, steps: seq<Step>, j: nat)
    requires Valid(s, steps)
    decreases |steps|
  {
    Locked(s, j) && (steps != [] ==> AtWork(Apply(s, steps[0]), steps[1..], j))
  }

  lemma LockedFlag(s: State, step: Step, j: nat)
    requires Enabled(s, step) && Locked(s, j) && j < |s.jobs|
    ensures j < |Apply(s, step).jobs| && Apply(s, step).jobs[j].cancelRequested == s.jobs[j].cancelRequested
  {
    hide Locked;
  }

  /**
  While a handler is at work its job's cancel flag does not change: it can only see a request made before it started.
  */
  lemma {:induction false} FlagKeptAtWork(s: State, steps: seq<Step>, j: nat)
    requires Valid(s, steps) && AtWork(s, steps, j) && j < |s.jobs|
    ensures j < |Run(s, steps).jobs| && Run(s, steps).jobs[j].cancelRequested == s.jobs[j].cancelRequested
    decreases |steps|
  {
    if steps != [] {
      LockedFlag(s, steps[0], j);
      hide Enabled, Apply, Locked;
      FlagKeptAtWork(Apply(s, steps[0]), steps[1..], j);
    }
  }

  // ----- mutual exclusion, and exactly when it holds

  /** At most one worker per job between lease and commit. */
  ghost predicate Exclusive(s: State) {
    forall v, w :: 0 <= v < w < |s.workers| && InFlight(s.workers[v]) && InFlight(s.workers[w]) ==>
      s.workers[v].job != s.workers[w].job
  }

  /** The row of a job in flight carries its worker's lease. */
  ghost predicate HeldRows(s: State) {
    forall w :: 0 <= w < |s.workers| && InFlight(s.workers[w]) ==>
      var j := s.workers[w].job;
      j < |s.jobs| && s.jobs[j].status == Leased && s.jobs[j].leaseExpiresAt == Some(s.workers[w].deadline)
  }

  /** A handler's writes are committed once for a completed job and never otherwise. */
  ghost predicate EffectsMatch(s: State) {
    && |s.effects| == |s.jobs|
    && forall j :: 0 <= j < |s.jobs| ==> s.effects[j] == if s.jobs[j].status == Completed then 1 else 0
  }

  ghost predicate Sound(s: State) {
    Exclusive(s) && HeldRows(s) && EffectsMatch(s)
  }

  /** A lease is taken only of a job no worker has in flight. */
  ghost predicate Unclaimed(s: State, step: Step) {
    step.Lease? ==> forall w :: 0 <= w < |s.workers| ==> !InFlightOn(s, w, step.job)
  }

  /** A worker past its lease that is in flight and holds no row lock: not yet started, or rolled back. */
  predicate Late(s: State, w: nat) {
    w < |s.workers| && (s.workers[w].Holding? || s.workers[w].RolledBack?) && s.workers[w].deadline < s.now
  }

  /** The step leases the job of a late worker. */
  ghost predicate LateTakeover(s: State, step: Step) {
    step.Lease? && exists w :: 0 <= w < |s.workers| && Late(s, w) && InFlightOn(s, w, step.job)
  }

  /** No lease of the run takes over the job of a late worker. */
  ghost predicate NoLateTakeover(s: State, steps: seq<Step>)
    requires Valid(s, steps)
    decreases |steps|
  {
    steps != [] ==> !LateTakeover(s, steps[0]) && NoLateTakeover(Apply(s, steps[0]), steps[1..])
  }

  /**
  A lease overlaps work in flight exactly when the job's holder is late; a handler at work is protected by its row lock.
  */
  lemma OverlapIffLate(s: State, step: Step)
    requires Sound(s) && Enabled(s, step)
    ensures !Unclaimed(s, step) <==> LateTakeover(s, step)
  {
    if !Unclaimed(s, step) {
      var w :| 0 <= w < |s.workers| && InFlightOn(s, w, step.job);
      assert s.jobs[step.job].leaseExpiresAt == Some(s.workers[w].deadline);
      assert !s.workers[w].Working?;
      assert Late(s, w);
    }
  }

  /** `Exclusive` in every state the run passes through. */
  ghost predicate AlwaysExclusive(s: State, steps: seq<Step>)
    requires Valid(s, steps)
    decreases |steps|
  {
    Exclusive(s) && (steps != [] ==> AlwaysExclusive(Apply(s, steps[0]), steps[1..]))
  }

  lemma SettleKeepsSound(s: State, w: nat, outcome: Outcome)
    requires Sound(s) && w < |s.workers| && InFlight(s.workers[w]) && outcome != Success
    ensures Sound(Settle(s, w, outcome))
    ensures KeepsTerminal(s, Settle(s, w, outcome))
  {
    var j := s.workers[w].job;
    assert SettleRow(s.jobs[j], outcome).status != Completed;
  }

  lemma CompleteKeepsSound(s: State, w: nat)
    requires Sound(s) && Enabled(s, Complete(w))
    ensures Sound(Apply(s, Complete(w)))
    ensures KeepsTerminal(s, Apply(s, Complete(w)))
  {
    var j := s.workers[w].job;
    assert SettleRow(s.jobs[j], Success).status == Completed;
  }

  lemma LeaseKeepsSound(s: State, step: Step)
    requires Sound(s) && step.Lease? && Enabled(s, step) && Unclaimed(s, step)
    ensures Sound(Apply(s, step))
    ensures KeepsTerminal(s, Apply(s, step))
  {
    var next := Apply(s, step);
    forall v | 0 <= v < |next.workers| && v != step.worker && InFlight(next.workers[v])
      ensures next.workers[v].job != step.job
    {
      assert !InFlightOn(s, v, step.job);
    }
  }

  /** Rows in a terminal status stay as they are. */
  ghost predicate KeepsTerminal(a: State, b: State) {
    |a.jobs| <= |b.jobs| && forall j :: 0 <= j < |a.jobs| && Terminal(a.jobs[j].status) ==> b.jobs[j] == a.jobs[j]
  }

  lemma StepKeepsSound(s: State, step: Step)
    requires Sound(s) && Enabled(s, step) && Unclaimed(s, step)
    ensures Sound(Apply(s, step))
    ensures KeepsTerminal(s, Apply(s, step))
  {
    match step
    case Lease(_, _, _, _) => LeaseKeepsSound(s, step);
    case RejectUnknown(w) => SettleKeepsSound(s, w, NoHandler);
    case Complete(w) => CompleteKeepsSound(s, w);
    case Record(w) => RecordKeepsSound(s, w);
    case _ => OtherKeepsSound(s, step);
  }

  lemma OtherKeepsSound(s: State, step: Step)
    requires Sound(s) && Enabled(s, step)
    requires step.Tick? || step.Enqueue? || step.Cancel? || step.Start? || step.Rollback? || step.Crash?
    ensures Sound(Apply(s, step))
    ensures KeepsTerminal(s, Apply(s, step))
  {
  }

  lemma RecordKeepsSound(s: State, w: nat)
    requires Sound(s) && Enabled(s, Record(w))
    ensures Sound(Apply(s, Record(w)))
    ensures KeepsTerminal(s, Apply(s, Record(w)))
  {
    SettleKeepsSound(s, w, s.workers[w].outcome);
  }

  /** Without late takeovers a run keeps mutual exclusion, effects exactly once, and terminal rows for good. */
  lemma {:induction false} RunKeepsSound(s: State, steps: seq<Step>)
    requires Sound(s) && Valid(s, steps) && NoLateTakeover(s, steps)
    ensures Sound(Run(s, steps)) && KeepsTerminal(s, Run(s, steps))
    decreases |steps|
  {
    if steps != [] {
      var next := Apply(s, steps[0]);
      OverlapIffLate(s, steps[0]);
      StepKeepsSound(s, steps[0]);
      hide Enabled, Apply, Sound, Unclaimed, LateTakeover;
      RunKeepsSound(next, steps[1..]);
    }
  }

  lemma OverlapBreaksExclusion(s: State, step: Step)
    requires Enabled(s, step) && !Unclaimed(s, step)
    ensures !Exclusive(Apply(s, step))
  {
    var v :| 0 <= v < |s.workers| && InFlightOn(s, v, step.job);
    var next := Apply(s, step);
    assert next.workers[v] == s.workers[v] && next.workers[step.worker].job == step.job;
  }

  /** Mutual exclusion holds throughout a run exactly when no lease takes over the job of a late worker. */
  lemma {:induction false} ExclusionIffNoLateTakeover(s: State, steps: seq<Step>)
    requires Sound(s) && Valid(s, steps)
    ensures AlwaysExclusive(s, steps) <==> NoLateTakeover(s, steps)
    decreases |steps|
  {
    if steps != [] {
      var next := Apply(s, steps[0]);
      OverlapIffLate(s, steps[0]);
      if Unclaimed(s, steps[0]) {
        StepKeepsSound(s, steps[0]);
        hide Enabled, Apply, LateTakeover, Sound, Exclusive;
        ExclusionIffNoLateTakeover(next, steps[1..]);
      } else {
        OverlapBreaksExclusion(s, steps[0]);
        hide Enabled, Apply, LateTakeover, Sound, Exclusive;
        assert !AlwaysExclusive(next, steps[1..]);
      }
    }
  }

  // ----- the timing assumption is enough

  /** No worker is late: whoever is in flight outside its handler's transaction is within its lease. */
  ghost predicate InTime(s: State) {
    forall w :: 0 <= w < |s.workers| ==> !Late(s, w)
  }

  /** Nobody is late when a lease is taken. */
  ghost predicate Timely(s: State, steps: seq<Step>)
    requires Valid(s, steps)
    decreases |steps|
  {
    steps != [] ==> (steps[0].Lease? ==> InTime(s)) && Timely(Apply(s, steps[0]), steps[1..])
  }

  lemma {:induction false} TimelyNoTakeover(s: State, steps: seq<Step>)
    requires Valid(s, steps) && Timely(s, steps)
    ensures NoLateTakeover(s, steps)
    decreases |steps|
  {
    if steps != [] {
      hide Enabled, Apply, Late;
      TimelyNoTakeover(Apply(s, steps[0]), steps[1..]);
    }
  }

  /** If nobody is late when a lease is taken: one worker per job, effects exactly once, terminal rows final. */
  lemma TimelyRuns(s: State, steps: seq<Step>, more: seq<Step>)
    requires Init(s) && Valid(s, steps) && Timely(s, steps)
    requires Valid(Run(s, steps), more) && Timely(Run(s, steps), more)
    ensures Exclusive(Run(s, steps)) && EffectsMatch(Run(s, steps))
    ensures KeepsTerminal(Run(s, steps), Run(Run(s, steps), more))
  {
    assert Sound(s);
    TimelyNoTakeover(s, steps);
    RunKeepsSound(s, steps);
    TimelyNoTakeover(Run(s, steps), more);
    RunKeepsSound(Run(s, steps), more);
  }

  // ----- effects and terminal statuses, and exactly when they are kept

  /** The worker that settles a job in this step, without looking at the row's status first. */
  function Settler(step: Step): Option<nat> {
    match step
    case RejectUnknown(w) => Some(w)
    case Complete(w) => Some(w)
    case Record(w) => Some(w)
    case _ => None
  }

  /** The step settles a job whose row already has a status that passes. */
  ghost predicate SettlesRow(s: State, step: Step, passes: Job -> bool) {
    && Settler(step).Some? && Settler(step).value < |s.workers| && InFlight(s.workers[Settler(step).value])
    && var j := s.workers[Settler(step).value].job; j < |s.jobs| && passes(s.jobs[j])
  }

  ghost predicate SettlesCompleted(s: State, step: Step) {
    SettlesRow(s, step, (job: Job) => job.status == Completed)
  }

  /** One step keeps the effects exact unless it settles a completed job again. */
  lemma EffectsStepIff(s: State, step: Step)
    requires TableOk(s) && EffectsMatch(s) && Enabled(s, step)
    ensures EffectsMatch(Apply(s, step)) <==> !SettlesCompleted(s, step)
  {
    if Settler(step).Some? {
      var w := Settler(step).value;
      SettleEffects(s, step, w, s.workers[w].job);
    }
  }

  lemma SettleEffects(s: State, step: Step, w: nat, j: nat)
    requires TableOk(s) && EffectsMatch(s) && Enabled(s, step) && Settler(step) == Some(w) && j == s.workers[w].job
    ensures EffectsMatch(Apply(s, step)) <==> s.jobs[j].status != Completed
  {
    var next := Apply(s, step);
    assert forall i :: 0 <= i < |s.jobs| && i != j ==> next.jobs[i] == s.jobs[i] && next.effects[i] == s.effects[i];
    assert next.effects[j] == if step.Complete? then s.effects[j] + 1 else s.effects[j];
    assert next.jobs[j].status == Completed <==> step.Complete?;
  }

  ghost predicate AlwaysEffects(s: State, steps: seq<Step>)
    requires Valid(s, steps)
    decreases |steps|
  {
    EffectsMatch(s) && (steps != [] ==> AlwaysEffects(Apply(s, steps[0]), steps[1..]))
  }

  ghost predicate NeverSettlesCompleted(s: State, steps: seq<Step>)
    requires Valid(s, steps)
    decreases |steps|
  {
    steps != [] ==> !SettlesCompleted(s, steps[0]) && NeverSettlesCompleted(Apply(s, steps[0]), steps[1..])
  }

  /**
  Throughout a run a handler's writes are committed exactly once per completed job, exactly when no completed job is
  settled again.
  */
  lemma {:induction false} EffectsIffNeverResettled(s: State, steps: seq<Step>)
    requires TableOk(s) && EffectsMatch(s) && Valid(s, steps)
    ensures AlwaysEffects(s, steps) <==> NeverSettlesCompleted(s, steps)
    decreases |steps|
  {
    if steps != [] {
      var next := Apply(s, steps[0]);
      EffectsStepIff(s, steps[0]);
      StepKeepsTable(s, steps[0]);
      hide Enabled, Apply, TableOk, EffectsMatch, SettlesCompleted;
      if EffectsMatch(next) {
        EffectsIffNeverResettled(next, steps[1..]);
      }
    }
  }

  /** The outcome a settling step records. */
  function OutcomeOf(s: State, step: Step): Outcome {
    match step
    case RejectUnknown(_) => NoHandler
    case Record(w) => if w < |s.workers| && s.workers[w].RolledBack? then s.workers[w].outcome else NoHandler
    case _ => Success
  }

  /** The step settles a job that has already ended, with another status than it ended with. */
  ghost predicate Revives(s: State, step: Step) {
    SettlesRow(s, step, (job: Job) => Terminal(job.status) && SettleRow(job, OutcomeOf(s, step)).status != job.status)
  }

  ghost predicate KeepsStatuses(a: State, b: State) {
    && |a.jobs| <= |b.jobs|
    && forall j :: 0 <= j < |a.jobs| && Terminal(a.jobs[j].status) ==> b.jobs[j].status == a.jobs[j].status
  }

  /** One step keeps terminal statuses unless it settles a job that has ended with another status. */
  lemma StatusStepIff(s: State, step: Step)
    requires TableOk(s) && Enabled(s, step)
    ensures KeepsStatuses(s, Apply(s, step)) <==> !Revives(s, step)
  {
    if Settler(step).Some? {
      var w := Settler(step).value;
      SettleStatuses(s, step, w, s.workers[w].job);
    }
  }

  lemma SettleStatuses(s: State, step: Step, w: nat, j: nat)
    requires TableOk(s) && Enabled(s, step) && Settler(step) == Some(w) && j == s.workers[w].job
    ensures KeepsStatuses(s, Apply(s, step)) <==>
      !Terminal(s.jobs[j].status) || SettleRow(s.jobs[j], OutcomeOf(s, step)).status == s.jobs[j].status
  {
    var next := Apply(s, step);
    assert forall i :: 0 <= i < |s.jobs| && i != j ==> next.jobs[i] == s.jobs[i];
    assert next.jobs[j] == SettleRow(s.jobs[j], OutcomeOf(s, step));
  }

  /** In every step of the run terminal statuses are kept. */
  ghost predicate AlwaysFinal(s: State, steps: seq<Step>)
    requires Valid(s, steps)
    decreases |steps|
  {
    steps != [] ==> KeepsStatuses(s, Apply(s, steps[0])) && AlwaysFinal(Apply(s, steps[0]), steps[1..])
  }

  ghost predicate NeverRevives(s: State, steps: seq<Step>)
    requires Valid(s, steps)
    decreases |steps|
  {
    steps != [] ==> !Revives(s, steps[0]) && NeverRevives(Apply(s, steps[0]), steps[1..])
  }

  /**
  A terminal status never changes in a run exactly when no ended job is settled with another status; then it lasts to
  the end.
  */
  lemma {:induction false} FinalIffNeverRevived(s: State, steps: seq<Step>)
    requires TableOk(s) && Valid(s, steps)
    ensures AlwaysFinal(s, steps) <==> NeverRevives(s, steps)
    ensures NeverRevives(s, steps) ==> KeepsStatuses(s, Run(s, steps))
    decreases |steps|
  {
    if steps != [] {
      var next := Apply(s, steps[0]);
      StatusStepIff(s, steps[0]);
      StepKeepsTable(s, steps[0]);
      hide Enabled, Apply, TableOk, Revives;
      FinalIffNeverRevived(next, steps[1..]);
    }
  }

  // ----- a run in which a late worker breaks all three

  const START := State(0, [], [Idle, Idle], [], [])

  /** The first worker stalls past its lease, the second takes the job over and completes it, the first wakes up. */
  const STALLED: seq<Step> := [
    Enqueue("build", 0), Lease(0, 0, "a", 10), Tick(11), Lease(1, 0, "b", 10), Start(1), Complete(1), Start(0)]

  function LeasedJob(owner: string, until: int, attempts: nat): Job {
    Job("build", 0, Leased, Some(owner), Some(until), false, attempts, None)
  }

  /** The states this run passes through. */
  function StalledAt(i: nat): State
    requires i <= 7
  {
    match i
    case 0 => START
    case 1 => State(0, [Job("build", 0, Queued, None, None, false, 0, None)], [Idle, Idle], [0], [0])
    case 2 => State(0, [LeasedJob("a", 10, 1)], [Holding(0, 10), Idle], [0], [0])
    case 3 => State(11, [LeasedJob("a", 10, 1)], [Holding(0, 10), Idle], [0], [0])
    case 4 => State(11, [LeasedJob("b", 21, 2)], [Holding(0, 10), Holding(0, 21)], [0], [1])
    case 5 => State(11, [LeasedJob("b", 21, 2)], [Holding(0, 10), Working(0, 21)], [0], [1])
    case 6 => State(11, [Job("build", 0, Completed, None, None, false, 2, None)], [Holding(0, 10), Idle], [1], [1])
    case _ => StalledState()
  }

  function StalledState(): State {
    State(11, [Job("build", 0, Completed, None, None, false, 2, None)], [Working(0, 10), Idle], [1], [1])
  }

  lemma StalledStep(i: nat)
    requires i < 7
    ensures Enabled(StalledAt(i), STALLED[i]) && Apply(StalledAt(i), STALLED[i]) == StalledAt(i + 1)
  {
    match i
    case 0 =>
    case 1 =>
    case 2 =>
    case 3 =>
    case 4 =>
    case 5 =>
    case _ =>
  }

  lemma {:induction false} StalledFrom(i: nat)
    requires i <= 7
    ensures Valid(StalledAt(i), STALLED[i..]) && Run(StalledAt(i), STALLED[i..]) == StalledState()
    decreases 7 - i
  {
    if i < 7 {
      StalledStep(i);
      StalledFrom(i + 1);
      hide Enabled, Apply, StalledAt;
      RunOne(StalledAt(i), STALLED, i, StalledAt(i + 1));
    }
  }

  lemma StalledRun()
    ensures Valid(START, STALLED) && Run(START, STALLED) == StalledState()
  {
    StalledFrom(0);
    hide Enabled, Apply, Valid, Run;
    assert STALLED[0..] == STALLED;
  }

  lemma RunOne(s: State, steps: seq<Step>, i: nat, next: State)
    requires i < |steps| && Enabled(s, steps[i]) && next == Apply(s, steps[i]) && Valid(next, steps[i + 1..])
    ensures Valid(s, steps[i..]) && Run(s, steps[i..]) == Run(next, steps[i + 1..])
  {
    hide Enabled, Apply;
    assert steps[i..][1..] == steps[i + 1..];
  }

  /** The stalled worker then commits its handler's writes a second time. */
  lemma LateCommit()
    ensures Enabled(StalledState(), Complete(0)) && Apply(StalledState(), Complete(0)).effects[0] == 2
  {
  }

  /** Or it fails, and sends the completed job back to the queue. */
  lemma LateRetry()
    ensures Enabled(StalledState(), Rollback(0, TransientError("late")))
    ensures var back := Apply(StalledState(), Rollback(0, TransientError("late")));
      Enabled(back, Record(0)) && Apply(back, Record(0)).jobs[0].status == Queued
  {
  }

  /** A run in which a stalled worker breaks exclusion, after which either misbehaviour is possible. */
  lemma StalledWorkerMisbehaves()
    ensures Valid(START, STALLED) && Run(START, STALLED) == StalledState()
    ensures Enabled(StalledState(), Complete(0)) && Apply(StalledState(), Complete(0)).effects[0] == 2
    ensures Enabled(StalledState(), Rollback(0, TransientError("late")))
    ensures var back := Apply(StalledState(), Rollback(0, TransientError("late")));
      Enabled(back, Record(0)) && Apply(back, Record(0)).jobs[0].status == Queued
  {
    hide *;
    StalledRun();
    LateCommit();
    LateRetry();
  }
}

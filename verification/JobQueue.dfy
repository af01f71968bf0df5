/**
 The durable processing queue: claiming, running and finishing jobs (job_coordinator.rs) while
 the user cancels, retries and deletes (service.rs), the host stops at any point, and start-up
 recovery (service.rs, recover_interrupted_work) may itself stop between its two statements.
 */
module JobQueue {
  import opened Wrappers

  type JobId = string
  type MeetingId = string

  datatype Status = Queued | Running | RetryWait | CancelRequested | Interrupted | Completed | Failed | Cancelled

  /** `lock` stands for worker_id and locked_at_ms: the serial of the claim that holds the row. */
  datatype Job = Job(
    meeting: MeetingId,
    status: Status,
    attempts: nat,
    maxAttempts: nat,
    priority: int,
    createdAt: int,
    updatedAt: int,
    lock: Option<nat>)

  /** What the coordinator remembers of the row it claimed. */
  datatype Claim = Claim(id: JobId, attempts: nat, maxAttempts: nat, serial: nat)

  /** Leaving: the outcome is written, but a later statement failed and fail_job is still to come. */
  datatype Coordinator = Down | Recovering | Idle | Holding(claim: Claim, cancelSent: bool) | Leaving(claim: Claim)

  /** `issued` and `commits` record what happened: identifiers ever used, and commits of each job. */
  datatype State = State(
    jobs: map<JobId, Job>,
    meetings: set<MeetingId>,
    coordinator: Coordinator,
    nextSerial: nat,
    issued: set<JobId>,
    commits: map<JobId, nat>)

  const START := State(map[], {}, Down, 0, {}, map[])

  const RETRY_DELAY_MS := 5000
  const MAX_ATTEMPTS := 4

  // ---------------------------------------------------------------------------------------
  // Statements
  // ---------------------------------------------------------------------------------------

  predicate InProgress(status: Status) {
    status.Running? || status.CancelRequested?
  }

  predicate Claimable(job: Job, now: int) {
    job.status.Queued? || (job.status.RetryWait? && job.updatedAt <= now - RETRY_DELAY_MS)
  }

  predicate RanksBefore(job: Job, other: Job) {
    job.priority > other.priority || (job.priority == other.priority && job.createdAt < other.createdAt)
  }

  predicate NextInLine(jobs: map<JobId, Job>, id: JobId, now: int) {
    && id in jobs
    && Claimable(jobs[id], now)
    && forall other :: other in jobs && Claimable(jobs[other], now) ==> !RanksBefore(jobs[other], jobs[id])
  }

  function Claimed(job: Job, serial: nat, now: int): Job {
    job.(status := Running, attempts := job.attempts + 1, lock := Some(serial), updatedAt := now)
  }

  function Cancelling(job: Job, now: int): Job {
    if job.status.Running? then job.(status := CancelRequested, updatedAt := now)
    else job.(status := Cancelled, lock := None, updatedAt := now)
  }

  predicate Cancellable(status: Status) {
    status.Queued? || status.Running? || status.RetryWait? || status.Interrupted?
  }

  predicate Retryable(status: Status) {
    status.Failed? || status.Cancelled? || status.Interrupted? || status.RetryWait?
  }

  predicate Terminal(status: Status) {
    status.Completed? || status.Failed? || status.Cancelled?
  }

  /** fail_job: guarded by status, and decided by the attempts known when the job was claimed. */
  function FailRow(jobs: map<JobId, Job>, claim: Claim, retryable: bool, now: int): map<JobId, Job> {
    if claim.id in jobs && InProgress(jobs[claim.id].status) then
      var status := if retryable && claim.attempts < claim.maxAttempts then RetryWait else Failed;
      jobs[claim.id := jobs[claim.id].(status := status, lock := None, updatedAt := now)]
    else jobs
  }

  /** An outcome written with no guard but the identifier. */
  function FinishRow(jobs: map<JobId, Job>, id: JobId, status: Status, now: int): map<JobId, Job> {
    if id in jobs then jobs[id := jobs[id].(status := status, lock := None, updatedAt := now)] else jobs
  }

  function Interrupting(job: Job, now: int): Job {
    if InProgress(job.status) then
      job.(status := Interrupted, attempts := job.attempts + 1, lock := None, updatedAt := now)
    else job
  }

  function Requeueing(job: Job, now: int): Job {
    if job.status.Interrupted? then
      job.(status := if job.attempts >= job.maxAttempts then Failed else RetryWait, updatedAt := now)
    else job
  }

  function Interrupt(jobs: map<JobId, Job>, now: int): map<JobId, Job> {
    map id | id in jobs :: Interrupting(jobs[id], now)
  }

  function Requeue(jobs: map<JobId, Job>, now: int): map<JobId, Job> {
    map id | id in jobs :: Requeueing(jobs[id], now)
  }

  function CommitsOf(commits: map<JobId, nat>, id: JobId): nat {
    if id in commits then commits[id] else 0
  }

  // ---------------------------------------------------------------------------------------
  // Steps, in any order
  // ---------------------------------------------------------------------------------------

  datatype Step =
    | CreateMeeting(m: MeetingId)
    | DeleteMeeting(m: MeetingId, recording: bool)
    | Enqueue(id: JobId, m: MeetingId, priority: int, now: int)
    | CancelJob(id: JobId, now: int)
    | RetryJob(id: JobId, now: int)
    | InterruptRunning(now: int)
    | RequeueInterrupted(now: int)
    | ClaimNext(id: JobId, now: int)
    | ForwardCancel
    | Progress(now: int)
    | Complete(now: int)
    | WorkerError(saysCancelled: bool, retryable: bool, whole: bool, now: int)
    | HostError(written: bool, now: int)
    | LateError(now: int)
    | Stop

  /** A meeting can go once all its jobs have ended and unless one of its sessions is `recording`; the jobs go with it. */
  predicate Deletable(jobs: map<JobId, Job>, m: MeetingId) {
    forall id :: id in jobs && jobs[id].meeting == m ==> Terminal(jobs[id].status)
  }

  predicate Enabled(s: State, step: Step) {
    match step
    case CreateMeeting(m) => m !in s.meetings
    case DeleteMeeting(m, recording) => m in s.meetings && Deletable(s.jobs, m) && !recording
    case Enqueue(id, m, _, _) => id !in s.issued && m in s.meetings
    case CancelJob(id, _) => id in s.jobs && Cancellable(s.jobs[id].status)
    case RetryJob(id, _) => id in s.jobs && Retryable(s.jobs[id].status)
    case InterruptRunning(_) => s.coordinator.Down?
    case RequeueInterrupted(_) => s.coordinator.Recovering?
    case ClaimNext(id, now) => s.coordinator.Idle? && NextInLine(s.jobs, id, now)
    case ForwardCancel =>
      && s.coordinator.Holding?
      && s.coordinator.claim.id in s.jobs && s.jobs[s.coordinator.claim.id].status.CancelRequested?
    case Progress(_) => s.coordinator.Holding?
    case Complete(_) => s.coordinator.Holding?
    case WorkerError(_, _, _, _) => s.coordinator.Holding?
    case HostError(_, _) => s.coordinator.Holding?
    case LateError(_) => s.coordinator.Leaving?
    case Stop => true
  }

  function Progressed(jobs: map<JobId, Job>, id: JobId, now: int): map<JobId, Job> {
    if id in jobs && InProgress(jobs[id].status) then jobs[id := jobs[id].(updatedAt := now)] else jobs
  }

  function Next(s: State, step: Step): State {
    if !Enabled(s, step) then s
    else
      match step
      case CreateMeeting(m) => s.(meetings := s.meetings + {m})
      case DeleteMeeting(m, _) =>
        s.(meetings := s.meetings - {m}, jobs := map id | id in s.jobs && s.jobs[id].meeting != m :: s.jobs[id])
      case Enqueue(id, m, priority, now) =>
        s.(jobs := s.jobs[id := Job(m, Queued, 0, MAX_ATTEMPTS, priority, now, now, None)], issued := s.issued + {id})
      case CancelJob(id, now) => s.(jobs := s.jobs[id := Cancelling(s.jobs[id], now)])
      case RetryJob(id, now) =>
        s.(jobs := s.jobs[id := s.jobs[id].(status := Queued, attempts := 0, lock := None, updatedAt := now)])
      case InterruptRunning(now) => s.(jobs := Interrupt(s.jobs, now), coordinator := Recovering)
      case RequeueInterrupted(now) => s.(jobs := Requeue(s.jobs, now), coordinator := Idle)
      case ClaimNext(id, now) =>
        var row := Claimed(s.jobs[id], s.nextSerial, now);
        s.(jobs := s.jobs[id := row], nextSerial := s.nextSerial + 1,
           coordinator := Holding(Claim(id, row.attempts, row.maxAttempts, s.nextSerial), false))
      case ForwardCancel => s.(coordinator := s.coordinator.(cancelSent := true))
      case Progress(now) => s.(jobs := Progressed(s.jobs, s.coordinator.claim.id, now))
      case Complete(now) =>
        var id := s.coordinator.claim.id;
        s.(jobs := FinishRow(s.jobs, id, Completed, now), coordinator := Idle,
           commits := s.commits[id := CommitsOf(s.commits, id) + 1])
      case WorkerError(saysCancelled, retryable, whole, now) =>
        var claim := s.coordinator.claim;
        if saysCancelled || s.coordinator.cancelSent then
          s.(jobs := FinishRow(s.jobs, claim.id, Cancelled, now), coordinator := if whole then Idle else Leaving(claim))
        else s.(jobs := FailRow(s.jobs, claim, retryable, now), coordinator := Idle)
      case HostError(written, now) =>
        s.(jobs := if written then FailRow(s.jobs, s.coordinator.claim, true, now) else s.jobs, coordinator := Idle)
      case LateError(now) => s.(jobs := FailRow(s.jobs, s.coordinator.claim, true, now), coordinator := Idle)
      case Stop => s.(coordinator := Down)
  }

  function Run(s: State, steps: seq<Step>): State
    decreases |steps|
  {
    if steps == [] then s else Run(Next(s, steps[0]), steps[1..])
  }

  // ---------------------------------------------------------------------------------------
  // The invariant of every run
  // ---------------------------------------------------------------------------------------

  ghost predicate JobSane(job: Job) {
    && job.maxAttempts >= 1
    && (job.status.Queued? ==> job.attempts == 0)
    && (job.status.RetryWait? ==> job.attempts < job.maxAttempts)
    && (InProgress(job.status) ==> 1 <= job.attempts <= job.maxAttempts)
    && (job.lock.Some? <==> InProgress(job.status))
  }

  /** The row of a held claim is in progress, under that very claim. */
  ghost predicate OwnedBy(jobs: map<JobId, Job>, claim: Claim) {
    && claim.id in jobs
    && InProgress(jobs[claim.id].status)
    && jobs[claim.id].attempts == claim.attempts
    && jobs[claim.id].maxAttempts == claim.maxAttempts
    && jobs[claim.id].lock == Some(claim.serial)
  }

  ghost predicate CommitCounted(s: State, id: JobId)
    requires id in s.jobs
  {
    CommitsOf(s.commits, id) == if s.jobs[id].status.Completed? then 1 else 0
  }

  ghost predicate Inv(s: State) {
    && (forall id :: id in s.jobs ==> JobSane(s.jobs[id]))
    && (forall id :: id in s.jobs ==> id in s.issued && s.jobs[id].meeting in s.meetings)
    && (forall id :: id in s.jobs ==> CommitCounted(s, id))
    && (forall id :: CommitsOf(s.commits, id) <= 1)
    && (forall id :: id !in s.issued ==> CommitsOf(s.commits, id) == 0)
    && (s.coordinator.Holding? ==> OwnedBy(s.jobs, s.coordinator.claim))
    && (s.coordinator.Leaving? && s.coordinator.claim.id in s.jobs ==>
          !InProgress(s.jobs[s.coordinator.claim.id].status))
    && (s.coordinator.Recovering? ==> forall id :: id in s.jobs ==> !InProgress(s.jobs[id].status))
  }

  /** The coordinator's steps. */
  predicate OfCoordinator(step: Step) {
    step.ClaimNext? || step.ForwardCancel? || step.Progress? || step.Complete? || step.WorkerError?
    || step.HostError? || step.LateError?
  }

  lemma CancelKeepsInv(s: State, step: Step)
    requires Inv(s) && step.CancelJob?
    ensures Inv(Next(s, step))
  {
    assert step.id in s.jobs ==> CommitCounted(s, step.id);
  }

  lemma RetryKeepsInv(s: State, step: Step)
    requires Inv(s) && step.RetryJob?
    ensures Inv(Next(s, step))
  {
    assert step.id in s.jobs ==> CommitCounted(s, step.id);
  }

  lemma InterruptKeepsInv(s: State, now: int)
    requires Inv(s)
    ensures Inv(Next(s, InterruptRunning(now)))
  {
    var after := Next(s, InterruptRunning(now));
    forall id | id in after.jobs ensures JobSane(after.jobs[id]) && CommitCounted(after, id) {
      assert CommitCounted(s, id);
    }
  }

  lemma RequeueKeepsInv(s: State, now: int)
    requires Inv(s)
    ensures Inv(Next(s, RequeueInterrupted(now)))
  {
    var after := Next(s, RequeueInterrupted(now));
    forall id | id in after.jobs ensures JobSane(after.jobs[id]) && CommitCounted(after, id) {
      assert CommitCounted(s, id);
    }
  }

  lemma OtherStepKeepsInv(s: State, step: Step)
    requires Inv(s) && (step.CreateMeeting? || step.DeleteMeeting? || step.Enqueue? || step.Stop?)
    ensures Inv(Next(s, step))
  {
    var after := Next(s, step);
    forall id | id in after.jobs ensures JobSane(after.jobs[id]) && CommitCounted(after, id) {
      assert id in s.jobs ==> CommitCounted(s, id);
    }
  }

  lemma CompleteKeepsInv(s: State, now: int)
    requires Inv(s)
    ensures Inv(Next(s, Complete(now)))
  {
    if s.coordinator.Holding? {
      var after := Next(s, Complete(now));
      assert CommitCounted(s, s.coordinator.claim.id);
      forall id ensures CommitsOf(after.commits, id) <= 1 {
        assert CommitsOf(s.commits, id) <= 1;
        assert id != s.coordinator.claim.id ==> CommitsOf(after.commits, id) == CommitsOf(s.commits, id);
      }
    }
  }

  lemma ClaimKeepsInv(s: State, id: JobId, now: int)
    requires Inv(s)
    ensures Inv(Next(s, ClaimNext(id, now)))
  {
    assert id in s.jobs ==> CommitCounted(s, id);
  }

  lemma WorkerErrorKeepsInv(s: State, step: Step)
    requires Inv(s) && step.WorkerError?
    ensures Inv(Next(s, step))
  {
    if s.coordinator.Holding? {
      assert CommitCounted(s, s.coordinator.claim.id);
    }
  }

  lemma HostErrorKeepsInv(s: State, written: bool, now: int)
    requires Inv(s)
    ensures Inv(Next(s, HostError(written, now)))
  {
    if s.coordinator.Holding? {
      assert CommitCounted(s, s.coordinator.claim.id);
    }
  }

  lemma LateErrorKeepsInv(s: State, now: int)
    requires Inv(s)
    ensures Inv(Next(s, LateError(now)))
  {
  }

  lemma ProgressKeepsInv(s: State, step: Step)
    requires Inv(s) && (step.ForwardCancel? || step.Progress?)
    ensures Inv(Next(s, step))
  {
    if s.coordinator.Holding? {
      assert CommitCounted(s, s.coordinator.claim.id);
    }
  }

  lemma NextKeepsInv(s: State, step: Step)
    requires Inv(s)
    ensures Inv(Next(s, step))
  {
    if step.Complete? {
      CompleteKeepsInv(s, step.now);
    } else if step.ClaimNext? {
      ClaimKeepsInv(s, step.id, step.now);
    } else if step.ForwardCancel? || step.Progress? {
      ProgressKeepsInv(s, step);
    } else if step.WorkerError? {
      WorkerErrorKeepsInv(s, step);
    } else if step.HostError? {
      HostErrorKeepsInv(s, step.written, step.now);
    } else if step.LateError? {
      LateErrorKeepsInv(s, step.now);
    } else if step.InterruptRunning? {
      InterruptKeepsInv(s, step.now);
    } else if step.RequeueInterrupted? {
      RequeueKeepsInv(s, step.now);
    } else if step.CancelJob? {
      CancelKeepsInv(s, step);
    } else if step.RetryJob? {
      RetryKeepsInv(s, step);
    } else {
      OtherStepKeepsInv(s, step);
    }
  }

  lemma IssuedOnlyGrows(s: State, step: Step)
    ensures s.issued <= Next(s, step).issued
  {
  }

  lemma {:induction false} RunKeepsInv(s: State, steps: seq<Step>)
    requires Inv(s)
    ensures Inv(Run(s, steps)) && s.issued <= Run(s, steps).issued
    decreases |steps|
  {
    if steps != [] {
      NextKeepsInv(s, steps[0]);
      IssuedOnlyGrows(s, steps[0]);
      RunKeepsInv(Next(s, steps[0]), steps[1..]);
    }
  }

  // ---------------------------------------------------------------------------------------
  // Ownership
  // ---------------------------------------------------------------------------------------

  /** Whatever the user did meanwhile, a held job is in progress under the claim that holds it. */
  lemma HeldJobIsOwned(steps: seq<Step>)
    requires Run(START, steps).coordinator.Holding?
    ensures OwnedBy(Run(START, steps).jobs, Run(START, steps).coordinator.claim)
  {
    RunKeepsInv(START, steps);
  }

  lemma CoordinatorWritesWhatItHolds(s: State, step: Step, id: JobId)
    requires OfCoordinator(step) && id in s.jobs
    requires s.coordinator.Leaving? && s.coordinator.claim.id in s.jobs ==> !InProgress(s.jobs[s.coordinator.claim.id].status)
    ensures var after := Next(s, step);
            && id in after.jobs
            && (after.jobs[id] != s.jobs[id] ==>
                  || (step.ClaimNext? && step.id == id && Claimable(s.jobs[id], step.now))
                  || (s.coordinator.Holding? && s.coordinator.claim.id == id))
  {
  }

  lemma CoordinatorWritesItsOwnRow(steps: seq<Step>, step: Step, id: JobId)
    requires OfCoordinator(step) && id in Run(START, steps).jobs
    ensures var s := Run(START, steps);
            var after := Next(s, step);
            && id in after.jobs
            && (after.jobs[id] != s.jobs[id] ==>
                  || (step.ClaimNext? && step.id == id && Claimable(s.jobs[id], step.now))
                  || (s.coordinator.Holding? && s.coordinator.claim.id == id && OwnedBy(s.jobs, s.coordinator.claim)))
  {
    RunKeepsInv(START, steps);
    CoordinatorWritesWhatItHolds(Run(START, steps), step, id);
  }

  /** The guard of fail_job makes a failure reported after the outcome harmless to every job. */
  lemma LateErrorChangesNoJob(steps: seq<Step>, now: int)
    ensures Next(Run(START, steps), LateError(now)).jobs == Run(START, steps).jobs
  {
    RunKeepsInv(START, steps);
  }

  // ---------------------------------------------------------------------------------------
  // What becomes of a row
  // ---------------------------------------------------------------------------------------

  /** One row changes, to a status, an attempt count and a lock; its time stamp is set. */
  ghost predicate RowBecomes(jobs: map<JobId, Job>, after: map<JobId, Job>, id: JobId, status: Status, attempts: nat,
                             lock: Option<nat>, now: int)
  {
    && id in jobs
    && after == jobs[id := jobs[id].(status := status, attempts := attempts, lock := lock, updatedAt := now)]
  }

  /** The failure of a held job, reported by the worker and not a cancellation, or by the host. */
  ghost predicate Fails(s: State, step: Step, retryable: bool, now: int) {
    && s.coordinator.Holding?
    && match step
       case WorkerError(saysCancelled, canRetry, _, at) =>
         !saysCancelled && !s.coordinator.cancelSent && canRetry == retryable && at == now
       case HostError(written, at) => written && retryable && at == now
       case _ => false
  }

  /**
   Over every run: a failed attempt is retried exactly if the failure is retryable and attempts are left on the row; the
   job has failed otherwise. Either way the row is released and its attempts stay, and no other row changes.
   */
  lemma FailuresAreRetriedExactlyWhen(steps: seq<Step>, step: Step, retryable: bool, now: int)
    requires Fails(Run(START, steps), step, retryable, now)
    ensures var s := Run(START, steps);
            var id, after := s.coordinator.claim.id, Next(s, step);
            && id in s.jobs
            && var job := s.jobs[id];
               && RowBecomes(s.jobs, after.jobs, id,
                             if retryable && job.attempts < job.maxAttempts then RetryWait else Failed, job.attempts, None, now)
               && after.coordinator.Idle? && after.commits == s.commits
  {
    RunKeepsInv(START, steps);
  }

  ghost predicate ReadyToRun(job: Job, now: int) {
    job.status.Queued? || (job.status.RetryWait? && job.updatedAt + 5000 <= now)
  }

  /** And a retry comes: five seconds after the failure the job can be claimed, and not before. */
  lemma RetriesWaitFiveSeconds(steps: seq<Step>, step: Step, retryable: bool, now: int, later: int)
    requires Fails(Run(START, steps), step, retryable, now)
    ensures var s := Run(START, steps);
            var id, after := s.coordinator.claim.id, Next(s, step);
            && id in s.jobs && id in after.jobs
            && (ReadyToRun(after.jobs[id], later) <==>
                  retryable && s.jobs[id].attempts < s.jobs[id].maxAttempts && later >= now + 5000)
  {
    FailuresAreRetriedExactlyWhen(steps, step, retryable, now);
  }

  /** A worker that says it was cancelled, or was told to cancel, leaves the job cancelled and released. */
  lemma CancelledWorkersLeaveItCancelled(steps: seq<Step>, saysCancelled: bool, retryable: bool, whole: bool, now: int)
    requires var s := Run(START, steps); s.coordinator.Holding? && (saysCancelled || s.coordinator.cancelSent)
    ensures var s, step := Run(START, steps), WorkerError(saysCancelled, retryable, whole, now);
            var id, after := s.coordinator.claim.id, Next(s, step);
            && id in s.jobs && RowBecomes(s.jobs, after.jobs, id, Cancelled, s.jobs[id].attempts, None, now)
            && after.coordinator == (if whole then Idle else Leaving(s.coordinator.claim)) && after.commits == s.commits
  {
    RunKeepsInv(START, steps);
  }

  /** A result commits the held job once and completes its row. */
  lemma ResultsCompleteTheHeldJob(steps: seq<Step>, now: int)
    requires Run(START, steps).coordinator.Holding?
    ensures var s := Run(START, steps);
            var id, after := s.coordinator.claim.id, Next(s, Complete(now));
            && id in s.jobs && RowBecomes(s.jobs, after.jobs, id, Completed, s.jobs[id].attempts, None, now)
            && after.coordinator.Idle?
            && CommitsOf(s.commits, id) == 0 && CommitsOf(after.commits, id) == 1
            && (forall other :: other != id ==> CommitsOf(after.commits, other) == CommitsOf(s.commits, other))
  {
    RunKeepsInv(START, steps);
    var s := Run(START, steps);
    assert CommitCounted(s, s.coordinator.claim.id);
    forall other | other != s.coordinator.claim.id
      ensures CommitsOf(Next(s, Complete(now)).commits, other) == CommitsOf(s.commits, other)
    {
    }
  }

  /**
   Cancelling asks a running job to stop, and it keeps its lock; a job that is queued, waiting or interrupted is cancelled
   at once; any other is left alone.
   */
  lemma CancellingTakesEffectExactly(s: State, id: JobId, now: int)
    ensures var after := Next(s, CancelJob(id, now));
            if id in s.jobs && s.jobs[id].status.Running? then
              RowBecomes(s.jobs, after.jobs, id, CancelRequested, s.jobs[id].attempts, s.jobs[id].lock, now)
              && after == s.(jobs := after.jobs)
            else if id in s.jobs && s.jobs[id].status in {Queued, RetryWait, Interrupted} then
              RowBecomes(s.jobs, after.jobs, id, Cancelled, s.jobs[id].attempts, None, now)
              && after == s.(jobs := after.jobs)
            else after == s
  {
  }

  /** A cancellation that was requested is passed on to the worker, and only such a one. */
  lemma RequestedCancellationsAreForwarded(s: State)
    ensures var after := Next(s, ForwardCancel);
            if s.coordinator.Holding? && s.coordinator.claim.id in s.jobs
               && s.jobs[s.coordinator.claim.id].status.CancelRequested?
            then after == s.(coordinator := Holding(s.coordinator.claim, true))
            else after == s
  {
  }

  /** Progress stamps the held job's row while it is in progress, and changes nothing else. */
  lemma ProgressOnlyStamps(s: State, now: int)
    ensures var after := Next(s, Progress(now));
            if s.coordinator.Holding? && s.coordinator.claim.id in s.jobs
               && s.jobs[s.coordinator.claim.id].status in {Running, CancelRequested}
            then
              var id := s.coordinator.claim.id;
              RowBecomes(s.jobs, after.jobs, id, s.jobs[id].status, s.jobs[id].attempts, s.jobs[id].lock, now)
              && after == s.(jobs := after.jobs)
            else after == s
  {
  }

  /** A manual retry queues an ended, interrupted or waiting job again with its whole budget. */
  lemma RetryingTakesEffectExactly(s: State, id: JobId, now: int)
    ensures var after := Next(s, RetryJob(id, now));
            if id in s.jobs && s.jobs[id].status in {Failed, Cancelled, Interrupted, RetryWait} then
              RowBecomes(s.jobs, after.jobs, id, Queued, 0, None, now) && after == s.(jobs := after.jobs)
            else after == s
  {
  }

  /** What start-up makes of a row: an interrupted attempt counts, and a job without attempts left has failed. */
  ghost predicate StartedUp(job: Job, after: Job, now: int) {
    var spent := if job.status in {Running, CancelRequested} then job.attempts + 1 else job.attempts;
    if job.status in {Running, CancelRequested, Interrupted} then
      after == job.(status := if spent >= job.maxAttempts then Failed else RetryWait, attempts := spent,
                    lock := if job.status.Interrupted? then job.lock else None, updatedAt := now)
    else after == job
  }

  /** Both statements of start-up recovery, whether or not an earlier start-up was stopped between them. */
  lemma StartUpReleasesInterruptedJobs(s: State, now: int, later: int)
    requires s.coordinator.Down?
    ensures var after := Next(Next(s, InterruptRunning(now)), RequeueInterrupted(later));
            && after.jobs.Keys == s.jobs.Keys
            && (forall id :: id in s.jobs ==> StartedUp(s.jobs[id], after.jobs[id], later))
            && after == s.(jobs := after.jobs, coordinator := Idle)
  {
    var between := Next(s, InterruptRunning(now));
    var after := Next(between, RequeueInterrupted(later));
    forall id | id in s.jobs ensures StartedUp(s.jobs[id], after.jobs[id], later) {
      assert between.jobs[id] == Interrupting(s.jobs[id], now);
      assert after.jobs[id] == Requeueing(between.jobs[id], later);
    }
  }

  /** Who comes first: the higher priority, then the older job. */
  ghost predicate ComesFirst(jobs: map<JobId, Job>, id: JobId, now: int)
    requires id in jobs
  {
    forall other | other in jobs && ReadyToRun(jobs[other], now) ::
      && jobs[other].priority <= jobs[id].priority
      && (jobs[other].priority == jobs[id].priority ==> jobs[id].createdAt <= jobs[other].createdAt)
  }

  /**
   An idle coordinator claims a job that is queued or has waited five seconds and that comes first of those: the row runs,
   one attempt more, under a lock of its own.
   */
  lemma ClaimingTakesTheFirst(s: State, id: JobId, now: int)
    ensures var after := Next(s, ClaimNext(id, now));
            if s.coordinator.Idle? && id in s.jobs && ReadyToRun(s.jobs[id], now) && ComesFirst(s.jobs, id, now)
            then
              && RowBecomes(s.jobs, after.jobs, id, Running, s.jobs[id].attempts + 1, Some(s.nextSerial), now)
              && after.coordinator == Holding(Claim(id, s.jobs[id].attempts + 1, s.jobs[id].maxAttempts, s.nextSerial), false)
              && after.nextSerial == s.nextSerial + 1
            else after == s
  {
    if id in s.jobs {
      assert ComesFirst(s.jobs, id, now) <==>
             forall other :: other in s.jobs && Claimable(s.jobs[other], now) ==> !RanksBefore(s.jobs[other], s.jobs[id]);
    }
  }

  /** Deleting a meeting takes its jobs, and no others, exactly if all have ended and nothing is being recorded. */
  lemma DeletingTakesEffectExactly(s: State, m: MeetingId, recording: bool)
    ensures var after := Next(s, DeleteMeeting(m, recording));
            if && m in s.meetings && !recording
               && (forall id :: id in s.jobs && s.jobs[id].meeting == m ==> s.jobs[id].status in {Completed, Failed, Cancelled})
            then
              && after.meetings == s.meetings - {m}
              && (forall id :: id in after.jobs <==> id in s.jobs && s.jobs[id].meeting != m)
              && (forall id :: id in after.jobs ==> after.jobs[id] == s.jobs[id])
            else after == s
  {
    assert Deletable(s.jobs, m) <==>
           forall id :: id in s.jobs && s.jobs[id].meeting == m ==> s.jobs[id].status in {Completed, Failed, Cancelled};
  }

  /** A new job waits in the queue with four attempts. */
  lemma NewJobsAreQueued(s: State, id: JobId, m: MeetingId, priority: int, now: int)
    requires id !in s.issued && m in s.meetings
    ensures Next(s, Enqueue(id, m, priority, now)).jobs
         == s.jobs[id := Job(m, Queued, 0, 4, priority, now, now, None)]
  {
  }

  // ---------------------------------------------------------------------------------------
  // Completion is final
  // ---------------------------------------------------------------------------------------

  /** A completed job, or one deleted with its meeting. */
  ghost predicate Settled(s: State, id: JobId, row: Job) {
    id in s.issued && (id in s.jobs ==> s.jobs[id] == row)
  }

  lemma StepKeepsSettled(s: State, step: Step, id: JobId, row: Job)
    requires Inv(s) && row.status.Completed? && Settled(s, id, row)
    ensures Settled(Next(s, step), id, row)
  {
  }

  /** No later step of anybody changes a completed row; it can only go with its meeting. */
  lemma {:induction false} CompletionIsFinal(s: State, steps: seq<Step>, id: JobId, row: Job)
    requires Inv(s) && row.status.Completed? && Settled(s, id, row)
    ensures Settled(Run(s, steps), id, row)
    decreases |steps|
  {
    if steps != [] {
      StepKeepsSettled(s, steps[0], id, row);
      NextKeepsInv(s, steps[0]);
      CompletionIsFinal(Next(s, steps[0]), steps[1..], id, row);
    }
  }

  /** A job commits at most once, and the jobs on record that did are exactly the completed ones. */
  lemma EachJobCommitsAtMostOnce(steps: seq<Step>, id: JobId)
    ensures var s := Run(START, steps);
            && CommitsOf(s.commits, id) <= 1
            && (id in s.jobs ==> (CommitsOf(s.commits, id) == 1 <==> s.jobs[id].status.Completed?))
  {
    RunKeepsInv(START, steps);
    assert id in Run(START, steps).jobs ==> CommitCounted(Run(START, steps), id);
  }

  // ---------------------------------------------------------------------------------------
  // The attempt budget
  // ---------------------------------------------------------------------------------------

  /** The attempts recorded of a waiting or running job leave it within its budget. */
  lemma AttemptsStayWithinBudget(steps: seq<Step>, id: JobId)
    requires id in Run(START, steps).jobs
    ensures var job := Run(START, steps).jobs[id];
            && (job.status.RetryWait? ==> job.attempts < job.maxAttempts)
            && (InProgress(job.status) ==> 1 <= job.attempts <= job.maxAttempts)
  {
    RunKeepsInv(START, steps);
    assert JobSane(Run(START, steps).jobs[id]);
  }

  /** How many times a job can still be claimed without a manual retry. */
  function Budget(s: State, id: JobId): nat {
    if id !in s.issued then MAX_ATTEMPTS
    else if id !in s.jobs || Terminal(s.jobs[id].status) || s.jobs[id].attempts >= s.jobs[id].maxAttempts then 0
    else s.jobs[id].maxAttempts - s.jobs[id].attempts
  }

  predicate Claims(s: State, step: Step, id: JobId) {
    step.ClaimNext? && step.id == id && Enabled(s, step)
  }

  function ClaimsIn(s: State, steps: seq<Step>, id: JobId): nat
    decreases |steps|
  {
    if steps == [] then 0
    else (if Claims(s, steps[0], id) then 1 else 0) + ClaimsIn(Next(s, steps[0]), steps[1..], id)
  }

  predicate Retries(step: Step, id: JobId) {
    step.RetryJob? && step.id == id
  }

  lemma TableStepSpendsBudget(s: State, step: Step, id: JobId)
    requires Inv(s) && !Retries(step, id) && !OfCoordinator(step)
    ensures Budget(Next(s, step), id) <= Budget(s, id)
  {
    assert id in s.jobs ==> JobSane(s.jobs[id]);
    assert step.DeleteMeeting? || step.InterruptRunning? || step.RequeueInterrupted? ==>
        id in Next(s, step).jobs ==> id in s.jobs;
  }

  lemma CoordinatorStepSpendsBudget(s: State, step: Step, id: JobId)
    requires Inv(s) && OfCoordinator(step)
    ensures (if Claims(s, step, id) then 1 else 0) + Budget(Next(s, step), id) <= Budget(s, id)
  {
    assert id in s.jobs ==> JobSane(s.jobs[id]);
  }

  lemma StepSpendsBudget(s: State, step: Step, id: JobId)
    requires Inv(s) && !Retries(step, id)
    ensures (if Claims(s, step, id) then 1 else 0) + Budget(Next(s, step), id) <= Budget(s, id)
  {
    if OfCoordinator(step) {
      CoordinatorStepSpendsBudget(s, step, id);
    } else {
      TableStepSpendsBudget(s, step, id);
    }
  }

  /** Every claim is paid for: failures, stops and half-finished recoveries never refund one. */
  lemma {:induction false} ClaimsArePaidFor(s: State, steps: seq<Step>, id: JobId)
    requires Inv(s) && forall i :: 0 <= i < |steps| ==> !Retries(steps[i], id)
    ensures ClaimsIn(s, steps, id) + Budget(Run(s, steps), id) <= Budget(s, id)
    decreases |steps|
  {
    if steps != [] {
      StepSpendsBudget(s, steps[0], id);
      NextKeepsInv(s, steps[0]);
      ClaimsArePaidFor(Next(s, steps[0]), steps[1..], id);
    }
  }

  /** Without a manual retry a job is claimed at most max_attempts times, over any run. */
  lemma ClaimsAreBounded(steps: seq<Step>, id: JobId)
    requires forall i :: 0 <= i < |steps| ==> !Retries(steps[i], id)
    ensures ClaimsIn(START, steps, id) <= MAX_ATTEMPTS
  {
    ClaimsArePaidFor(START, steps, id);
  }

  // ---------------------------------------------------------------------------------------
  // The queue and its coordinator, as they change the table
  // ---------------------------------------------------------------------------------------

  method InterruptRows(jobs: map<JobId, Job>, now: int) returns (rows: map<JobId, Job>)
    ensures rows == Interrupt(jobs, now)
  {
    rows := map id | id in jobs ::
      if jobs[id].status.Running? || jobs[id].status.CancelRequested?
      then jobs[id].(status := Interrupted, attempts := jobs[id].attempts + 1, lock := None, updatedAt := now)
      else jobs[id];
  }

  method RequeueRows(jobs: map<JobId, Job>, now: int) returns (rows: map<JobId, Job>)
    ensures rows == Requeue(jobs, now)
  {
    rows := map id | id in jobs ::
      if jobs[id].status.Interrupted?
      then jobs[id].(status := if jobs[id].attempts >= jobs[id].maxAttempts then Failed else RetryWait, updatedAt := now)
      else jobs[id];
  }

  class Queue {
    var jobs: map<JobId, Job>
    var meetings: set<MeetingId>
    var coordinator: Coordinator
    var nextSerial: nat
    ghost var issued: set<JobId>
    ghost var commits: map<JobId, nat>

    ghost function Abs(): State
      reads this
    {
      State(jobs, meetings, coordinator, nextSerial, issued, commits)
    }

    ghost predicate Valid()
      reads this
    {
      Inv(Abs())
    }

    constructor ()
      ensures Valid() && Abs() == START
    {
      jobs, meetings, coordinator, nextSerial := map[], {}, Down, 0;
      issued, commits := {}, map[];
    }

    /** The row that the query orders first, if any row can be claimed. */
    method FirstClaimable(now: int) returns (best: Option<JobId>)
      ensures best.Some? ==> NextInLine(jobs, best.value, now)
      ensures best.None? ==> forall id :: id in jobs ==> !Claimable(jobs[id], now)
    {
      best := None;
      var rest := jobs.Keys;
      while rest != {}
        invariant rest <= jobs.Keys
        invariant best.None? ==> forall id :: id in jobs && id !in rest ==> !Claimable(jobs[id], now)
        invariant best.Some? ==>
                    && best.value in jobs && Claimable(jobs[best.value], now)
                    && forall id :: id in jobs && id !in rest && Claimable(jobs[id], now) ==>
                         !RanksBefore(jobs[id], jobs[best.value])
        decreases |rest|
      {
        var id :| id in rest;
        if Claimable(jobs[id], now) && (best.None? || RanksBefore(jobs[id], jobs[best.value])) {
          best := Some(id);
        }
        rest := rest - {id};
      }
    }

    method ClaimNextJob(now: int) returns (claim: Option<Claim>)
      requires Valid() && coordinator.Idle?
      modifies this
      ensures Valid()
      ensures claim.None? ==> Abs() == old(Abs()) && forall id :: id in jobs ==> !Claimable(jobs[id], now)
      ensures claim.Some? ==>
                && Enabled(old(Abs()), ClaimNext(claim.value.id, now))
                && Abs() == Next(old(Abs()), ClaimNext(claim.value.id, now))
                && coordinator == Holding(claim.value, false)
    {
      ghost var before := Abs();
      var best := FirstClaimable(now);
      if best.None? {
        return None;
      }
      var id := best.value;
      assert Enabled(before, ClaimNext(id, now));
      NextKeepsInv(before, ClaimNext(id, now));
      var row := Claimed(jobs[id], nextSerial, now);
      jobs := jobs[id := row];
      claim := Some(Claim(id, row.attempts, row.maxAttempts, nextSerial));
      nextSerial := nextSerial + 1;
      coordinator := Holding(claim.value, false);
      assert Abs() == Next(before, ClaimNext(id, now));
    }

    method UpdateJobProgress(now: int)
      requires Valid() && coordinator.Holding?
      modifies `jobs
      ensures Valid() && Abs() == Next(old(Abs()), Progress(now))
    {
      var id := coordinator.claim.id;
      ghost var before := Abs();
      NextKeepsInv(before, Progress(now));
      if id in jobs && (jobs[id].status.Running? || jobs[id].status.CancelRequested?) {
        jobs := jobs[id := jobs[id].(updatedAt := now)];
      }
      assert Abs() == Next(before, Progress(now));
    }

    /** The last statements of the commit: written whatever the row says. */
    method CompleteJob(now: int)
      requires Valid() && coordinator.Holding?
      modifies this
      ensures Valid() && Abs() == Next(old(Abs()), Complete(now))
    {
      var id := coordinator.claim.id;
      ghost var before := Abs();
      NextKeepsInv(before, Complete(now));
      if id in jobs {
        jobs := jobs[id := jobs[id].(status := Completed, lock := None, updatedAt := now)];
      }
      commits := commits[id := CommitsOf(commits, id) + 1];
      coordinator := Idle;
      assert Abs() == Next(before, Complete(now));
    }

    method FailJob(retryable: bool, now: int)
      requires Valid() && coordinator.Holding? && !coordinator.cancelSent
      modifies this
      ensures Valid() && Abs() == Next(old(Abs()), WorkerError(false, retryable, true, now))
    {
      var claim := coordinator.claim;
      ghost var before := Abs();
      NextKeepsInv(before, WorkerError(false, retryable, true, now));
      var retry := retryable && claim.attempts < claim.maxAttempts;
      if claim.id in jobs && (jobs[claim.id].status.Running? || jobs[claim.id].status.CancelRequested?) {
        jobs := jobs[claim.id := jobs[claim.id].(status := if retry then RetryWait else Failed, lock := None,
                                                 updatedAt := now)];
      }
      coordinator := Idle;
      assert Abs() == Next(before, WorkerError(false, retryable, true, now));
    }

    /** Written whatever the row says; the second statement may fail, and then fail_job follows. */
    method MarkCancelled(second: bool, now: int)
      requires Valid() && coordinator.Holding?
      modifies this
      ensures Valid() && Abs() == Next(old(Abs()), WorkerError(true, false, second, now))
    {
      var claim := coordinator.claim;
      ghost var before := Abs();
      NextKeepsInv(before, WorkerError(true, false, second, now));
      if claim.id in jobs {
        jobs := jobs[claim.id := jobs[claim.id].(status := Cancelled, lock := None, updatedAt := now)];
      }
      coordinator := if second then Idle else Leaving(claim);
      assert Abs() == Next(before, WorkerError(true, false, second, now));
    }

    method Cancel(id: JobId, now: int) returns (changed: bool)
      requires Valid()
      modifies `jobs
      ensures Valid() && Abs() == Next(old(Abs()), CancelJob(id, now))
      ensures changed <==> Enabled(old(Abs()), CancelJob(id, now))
    {
      ghost var before := Abs();
      NextKeepsInv(before, CancelJob(id, now));
      changed := id in jobs && Cancellable(jobs[id].status);
      if changed {
        var job := jobs[id];
        var running := job.status.Running?;
        jobs := jobs[id := job.(status := if running then CancelRequested else Cancelled,
                                lock := if running then job.lock else None, updatedAt := now)];
      }
      assert Abs() == Next(before, CancelJob(id, now));
    }

    method Retry(id: JobId, now: int) returns (changed: bool)
      requires Valid()
      modifies `jobs
      ensures Valid() && Abs() == Next(old(Abs()), RetryJob(id, now))
      ensures changed <==> Enabled(old(Abs()), RetryJob(id, now))
    {
      ghost var before := Abs();
      NextKeepsInv(before, RetryJob(id, now));
      changed := id in jobs && Retryable(jobs[id].status);
      if changed {
        jobs := jobs[id := jobs[id].(status := Queued, attempts := 0, lock := None, updatedAt := now)];
      }
      assert Abs() == Next(before, RetryJob(id, now));
    }

    /** `recording`: a session of the meeting has neither stopped nor failed. */
    method Delete(m: MeetingId, recording: bool) returns (deleted: bool)
      requires Valid()
      modifies `jobs, `meetings
      ensures Valid() && Abs() == Next(old(Abs()), DeleteMeeting(m, recording))
      ensures deleted <==> Enabled(old(Abs()), DeleteMeeting(m, recording))
    {
      ghost var before := Abs();
      NextKeepsInv(before, DeleteMeeting(m, recording));
      var active := set id | id in jobs && jobs[id].meeting == m && !Terminal(jobs[id].status);
      deleted := m in meetings && active == {} && !recording;
      assert Deletable(jobs, m) <==> active == {} by {
        assert forall id :: id in jobs && jobs[id].meeting == m && !Terminal(jobs[id].status) ==> id in active;
      }
      if deleted {
        meetings := meetings - {m};
        jobs := map id | id in jobs && jobs[id].meeting != m :: jobs[id];
      }
      assert Abs() == Next(before, DeleteMeeting(m, recording));
    }

    /** The first statement of start-up recovery. The host may stop before the second. */
    method InterruptRunningJobs(now: int)
      requires Valid() && coordinator.Down?
      modifies this
      ensures Valid() && Abs() == Next(old(Abs()), InterruptRunning(now))
    {
      ghost var before := Abs();
      NextKeepsInv(before, InterruptRunning(now));
      var rows := InterruptRows(jobs, now);
      jobs := rows;
      coordinator := Recovering;
      assert Abs() == Next(before, InterruptRunning(now));
    }

    method RequeueInterruptedJobs(now: int)
      requires Valid() && coordinator.Recovering?
      modifies this
      ensures Valid() && Abs() == Next(old(Abs()), RequeueInterrupted(now))
    {
      ghost var before := Abs();
      NextKeepsInv(before, RequeueInterrupted(now));
      var rows := RequeueRows(jobs, now);
      jobs := rows;
      coordinator := Idle;
      assert Abs() == Next(before, RequeueInterrupted(now));
    }
  }
}

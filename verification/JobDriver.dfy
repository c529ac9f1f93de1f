/**
 The provision driver's lease protocol (`driveJobIfNeeded` in `src/index.ts`) over one job row, with the
 job statements of `src/store-d1.ts`. The clock is in milliseconds, the row's columns in whole seconds.
 */
module JobDriver {
  import opened Basics

  const JOB_LEASE_SECONDS: int := 60
  const MAX_JOB_STALE_MS: int := 600_000
  const MAX_PROVISION_JOB_AGE_MS: int := 7_200_000

  datatype Status = Queued | Running | Succeeded | Failed

  datatype Kind = ProvisionKind | DeprovisionKind | ModuleUpgradeKind | StudioUpgradeKind

  /** A time that does not parse is `None`. `stepsParse` says whether `steps_done` is well-formed JSON. */
  datatype Job = Job(kind: Kind, status: Status, leaseUntil: Option<int>, createdAt: Option<int>,
                     updatedAt: Option<int>, stepsParse: bool)

  predicate IsOpen(job: Job) {
    job.status == Queued || job.status == Running
  }

  /** leaseIsLive, as the worker reads it. */
  predicate LeaseIsLive(lease: Option<int>, now: int) {
    lease.Some? && lease.value * 1000 > now
  }

  /** `lease_until IS NULL OR lease_until < datetime('now')`, as the statements read it. */
  predicate LeaseIsFree(lease: Option<int>, now: int) {
    lease.None? || lease.value < now / 1000
  }

  /** The two readings never contradict each other; they leave one second in which neither holds. */
  lemma LeaseReadings(lease: Option<int>, now: int)
    ensures LeaseIsFree(lease, now) ==> !LeaseIsLive(lease, now)
    ensures !LeaseIsFree(lease, now) && !LeaseIsLive(lease, now) <==> lease == Some(now / 1000)
  {
  }

  predicate JobHasLiveDriver(job: Job, now: int) {
    IsOpen(job) && LeaseIsLive(job.leaseUntil, now)
  }

  predicate JobAwaitsFirstDriver(job: Job) {
    job.status == Queued
  }

  // ---- the statements ----

  function Leased(job: Job, now: int): Job {
    job.(leaseUntil := Some(now / 1000 + JOB_LEASE_SECONDS))
  }

  predicate CanClaim(job: Job, now: int) {
    IsOpen(job) && LeaseIsFree(job.leaseUntil, now)
  }

  function ClaimJob(job: Job, now: int): Job {
    if CanClaim(job, now) then Leased(job, now).(updatedAt := Some(now / 1000)) else job
  }

  function FinishJob(job: Job, now: int, outcome: Status): Job {
    if IsOpen(job) then job.(status := outcome, leaseUntil := None, updatedAt := Some(now / 1000)) else job
  }

  function RenewJobLease(job: Job, now: int): Job {
    if IsOpen(job) then Leased(job, now) else job
  }

  function ReleaseJobLease(job: Job): Job {
    if IsOpen(job) then job.(leaseUntil := None) else job
  }

  function UpdateJobProgress(job: Job, now: int): Job {
    if IsOpen(job) then Leased(job, now).(updatedAt := Some(now / 1000)) else job
  }

  /** setJobRunning looks at the lease only, never at the status. */
  function SetJobRunning(job: Job, now: int): Job {
    if LeaseIsFree(job.leaseUntil, now) then Leased(job, now).(status := Running, updatedAt := Some(now / 1000)) else job
  }

  // ---- one poll ----

  datatype Action = Nothing | Reap | Claim

  predicate OlderThan(at: Option<int>, now: int, limit: int) {
    at.Some? && now - at.value * 1000 > limit
  }

  /** What the guards decide about the row as it was read. */
  function Decide(job: Job, now: int): Action {
    if !IsOpen(job) then Nothing
    else if job.kind != ProvisionKind then Nothing
    else if JobHasLiveDriver(job, now) then Nothing
    else if OlderThan(job.createdAt, now, MAX_PROVISION_JOB_AGE_MS) then Reap
    else if OlderThan(job.updatedAt, now, MAX_JOB_STALE_MS) then Reap
    else if JobAwaitsFirstDriver(job) then Nothing
    else Claim
  }

  datatype TenantStatus = Pending | Provisioning | AwaitingGoLive | TenantFailed

  datatype DriveOutcome = Quiet | Reaped(job: Job) | Dispatched | ThrewAfterClaim

  /** The job row and its tenant's status, as the store holds them. */
  class JobStore {
    var job: Job
    var tenant: TenantStatus

    constructor (job: Job, tenant: TenantStatus)
      ensures this.job == job && this.tenant == tenant
    {
      this.job, this.tenant := job, tenant;
    }

    method Claim(now: int) returns (won: bool)
      modifies this`job
      ensures job == ClaimJob(old(job), now) && (won <==> CanClaim(old(job), now))
    {
      won := CanClaim(job, now);
      job := ClaimJob(job, now);
    }

    method Finish(now: int, outcome: Status) returns (closed: bool)
      modifies this`job
      ensures job == FinishJob(old(job), now, outcome) && (closed <==> IsOpen(old(job)))
    {
      closed := IsOpen(job);
      job := FinishJob(job, now, outcome);
    }
  }

  /**
   One call, acting on `snapshot`, the row as it read it; the store's row may have moved on since. A reap
   fails the tenant exactly when it closed the job itself; a drive is dispatched only after a won claim on
   a provision that was running when read; nothing else is ever written.
   */
  method DriveJobIfNeeded(store: JobStore, hasProvisioner: bool, snapshot: Job, now: int) returns (o: DriveOutcome)
    modifies store
    ensures o.Reaped? <==>
              && hasProvisioner && (snapshot.status == Queued || snapshot.status == Running) && snapshot.kind == ProvisionKind
              && !(snapshot.leaseUntil.Some? && snapshot.leaseUntil.value * 1000 > now)
              && ((snapshot.createdAt.Some? && now - snapshot.createdAt.value * 1000 > 7_200_000)
                  || (snapshot.updatedAt.Some? && now - snapshot.updatedAt.value * 1000 > 600_000))
    ensures o.Dispatched? || o.ThrewAfterClaim? <==>
              && hasProvisioner && !o.Reaped? && snapshot.status == Running && snapshot.kind == ProvisionKind
              && !(snapshot.leaseUntil.Some? && snapshot.leaseUntil.value * 1000 > now)
              && (old(store.job).status == Queued || old(store.job).status == Running)
              && (old(store.job).leaseUntil.None? || old(store.job).leaseUntil.value < now / 1000)
    ensures !hasProvisioner || Decide(snapshot, now) == Nothing ==>
              o == Quiet && store.job == old(store.job) && store.tenant == old(store.tenant)
    ensures hasProvisioner && Decide(snapshot, now) == Reap ==>
              && store.job == FinishJob(old(store.job), now, Failed) && o == Reaped(store.job)
              && store.tenant == if IsOpen(old(store.job)) then TenantFailed else old(store.tenant)
    ensures hasProvisioner && Decide(snapshot, now) == Claim ==>
              && store.job == ClaimJob(old(store.job), now) && store.tenant == old(store.tenant)
              && o == if !CanClaim(old(store.job), now) then Quiet else if snapshot.stepsParse then Dispatched else ThrewAfterClaim
  {
    if snapshot.status == Succeeded || snapshot.status == Failed {
      return Quiet;
    }
    if !hasProvisioner {
      return Quiet;
    }
    if snapshot.kind != ProvisionKind {
      return Quiet;
    }
    if JobHasLiveDriver(snapshot, now) {
      return Quiet;
    }
    if snapshot.createdAt.Some? && now - snapshot.createdAt.value * 1000 > MAX_PROVISION_JOB_AGE_MS {
      var closed := store.Finish(now, Failed);
      if closed { store.tenant := TenantFailed; }
      return Reaped(store.job);
    }
    if snapshot.updatedAt.Some? && now - snapshot.updatedAt.value * 1000 > MAX_JOB_STALE_MS {
      var closed := store.Finish(now, Failed);
      if closed { store.tenant := TenantFailed; }
      return Reaped(store.job);
    }
    if JobAwaitsFirstDriver(snapshot) {
      return Quiet;
    }
    var won := store.Claim(now);
    if !won {
      return Quiet;
    }
    if !snapshot.stepsParse {
      return ThrewAfterClaim;
    }
    return Dispatched;
  }

  // ---- pollers, cron ticks, drivers and the clock ----

  datatype Poll =
    | Holding(snapshot: Job)
    | OwesTenantWrite
    | Done

  /**
   A driver and the end of the lease it last wrote, as far as it knows. A `resumed` driver was dispatched by a
   poll and may still go back over the early steps, which begins with a `setJobRunning` of its own.
   */
  datatype Driver = Driver(until: Option<int>, resumed: bool)

  /**
   `arrived` says whether the job's first driver has come; it is dispatched once. `closers` are the polls whose
   reap closed the row, `failers` those that failed the tenant.
   */
  datatype State = State(now: int, job: Job, tenant: TenantStatus, arrived: bool, polls: map<nat, Poll>,
                         drivers: map<nat, Driver>, closers: set<nat>, failers: set<nat>)

  /** A job as it was inserted or found, before any poll or driver came to it. */
  function Untouched(job: Job, now: int): State {
    State(now, job, Pending, false, map[], map[], {}, {})
  }

  datatype Step =
    | Tick(to: int)
    | Read(p: nat)
    | Act(p: nat, d: nat)
    | FailTenant(p: nat)
    | FirstDriver(d: nat)
    | Restart(d: nat)
    | Beat(d: nat)
    | Progress(d: nat)
    | Yield(d: nat)
    | Finish(d: nat, ok: bool)

  /** `Act(p, d)`: poll `p` acts on what it read; a drive it dispatches becomes driver `d`. */
  predicate Enabled(s: State, step: Step) {
    match step
    case Tick(to) => s.now <= to
    case Read(p) => p !in s.polls
    case Act(p, d) => p in s.polls && s.polls[p].Holding? && d !in s.drivers
    case FailTenant(p) => p in s.polls && s.polls[p].OwesTenantWrite?
    case FirstDriver(d) => !s.arrived && d !in s.drivers
    case Restart(d) => d in s.drivers && s.drivers[d].resumed
    case Beat(d) => d in s.drivers
    case Progress(d) => d in s.drivers
    case Yield(d) => d in s.drivers
    case Finish(d, _) => d in s.drivers
  }

  function LeaseEnd(now: int): int {
    now / 1000 + JOB_LEASE_SECONDS
  }

  function Apply(s: State, step: Step): State
    requires Enabled(s, step)
  {
    match step
    case Tick(to) => s.(now := to)
    case Read(p) => s.(polls := s.polls[p := Holding(s.job)])
    case Act(p, d) =>
      var snapshot := s.polls[p].snapshot;
      (match Decide(snapshot, s.now)
       case Nothing => s.(polls := s.polls[p := Done])
       case Reap =>
         s.(job := FinishJob(s.job, s.now, Failed),
            polls := s.polls[p := if IsOpen(s.job) then OwesTenantWrite else Done],
            closers := if IsOpen(s.job) then s.closers + {p} else s.closers)
       case Claim =>
         s.(job := ClaimJob(s.job, s.now), polls := s.polls[p := Done],
            drivers := if CanClaim(s.job, s.now) && snapshot.stepsParse then s.drivers[d := Driver(Some(LeaseEnd(s.now)), true)] else s.drivers))
    case FailTenant(p) => s.(tenant := TenantFailed, polls := s.polls[p := Done], failers := s.failers + {p})
    case FirstDriver(d) =>
      s.(job := SetJobRunning(s.job, s.now), arrived := true,
         drivers := s.drivers[d := Driver(if LeaseIsFree(s.job.leaseUntil, s.now) then Some(LeaseEnd(s.now)) else None, false)])
    case Restart(d) =>
      s.(job := SetJobRunning(s.job, s.now),
         drivers := s.drivers[d := Driver(if LeaseIsFree(s.job.leaseUntil, s.now) then Some(LeaseEnd(s.now)) else s.drivers[d].until, false)])
    case Beat(d) =>
      s.(job := RenewJobLease(s.job, s.now), drivers := s.drivers[d := s.drivers[d].(until := if IsOpen(s.job) then Some(LeaseEnd(s.now)) else None)])
    case Progress(d) =>
      s.(job := UpdateJobProgress(s.job, s.now), drivers := s.drivers[d := s.drivers[d].(until := if IsOpen(s.job) then Some(LeaseEnd(s.now)) else None)])
    case Yield(d) => s.(job := ReleaseJobLease(s.job), drivers := s.drivers - {d})
    case Finish(d, ok) =>
      s.(job := FinishJob(s.job, s.now, if ok then Succeeded else Failed), drivers := s.drivers - {d})
  }

  predicate CanRun(s: State, steps: seq<Step>)
    decreases |steps|
  {
    steps == [] || (Enabled(s, steps[0]) && CanRun(Apply(s, steps[0]), steps[1..]))
  }

  function Exec(s: State, steps: seq<Step>): State
    requires CanRun(s, steps)
    decreases |steps|
  {
    if steps == [] then s else Exec(Apply(s, steps[0]), steps[1..])
  }

  // ---- what a step writes into the row ----

  /** A driver's `setJobRunning`: the first driver's, or that of a resumed one going back over the early steps. */
  predicate SetsRunning(step: Step) {
    step.FirstDriver? || step.Restart?
  }

  /** The step takes the row: a won claim, a `setJobRunning` that finds the lease free, or a progress write on an open job. */
  predicate Works(s: State, step: Step)
    requires Enabled(s, step)
  {
    match step
    case Act(p, _) => Decide(s.polls[p].snapshot, s.now) == Claim && CanClaim(s.job, s.now)
    case FirstDriver(_) => LeaseIsFree(s.job.leaseUntil, s.now)
    case Restart(_) => LeaseIsFree(s.job.leaseUntil, s.now)
    case Progress(_) => IsOpen(s.job)
    case _ => false
  }

  /** The step closes the row. */
  predicate Closes(s: State, step: Step)
    requires Enabled(s, step)
  {
    match step
    case Act(p, _) => Decide(s.polls[p].snapshot, s.now) == Reap && IsOpen(s.job)
    case Finish(_, _) => IsOpen(s.job)
    case _ => false
  }

  /**
   The row after any step, column by column: `updated_at` is stamped by the steps that work on the job or close it, never
   by a heartbeat or a yield; the lease is set for a minute by those and by a heartbeat on an open job, and
   cleared by a close and a yield; nothing else is touched.
   */
  lemma RowAfterExactly(s: State, step: Step)
    requires Enabled(s, step)
    ensures var job, now := Apply(s, step).job, s.now / 1000;
            && job.kind == s.job.kind && job.createdAt == s.job.createdAt && job.stepsParse == s.job.stepsParse
            && job.updatedAt == (if Works(s, step) || Closes(s, step) then Some(now) else s.job.updatedAt)
            && job.leaseUntil == (if Works(s, step) || (step.Beat? && IsOpen(s.job)) then Some(now + 60)
                                  else if Closes(s, step) || (step.Yield? && IsOpen(s.job)) then None else s.job.leaseUntil)
            && job.status == (if SetsRunning(step) && Works(s, step) then Running
                              else if Closes(s, step) then (if step.Finish? && step.ok then Succeeded else Failed)
                              else s.job.status)
  {
    hide Decide;
  }

  /** When the job was last worked on, in milliseconds, going by the steps alone. */
  function LastWork(last: Option<int>, s: State, steps: seq<Step>): Option<int>
    requires CanRun(s, steps)
    decreases |steps|
  {
    if steps == [] then last
    else LastWork(if Works(s, steps[0]) then Some(s.now) else last, Apply(s, steps[0]), steps[1..])
  }

  /** While the job is open its `updated_at` is that instant, and what it was inserted with until there is one. */
  predicate StampTrue(s: State, job0: Job, last: Option<int>) {
    && s.job.kind == job0.kind && s.job.createdAt == job0.createdAt
    && (IsOpen(s.job) ==> s.job.updatedAt == if last.Some? then Some(last.value / 1000) else job0.updatedAt)
  }

  lemma {:induction false} RunKeepsStamp(s: State, job0: Job, last: Option<int>, steps: seq<Step>)
    requires CanRun(s, steps) && StampTrue(s, job0, last)
    ensures StampTrue(Exec(s, steps), job0, LastWork(last, s, steps))
    decreases |steps|
  {
    if steps != [] {
      RowAfterExactly(s, steps[0]);
      ClosedStaysClosed(s, steps[0]);
      hide Apply, Enabled, Works;
      RunKeepsStamp(Apply(s, steps[0]), job0, if Works(s, steps[0]) then Some(s.now) else last, steps[1..]);
    }
  }

  /** An open job was open before, or was just taken by a `setJobRunning`. */
  lemma ClosedStaysClosed(s: State, step: Step)
    requires Enabled(s, step)
    ensures IsOpen(Apply(s, step).job) ==> !Closes(s, step) && (IsOpen(s.job) || Works(s, step))
  {
    hide Decide;
  }

  /**
   The staleness rule over whole runs. Whatever drivers, polls and heartbeats came before, a poll that reads and acts in
   one step closes the job exactly when it is an open provision without a live lease that was created more than two
   hours ago, or on which nobody worked for more than ten minutes, as the row's whole seconds tell it.
   */
  lemma ReapedExactly(job0: Job, now0: int, steps: seq<Step>, p: nat, d: nat)
    requires CanRun(Untouched(job0, now0), steps)
    requires var s := Exec(Untouched(job0, now0), steps); p !in s.polls && d !in s.drivers
    ensures var s, last := Exec(Untouched(job0, now0), steps), LastWork(None, Untouched(job0, now0), steps);
            var worked := if last.Some? then Some(last.value / 1000) else job0.updatedAt;
            IsOpen(s.job) && !IsOpen(Apply(Apply(s, Read(p)), Act(p, d)).job) <==>
              && IsOpen(s.job) && job0.kind == ProvisionKind && !(s.job.leaseUntil.Some? && s.job.leaseUntil.value * 1000 > s.now)
              && ((job0.createdAt.Some? && s.now - 1000 * job0.createdAt.value > 7_200_000)
                  || (worked.Some? && s.now - 1000 * worked.value > 600_000))
  {
    RunKeepsStamp(Untouched(job0, now0), job0, None, steps);
  }

  /** Heartbeats and yields are not work: they leave that instant, and so the staleness of the job, where it was. */
  lemma BeatsAreNoWork(s: State, step: Step)
    requires Enabled(s, step) && (step.Beat? || step.Yield?)
    ensures !Works(s, step) && LastWork(None, s, [step]) == None
    ensures Apply(s, step).job.updatedAt == s.job.updatedAt && Apply(s, step).job.createdAt == s.job.createdAt
  {
    assert [step][1..] == [];
  }

  // ---- a terminal job ----

  /**
   Which steps change a terminal job's status: only a `setJobRunning` that comes late. It does not look at the
   status, so it reopens a closed record whose lease is free.
   */
  lemma TerminalReopenedExactly(s: State, step: Step)
    requires Enabled(s, step) && !IsOpen(s.job)
    ensures Apply(s, step).job.status != s.job.status <==> SetsRunning(step) && LeaseIsFree(s.job.leaseUntil, s.now)
  {
  }

  /** Without a late `setJobRunning` a terminal job keeps its status over every run. */
  lemma {:induction false} TerminalIsFinal(s: State, steps: seq<Step>)
    requires CanRun(s, steps) && !IsOpen(s.job)
    requires forall k | 0 <= k < |steps| :: !SetsRunning(steps[k])
    ensures Exec(s, steps).job.status == s.job.status
    decreases |steps|
  {
    if steps != [] {
      TerminalReopenedExactly(s, steps[0]);
      hide Apply, Enabled;
      assert forall k | 0 <= k < |steps| - 1 :: steps[1..][k] == steps[k + 1];
      TerminalIsFinal(Apply(s, steps[0]), steps[1..]);
    }
  }

  lemma {:induction false} ExecSnoc(s: State, steps: seq<Step>, step: Step)
    requires CanRun(s, steps) && Enabled(Exec(s, steps), step)
    ensures CanRun(s, steps + [step]) && Exec(s, steps + [step]) == Apply(Exec(s, steps), step)
    decreases |steps|
  {
    hide Apply, Enabled;
    if steps == [] {
      assert [] + [step] == [step] && [step][1..] == [];
    } else {
      assert (steps + [step])[1..] == steps[1..] + [step];
      ExecSnoc(Apply(s, steps[0]), steps[1..], step);
    }
  }

  const STALE_JOB: Job := Job(ProvisionKind, Queued, None, Some(0), Some(0), true)

  /** A queued job reaped as stale and then reached by its own slow first driver reads as running again. */
  lemma LateFirstDriverReopens() returns (t: State)
    ensures var steps := [Read(0), Act(0, 1), FailTenant(0), FirstDriver(2)];
            CanRun(Untouched(STALE_JOB, 700_000), steps) && t == Exec(Untouched(STALE_JOB, 700_000), steps)
    ensures t.job.status == Running && t.tenant == TenantFailed
  {
    var s := Untouched(STALE_JOB, 700_000);
    ExecSnoc(s, [], Read(0));
    ExecSnoc(s, [Read(0)], Act(0, 1));
    ExecSnoc(s, [Read(0), Act(0, 1)], FailTenant(0));
    ExecSnoc(s, [Read(0), Act(0, 1), FailTenant(0)], FirstDriver(2));
    Spelled(Read(0), Act(0, 1), FailTenant(0), FirstDriver(2));
    t := Exec(s, [Read(0), Act(0, 1), FailTenant(0), FirstDriver(2)]);
  }

  lemma Spelled(a: Step, b: Step, c: Step, d: Step)
    ensures [] + [a] == [a] && [a] + [b] == [a, b] && [a, b] + [c] == [a, b, c] && [a, b, c] + [d] == [a, b, c, d]
  {
  }

  // ---- the tenant write follows the closing write ----

  /** Who owes or made a tenant write closed the row; what a poll holds is of the job's kind, and queued while the job is. */
  ghost predicate ReapInv(s: State) {
    && (forall p | p in s.polls && s.polls[p].OwesTenantWrite? :: p in s.closers)
    && s.failers <= s.closers
    && forall p | p in s.polls && s.polls[p].Holding? ::
         s.polls[p].snapshot.kind == s.job.kind && (s.job.status == Queued ==> s.polls[p].snapshot.status == Queued)
  }

  lemma UntouchedReapInv(job: Job, now: int)
    ensures ReapInv(Untouched(job, now))
  {
  }

  lemma StepKeepsReapInv(s: State, step: Step)
    requires Enabled(s, step) && ReapInv(s)
    ensures ReapInv(Apply(s, step))
  {
  }

  /** Over every run a poll fails the tenant only if that same poll's reap closed the job. */
  lemma {:induction false} TenantFailsOnlyWithItsJob(s: State, steps: seq<Step>)
    requires CanRun(s, steps) && ReapInv(s)
    ensures ReapInv(Exec(s, steps)) && Exec(s, steps).failers <= Exec(s, steps).closers
    decreases |steps|
  {
    if steps != [] {
      StepKeepsReapInv(s, steps[0]);
      hide Apply, Enabled, ReapInv;
      TenantFailsOnlyWithItsJob(Apply(s, steps[0]), steps[1..]);
    }
  }

  /** A poll becomes a closer only by the write that turned the open row into a failed one. */
  lemma CloserClosed(s: State, step: Step)
    requires Enabled(s, step)
    ensures Apply(s, step).closers != s.closers ==>
              && step.Act? && Apply(s, step).closers == s.closers + {step.p}
              && IsOpen(s.job) && Apply(s, step).job.status == Failed
  {
  }

  // ---- what a poll may touch ----

  /** Polling a job of another kind writes nothing, and a queued job is never claimed by a poll. */
  lemma PollTouchesOnlyTakenProvisions(s: State, p: nat, d: nat)
    requires Enabled(s, Act(p, d)) && ReapInv(s)
    ensures var t := Apply(s, Act(p, d));
            && (s.job.kind != ProvisionKind ==> t.job == s.job && t.drivers == s.drivers && t.closers == s.closers)
            && (t.drivers != s.drivers ==> s.job.kind == ProvisionKind && s.job.status == Running && CanClaim(s.job, s.now))
            && (s.job.status == Queued && t.job != s.job ==> t.job.status == Failed && t.drivers == s.drivers)
  {
  }

  /** Read and act in one step: no job with a live lease is reaped. */
  lemma AtomicPollSparesLiveJob(s: State, p: nat, d: nat)
    requires p !in s.polls && d !in s.drivers && JobHasLiveDriver(s.job, s.now)
    ensures var t := Apply(Apply(s, Read(p)), Act(p, d));
            t.job == s.job && t.tenant == s.tenant && t.drivers == s.drivers
  {
  }

  /** With the read apart from the write, a poll closes a live job exactly when its snapshot told it to reap. */
  lemma LiveJobReapedExactly(s: State, p: nat, d: nat)
    requires Enabled(s, Act(p, d)) && JobHasLiveDriver(s.job, s.now)
    ensures !IsOpen(Apply(s, Act(p, d)).job) <==> Decide(s.polls[p].snapshot, s.now) == Reap
  {
  }

  const FRESH_JOB: Job := Job(ProvisionKind, Queued, None, Some(0), Some(0), true)

  function SilentState(): State {
    State(700_000, Job(ProvisionKind, Running, Some(60), Some(0), Some(0), true), Pending, true, map[], map[0 := Driver(Some(60), false)], {}, {})
  }

  /** A first driver that reports nothing for longer than the staleness cap. */
  lemma SilentDriver()
    ensures var s, steps := Untouched(FRESH_JOB, 0), [FirstDriver(0), Tick(700_000)];
            CanRun(s, steps) && Exec(s, steps) == SilentState()
  {
    var s := Untouched(FRESH_JOB, 0);
    ExecSnoc(s, [], FirstDriver(0));
    ExecSnoc(s, [FirstDriver(0)], Tick(700_000));
    Spelled(FirstDriver(0), Tick(700_000), Tick(700_000), Tick(700_000));
  }

  /** And that does happen: its heartbeat between a poll's read and write makes the job live, and it is reaped. */
  lemma BeatBetweenReadAndReap()
    ensures CanRun(SilentState(), [Read(0), Beat(0)])
    ensures var t := Exec(SilentState(), [Read(0), Beat(0)]);
            JobHasLiveDriver(t.job, t.now) && Enabled(t, Act(0, 1)) && !IsOpen(Apply(t, Act(0, 1)).job)
  {
    var s := SilentState();
    ExecSnoc(s, [], Read(0));
    ExecSnoc(s, [Read(0)], Beat(0));
    Spelled(Read(0), Beat(0), Read(0), Read(0));
  }

  const CRON_PERIOD_MS: int := 300_000

  /**
   A job that every cron tick claims again is never stale at the next tick, because the claim stamps
   `updated_at`: once its lease has lapsed, that tick ends it exactly when its total age is over the cap.
   */
  lemma OnlyAgeEndsAReclaimedJob(job: Job, now: int, later: int)
    requires job.kind == ProvisionKind && CanClaim(job, now) && now <= later <= now + CRON_PERIOD_MS
    ensures Decide(ClaimJob(job, now), later) == Reap <==>
            !LeaseIsLive(ClaimJob(job, now).leaseUntil, later) && OlderThan(job.createdAt, later, MAX_PROVISION_JOB_AGE_MS)
  {
  }

  // ---- at most one live lease ----

  predicate Holds(s: State, d: nat) {
    d in s.drivers && !LeaseIsFree(s.drivers[d].until, s.now)
  }

  predicate AtMostOne(s: State) {
    forall d, e | d in s.drivers && e in s.drivers && Holds(s, d) && Holds(s, e) :: d == e
  }

  /** The row's lease covers every lease a driver still holds, and one driver at most holds one. */
  ghost predicate Exclusive(s: State) {
    && (forall d | d in s.drivers && Holds(s, d) && IsOpen(s.job) ::
          s.job.leaseUntil.Some? && s.drivers[d].until.value <= s.job.leaseUntil.value)
    && AtMostOne(s)
  }

  predicate NobodyHolds(s: State) {
    forall d | d in s.drivers :: !Holds(s, d)
  }

  /**
   What exclusion asks of a step. On an open job a driver beats, reports progress or yields only while its own
   lease runs, unless nobody holds one: none of the three statements has an owner check. And no `setJobRunning`
   reopens a closed row under another driver's lease.
   */
  predicate Safe(s: State, step: Step) {
    match step
    case Beat(d) => IsOpen(s.job) ==> Holds(s, d) || NobodyHolds(s)
    case Progress(d) => IsOpen(s.job) ==> Holds(s, d) || NobodyHolds(s)
    case Yield(d) => IsOpen(s.job) ==> Holds(s, d) || NobodyHolds(s)
    case FirstDriver(_) => IsOpen(s.job) || !LeaseIsFree(s.job.leaseUntil, s.now) || NobodyHolds(s)
    case Restart(d) => IsOpen(s.job) || !LeaseIsFree(s.job.leaseUntil, s.now) || Holds(s, d) || NobodyHolds(s)
    case _ => true
  }

  /** The poll's claim is won and its drive dispatched. */
  predicate Dispatches(s: State, p: nat)
    requires p in s.polls && s.polls[p].Holding?
  {
    Decide(s.polls[p].snapshot, s.now) == Claim && CanClaim(s.job, s.now) && s.polls[p].snapshot.stepsParse
  }

  /**
   What one live lease asks of a step: a statement that finds the row's lease free finds it so because nobody else
   holds one, and on an open job a driver beats or reports progress only while its own lease runs or nobody
   holds one. A late yield or close is not itself at fault; the claim it lets through is.
   */
  predicate Alone(s: State, step: Step)
    requires Enabled(s, step)
  {
    match step
    case Act(p, _) => Dispatches(s, p) ==> NobodyHolds(s)
    case FirstDriver(_) => LeaseIsFree(s.job.leaseUntil, s.now) ==> NobodyHolds(s)
    case Restart(d) => LeaseIsFree(s.job.leaseUntil, s.now) ==> Holds(s, d) || NobodyHolds(s)
    case Beat(d) => IsOpen(s.job) ==> Holds(s, d) || NobodyHolds(s)
    case Progress(d) => IsOpen(s.job) ==> Holds(s, d) || NobodyHolds(s)
    case _ => true
  }

  lemma AloneKeepsOne(s: State, step: Step)
    requires Enabled(s, step) && AtMostOne(s) && Alone(s, step)
    ensures AtMostOne(Apply(s, step))
  {
    var t := Apply(s, step);
    hide Decide;
    forall d, e | d in t.drivers && e in t.drivers && Holds(t, d) && Holds(t, e)
      ensures d == e
    {
      if d in s.drivers { assert t.drivers[d].until == s.drivers[d].until ==> Holds(s, d); }
      if e in s.drivers { assert t.drivers[e].until == s.drivers[e].until ==> Holds(s, e); }
    }
  }

  /** Otherwise the step gives its driver a lease beside the one another driver holds. */
  lemma NotAloneMakesTwo(s: State, step: Step)
    requires Enabled(s, step) && AtMostOne(s) && !Alone(s, step)
    ensures !AtMostOne(Apply(s, step))
  {
    var t := Apply(s, step);
    hide Decide;
    var e :| e in s.drivers && Holds(s, e);
    assert e in t.drivers && Holds(t, e);
    match step
    case Act(_, d) => assert Holds(t, d);
    case FirstDriver(d) => assert Holds(t, d);
    case Restart(d) => assert Holds(t, d);
    case Beat(d) => assert Holds(t, d);
    case Progress(d) => assert Holds(t, d);
  }

  lemma UntouchedExclusive(job: Job, now: int)
    ensures Exclusive(Untouched(job, now))
  {
  }

  lemma SafeKeepsExclusive(s: State, step: Step)
    requires Enabled(s, step) && Exclusive(s) && Safe(s, step)
    ensures Exclusive(Apply(s, step))
  {
    SafeIsAlone(s, step);
    AloneKeepsOne(s, step);
    var t := Apply(s, step);
    hide Decide, AtMostOne, Alone;
    forall d | d in t.drivers && Holds(t, d) && IsOpen(t.job)
      ensures t.job.leaseUntil.Some? && t.drivers[d].until.value <= t.job.leaseUntil.value
    {
      SafeKeepsRow(s, step, d);
    }
  }

  /** The row's lease is free only while nobody holds one, unless the row is closed. */
  lemma SafeIsAlone(s: State, step: Step)
    requires Enabled(s, step) && Exclusive(s) && Safe(s, step)
    ensures Alone(s, step)
  {
    hide Decide, AtMostOne;
  }

  lemma SafeKeepsRow(s: State, step: Step, d: nat)
    requires Enabled(s, step) && Exclusive(s) && Safe(s, step)
    requires d in Apply(s, step).drivers && Holds(Apply(s, step), d) && IsOpen(Apply(s, step).job)
    ensures var t := Apply(s, step); t.job.leaseUntil.Some? && t.drivers[d].until.value <= t.job.leaseUntil.value
  {
    var t := Apply(s, step);
    hide Decide;
    if d in s.drivers { assert t.drivers[d].until == s.drivers[d].until ==> Holds(s, d); }
  }

  /** An unsafe step comes while another driver holds a lease, and takes that lease's protection away. */
  lemma UnsafeBreaksExclusive(s: State, step: Step)
    requires Enabled(s, step) && Exclusive(s) && !Safe(s, step)
    ensures !Exclusive(Apply(s, step))
  {
    var t := Apply(s, step);
    var e :| e in s.drivers && Holds(s, e);
    assert e in t.drivers && Holds(t, e);
    match step
    case Beat(d) => assert Holds(t, d);
    case Progress(d) => assert Holds(t, d);
    case Yield(d) => assert IsOpen(t.job) && t.job.leaseUntil.None?;
    case FirstDriver(d) => assert Holds(t, d);
    case Restart(d) => assert Holds(t, d);
  }

  /** Step by step: a step keeps the exclusion exactly when it is safe. */
  lemma StepKeepsExclusiveExactly(s: State, step: Step)
    requires Enabled(s, step) && Exclusive(s)
    ensures Exclusive(Apply(s, step)) <==> Safe(s, step)
  {
    hide Apply, Enabled, Exclusive, Safe;
    if Safe(s, step) { SafeKeepsExclusive(s, step); } else { UnsafeBreaksExclusive(s, step); }
  }

  ghost predicate SafeRun(s: State, steps: seq<Step>)
    requires CanRun(s, steps)
    decreases |steps|
  {
    steps == [] || (Safe(s, steps[0]) && SafeRun(Apply(s, steps[0]), steps[1..]))
  }

  ghost predicate AlwaysExclusive(s: State, steps: seq<Step>)
    requires CanRun(s, steps)
    decreases |steps|
  {
    Exclusive(s) && (steps == [] || AlwaysExclusive(Apply(s, steps[0]), steps[1..]))
  }

  /**
   Over every interleaving of pollers, cron ticks, drivers and the clock, from an untouched job: at every point
   at most one claim's lease is live and the row's own lease outlives it, if and only if every step is safe.
   */
  lemma {:induction false} OneLiveLeaseExactly(s: State, steps: seq<Step>)
    requires CanRun(s, steps) && Exclusive(s)
    ensures AlwaysExclusive(s, steps) <==> SafeRun(s, steps)
    decreases |steps|
  {
    if steps != [] {
      StepKeepsExclusiveExactly(s, steps[0]);
      hide Apply, Enabled, Exclusive, Safe;
      if Exclusive(Apply(s, steps[0])) { OneLiveLeaseExactly(Apply(s, steps[0]), steps[1..]); }
      else { NotExclusiveAtOnce(Apply(s, steps[0]), steps[1..]); }
    }
  }

  lemma NotExclusiveAtOnce(s: State, steps: seq<Step>)
    requires CanRun(s, steps) && !Exclusive(s)
    ensures !AlwaysExclusive(s, steps)
  {
  }

  // ---- one live lease, whatever the row says ----

  ghost predicate AloneRun(s: State, steps: seq<Step>)
    requires CanRun(s, steps)
    decreases |steps|
  {
    steps == [] || (Alone(s, steps[0]) && AloneRun(Apply(s, steps[0]), steps[1..]))
  }

  ghost predicate AlwaysAtMostOne(s: State, steps: seq<Step>)
    requires CanRun(s, steps)
    decreases |steps|
  {
    AtMostOne(s) && (steps == [] || AlwaysAtMostOne(Apply(s, steps[0]), steps[1..]))
  }

  /**
   Over every interleaving: at every point at most one claim's lease is live, whatever the row's own lease says, if
   and only if each statement that gives a driver a lease does so while no other driver holds one.
   */
  lemma {:induction false} AtMostOneLeaseExactly(s: State, steps: seq<Step>)
    requires CanRun(s, steps) && AtMostOne(s)
    ensures AlwaysAtMostOne(s, steps) <==> AloneRun(s, steps)
    decreases |steps|
  {
    if steps != [] {
      if Alone(s, steps[0]) { AloneKeepsOne(s, steps[0]); } else { NotAloneMakesTwo(s, steps[0]); }
      hide Apply, Enabled, AtMostOne, Alone;
      if Alone(s, steps[0]) { AtMostOneLeaseExactly(Apply(s, steps[0]), steps[1..]); }
    }
  }

  /** Every lease a driver holds is covered by the row's own, so the row's lease is free only when nobody holds one. */
  ghost predicate Covered(s: State) {
    forall d | d in s.drivers && Holds(s, d) :: s.job.leaseUntil.Some? && s.drivers[d].until.value <= s.job.leaseUntil.value
  }

  /** A yield, a close or a reap that clears the row's lease while a driver other than its own holds one. */
  predicate Uncovers(s: State, step: Step)
    requires Enabled(s, step)
  {
    match step
    case Yield(d) => IsOpen(s.job) && exists e :: e in s.drivers && e != d && Holds(s, e)
    case Finish(d, _) => IsOpen(s.job) && exists e :: e in s.drivers && e != d && Holds(s, e)
    case Act(p, _) => Decide(s.polls[p].snapshot, s.now) == Reap && IsOpen(s.job) && !NobodyHolds(s)
    case _ => false
  }

  /**
   Where two live leases come from. While every held lease is covered, a claim or a `setJobRunning` is always alone,
   so only a late beat or progress write can make two; and a held lease loses its cover exactly by such a clearing step.
   */
  lemma CoverLostExactly(s: State, step: Step)
    requires Enabled(s, step) && AtMostOne(s) && Covered(s)
    ensures !step.Beat? && !step.Progress? ==> Alone(s, step)
    ensures Alone(s, step) ==> (Covered(Apply(s, step)) <==> !Uncovers(s, step))
  {
    CoveredIsAlone(s, step);
    if Alone(s, step) {
      if Uncovers(s, step) { CoverLost(s, step); } else { CoverKept(s, step); }
    }
  }

  lemma CoveredIsAlone(s: State, step: Step)
    requires Enabled(s, step) && Covered(s)
    ensures !step.Beat? && !step.Progress? ==> Alone(s, step)
  {
    hide Decide;
  }

  lemma CoverKept(s: State, step: Step)
    requires Enabled(s, step) && AtMostOne(s) && Covered(s) && Alone(s, step) && !Uncovers(s, step)
    ensures Covered(Apply(s, step))
  {
    var t := Apply(s, step);
    hide Decide;
    forall d | d in t.drivers && Holds(t, d)
      ensures t.job.leaseUntil.Some? && t.drivers[d].until.value <= t.job.leaseUntil.value
    {
      if d in s.drivers { assert t.drivers[d].until == s.drivers[d].until ==> Holds(s, d); }
    }
  }

  lemma CoverLost(s: State, step: Step)
    requires Enabled(s, step) && Uncovers(s, step)
    ensures !Covered(Apply(s, step))
  {
    var t := Apply(s, step);
    hide Decide;
    var e :| e in s.drivers && Holds(s, e) && (step.Yield? || step.Finish? ==> e != step.d);
    assert e in t.drivers && Holds(t, e) && t.job.leaseUntil.None?;
  }

  // ---- two live leases ----

  predicate TwoHold(s: State, d: nat, e: nat) {
    d != e && Holds(s, d) && Holds(s, e) && d in s.drivers && e in s.drivers
  }

  function TakenOverState(): State {
    State(61_000, Job(ProvisionKind, Running, Some(121), Some(0), Some(61), true), Pending, true, map[0 := Done],
          map[0 := Driver(Some(60), false), 1 := Driver(Some(121), true)], {}, {})
  }

  /** A driver, silent for a second more than its lease, and a poll's claim in its place: driver 1 holds, driver 0 is late. */
  lemma TakenOver()
    ensures var steps := [FirstDriver(0), Tick(61_000), Read(0), Act(0, 1)];
            CanRun(Untouched(FRESH_JOB, 0), steps) && Exec(Untouched(FRESH_JOB, 0), steps) == TakenOverState()
  {
    var s := Untouched(FRESH_JOB, 0);
    ExecSnoc(s, [], FirstDriver(0));
    ExecSnoc(s, [FirstDriver(0)], Tick(61_000));
    ExecSnoc(s, [FirstDriver(0), Tick(61_000)], Read(0));
    ExecSnoc(s, [FirstDriver(0), Tick(61_000), Read(0)], Act(0, 1));
    Spelled(FirstDriver(0), Tick(61_000), Read(0), Act(0, 1));
  }

  /** The late driver's heartbeat: both hold. */
  lemma LateBeat()
    ensures var s := TakenOverState(); Enabled(s, Beat(0)) && TwoHold(Apply(s, Beat(0)), 0, 1)
  {
  }

  /** Its progress write: the same. */
  lemma LateProgress()
    ensures var s := TakenOverState(); Enabled(s, Progress(0)) && TwoHold(Apply(s, Progress(0)), 0, 1)
  {
  }

  /** Its yield gives back a lease that is not its own, and the next poll claims beside driver 1. */
  lemma LateYield()
    ensures CanRun(TakenOverState(), [Yield(0), Read(1), Act(1, 2)])
    ensures TwoHold(Exec(TakenOverState(), [Yield(0), Read(1), Act(1, 2)]), 1, 2)
  {
    var s := TakenOverState();
    ExecSnoc(s, [], Yield(0));
    ExecSnoc(s, [Yield(0)], Read(1));
    ExecSnoc(s, [Yield(0), Read(1)], Act(1, 2));
    Spelled(Yield(0), Read(1), Act(1, 2), Act(1, 2));
  }

  function TakenAgainState(): State {
    State(122_000, Job(ProvisionKind, Running, Some(182), Some(0), Some(122), true), Pending, true, map[0 := Done, 1 := Done],
          map[0 := Driver(Some(60), false), 1 := Driver(Some(121), true), 2 := Driver(Some(182), true)], {}, {})
  }

  /** Driver 1 falls silent too, and driver 2 takes its place. */
  lemma TakenAgain()
    ensures var steps := [Tick(122_000), Read(1), Act(1, 2)];
            CanRun(TakenOverState(), steps) && Exec(TakenOverState(), steps) == TakenAgainState()
  {
    var s := TakenOverState();
    ExecSnoc(s, [], Tick(122_000));
    ExecSnoc(s, [Tick(122_000)], Read(1));
    ExecSnoc(s, [Tick(122_000), Read(1)], Act(1, 2));
    Spelled(Tick(122_000), Read(1), Act(1, 2), Act(1, 2));
  }

  /** The first driver closes the job; driver 1, going back over the early steps, reopens it under driver 2's lease. */
  lemma LateReopening()
    ensures CanRun(TakenAgainState(), [Finish(0, true), Restart(1)])
    ensures !IsOpen(Exec(TakenAgainState(), [Finish(0, true)]).job)
    ensures var t := Exec(TakenAgainState(), [Finish(0, true), Restart(1)]); TwoHold(t, 1, 2) && t.job.status == Running
  {
    var s := TakenAgainState();
    ExecSnoc(s, [], Finish(0, true));
    ExecSnoc(s, [Finish(0, true)], Restart(1));
    Spelled(Finish(0, true), Restart(1), Restart(1), Restart(1));
  }

}

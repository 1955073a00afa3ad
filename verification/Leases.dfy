/**
 * Certificate jobs in the shared database and the leases servers hold on them (store.rs). Each statement is one step
 * on the table, and the steps of any number of servers interleave.
 */
module Leases {
  import opened Common

  datatype Kind = Issue | Renew | Server
  datatype Status = Pending | Done | Failed | Abandoned

  type Id = string
  type Owner = string

  datatype Job = Job(kind: Kind, status: Status, attempts: nat, runAt: nat, createdAt: nat, updatedAt: nat,
                     leaseOwner: Option<Owner>, leaseUntil: Option<nat>)

  type Jobs = map<Id, Job>

  const LEASE_MS := 120_000

  function Max(a: nat, b: nat): nat { if a < b then b else a }

  datatype Step =
    | Add(id: Id, kind: Kind, attempts: nat, createdAt: nat, runAt: nat)
    | Claim(id: Id, owner: Owner, now: nat)
    | Extend(id: Id, owner: Owner, now: nat)
    | Release(owner: Owner)
    | Finish(id: Id, owner: Owner, status: Status, now: nat)
    | Retry(id: Id, owner: Owner, attempts: nat, runAt: nat, now: nat)
    | RequeueQueuedBefore(id: Id, before: nat, now: nat)
    | RequeueFailed(id: Id, now: nat)

  // --- One statement on one row ------------------------------------------------------------------------------

  /** Whether the row is another owner's under a lease that has not expired. */
  predicate Taken(j: Job, owner: Owner, now: nat) {
    !(j.leaseUntil.None? || j.leaseUntil.value < now || j.leaseOwner == Some(owner))
  }

  predicate Claimable(j: Job, owner: Owner, now: nat) {
    j.status == Pending && j.runAt <= now && !Taken(j, owner, now)
  }

  function Freed(j: Job): Job { j.(leaseOwner := None, leaseUntil := None) }

  function Queued(j: Job, createdAt: nat, now: nat): Job {
    Freed(j.(status := Pending, attempts := 0, runAt := now, createdAt := createdAt, updatedAt := now))
  }

  /** Whether a statement about one row changes it. */
  predicate Applies(j: Job, step: Step) {
    match step
    case Add(_, _, _, _, _) => false
    case Claim(_, owner, now) => Claimable(j, owner, now)
    case Extend(_, owner, _) => j.leaseOwner == Some(owner) && j.status == Pending
    case Release(owner) => j.leaseOwner == Some(owner)
    case Finish(_, owner, _, _) => j.leaseOwner == Some(owner)
    case Retry(_, owner, _, _, _) => j.leaseOwner == Some(owner)
    case RequeueQueuedBefore(_, before, now) =>
      && (j.status == Failed || j.status == Pending) && j.createdAt < before
      && (j.leaseUntil.None? || j.leaseUntil.value < now)
    case RequeueFailed(_, _) => j.status == Failed
  }

  function Applied(j: Job, step: Step): Job {
    match step
    case Add(_, _, _, _, _) => j
    case Claim(_, owner, now) => j.(leaseOwner := Some(owner), leaseUntil := Some(now + LEASE_MS))
    case Extend(_, _, now) => j.(leaseUntil := Some(now + LEASE_MS))
    case Release(_) => Freed(j)
    case Finish(_, _, status, now) => Freed(j.(status := status, updatedAt := now))
    case Retry(_, _, attempts, runAt, now) => Freed(j.(attempts := attempts, runAt := runAt, updatedAt := now))
    case RequeueQueuedBefore(_, before, now) => Queued(j, Max(now, before), now)
    case RequeueFailed(_, now) => Queued(j, now, now)
  }

  function Next(j: Job, step: Step): Job { if Applies(j, step) then Applied(j, step) else j }

  // --- Statements on the table -------------------------------------------------------------------------------

  /** Whether the statement affects a row. */
  predicate Wins(jobs: Jobs, step: Step) {
    if step.Add? then step.id !in jobs
    else if step.Release? then exists id :: id in jobs && Applies(jobs[id], step)
    else step.id in jobs && Applies(jobs[step.id], step)
  }

  function Take(jobs: Jobs, step: Step): Jobs {
    if step.Add? then
      if step.id in jobs then jobs
      else jobs[step.id := Job(step.kind, Pending, step.attempts, step.runAt, step.createdAt, step.createdAt, None,
                               None)]
    else if step.Release? then map id | id in jobs :: Next(jobs[id], step)
    else if step.id in jobs then jobs[step.id := Next(jobs[step.id], step)]
    else jobs
  }

  /** A row only changes by statements about it. */
  lemma RowStep(jobs: Jobs, step: Step, id: Id)
    requires id in jobs
    ensures id in Take(jobs, step)
    ensures Take(jobs, step)[id] == if step.Release? || (!step.Add? && step.id == id) then Next(jobs[id], step)
                                    else jobs[id]
  {
  }

  function Run(jobs: Jobs, steps: seq<Step>): Jobs
    decreases |steps|
  {
    if steps == [] then jobs else Run(Take(jobs, steps[0]), steps[1..])
  }

  lemma {:induction false} RunsOneMore(jobs: Jobs, steps: seq<Step>, step: Step)
    ensures Run(jobs, steps + [step]) == Take(Run(jobs, steps), step)
    decreases |steps|
  {
    if steps == [] {
      assert (steps + [step])[1..] == [];
      assert Run(jobs, [step]) == Take(jobs, step);
    } else {
      assert (steps + [step])[1..] == steps[1..] + [step];
      RunsOneMore(Take(jobs, steps[0]), steps[1..], step);
    }
  }

  /** Finishing is only asked for with a final status. */
  predicate Legal(step: Step) { step.Finish? ==> step.status != Pending }

  predicate AllLegal(steps: seq<Step>) { forall i :: 0 <= i < |steps| ==> Legal(steps[i]) }

  // --- A lease is only on a pending job ----------------------------------------------------------------------

  predicate Sound(j: Job) {
    && (j.leaseOwner.Some? <==> j.leaseUntil.Some?)
    && (j.leaseOwner.Some? ==> j.status == Pending)
  }

  ghost predicate Inv(jobs: Jobs) { forall id :: id in jobs ==> Sound(jobs[id]) }

  lemma StepKeepsInv(jobs: Jobs, step: Step)
    requires Inv(jobs) && Legal(step)
    ensures Inv(Take(jobs, step))
  {
  }

  /** In every run, a lease has an owner and an end, and is on a pending job. */
  lemma {:induction false} LeasesAreOnPendingJobs(jobs: Jobs, steps: seq<Step>)
    requires Inv(jobs) && AllLegal(steps)
    ensures Inv(Run(jobs, steps))
    decreases |steps|
  {
    if steps != [] {
      assert Legal(steps[0]);
      StepKeepsInv(jobs, steps[0]);
      LeasesAreOnPendingJobs(Take(jobs, steps[0]), steps[1..]);
    }
  }

  /** A job that is done or abandoned stays exactly as it is. */
  lemma {:induction false} FinalIsFinal(jobs: Jobs, steps: seq<Step>, id: Id)
    requires Inv(jobs) && AllLegal(steps) && id in jobs && (jobs[id].status == Done || jobs[id].status == Abandoned)
    ensures id in Run(jobs, steps) && Run(jobs, steps)[id] == jobs[id]
    decreases |steps|
  {
    if steps != [] {
      assert Legal(steps[0]);
      StepKeepsInv(jobs, steps[0]);
      RowStep(jobs, steps[0], id);
      FinalIsFinal(Take(jobs, steps[0]), steps[1..], id);
    }
  }

  /** A job's kind never changes. */
  lemma {:induction false} KindNeverChanges(jobs: Jobs, steps: seq<Step>, id: Id)
    requires id in jobs
    ensures id in Run(jobs, steps) && Run(jobs, steps)[id].kind == jobs[id].kind
    decreases |steps|
  {
    if steps != [] {
      RowStep(jobs, steps[0], id);
      KindNeverChanges(Take(jobs, steps[0]), steps[1..], id);
    }
  }

  // --- Holding a lease ---------------------------------------------------------------------------------------

  predicate Holds(jobs: Jobs, id: Id, owner: Owner) {
    id in jobs && jobs[id].leaseOwner == Some(owner)
  }

  /** The holder itself ends the lease. */
  predicate GivesUp(step: Step, id: Id, owner: Owner) {
    || (step.Release? && step.owner == owner)
    || (step.Finish? && step.id == id && step.owner == owner)
    || (step.Retry? && step.id == id && step.owner == owner)
  }

  /** Another takes it with a clock past its end: a claim when the job is due, or a requeue of an older job. */
  predicate TakesOver(jobs: Jobs, step: Step, id: Id, owner: Owner)
    requires Holds(jobs, id, owner) && jobs[id].leaseUntil.Some?
  {
    || (step.Claim? && step.id == id && step.owner != owner
        && step.now > jobs[id].leaseUntil.value && jobs[id].runAt <= step.now)
    || (step.RequeueQueuedBefore? && step.id == id
        && step.now > jobs[id].leaseUntil.value && jobs[id].createdAt < step.before)
  }

  /** Exactly how a lease is lost. */
  lemma LeaseIsLostIff(jobs: Jobs, step: Step, id: Id, owner: Owner)
    requires Inv(jobs) && Legal(step) && Holds(jobs, id, owner)
    ensures !Holds(Take(jobs, step), id, owner) <==> GivesUp(step, id, owner) || TakesOver(jobs, step, id, owner)
  {
    RowStep(jobs, step, id);
  }

  /** While it lasts, no other owner's claim succeeds; its holder's does, if the job is due. */
  lemma ClaimUnderLease(jobs: Jobs, id: Id, holder: Owner, owner: Owner, now: nat)
    requires Inv(jobs) && Holds(jobs, id, holder) && now <= jobs[id].leaseUntil.value
    ensures Wins(jobs, Claim(id, owner, now)) <==> owner == holder && jobs[id].runAt <= now
  {
  }

  /** Nothing in the run gives the lease up or takes it over. */
  predicate Undisturbed(jobs: Jobs, steps: seq<Step>, id: Id, owner: Owner)
    decreases |steps|
  {
    steps == []
    || (&& !GivesUp(steps[0], id, owner)
        && (Holds(jobs, id, owner) && jobs[id].leaseUntil.Some? ==> !TakesOver(jobs, steps[0], id, owner))
        && Undisturbed(Take(jobs, steps[0]), steps[1..], id, owner))
  }

  /** The holder keeps its lease over every run that does not end it, and no other owner's claim of it wins. */
  lemma {:induction false} HolderKeepsLease(jobs: Jobs, steps: seq<Step>, id: Id, owner: Owner)
    requires Inv(jobs) && AllLegal(steps) && Holds(jobs, id, owner) && Undisturbed(jobs, steps, id, owner)
    ensures Holds(Run(jobs, steps), id, owner)
    ensures forall i, other, now :: 0 <= i < |steps| && steps[i] == Claim(id, other, now) && other != owner ==>
              !Wins(Run(jobs, steps[..i]), steps[i])
    decreases |steps|
  {
    if steps != [] {
      assert Legal(steps[0]);
      StepKeepsInv(jobs, steps[0]);
      LeaseIsLostIff(jobs, steps[0], id, owner);
      HolderKeepsLease(Take(jobs, steps[0]), steps[1..], id, owner);
      forall i, other, now | 0 <= i < |steps| && steps[i] == Claim(id, other, now) && other != owner
        ensures !Wins(Run(jobs, steps[..i]), steps[i])
      {
        if i > 0 {
          assert steps[..i][1..] == steps[1..][..i - 1] && steps[1..][i - 1] == Claim(id, other, now);
        }
      }
    }
  }

  // --- How long a lease lasts ----------------------------------------------------------------------------------

  /** The owner takes the job at `now`, or says at `now` that it still runs it. */
  predicate Leases(jobs: Jobs, step: Step, id: Id, owner: Owner, now: nat) {
    (step == Claim(id, owner, now) || step == Extend(id, owner, now)) && Wins(jobs, step)
  }

  /** Nothing that ends a lease of `now`: no other server's clock is over two minutes ahead, the holder's not behind. */
  predicate Within(step: Step, id: Id, owner: Owner, now: nat) {
    && !GivesUp(step, id, owner)
    && (step.Claim? && step.id == id ==> if step.owner == owner then step.now >= now else step.now <= now + 120_000)
    && (step.Extend? && step.id == id && step.owner == owner ==> step.now >= now)
    && (step.RequeueQueuedBefore? && step.id == id ==> step.now <= now + 120_000)
  }

  /** Another server takes the job, or it is queued again. */
  predicate Interferes(step: Step, id: Id, owner: Owner) {
    || (step.Claim? && step.id == id && step.owner != owner)
    || ((step.RequeueQueuedBefore? || step.RequeueFailed?) && step.id == id)
  }

  predicate LeasedUntil(jobs: Jobs, id: Id, owner: Owner, now: nat) {
    Holds(jobs, id, owner) && jobs[id].leaseUntil.Some? && jobs[id].leaseUntil.value >= now + 120_000
  }

  lemma {:induction false} LeaseIsKept(jobs: Jobs, steps: seq<Step>, id: Id, owner: Owner, now: nat)
    requires Inv(jobs) && AllLegal(steps) && LeasedUntil(jobs, id, owner, now)
    requires forall i :: 0 <= i < |steps| ==> Within(steps[i], id, owner, now)
    ensures Holds(Run(jobs, steps), id, owner)
    ensures forall i :: 0 <= i < |steps| && Interferes(steps[i], id, owner) ==> !Wins(Run(jobs, steps[..i]), steps[i])
    decreases |steps|
  {
    if steps != [] {
      assert Legal(steps[0]) && Within(steps[0], id, owner, now);
      StepKeepsInv(jobs, steps[0]);
      RowStep(jobs, steps[0], id);
      LeaseIsKept(Take(jobs, steps[0]), steps[1..], id, owner, now);
      forall i | 0 <= i < |steps| && Interferes(steps[i], id, owner) ensures !Wins(Run(jobs, steps[..i]), steps[i]) {
        if i == 0 {
          assert Run(jobs, steps[..0]) == jobs;
        } else {
          assert steps[..i][1..] == steps[1..][..i - 1] && steps[1..][i - 1] == steps[i];
        }
      }
    }
  }

  /**
   * Two minutes from a claim, and from each time the holder extends it, are the holder's: over every run in which it
   * does not give the job up and no other server's clock is further ahead, it holds the job, no other server gets it,
   * and nothing queues it again.
   */
  lemma LeaseLasts(jobs: Jobs, step: Step, steps: seq<Step>, id: Id, owner: Owner, now: nat)
    requires Inv(jobs) && AllLegal(steps) && Leases(jobs, step, id, owner, now)
    requires forall i :: 0 <= i < |steps| ==> Within(steps[i], id, owner, now)
    ensures var leased := Take(jobs, step);
            && Holds(Run(leased, steps), id, owner)
            && forall i :: 0 <= i < |steps| && Interferes(steps[i], id, owner) ==>
                             !Wins(Run(leased, steps[..i]), steps[i])
  {
    StepKeepsInv(jobs, step);
    RowStep(jobs, step, id);
    LeaseIsKept(Take(jobs, step), steps, id, owner, now);
  }

  /** In every run, the holder of a job and no one else may extend, finish or retry it; and a job is added once. */
  lemma HolderActsIff(steps: seq<Step>, id: Id, step: Step, owner: Owner)
    requires AllLegal(steps) && ActsOn(step, id, owner)
    ensures var jobs := Run(map[], steps);
            && (Wins(jobs, step) <==> Holds(jobs, id, owner))
            && forall kind, attempts, at, runAt :: Wins(jobs, Add(id, kind, attempts, at, runAt)) <==> id !in jobs
  {
    LeasesAreOnPendingJobs(map[], steps);
  }

  /** What the last statement that changed a job says of who may take it, and when. */
  predicate MayTake(step: Step, owner: Owner, at: nat, due: nat) {
    match step
    case Add(_, _, _, _, runAt) => at >= runAt
    case Claim(_, holder, now) => at >= due && (owner == holder || at > now + 120_000)
    case Extend(_, holder, now) => at >= due && (owner == holder || at > now + 120_000)
    case Release(_) => at >= due
    case Finish(_, _, _, _) => false
    case Retry(_, _, _, runAt, _) => at >= runAt
    case RequeueQueuedBefore(_, _, now) => at >= now
    case RequeueFailed(_, now) => at >= now
  }

  predicate IsAbout(jobs: Jobs, step: Step, id: Id) {
    if step.Release? then Holds(jobs, id, step.owner) else step.id == id
  }

  /** No statement of the run changes the job. */
  predicate LeavesAlone(jobs: Jobs, steps: seq<Step>, id: Id)
    decreases |steps|
  {
    steps == [] || (&& !(IsAbout(jobs, steps[0], id) && Wins(jobs, steps[0]))
                    && LeavesAlone(Take(jobs, steps[0]), steps[1..], id))
  }

  lemma {:induction false} LeftAlone(jobs: Jobs, steps: seq<Step>, id: Id)
    requires id in jobs && LeavesAlone(jobs, steps, id)
    ensures id in Run(jobs, steps) && Run(jobs, steps)[id] == jobs[id]
    decreases |steps|
  {
    if steps != [] {
      RowStep(jobs, steps[0], id);
      LeftAlone(Take(jobs, steps[0]), steps[1..], id);
    }
  }

  /**
   * From the statement that changed a job on and until the next that does, whatever runs in between: who may claim it
   * and when is what that statement says, and a job already due stays due.
   */
  lemma ClaimedIff(jobs: Jobs, step: Step, steps: seq<Step>, id: Id, owner: Owner, at: nat)
    requires Inv(jobs) && Legal(step) && IsAbout(jobs, step, id) && Wins(jobs, step)
    requires LeavesAlone(Take(jobs, step), steps, id)
    ensures Wins(Run(Take(jobs, step), steps), Claim(id, owner, at))
            <==> MayTake(step, owner, at, if id in jobs then jobs[id].runAt else 0)
  {
    if id in jobs { RowStep(jobs, step, id); }
    LeftAlone(Take(jobs, step), steps, id);
  }

  /** A job's attempts so far, when it was queued and when its state last changed: all the retry policy goes by. */
  predicate Stands(j: Job, attempts: nat, queuedAt: nat, changedAt: nat) {
    j.attempts == attempts && j.createdAt == queuedAt && j.updatedAt == changedAt
  }

  /** Leases leave these alone; a retry counts attempts within one queueing, and queueing again starts afresh. */
  lemma StandsAs(jobs: Jobs, step: Step, steps: seq<Step>, id: Id)
    requires Inv(jobs) && Legal(step) && IsAbout(jobs, step, id) && Wins(jobs, step)
    requires LeavesAlone(Take(jobs, step), steps, id)
    ensures id in Run(Take(jobs, step), steps)
    ensures var j := Run(Take(jobs, step), steps)[id];
            match step
            case Add(_, _, attempts, queuedAt, _) => Stands(j, attempts, queuedAt, queuedAt)
            case Finish(_, _, _, now) => Stands(j, jobs[id].attempts, jobs[id].createdAt, now)
            case Retry(_, _, attempts, _, now) => Stands(j, attempts, jobs[id].createdAt, now)
            case RequeueQueuedBefore(_, before, now) => j.createdAt >= before && Stands(j, 0, Max(now, before), now)
            case RequeueFailed(_, now) => Stands(j, 0, now, now)
            case _ => Stands(j, jobs[id].attempts, jobs[id].createdAt, jobs[id].updatedAt)
  {
    if id in jobs { RowStep(jobs, step, id); }
    LeftAlone(Take(jobs, step), steps, id);
  }

  /** A job that failed may be queued again; one that is done or abandoned is over. */
  lemma FinishedIsOverIff(jobs: Jobs, id: Id, owner: Owner, status: Status, now: nat, steps: seq<Step>, at: nat)
    requires Inv(jobs) && status != Pending && Wins(jobs, Finish(id, owner, status, now))
    requires LeavesAlone(Take(jobs, Finish(id, owner, status, now)), steps, id)
    ensures Wins(Run(Take(jobs, Finish(id, owner, status, now)), steps), RequeueFailed(id, at)) <==> status == Failed
  {
    RowStep(jobs, Finish(id, owner, status, now), id);
    LeftAlone(Take(jobs, Finish(id, owner, status, now)), steps, id);
  }

  /** A job that failed and is queued again is the job that would be added then, for the first time. */
  lemma RequeuedIsAsNew(jobs: Jobs, id: Id, now: nat)
    requires Wins(jobs, RequeueFailed(id, now))
    ensures Take(jobs, RequeueFailed(id, now)) == Take(jobs - {id}, Add(id, jobs[id].kind, 0, now, now))
  {
  }

  /** An owner without the lease gets it by claiming, and not otherwise. */
  lemma OnlyClaimingTakes(jobs: Jobs, step: Step, id: Id, owner: Owner)
    requires !Holds(jobs, id, owner)
    ensures Holds(Take(jobs, step), id, owner)
            <==> step.Claim? && step.id == id && step.owner == owner && Wins(jobs, step)
  {
    if id in jobs { RowStep(jobs, step, id); }
  }

  /** The owner extends, finishes or retries this job. */
  predicate ActsOn(step: Step, id: Id, owner: Owner) {
    (step.Extend? || step.Finish? || step.Retry?) && step.id == id && step.owner == owner
  }

  predicate NeverClaims(jobs: Jobs, steps: seq<Step>, id: Id, owner: Owner)
    decreases |steps|
  {
    steps == []
    || (&& !(steps[0].Claim? && steps[0].id == id && steps[0].owner == owner && Wins(jobs, steps[0]))
        && NeverClaims(Take(jobs, steps[0]), steps[1..], id, owner))
  }

  /** An owner that was taken over can change nothing about the job until it claims it again. */
  lemma {:induction false} TakenOverIsLockedOut(jobs: Jobs, steps: seq<Step>, id: Id, owner: Owner)
    requires !Holds(jobs, id, owner) && NeverClaims(jobs, steps, id, owner)
    ensures !Holds(Run(jobs, steps), id, owner)
    ensures forall i :: 0 <= i < |steps| && ActsOn(steps[i], id, owner) ==>
              !Wins(Run(jobs, steps[..i]), steps[i]) && Take(Run(jobs, steps[..i]), steps[i]) == Run(jobs, steps[..i])
    decreases |steps|
  {
    if steps != [] {
      OnlyClaimingTakes(jobs, steps[0], id, owner);
      TakenOverIsLockedOut(Take(jobs, steps[0]), steps[1..], id, owner);
      forall i | 0 <= i < |steps| && ActsOn(steps[i], id, owner)
        ensures !Wins(Run(jobs, steps[..i]), steps[i]) && Take(Run(jobs, steps[..i]), steps[i]) == Run(jobs, steps[..i])
      {
        if i == 0 {
          assert Run(jobs, steps[..0]) == jobs;
        } else {
          assert steps[..i][1..] == steps[1..][..i - 1];
          assert ActsOn(steps[1..][i - 1], id, owner);
        }
      }
    }
  }

  // --- Each outcome uses up a claim --------------------------------------------------------------------------

  function Claims(jobs: Jobs, steps: seq<Step>, id: Id): nat
    decreases |steps|
  {
    if steps == [] then 0
    else (if steps[0].Claim? && steps[0].id == id && Wins(jobs, steps[0]) then 1 else 0)
         + Claims(Take(jobs, steps[0]), steps[1..], id)
  }

  /** Finishes and retries recorded for a job. */
  function Outcomes(jobs: Jobs, steps: seq<Step>, id: Id): nat
    decreases |steps|
  {
    if steps == [] then 0
    else (if (steps[0].Finish? || steps[0].Retry?) && steps[0].id == id && Wins(jobs, steps[0]) then 1 else 0)
         + Outcomes(Take(jobs, steps[0]), steps[1..], id)
  }

  function HeldCount(jobs: Jobs, id: Id): nat { if id in jobs && jobs[id].leaseOwner.Some? then 1 else 0 }

  /** However many servers run a job, at most one outcome is recorded for each time it was claimed. */
  lemma {:induction false} OneOutcomePerClaim(jobs: Jobs, steps: seq<Step>, id: Id)
    ensures Outcomes(jobs, steps, id) + HeldCount(Run(jobs, steps), id) <= Claims(jobs, steps, id) + HeldCount(jobs, id)
    decreases |steps|
  {
    if steps != [] {
      if id in jobs { RowStep(jobs, steps[0], id); }
      OneOutcomePerClaim(Take(jobs, steps[0]), steps[1..], id);
    }
  }

  // --- Requeued once -----------------------------------------------------------------------------------------

  /** How often the job was queued again because it was queued before `before`. */
  function Requeues(jobs: Jobs, steps: seq<Step>, id: Id, before: nat): nat
    decreases |steps|
  {
    if steps == [] then 0
    else
      (if steps[0].RequeueQueuedBefore? && steps[0].id == id && steps[0].before == before && Wins(jobs, steps[0])
       then 1 else 0)
      + Requeues(Take(jobs, steps[0]), steps[1..], id, before)
  }

  /** Failed jobs are only queued again with clocks from `clock` on. */
  predicate RequeuesFailedFrom(steps: seq<Step>, id: Id, clock: nat) {
    forall i :: 0 <= i < |steps| && steps[i].RequeueFailed? && steps[i].id == id ==> steps[i].now >= clock
  }

  lemma {:induction false} NotQueuedBeforeAgain(jobs: Jobs, steps: seq<Step>, id: Id, before: nat)
    requires id in jobs && jobs[id].createdAt >= before && RequeuesFailedFrom(steps, id, before)
    ensures Requeues(jobs, steps, id, before) == 0
    decreases |steps|
  {
    if steps != [] {
      RowStep(jobs, steps[0], id);
      assert steps[0].RequeueFailed? && steps[0].id == id ==> steps[0].now >= before;
      forall i | 0 <= i < |steps[1..]| && steps[1..][i].RequeueFailed? && steps[1..][i].id == id
        ensures steps[1..][i].now >= before {
        assert steps[1..][i] == steps[i + 1];
      }
      NotQueuedBeforeAgain(Take(jobs, steps[0]), steps[1..], id, before);
    }
  }

  lemma {:induction false} RequeuedOnce(jobs: Jobs, steps: seq<Step>, id: Id, before: nat)
    requires RequeuesFailedFrom(steps, id, before)
    ensures Requeues(jobs, steps, id, before) <= 1
    decreases |steps|
  {
    if steps != [] {
      forall i | 0 <= i < |steps[1..]| && steps[1..][i].RequeueFailed? && steps[1..][i].id == id
        ensures steps[1..][i].now >= before {
        assert steps[1..][i] == steps[i + 1];
      }
      var next := Take(jobs, steps[0]);
      if steps[0].RequeueQueuedBefore? && steps[0].id == id && steps[0].before == before && Wins(jobs, steps[0]) {
        NotQueuedBeforeAgain(next, steps[1..], id, before);
      } else {
        RequeuedOnce(next, steps[1..], id, before);
      }
    }
  }

  /** Queued before `before`, requeued, failed, requeued as failed by a clock behind, and requeued once more. */
  function RequeuedTwice(id: Id, before: nat, clock: nat): seq<Step> {
    [Add(id, Issue, 0, 0, 0)] + ([RequeueQueuedBefore(id, before, 0)] + FailedAndRequeued(id, before, clock))
  }

  function FailedAndRequeued(id: Id, before: nat, clock: nat): seq<Step> {
    [Claim(id, "a", 0)]
    + ([Finish(id, "a", Failed, 0)] + ([RequeueFailed(id, clock)] + ([RequeueQueuedBefore(id, before, clock)] + [])))
  }

  lemma RowStepCounts(job: Job, step: Step, rest: seq<Step>, id: Id, before: nat)
    requires !step.Release? && !step.Add? && step.id == id
    ensures var won := if step.RequeueQueuedBefore? && step.before == before && Applies(job, step) then 1 else 0;
            Requeues(map[id := job], [step] + rest, id, before) ==
              won + Requeues(map[id := Next(job, step)], rest, id, before)
  {
    assert ([step] + rest)[1..] == rest;
    assert Take(map[id := job], step) == map[id := Next(job, step)];
  }

  lemma FailedJobIsRequeued(id: Id, before: nat, clock: nat, job: Job)
    requires clock < before && job == Job(Issue, Pending, 0, 0, before, 0, None, None)
    ensures Requeues(map[id := job], FailedAndRequeued(id, before, clock), id, before) == 1
  {
    hide Requeues, Take;
    var leased := job.(leaseOwner := Some("a"), leaseUntil := Some(LEASE_MS));
    var failed := job.(status := Failed);
    var late := Queued(failed, clock, clock);
    var last := RequeueQueuedBefore(id, before, clock);
    RowStepCounts(late, last, [], id, before);
    RowStepCounts(failed, RequeueFailed(id, clock), [last] + [], id, before);
    RowStepCounts(leased, Finish(id, "a", Failed, 0), [RequeueFailed(id, clock)] + ([last] + []), id, before);
    RowStepCounts(job, Claim(id, "a", 0), [Finish(id, "a", Failed, 0)] + ([RequeueFailed(id, clock)] + ([last] + [])),
                  id, before);
    NothingLeft(Next(late, last), id, before);
  }

  lemma NothingLeft(job: Job, id: Id, before: nat)
    ensures Requeues(map[id := job], [], id, before) == 0
  {
  }

  lemma RequeuedTwiceRuns(id: Id, before: nat, clock: nat)
    requires clock < before
    ensures Requeues(map[], RequeuedTwice(id, before, clock), id, before) == 2
  {
    var queued := Job(Issue, Pending, 0, 0, 0, 0, None, None);
    var first, rest := RequeueQueuedBefore(id, before, 0), FailedAndRequeued(id, before, clock);
    hide FailedAndRequeued;
    FailedJobIsRequeued(id, before, clock, Next(queued, first));
    RowStepCounts(queued, first, rest, id, before);
    assert RequeuedTwice(id, before, clock)[1..] == [first] + rest;
    assert Take(map[], Add(id, Issue, 0, 0, 0)) == map[id := queued];
  }

  ghost predicate RequeuesAtMostOnce(steps: seq<Step>, id: Id, before: nat, clock: nat) {
    RequeuesFailedFrom(steps, id, clock) ==> Requeues(map[], steps, id, before) <= 1
  }

  /**
   * A job is queued again at most once for `before` in every run
   * iff failed jobs are never queued by an earlier clock.
   */
  lemma RequeuedOnceIff(id: Id, before: nat, clock: nat)
    ensures (forall steps :: RequeuesAtMostOnce(steps, id, before, clock)) <==> clock >= before
  {
    if clock >= before {
      forall steps ensures RequeuesAtMostOnce(steps, id, before, clock) {
        if RequeuesFailedFrom(steps, id, clock) { RequeuedOnce(map[], steps, id, before); }
      }
    } else {
      RequeuedTwiceRuns(id, before, clock);
      hide Requeues;
      assert !RequeuesAtMostOnce(RequeuedTwice(id, before, clock), id, before, clock);
    }
  }

  // --- The schedule ------------------------------------------------------------------------------------------

  /** When the owner may take a pending job. */
  function ReadyAt(j: Job, owner: Owner): nat {
    Max(j.runAt, if j.leaseUntil.None? || j.leaseOwner == Some(owner) then 0 else j.leaseUntil.value + 1)
  }

  /** A pending job counts as ready iff a claim at the same clock would take it. */
  lemma ReadyIffClaimable(jobs: Jobs, id: Id, owner: Owner, now: nat)
    requires id in jobs && jobs[id].status == Pending
    ensures ReadyAt(jobs[id], owner) <= now <==> Wins(jobs, Claim(id, owner, now))
  {
  }

  datatype Listing = Listing(id: Id, readyAt: nat, kind: Kind)

  function ListingOf(jobs: Jobs, id: Id, owner: Owner): Listing
    requires id in jobs
  {
    Listing(id, ReadyAt(jobs[id], owner), jobs[id].kind)
  }

  /** The order of the schedule: ready first, among them first issuance last, then the soonest first. */
  predicate Precedes(a: Listing, b: Listing, now: nat) {
    if (a.readyAt > now) != (b.readyAt > now) then b.readyAt > now
    else if (a.kind == Issue) != (b.kind == Issue) then b.kind == Issue
    else a.readyAt <= b.readyAt
  }

  /** The first `limit` pending jobs in that order. */
  ghost predicate IsSchedule(jobs: Jobs, owner: Owner, now: nat, limit: nat, list: seq<Listing>) {
    && |list| <= limit
    && (forall i :: 0 <= i < |list| ==>
          list[i].id in jobs && jobs[list[i].id].status == Pending && list[i] == ListingOf(jobs, list[i].id, owner))
    && (forall i, j :: 0 <= i < j < |list| ==> list[i].id != list[j].id && Precedes(list[i], list[j], now))
    && (forall id :: id in jobs && jobs[id].status == Pending ==>
          (exists i :: 0 <= i < |list| && list[i].id == id)
          || (|list| == limit && forall i :: 0 <= i < |list| ==> Precedes(list[i], ListingOf(jobs, id, owner), now)))
  }

  /** Whatever the limit, a first issuance is only listed as ready after every renewal that is ready. */
  lemma RenewalsComeFirst(jobs: Jobs, owner: Owner, now: nat, limit: nat, list: seq<Listing>, i: nat, renewal: Id)
    requires IsSchedule(jobs, owner, now, limit, list) && i < |list| && list[i].kind == Issue
    requires renewal in jobs && jobs[renewal].kind != Issue && Wins(jobs, Claim(renewal, owner, now))
    ensures exists k :: 0 <= k < i && list[k].id == renewal
  {
    ReadyIffClaimable(jobs, renewal, owner, now);
    assert !Precedes(list[i], ListingOf(jobs, renewal, owner), now);
    var k :| 0 <= k < |list| && list[k].id == renewal;
    assert list[k] == ListingOf(jobs, renewal, owner);
  }

  // --- The table, updated in place ---------------------------------------------------------------------------

  class JobStore {
    var jobs: Jobs

    constructor ()
      ensures jobs == map[] && Inv(jobs)
    {
      jobs := map[];
    }

    method AddJob(id: Id, kind: Kind, attempts: nat, createdAt: nat, runAt: nat) returns (added: bool)
      modifies this
      ensures added == Wins(old(jobs), Add(id, kind, attempts, createdAt, runAt))
      ensures jobs == Take(old(jobs), Add(id, kind, attempts, createdAt, runAt))
    {
      added := id !in jobs;
      if added {
        jobs := jobs[id := Job(kind, Pending, attempts, runAt, createdAt, createdAt, None, None)];
      }
    }

    /** Statements of other servers, and of other tasks of this one, run in between. */
    method Others() returns (ghost steps: seq<Step>)
      modifies this
      ensures jobs == Run(old(jobs), steps)
    {
      var n: nat :| true;
      steps := [];
      for i := 0 to n
        invariant jobs == Run(old(jobs), steps)
      {
        var step: Step := *;
        RunsOneMore(old(jobs), steps, step);
        jobs := Take(jobs, step);
        steps := steps + [step];
      }
    }

    method UpdateForClaim(id: Id, owner: Owner, now: nat) returns (claimed: bool)
      modifies this
      ensures claimed == Wins(old(jobs), Claim(id, owner, now)) && jobs == Take(old(jobs), Claim(id, owner, now))
    {
      claimed := id in jobs && jobs[id].status == Pending && jobs[id].runAt <= now
                 && (jobs[id].leaseUntil.None? || jobs[id].leaseUntil.value < now
                     || jobs[id].leaseOwner == Some(owner));
      if claimed {
        jobs := jobs[id := jobs[id].(leaseOwner := Some(owner), leaseUntil := Some(now + LEASE_MS))];
      }
      assert id in old(jobs) ==> old(jobs)[id := old(jobs)[id]] == old(jobs);
    }

    /**
     * Takes a due job unless another holds it, and reads it back: two statements, with others in between. It returns
     * the job iff it took it and still holds it when it reads it.
     */
    method ClaimJob(id: Id, owner: Owner, now: nat) returns (job: Option<Job>, ghost between: seq<Step>)
      modifies this
      ensures jobs == Run(Take(old(jobs), Claim(id, owner, now)), between)
      ensures job.Some? <==> Wins(old(jobs), Claim(id, owner, now)) && Holds(jobs, id, owner)
      ensures job.Some? ==> job.value == jobs[id]
      ensures !Wins(old(jobs), Claim(id, owner, now)) ==> jobs == old(jobs)
    {
      between := [];
      var claimed := UpdateForClaim(id, owner, now);
      if !claimed {
        return None, [];
      }
      between := Others();
      job := if id in jobs && jobs[id].leaseOwner == Some(owner) then Some(jobs[id]) else None;
    }

    method ExtendLease(id: Id, owner: Owner, now: nat) returns (extended: bool)
      modifies this
      ensures extended == Wins(old(jobs), Extend(id, owner, now)) && jobs == Take(old(jobs), Extend(id, owner, now))
    {
      extended := id in jobs && jobs[id].leaseOwner == Some(owner) && jobs[id].status == Pending;
      if extended {
        jobs := jobs[id := jobs[id].(leaseUntil := Some(now + LEASE_MS))];
      }
      assert id in old(jobs) ==> old(jobs)[id := old(jobs)[id]] == old(jobs);
    }

    method ReleaseLeases(owner: Owner)
      modifies this
      ensures jobs == Take(old(jobs), Release(owner))
      ensures forall id :: !Holds(jobs, id, owner)
    {
      jobs := map id | id in jobs :: if jobs[id].leaseOwner == Some(owner) then Freed(jobs[id]) else jobs[id];
    }

    method FinishJob(id: Id, owner: Owner, status: Status, now: nat) returns (finished: bool)
      requires status != Pending
      modifies this
      ensures finished == Wins(old(jobs), Finish(id, owner, status, now))
      ensures jobs == Take(old(jobs), Finish(id, owner, status, now))
    {
      finished := id in jobs && jobs[id].leaseOwner == Some(owner);
      if finished {
        jobs := jobs[id := jobs[id].(status := status, updatedAt := now, leaseOwner := None, leaseUntil := None)];
      }
      assert id in old(jobs) ==> old(jobs)[id := old(jobs)[id]] == old(jobs);
    }

    method RetryJob(id: Id, owner: Owner, attempts: nat, runAt: nat, now: nat) returns (retried: bool)
      modifies this
      ensures retried == Wins(old(jobs), Retry(id, owner, attempts, runAt, now))
      ensures jobs == Take(old(jobs), Retry(id, owner, attempts, runAt, now))
    {
      retried := id in jobs && jobs[id].leaseOwner == Some(owner);
      if retried {
        jobs := jobs[id := jobs[id].(attempts := attempts, runAt := runAt, updatedAt := now,
                                     leaseOwner := None, leaseUntil := None)];
      }
      assert id in old(jobs) ==> old(jobs)[id := old(jobs)[id]] == old(jobs);
    }

    method RequeueJobQueuedBefore(id: Id, before: nat, now: nat) returns (requeued: bool)
      modifies this
      ensures requeued == Wins(old(jobs), RequeueQueuedBefore(id, before, now))
      ensures jobs == Take(old(jobs), RequeueQueuedBefore(id, before, now))
    {
      requeued := id in jobs && (jobs[id].status == Failed || jobs[id].status == Pending) && jobs[id].createdAt < before
                  && (jobs[id].leaseUntil.None? || jobs[id].leaseUntil.value < now);
      if requeued {
        jobs := jobs[id := jobs[id].(status := Pending, attempts := 0, runAt := now, createdAt := Max(now, before),
                                     updatedAt := now, leaseOwner := None, leaseUntil := None)];
      }
      assert id in old(jobs) ==> old(jobs)[id := old(jobs)[id]] == old(jobs);
    }

    method RequeueFailedJob(id: Id, now: nat) returns (requeued: bool)
      modifies this
      ensures requeued == Wins(old(jobs), RequeueFailed(id, now)) && jobs == Take(old(jobs), RequeueFailed(id, now))
    {
      requeued := id in jobs && jobs[id].status == Failed;
      if requeued {
        jobs := jobs[id := jobs[id].(status := Pending, attempts := 0, runAt := now, createdAt := now, updatedAt := now,
                                     leaseOwner := None, leaseUntil := None)];
      }
      assert id in old(jobs) ==> old(jobs)[id := old(jobs)[id]] == old(jobs);
    }
  }
}

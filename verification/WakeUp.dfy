/**
 * When the job runner looks again (jobs.rs): the first job of
 * its schedule that is not due, and what that leaves out.
 */
module WakeUp {
  import opened Common
  import opened Leases
  import opened Scheduler

  /** A pending job that may not be taken yet. */
  predicate Waits(jobs: Jobs, owner: Owner, now: nat, id: Id) {
    id in jobs && jobs[id].status == Pending && ReadyAt(jobs[id], owner) > now
  }

  /** No job that waits, listed or not, may be taken earlier. */
  ghost predicate IsEarliest(jobs: Jobs, owner: Owner, now: nat, at: nat) {
    forall id :: Waits(jobs, owner, now, id) ==> at <= ReadyAt(jobs[id], owner)
  }

  /** A renewal waits, and a first issuance that may be taken before every renewal that waits. */
  ghost predicate IssueWaitsFirst(jobs: Jobs, owner: Owner, now: nat) {
    && (exists r :: Waits(jobs, owner, now, r) && jobs[r].kind != Issue)
    && (exists i ::
          Waits(jobs, owner, now, i) && jobs[i].kind == Issue
          && BeforeRenewals(jobs, owner, now, ReadyAt(jobs[i], owner)))
  }

  ghost predicate BeforeRenewals(jobs: Jobs, owner: Owner, now: nat, at: nat) {
    forall r :: Waits(jobs, owner, now, r) && jobs[r].kind != Issue ==> at < ReadyAt(jobs[r], owner)
  }

  lemma {:induction false} NextIsFirst(list: seq<Listing>, now: nat, k: nat)
    requires k < |list| && list[k].readyAt > now && forall i :: 0 <= i < k ==> list[i].readyAt <= now
    ensures NextOf(list, now) == Some(list[k].readyAt)
  {
    if k > 0 { NextIsFirst(list[1..], now, k - 1); }
  }

  lemma {:induction false} FirstIndex(list: seq<Listing>, now: nat, k: nat) returns (f: nat)
    requires k < |list| && list[k].readyAt > now
    ensures f <= k && list[f].readyAt > now && forall i :: 0 <= i < f ==> list[i].readyAt <= now
  {
    f := 0;
    while list[f].readyAt <= now
      invariant 0 <= f <= k && forall i :: 0 <= i < f ==> list[i].readyAt <= now
      decreases k - f
    {
      f := f + 1;
    }
  }

  /** The first waiting job of a schedule comes before every other that waits, listed or not. */
  lemma FirstPrecedesAll(jobs: Jobs, owner: Owner, now: nat, limit: nat, list: seq<Listing>, f: nat, id: Id)
    requires IsSchedule(jobs, owner, now, limit, list) && f < |list| && Waits(jobs, owner, now, id)
    requires list[f].readyAt > now && forall i :: 0 <= i < f ==> list[i].readyAt <= now
    ensures list[f].id == id || Precedes(list[f], ListingOf(jobs, id, owner), now)
  {
    if i :| 0 <= i < |list| && list[i].id == id {
      assert list[i] == ListingOf(jobs, id, owner);
    }
  }

  /**
   * Of the jobs that are not due renewals come first too, and the list is cut at its limit. With one of them listed,
   * the runner's next wake-up is the earliest of all jobs that wait iff no first issuance waits for less time than
   * every renewal that waits.
   */
  lemma NextIsEarliestIff(jobs: Jobs, owner: Owner, now: nat, limit: nat, list: seq<Listing>, k: nat)
    requires IsSchedule(jobs, owner, now, limit, list) && k < |list| && list[k].readyAt > now
    ensures NextOf(list, now).Some?
    ensures IsEarliest(jobs, owner, now, NextOf(list, now).value) <==> !IssueWaitsFirst(jobs, owner, now)
  {
    var f := FirstIndex(list, now, k);
    NextIsFirst(list, now, f);
    var first := list[f];
    assert first == ListingOf(jobs, first.id, owner) && Waits(jobs, owner, now, first.id);
    forall id | Waits(jobs, owner, now, id) ensures first.id == id || Precedes(first, ListingOf(jobs, id, owner), now) {
      FirstPrecedesAll(jobs, owner, now, limit, list, f, id);
    }
    hide IsSchedule;
    if first.kind == Issue {
      forall id | Waits(jobs, owner, now, id)
        ensures jobs[id].kind == Issue && first.readyAt <= ReadyAt(jobs[id], owner) {}
    } else {
      forall r | Waits(jobs, owner, now, r) && jobs[r].kind != Issue ensures first.readyAt <= ReadyAt(jobs[r], owner) {}
      forall id | Waits(jobs, owner, now, id) && ReadyAt(jobs[id], owner) < first.readyAt
        ensures IssueWaitsFirst(jobs, owner, now) {
        assert BeforeRenewals(jobs, owner, now, ReadyAt(jobs[id], owner));
      }
    }
  }

  /** A list that is not cut and has no job that waits leaves none out. */
  lemma NothingWaits(jobs: Jobs, owner: Owner, now: nat, limit: nat, list: seq<Listing>, id: Id)
    requires IsSchedule(jobs, owner, now, limit, list) && |list| < limit
    requires forall i :: 0 <= i < |list| ==> list[i].readyAt <= now
    ensures !Waits(jobs, owner, now, id)
  {
  }

  /** A job waits for less than the second. */
  ghost predicate WaitsWithinASecond(jobs: Jobs, owner: Owner, now: nat) {
    exists id :: Waits(jobs, owner, now, id) && ReadyAt(jobs[id], owner) < now + 1_000
  }

  lemma {:induction false} NoneLater(list: seq<Listing>, now: nat)
    ensures NextOf(list, now).None? <==> forall i :: 0 <= i < |list| ==> list[i].readyAt <= now
  {
    if list != [] {
      NoneLater(list[1..], now);
      assert forall i :: 0 < i < |list| ==> list[i] == list[1..][i - 1];
    }
  }

  /**
   * For every schedule: the runner does not look again iff nothing waits; it looks in time for every job that waits
   * iff, with a waiting job listed, no first issuance waits for less time than every renewal that waits, and with only
   * due jobs on a list that was cut, none waits for less than a second; and in that case it is less than a second late.
   */
  lemma LooksInTimeIff(jobs: Jobs, owner: Owner, now: nat, limit: nat, list: seq<Listing>)
    requires IsSchedule(jobs, owner, now, limit, list)
    ensures LookOf(list, limit, now).None? <==> |list| < limit && forall i :: 0 <= i < |list| ==> list[i].readyAt <= now
    ensures match LookOf(list, limit, now)
            case None => forall id :: !Waits(jobs, owner, now, id)
            case Some(at) =>
              if NextOf(list, now).Some? then IsEarliest(jobs, owner, now, at) <==> !IssueWaitsFirst(jobs, owner, now)
              else
                && (IsEarliest(jobs, owner, now, at) <==> !WaitsWithinASecond(jobs, owner, now))
                && forall id :: Waits(jobs, owner, now, id) ==> at < ReadyAt(jobs[id], owner) + 1_000
  {
    NoneLater(list, now);
    if NextOf(list, now).Some? {
      var k :| 0 <= k < |list| && list[k].readyAt > now;
      NextIsEarliestIff(jobs, owner, now, limit, list, k);
    } else if |list| < limit {
      forall id ensures !Waits(jobs, owner, now, id) { NothingWaits(jobs, owner, now, limit, list, id); }
    }
    hide IsSchedule, NextOf;
  }

  function WaitingJob(kind: Kind, at: nat): Job { Job(kind, Pending, 0, at, 0, 0, None, None) }

  /** A first issuance that is ready soon and a renewal later: whatever the limit, the runner is told of the renewal. */
  lemma NextSkipsIssue(owner: Owner, renewal: Id, issue: Id, now: nat, soon: nat, later: nat, limit: nat)
    requires renewal != issue && now < soon < later && limit > 0
    ensures var jobs := map[issue := WaitingJob(Issue, soon), renewal := WaitingJob(Renew, later)];
            var list := [Listing(renewal, later, Renew)] + if limit == 1 then [] else [Listing(issue, soon, Issue)];
            && IsSchedule(jobs, owner, now, limit, list) && NextOf(list, now) == Some(later)
            && !IsEarliest(jobs, owner, now, later)
  {
    var jobs := map[issue := WaitingJob(Issue, soon), renewal := WaitingJob(Renew, later)];
    var list := [Listing(renewal, later, Renew)] + if limit == 1 then [] else [Listing(issue, soon, Issue)];
    assert list[0].id == renewal && (limit > 1 ==> list[1].id == issue);
    assert Waits(jobs, owner, now, issue);
  }
}

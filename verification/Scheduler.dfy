/**
 * The job runner of one machine (jobs.rs): which of the due jobs it starts, how many at a time, and how first
 * issuance and a struggling CA never hold renewals up.
 */
module Scheduler {
  import opened Common
  import opened Leases

  function IssueIds(running: map<Id, Kind>): set<Id> { set id | id in running && running[id] == Issue }

  /** First issuances running. */
  function Issuing(running: map<Id, Kind>): nat { |IssueIds(running)| }

  /** Renewals and the server's own certificates running. */
  function Renewing(running: map<Id, Kind>): nat { |running.Keys - IssueIds(running)| }

  lemma AllAreCounted(running: map<Id, Kind>)
    ensures |running| == Issuing(running) + Renewing(running)
  {
    assert running.Keys == IssueIds(running) + (running.Keys - IssueIds(running));
  }

  lemma IssueIdsAfter(running: map<Id, Kind>, id: Id, kind: Kind)
    requires id !in running
    ensures IssueIds(running[id := kind]) == IssueIds(running) + (if kind == Issue then {id} else {})
    ensures id !in IssueIds(running)
  {
  }

  lemma OneStarts(running: map<Id, Kind>, id: Id, kind: Kind)
    requires id !in running
    ensures var after := running[id := kind];
            && |after| == |running| + 1
            && Issuing(after) == Issuing(running) + (if kind == Issue then 1 else 0)
  {
    IssueIdsAfter(running, id, kind);
    hide IssueIds;
    assert running[id := kind].Keys == running.Keys + {id};
    if kind != Issue { assert IssueIds(running) + {} == IssueIds(running); }
  }

  lemma SomeEnd(running: map<Id, Kind>, ids: set<Id>)
    ensures var after := running - ids;
            |after| <= |running| && Issuing(after) <= Issuing(running) && Renewing(after) <= Renewing(running)
  {
    var after := running - ids;
    SubsetIsSmaller(after.Keys - IssueIds(after), running.Keys - IssueIds(running));
    SubsetIsSmaller(after.Keys, running.Keys);
    SubsetIsSmaller(IssueIds(after), IssueIds(running));
  }

  // --- The order of a schedule -------------------------------------------------------------------------------

  /** The order in which the database lists jobs: see Leases.IsSchedule. */
  ghost predicate InOrder(list: seq<Listing>, now: nat) {
    forall i, j :: 0 <= i < j < |list| ==> list[i].id != list[j].id && Precedes(list[i], list[j], now)
  }

  predicate Due(l: Listing, now: nat) { l.readyAt <= now }

  /** What a claim came to. */
  datatype Claimed = Ours | Lost | Unanswered

  /** What became of a due job in a pass. */
  datatype Fate = Started | AlreadyRunning | NotTaken | NoSlot | Held

  /** Why a pass ended: it went through the list, every slot was taken, or the database did not answer. */
  datatype Ending = Exhausted | Full | Failing

  /**
   * First issuance may start while the CA works and, with two slots or more, one is left for renewals; others may start
   * while the CA works, or one at a time.
   */
  predicate MayStart(l: Listing, running: map<Id, Kind>, cooling: bool, concurrency: nat) {
    && l.id !in running
    && if l.kind == Issue then !cooling && (Issuing(running) + 1 < concurrency || concurrency == 1)
       else !cooling || Renewing(running) == 0
  }

  /** What became of a job says what was running and whether it could be claimed: it was claimed iff it may start. */
  predicate Fits(l: Listing, fate: Fate, running: map<Id, Kind>, cooling: bool, concurrency: nat, claim: Claimed) {
    match fate
    case Started => MayStart(l, running, cooling, concurrency) && claim == Ours
    case NotTaken => MayStart(l, running, cooling, concurrency) && claim != Ours
    case AlreadyRunning => l.id in running
    case NoSlot => l.kind == Issue && Issuing(running) + 1 >= concurrency > 1
    case Held => cooling && (l.kind == Issue || Renewing(running) > 0)
  }

  type Running = map<Id, Kind>

  /** Jobs only ended since, but for one that may have started. */
  ghost predicate Ended(before: Running, after: Running, started: set<Id>) {
    forall id :: id in after ==> (id in before && after[id] == before[id]) || id in started
  }

  /** One after the other the jobs meet their fates, with others ending in between. */
  ghost predicate Pass(due: seq<Listing>, fates: seq<Fate>, states: seq<Running>, cooling: bool, concurrency: nat,
                       claims: Id -> Claimed) {
    && |states| == |fates| <= |due|
    && (forall i :: 0 <= i < |fates| ==>
          |states[i]| < concurrency && Fits(due[i], fates[i], states[i], cooling, concurrency, claims(due[i].id)))
    && (forall i, j :: 0 <= i < j < |fates| && j == i + 1 ==> Ended(states[i], states[j], StartedBy(due[i], fates[i])))
  }

  function StartedBy(l: Listing, fate: Fate): set<Id> { if fate.Started? then {l.id} else {} }

  /** What runs once the pass has come so far. */
  ghost predicate Leaves(due: seq<Listing>, fates: seq<Fate>, states: seq<Running>, was: Running, running: Running) {
    && |states| == |fates| <= |due|
    && if states == [] then running == was
       else states[0] == was && Ended(states[|states| - 1], running, StartedBy(due[|states| - 1], fates[|states| - 1]))
  }

  lemma PassGoesOn(due: seq<Listing>, fates: seq<Fate>, states: seq<Running>, was: Running, running: Running,
                   cooling: bool, concurrency: nat, claims: Id -> Claimed, fate: Fate, after: Running)
    requires Pass(due, fates, states, cooling, concurrency, claims) && Leaves(due, fates, states, was, running)
    requires |fates| < |due| && |running| < concurrency
    requires Fits(due[|fates|], fate, running, cooling, concurrency, claims(due[|fates|].id))
    requires Ended(running, after, StartedBy(due[|fates|], fate))
    ensures Pass(due, fates + [fate], states + [running], cooling, concurrency, claims)
    ensures Leaves(due, fates + [fate], states + [running], was, after)
  {
    hide Fits, Ended, StartedBy;
  }

  class Runner {
    const concurrency: nat
    var running: map<Id, Kind>
    var stopping: bool

    /** Never more jobs than slots, and first issuance leaves one free when there are two or more. */
    ghost predicate Valid()
      reads this
    {
      concurrency >= 1 && |running| <= concurrency && Issuing(running) <= IssueSlots(concurrency)
    }

    constructor (concurrency: nat)
      ensures Valid() && running == map[] && this.concurrency == if concurrency == 0 then 1 else concurrency
    {
      this.concurrency := if concurrency == 0 then 1 else concurrency;
      running, stopping := map[], false;
    }

    /** Jobs end while the runner waits for the database. */
    method SomeComplete()
      requires Valid()
      modifies this`running
      ensures Valid() && |running| <= |old(running)| && Renewing(running) <= Renewing(old(running))
      ensures forall id :: id in running ==> id in old(running) && running[id] == old(running)[id]
    {
      var ended: set<Id> := *;
      SomeEnd(running, ended);
      running := running - ended;
    }

    /** Jobs end while the runner waits; the one it is about to start is not among them. */
    method Completions(starting: Id)
      requires Valid() && starting in running
      modifies this`running
      ensures Valid() && starting in running && running[starting] == old(running)[starting]
      ensures forall id :: id in running ==> id in old(running) && running[id] == old(running)[id]
    {
      var ended: set<Id> := *;
      SomeEnd(running, ended - {starting});
      running := running - (ended - {starting});
    }

    method Remove(id: Id)
      requires Valid()
      modifies this`running
      ensures Valid() && running == old(running) - {id}
    {
      SomeEnd(running, {id});
      running := running - {id};
    }

    /** Reserves a slot for a due job iff it may start, and says why not. */
    method Reserve(l: Listing, cooling: bool) returns (fate: Fate)
      requires Valid() && |running| < concurrency && (l.id in running ==> running[l.id] == l.kind)
      modifies this`running
      ensures Valid() && Fits(l, fate, old(running), cooling, concurrency, Ours)
      ensures running == if fate.Started? then old(running)[l.id := l.kind] else old(running)
    {
      var issuing := Issuing(running);
      AllAreCounted(running);
      if l.kind == Issue && issuing >= IssueSlots(concurrency) {
        return NoSlot;
      }
      if cooling && (l.kind == Issue || |running| > issuing) {
        return Held;
      }
      if l.id in running {
        assert running[l.id := l.kind] == running;
        return AlreadyRunning;
      }
      OneStarts(running, l.id, l.kind);
      fate := Started;
      running := running[l.id := l.kind];
    }

    /** Goes through the due jobs in their order until the slots are full, with other jobs ending at every claim. */
    method StartListed(due: seq<Listing>, cooling: bool, claims: Id -> Claimed)
      returns (fates: seq<Fate>, ending: Ending, ghost states: seq<Running>)
      requires Valid()
      requires Agree(running, due, 0)
      requires forall i, j :: 0 <= i < j < |due| ==> due[i].id != due[j].id
      modifies this`running
      ensures Valid() && Pass(due, fates, states, cooling, concurrency, claims)
      ensures match ending
              case Exhausted => |fates| == |due|
              case Full => |running| >= concurrency && |fates| < |due|
              case Failing => |fates| > 0 && claims(due[|fates| - 1].id) == Unanswered
      ensures Leaves(due, fates, states, old(running), running)
      ensures forall i :: 0 <= i < |fates| && fates[i] == NotTaken && claims(due[i].id) == Unanswered ==>
                ending == Failing
    {
      fates, states := [], [];
      hide Fits, Issuing, Renewing, IssueSlots, Pass, Leaves, Ended, Agree, StartedBy;
      assert Pass(due, fates, states, cooling, concurrency, claims) && Leaves(due, [], [], running, running) by {
        hide *;
        NoPassYet(due, cooling, concurrency, claims, running);
      }
      AgreesWithNext(running, due, 0);
      for i := 0 to |due|
        invariant Valid() && |fates| == i
        invariant Pass(due, fates, states, cooling, concurrency, claims)
        invariant Leaves(due, fates, states, old(running), running) && Agree(running, due, i)
        invariant i < |due| && due[i].id in running ==> running[due[i].id] == due[i].kind
        invariant forall k :: 0 <= k < i ==> !(fates[k] == NotTaken && claims(due[k].id) == Unanswered)
      {
        if |running| >= concurrency {
          return fates, Full, states;
        }
        ghost var before := running;
        var fate, failed := TryStart(due[i], cooling, claims(due[i].id));
        AgreeWithOneMore(before, running, due, i, fate);
        AgreesWithNext(running, due, i + 1);
        PassGoesOn(due, fates, states, old(running), before, cooling, concurrency, claims, fate, running);
        fates, states := fates + [fate], states + [before];
        if failed {
          return fates, Failing, states;
        }
      }
      ending := Exhausted;
    }

    /** Reserves a slot for a due job and claims it, giving the slot back when another machine has it. */
    method TryStart(l: Listing, cooling: bool, claim: Claimed) returns (fate: Fate, failed: bool)
      requires Valid() && |running| < concurrency && (l.id in running ==> running[l.id] == l.kind)
      modifies this`running
      ensures Valid() && Fits(l, fate, old(running), cooling, concurrency, claim)
      ensures failed <==> fate == NotTaken && claim == Unanswered
      ensures Ended(old(running), running, StartedBy(l, fate))
      ensures fate.Started? ==> l.id in running && running[l.id] == l.kind
    {
      failed := false;
      fate := Reserve(l, cooling);
      if fate.Started? {
        Completions(l.id);
        if claim != Ours {
          Remove(l.id);
          fate := NotTaken;
          failed := claim == Unanswered;
        }
      }
    }

    /**
     * One pass: lists the due jobs and starts what may be started. The first due job is started, or found to be another
     * machine's, if it may start; and no first issuance is started before every due renewal on the list was started,
     * found running, or taken by another machine.
     */
    method StartDue(list: seq<Listing>, limit: nat, now: nat, coolingUntil: nat, claims: Id -> Claimed)
      returns (fates: seq<Fate>, next: Option<nat>, ending: Ending, ghost states: seq<Running>)
      requires Valid() && InOrder(list, now) && |list| <= limit
      requires Agree(running, list, 0)
      modifies this`running
      ensures Valid() && Pass(list, fates, states, coolingUntil > now, concurrency, claims)
      ensures forall i :: 0 <= i < |fates| ==> Due(list[i], now)
      ensures states != [] ==> Ended(old(running), states[0], {})
      ensures forall i, r :: 0 <= i < |fates| && fates[i].Started? && list[i].kind == Issue
                             && 0 <= r < |list| && Due(list[r], now) && list[r].kind != Issue ==>
                r < i && (fates[r].Started? || fates[r].AlreadyRunning? || fates[r].NotTaken?)
      ensures !stopping && |old(running)| < concurrency && list != [] && Due(list[0], now)
              && MayStart(list[0], old(running), coolingUntil > now, concurrency) ==>
                fates != [] && fates[0] == if claims(list[0].id) == Ours then Started else NotTaken
      ensures stopping ==> fates == [] && running == old(running)
      ensures !stopping && |old(running)| < concurrency ==>
                && (next.Some? ==> next.value > now)
                && if coolingUntil <= now then next == LookOf(list, limit, now)
                   else
                     && next.Some? && next.value <= coolingUntil
                     && (LookOf(list, limit, now).Some? ==> next.value <= LookOf(list, limit, now).value)
                     && (next.value == coolingUntil || next == LookOf(list, limit, now))
      ensures !stopping ==>
                match ending
                case Exhausted => forall i :: 0 <= i < |list| && Due(list[i], now) ==> i < |fates|
                case Full => |running| >= concurrency
                case Failing => |fates| > 0 && claims(list[|fates| - 1].id) == Unanswered
    {
      if stopping || |running| >= concurrency {
        return [], None, Full, [];
      }
      hide Fits, Issuing, Renewing, Precedes, Agree, MayStart, LookOf;
      ghost var before := running;
      SomeComplete();
      next := NextLook(list, limit, now, coolingUntil);
      SomeComplete();
      var due := DueJobs(list, now);
      AgreeWithFewer(before, running, list, due);
      fates, ending, states := StartListed(due, coolingUntil > now, claims);
      if states != [] {
        FirstIsTried(due, fates, states, before, coolingUntil > now, concurrency, claims);
      }
      PassOfMore(due, list, fates, states, coolingUntil > now, concurrency, claims);
      hide Pass;
      RenewalsWentFirst(list, now, due, fates, states, coolingUntil > now, concurrency, claims);
    }
  }

  /** The first job is claimed if it could start before any other ended. */
  lemma FirstIsTried(due: seq<Listing>, fates: seq<Fate>, states: seq<Running>, before: Running,
                     cooling: bool, concurrency: nat, claims: Id -> Claimed)
    requires due != [] && Pass(due, fates, states, cooling, concurrency, claims)
    requires states != [] && Ended(before, states[0], {})
    ensures MayStart(due[0], before, cooling, concurrency) ==>
              fates[0] == if claims(due[0].id) == Ours then Started else NotTaken
  {
    StillMayStart(due[0], before, states[0], cooling, concurrency);
    FateOfStartable(due[0], fates[0], states[0], cooling, concurrency, claims(due[0].id));
  }

  /** Jobs that end do not keep one from starting. */
  lemma StillMayStart(l: Listing, before: Running, after: Running, cooling: bool, concurrency: nat)
    requires Ended(before, after, {})
    ensures MayStart(l, before, cooling, concurrency) ==> MayStart(l, after, cooling, concurrency)
  {
    SubsetIsSmaller(IssueIds(after), IssueIds(before));
    SubsetIsSmaller(after.Keys - IssueIds(after), before.Keys - IssueIds(before));
  }

  lemma FateOfStartable(l: Listing, fate: Fate, running: Running, cooling: bool, concurrency: nat, claim: Claimed)
    requires Fits(l, fate, running, cooling, concurrency, claim)
    ensures MayStart(l, running, cooling, concurrency) <==> fate == if claim == Ours then Started else NotTaken
  {
  }

  /** Jobs of the list that run are of the kind listed. */
  ghost predicate Agree(running: map<Id, Kind>, due: seq<Listing>, from: nat) {
    forall k :: from <= k < |due| && due[k].id in running ==> running[due[k].id] == due[k].kind
  }

  lemma AgreeWithFewer(before: map<Id, Kind>, after: map<Id, Kind>, list: seq<Listing>, due: seq<Listing>)
    requires Agree(before, list, 0) && due <= list
    requires forall id :: id in after ==> id in before && after[id] == before[id]
    ensures Agree(after, due, 0)
  {
  }

  lemma AgreeWithOneMore(before: Running, after: Running, due: seq<Listing>, i: nat, fate: Fate)
    requires i < |due| && Agree(before, due, i) && forall j, k :: 0 <= j < k < |due| ==> due[j].id != due[k].id
    requires Ended(before, after, StartedBy(due[i], fate))
    ensures Agree(after, due, i + 1)
  {
  }

  lemma AgreesWithNext(running: Running, due: seq<Listing>, i: nat)
    requires Agree(running, due, i)
    ensures i < |due| && due[i].id in running ==> running[due[i].id] == due[i].kind
  {
  }

  lemma NoPassYet(due: seq<Listing>, cooling: bool, concurrency: nat, claims: Id -> Claimed, running: Running)
    ensures Pass(due, [], [], cooling, concurrency, claims) && Leaves(due, [], [], running, running)
  {
  }

  lemma PassOfMore(due: seq<Listing>, list: seq<Listing>, fates: seq<Fate>, states: seq<Running>, cooling: bool,
                   concurrency: nat, claims: Id -> Claimed)
    requires due <= list && Pass(due, fates, states, cooling, concurrency, claims)
    ensures Pass(list, fates, states, cooling, concurrency, claims)
  {
    hide Fits, Ended;
  }

  /** When the runner looks again, apart from a cool-down: after a second when the list is cut and all of it is due. */
  function LookOf(list: seq<Listing>, limit: nat, now: nat): Option<nat> {
    if NextOf(list, now).Some? then NextOf(list, now) else if |list| == limit then Some(now + 1_000) else None
  }

  /** When to look again: at the first job not due, soon if the list may be cut, and at the end of a cool-down. */
  method NextLook(list: seq<Listing>, limit: nat, now: nat, coolingUntil: nat) returns (next: Option<nat>)
    ensures coolingUntil <= now ==> next == LookOf(list, limit, now)
    ensures coolingUntil > now ==> next.Some? && next.value <= coolingUntil
    ensures coolingUntil > now && LookOf(list, limit, now).Some? ==> next.value <= LookOf(list, limit, now).value
    ensures next.Some? ==> next.value > now
    ensures next == LookOf(list, limit, now) || (coolingUntil > now && next == Some(coolingUntil))
  {
    NextIsLater(list, now);
    next := FirstLater(list, now);
    if next.None? && |list| == limit {
      next := Some(now + 1_000);
    }
    if coolingUntil > now {
      next := Some(if next.None? || coolingUntil < next.value then coolingUntil else next.value);
    }
  }

  /**
   * In the order of a schedule, a first issuance that started
   * came after every due renewal, each of which had its turn.
   */
  lemma RenewalsWentFirst(list: seq<Listing>, now: nat, due: seq<Listing>, fates: seq<Fate>, states: seq<Running>,
                          cooling: bool, concurrency: nat, claims: Id -> Claimed)
    requires InOrder(list, now) && due <= list && Pass(due, fates, states, cooling, concurrency, claims)
    requires forall i :: 0 <= i < |list| ==> (Due(list[i], now) <==> i < |due|)
    ensures forall i, r :: 0 <= i < |fates| && fates[i].Started? && list[i].kind == Issue
                           && 0 <= r < |list| && Due(list[r], now) && list[r].kind != Issue ==>
              r < i && (fates[r].Started? || fates[r].AlreadyRunning? || fates[r].NotTaken?)
  {
    hide Issuing, Renewing;
    forall i, r | 0 <= i < |fates| && fates[i].Started? && list[i].kind == Issue
                  && 0 <= r < |list| && Due(list[r], now) && list[r].kind != Issue
      ensures r < i && (fates[r].Started? || fates[r].AlreadyRunning? || fates[r].NotTaken?)
    {
      assert Fits(due[i], fates[i], states[i], cooling, concurrency, claims(due[i].id));
      if r < i { assert Fits(due[r], fates[r], states[r], cooling, concurrency, claims(due[r].id)); }
    }
  }

  lemma {:induction false} NextIsLater(list: seq<Listing>, now: nat)
    ensures NextOf(list, now).Some? ==> NextOf(list, now).value > now
  {
    if list != [] { NextIsLater(list[1..], now); }
  }

  /** With two slots or more, a renewal finds one whenever no other renewal runs, even while the CA cools down. */
  lemma RenewalFindsSlot(running: map<Id, Kind>, concurrency: nat, l: Listing, cooling: bool)
    requires Issuing(running) <= IssueSlots(concurrency) && concurrency >= 2 && Renewing(running) == 0
    requires l.kind != Issue && l.id !in running
    ensures |running| < concurrency && MayStart(l, running, cooling, concurrency)
  {
    AllAreCounted(running);
  }

  /** While no renewal runs and the CA works, first issuance fills all slots but one. */
  lemma IssuanceFillsSlots(running: map<Id, Kind>, concurrency: nat, l: Listing)
    requires Renewing(running) == 0 && l.kind == Issue && l.id !in running && concurrency >= 1
    ensures MayStart(l, running, false, concurrency) && |running| < concurrency
            <==> |running| + 1 < concurrency || (concurrency == 1 && running == map[])
  {
    AllAreCounted(running);
  }

  /** The due jobs of a schedule, which are the first of it. */
  method DueJobs(list: seq<Listing>, now: nat) returns (due: seq<Listing>)
    requires InOrder(list, now)
    ensures due <= list && forall i :: 0 <= i < |list| ==> (Due(list[i], now) <==> i < |due|)
  {
    due := [];
    for i := 0 to |list|
      invariant |due| <= i && due == list[..|due|]
      invariant forall k :: 0 <= k < i ==> (Due(list[k], now) <==> k < |due|)
    {
      if list[i].readyAt <= now {
        assert |due| < i ==> Precedes(list[|due|], list[i], now);
        due := due + [list[i]];
      }
    }
  }

  /** When the first listed job that is not due may be taken. */
  method FirstLater(list: seq<Listing>, now: nat) returns (next: Option<nat>)
    ensures next == NextOf(list, now)
  {
    for i := 0 to |list|
      invariant NextOf(list, now) == NextOf(list[i..], now)
    {
      if list[i].readyAt > now {
        return Some(list[i].readyAt);
      }
    }
    next := None;
  }

  function NextOf(list: seq<Listing>, now: nat): Option<nat> {
    if list == [] then None else if list[0].readyAt > now then Some(list[0].readyAt) else NextOf(list[1..], now)
  }

  /** How many first issuances run at most: with two slots or more, one is left for renewals. */
  function IssueSlots(concurrency: nat): nat {
    if concurrency > 1 then concurrency - 1 else concurrency
  }
}

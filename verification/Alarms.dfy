/** Alarms on tunnels' rows, each taken once by one of any number of callers (store.rs). */
module Alarms {
  import opened Common

  type Id = string

  /** The rows that have an alarm, with when it is due. */
  type Table = map<Id, nat>

  const LIMIT := 500

  // --- One caller ---------------------------------------------------------------------------------------------

  /** Up to `limit` alarms, the earliest first. */
  ghost predicate IsEarliest(t: Table, rows: seq<(Id, nat)>, limit: nat) {
    && |rows| <= limit
    && (forall i :: 0 <= i < |rows| ==> rows[i].0 in t && t[rows[i].0] == rows[i].1)
    && (forall i, j :: 0 <= i < j < |rows| ==> rows[i].0 != rows[j].0 && rows[i].1 <= rows[j].1)
    && (forall id :: id in t ==>
          id in Ids(rows) || (|rows| == limit && forall i :: 0 <= i < |rows| ==> rows[i].1 <= t[id]))
  }

  ghost function Ids(rows: seq<(Id, nat)>): set<Id> { set i | 0 <= i < |rows| :: rows[i].0 }

  /** The earliest alarm left, no earlier than now. */
  ghost predicate IsNext(t: Table, now: nat, next: Option<nat>) {
    match next
    case None => t == map[]
    case Some(at) =>
      && at >= now && (exists id :: id in t && at == (if t[id] < now then now else t[id]))
      && forall id :: id in t ==> at <= (if t[id] < now then now else t[id])
  }

  class Rows {
    /** The tunnels that have a row. */
    const ids: set<Id>
    var alarms: Table

    constructor (ids: set<Id>)
      ensures this.ids == ids && alarms == map[]
    {
      this.ids, alarms := ids, map[];
    }

    /** Sets or unsets the alarm of a row; without a row there is nothing to set. */
    method SetAlarm(id: Id, at: Option<nat>)
      modifies this
      ensures id !in ids ==> alarms == old(alarms)
      ensures id in ids ==> alarms == if at.Some? then old(alarms)[id := at.value] else old(alarms) - {id}
    {
      if id in ids {
        alarms := if at.Some? then alarms[id := at.value] else alarms - {id};
      }
    }

    /** Clears an alarm iff it has the time that was read. */
    method Clear(id: Id, at: nat) returns (cleared: bool)
      modifies this
      ensures cleared == (id in old(alarms) && old(alarms)[id] == at)
      ensures alarms == if cleared then old(alarms) - {id} else old(alarms)
    {
      cleared := id in alarms && alarms[id] == at;
      if cleared {
        alarms := alarms - {id};
      }
    }

    /** Clears the alarms that were read, as long as they are the same. */
    method ClearAll(due: seq<(Id, nat)>) returns (taken: seq<Id>)
      requires forall i :: 0 <= i < |due| ==> due[i].0 in alarms && alarms[due[i].0] == due[i].1
      requires forall i, j :: 0 <= i < j < |due| ==> due[i].0 != due[j].0
      modifies this
      ensures |taken| == |due| && forall i :: 0 <= i < |due| ==> taken[i] == due[i].0
      ensures alarms == old(alarms) - Ids(due)
    {
      taken := [];
      for k := 0 to |due|
        invariant |taken| == k && forall i :: 0 <= i < k ==> taken[i] == due[i].0
        invariant alarms == old(alarms) - Ids(due[..k])
      {
        var (id, at) := due[k];
        NotYetListed(due, k);
        var cleared := Clear(id, at);
        if cleared {
          taken := taken + [id];
        }
      }
      assert due[..|due|] == due;
    }

    /**
     * Takes the due alarms among the earliest 501 and says when to look again. Alone, it takes each of them, nothing
     * that is not due, and every due alarm unless there are more than 500; and the time is that of the earliest left.
     */
    method TakeDueAlarmsAndNext(now: nat, due: seq<(Id, nat)>) returns (taken: seq<Id>, next: Option<nat>)
      requires IsEarliest(alarms, due, LIMIT + 1)
      modifies this
      ensures |taken| <= 500 && forall i, j :: 0 <= i < j < |taken| ==> taken[i] != taken[j]
      ensures forall i :: 0 <= i < |taken| ==> taken[i] in old(alarms) && old(alarms)[taken[i]] <= now
      ensures alarms == old(alarms) - set id | id in taken
      ensures |taken| < 500 ==> forall id :: id in alarms ==> alarms[id] > now
      ensures IsNext(alarms, now, next)
    {
      var later := 0;
      while later < |due| && later < LIMIT && due[later].1 <= now
        invariant later <= |due| && later <= LIMIT
        invariant forall i :: 0 <= i < later ==> due[i].1 <= now
      {
        later := later + 1;
      }
      next := if later < |due| then Some(if due[later].1 < now then now else due[later].1) else None;
      LeftOver(alarms, due, later, now);
      assert forall i :: 0 <= i < later ==>
               due[..later][i] == due[i] && due[i].0 in alarms && alarms[due[i].0] == due[i].1;
      hide IsNext, IsEarliest, Ids;
      taken := ClearAll(due[..later]);
      SameIds(taken, due[..later]);
    }
  }

  lemma SameIds(taken: seq<Id>, due: seq<(Id, nat)>)
    requires |taken| == |due| && forall i :: 0 <= i < |due| ==> taken[i] == due[i].0
    ensures (set id | id in taken) == Ids(due)
  {
    forall id | id in Ids(due) ensures id in taken {
      var i :| 0 <= i < |due| && due[i].0 == id;
      assert taken[i] == id;
    }
  }

  lemma NotYetListed(due: seq<(Id, nat)>, k: nat)
    requires k < |due| && forall i, j :: 0 <= i < j < |due| ==> due[i].0 != due[j].0
    ensures due[k].0 !in Ids(due[..k]) && Ids(due[..k + 1]) == Ids(due[..k]) + {due[k].0}
  {
    assert due[..k + 1] == due[..k] + [due[k]];
  }

  /** What is left after taking the first so many of the earliest alarms. */
  lemma LeftOver(before: Table, due: seq<(Id, nat)>, later: nat, now: nat)
    requires IsEarliest(before, due, LIMIT + 1) && later <= |due| && later <= LIMIT
    requires forall i :: 0 <= i < later ==> due[i].1 <= now
    requires later < LIMIT && later < |due| ==> due[later].1 > now
    ensures var left := before - Ids(due[..later]);
            && (later < LIMIT ==> forall id :: id in left ==> left[id] > now)
            && IsNext(left, now, if later < |due| then Some(if due[later].1 < now then now else due[later].1) else None)
  {
    var left := before - Ids(due[..later]);
    assert forall i :: 0 <= i < later ==> due[..later][i] == due[i];
    forall id | id in left ensures later < |due| && left[id] >= due[later].1 {
      if id in Ids(due) {
        var i :| 0 <= i < |due| && due[i].0 == id;
      }
    }
    if later < |due| {
      assert due[later].0 !in Ids(due[..later]);
      assert due[later].0 in left;
    } else {
      assert left == map[];
    }
  }

  // --- Any number of callers ------------------------------------------------------------------------------------

  /** Alarms are set and unset, callers read what is due and clear what they read, one statement at a time. */
  datatype Step =
    | Set(id: Id, at: nat)
    | Unset(id: Id)
    | Read(caller: nat, now: nat, rows: set<Id>)
    | ClearRead(caller: nat, id: Id)

  /** The alarms, and what each caller read with its clock. */
  datatype Sys = Sys(alarms: Table, seen: map<nat, (nat, Table)>)

  predicate Clears(s: Sys, caller: nat, id: Id) {
    caller in s.seen && id in s.seen[caller].1 && id in s.alarms && s.alarms[id] == s.seen[caller].1[id]
  }

  function Take(s: Sys, step: Step): Sys {
    match step
    case Set(id, at) => s.(alarms := s.alarms[id := at])
    case Unset(id) => s.(alarms := s.alarms - {id})
    case Read(caller, now, rows) =>
      s.(seen := s.seen[caller := (now, map id | id in s.alarms && id in rows && s.alarms[id] <= now :: s.alarms[id])])
    case ClearRead(caller, id) => if Clears(s, caller, id) then s.(alarms := s.alarms - {id}) else s
  }

  function Run(s: Sys, steps: seq<Step>): Sys
    decreases |steps|
  {
    if steps == [] then s else Run(Take(s, steps[0]), steps[1..])
  }

  const INIT := Sys(map[], map[])

  // What becomes of each alarm, counted from outside.

  function One(b: bool): nat { if b then 1 else 0 }

  function SetIn(steps: seq<Step>, id: Id): nat {
    if steps == [] then 0 else One(steps[0].Set? && steps[0].id == id) + SetIn(steps[1..], id)
  }

  /** Alarms a caller cleared. */
  function TakenIn(s: Sys, steps: seq<Step>, id: Id): nat
    decreases |steps|
  {
    if steps == [] then 0
    else
      var t := Take(s, steps[0]);
      One(steps[0].ClearRead? && id in s.alarms && id !in t.alarms) + TakenIn(t, steps[1..], id)
  }

  /** Alarms unset, or set anew before anyone took them. */
  function DroppedIn(s: Sys, steps: seq<Step>, id: Id): nat
    decreases |steps|
  {
    if steps == [] then 0
    else
      One((steps[0].Unset? || steps[0].Set?) && steps[0].id == id && id in s.alarms)
      + DroppedIn(Take(s, steps[0]), steps[1..], id)
  }

  /** However callers interleave, each alarm that was set is taken once, unset, set anew, or still there. */
  lemma {:induction false} AlarmsAreConserved(s: Sys, steps: seq<Step>, id: Id)
    ensures SetIn(steps, id) + One(id in s.alarms)
         == TakenIn(s, steps, id) + DroppedIn(s, steps, id) + One(id in Run(s, steps).alarms)
    decreases |steps|
  {
    if steps != [] { AlarmsAreConserved(Take(s, steps[0]), steps[1..], id); }
  }

  /** What callers read was due by their clocks. */
  ghost predicate Inv(s: Sys) {
    forall c :: c in s.seen ==> forall id :: id in s.seen[c].1 ==> s.seen[c].1[id] <= s.seen[c].0
  }

  lemma {:induction false} RunKeepsInv(s: Sys, steps: seq<Step>)
    requires Inv(s)
    ensures Inv(Run(s, steps))
    decreases |steps|
  {
    if steps != [] { RunKeepsInv(Take(s, steps[0]), steps[1..]); }
  }

  /** In every run, a caller only takes an alarm that is due by the clock it read, and only the one it read. */
  lemma TakenWasDue(steps: seq<Step>, id: Id, caller: nat)
    ensures var s := Run(INIT, steps); var t := Take(s, ClearRead(caller, id));
            t.alarms != s.alarms ==>
              && id in s.alarms && caller in s.seen && s.alarms[id] <= s.seen[caller].0
              && t.alarms == s.alarms - {id} && t.seen == s.seen
  {
    RunKeepsInv(INIT, steps);
  }

  /** Nothing sets or unsets the alarm, and the caller reads nothing else. */
  predicate LeavesAlarm(step: Step, caller: nat, id: Id) {
    match step
    case Set(other, _) => other != id
    case Unset(other) => other != id
    case Read(other, _, _) => other != caller
    case ClearRead(_, _) => true
  }

  lemma {:induction false} ReadStays(s: Sys, steps: seq<Step>, caller: nat, id: Id)
    requires forall i :: 0 <= i < |steps| ==> LeavesAlarm(steps[i], caller, id)
    requires caller in s.seen && id in s.seen[caller].1
    requires id in s.alarms ==> s.alarms[id] == s.seen[caller].1[id]
    ensures var t := Run(s, steps);
            && caller in t.seen && t.seen[caller] == s.seen[caller]
            && (id in t.alarms ==> t.alarms[id] == s.seen[caller].1[id])
    decreases |steps|
  {
    if steps != [] {
      assert LeavesAlarm(steps[0], caller, id);
      ReadStays(Take(s, steps[0]), steps[1..], caller, id);
    }
  }

  /** An alarm that a caller reads as due is gone once it clears it: it took it, or another caller did. */
  lemma DueAlarmIsTaken(s: Sys, caller: nat, now: nat, rows: set<Id>, id: Id, others: seq<Step>)
    requires id in s.alarms && s.alarms[id] <= now && id in rows
    requires forall i :: 0 <= i < |others| ==> LeavesAlarm(others[i], caller, id)
    ensures id !in Take(Run(Take(s, Read(caller, now, rows)), others), ClearRead(caller, id)).alarms
  {
    ReadStays(Take(s, Read(caller, now, rows)), others, caller, id);
  }

  /** An alarm set for later after a caller read the row stays, whatever the caller clears. */
  lemma NewAlarmIsKept(s: Sys, caller: nat, now: nat, rows: set<Id>, id: Id, at: nat)
    requires at > now
    ensures var t := Take(Take(Take(s, Read(caller, now, rows)), Set(id, at)), ClearRead(caller, id));
            id in t.alarms && t.alarms[id] == at
  {
  }
}

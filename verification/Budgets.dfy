/**
 * The budgets for bytes held in memory (bridge.rs): data from a client is counted against its connection, its bridge
 * and the machine, data from a visitor against the bridge and the machine. Reservations are taken level by level,
 * may wait with part of what they need, and may be abandoned at any point.
 */
module Budgets {

  const CHANNEL_BUDGET: nat := 512 * 1024
  const BRIDGE_BUDGET: nat := 4 * 1024 * 1024
  const OUTBOUND_BUDGET: nat := 1024 * 1024

  datatype Level = Connection(id: nat) | Inbound(bridge: nat) | Outbound(bridge: nat) | Machine

  function Budget(l: Level, machine: nat): nat {
    match l
    case Connection(_) => CHANNEL_BUDGET
    case Inbound(_) => BRIDGE_BUDGET
    case Outbound(_) => OUTBOUND_BUDGET
    case Machine => machine
  }

  /**
   * A reservation: the levels it takes in order, how many permits of each, how many levels it has, the permits
   * assigned to it so far at the level it waits for, and whether it gave everything back.
   */
  datatype Hold = Hold(path: seq<Level>, permits: nat, stage: nat, part: nat, ended: bool)

  predicate IsPath(path: seq<Level>) {
    || (|path| == 3 && path[0].Connection? && path[1].Inbound? && path[2] == Machine)
    || (|path| == 2 && path[0].Outbound? && path[1] == Machine)
  }

  predicate Proper(h: Hold) {
    && IsPath(h.path) && h.stage <= |h.path| && h.part <= h.permits && (h.stage == |h.path| ==> h.part == 0)
    && (h.ended ==> h.stage == 0 && h.part == 0)
  }

  /** What a reservation holds of the levels from `i` on. */
  function HeldFrom(h: Hold, l: Level, i: nat): nat
    requires i <= |h.path|
    decreases |h.path| - i
  {
    if i == |h.path| then 0
    else (if h.path[i] != l then 0 else if i < h.stage then h.permits else if i == h.stage then h.part else 0)
         + HeldFrom(h, l, i + 1)
  }

  /** What a reservation holds of a level. */
  function HeldOf(h: Hold, l: Level): nat { HeldFrom(h, l, 0) }

  function Held(holds: seq<Hold>, l: Level): nat {
    if holds == [] then 0 else HeldOf(holds[0], l) + Held(holds[1..], l)
  }

  /** Permits given out, reservations so far, open connections, and those whose visitor's task has ended. */
  datatype Sys = Sys(machine: nat, used: map<Level, nat>, holds: seq<Hold>, channels: set<nat>, gone: set<nat>)

  /** Permits a semaphore has given out. */
  function Used(s: Sys, l: Level): nat { if l in s.used then s.used[l] else 0 }

  /** Permits it has left. */
  function Free(s: Sys, l: Level): int { Budget(l, s.machine) - Used(s, l) }

  /**
   * A connection opens; data asks for its share, is given it level by level, waits and gives it back; a connection is
   * reset; and its visitor's task ends, after a reset or on its own, with the data that waits for the visitor.
   */
  datatype Step =
    | Open(channel: nat)
    | Begin(path: seq<Level>, permits: nat)
    | Try(hold: nat)
    | Assign(hold: nat, more: nat)
    | Release(hold: nat)
    | Reset(channel: nat)
    | VisitorEnds(channel: nat)

  function Charge(s: Sys, l: Level, n: nat): map<Level, nat> { s.used[l := Used(s, l) + n] }

  /** Without waiting: the next level's permits if they are all free, or the reservation gives back what it has. */
  function DoTry(s: Sys, i: nat): (t: Sys)
    requires i < |s.holds| && Proper(s.holds[i])
    ensures |t.holds| == |s.holds|
  {
    var h := s.holds[i];
    if h.ended || h.stage == |h.path| || h.part > 0 then s
    else if Free(s, h.path[h.stage]) >= h.permits then
      s.(used := Charge(s, h.path[h.stage], h.permits), holds := s.holds[i := h.(stage := h.stage + 1)])
    else DoRelease(s, i)
  }

  /**
   * Waiting: some permits that are free go to the reservation, and once it has them all it waits for the next level.
   */
  function DoAssign(s: Sys, i: nat, more: nat): (t: Sys)
    requires i < |s.holds| && Proper(s.holds[i])
    ensures |t.holds| == |s.holds|
  {
    var h := s.holds[i];
    if h.ended || h.stage == |h.path| || h.part + more > h.permits || Free(s, h.path[h.stage]) < more then s
    else
      var h' := if h.part + more == h.permits then h.(stage := h.stage + 1, part := 0) else h.(part := h.part + more);
      s.(used := Charge(s, h.path[h.stage], more), holds := s.holds[i := h'])
  }

  function Over(h: Hold): Hold { h.(stage := 0, part := 0, ended := true) }

  /** Everything is given back: the data was written or dropped, the wait was abandoned, or a try failed. */
  function DoRelease(s: Sys, i: nat): Sys
    requires i < |s.holds|
  {
    var h := s.holds[i];
    s.(used := map l | l in s.used :: if s.used[l] >= HeldOf(h, l) then s.used[l] - HeldOf(h, l) else 0,
       holds := s.holds[i := Over(h)])
  }

  predicate On(h: Hold, channel: nat) { h.path != [] && h.path[0] == Connection(channel) }

  predicate Complete(h: Hold) { h.stage == |h.path| }

  /** The first so many reservations give back what they have, if their data already waits for the visitor. */
  function DoDrop(s: Sys, channel: nat, n: nat): (t: Sys)
    requires n <= |s.holds|
    ensures |t.holds| == |s.holds|
    decreases n
  {
    if n == 0 then s
    else
      var t := DoDrop(s, channel, n - 1);
      if On(t.holds[n - 1], channel) && Complete(t.holds[n - 1]) then DoRelease(t, n - 1) else t
  }

  /** Data that got its share goes to its visitor, and is dropped with its share if the visitor's task has ended. */
  function Delivered(s: Sys, i: nat): Sys
    requires i < |s.holds|
  {
    if Complete(s.holds[i]) && exists c :: c in s.gone && On(s.holds[i], c) then DoRelease(s, i) else s
  }

  /** Data for a connection only asks for a share while the connection is open. */
  predicate MayBegin(s: Sys, path: seq<Level>) {
    IsPath(path) && (path[0].Connection? ==> path[0].id in s.channels && path[0].id !in s.gone)
  }

  function Take(s: Sys, step: Step): Sys {
    match step
    case Open(channel) => s.(channels := s.channels + {channel}, gone := s.gone - {channel})
    case Begin(path, permits) =>
      if MayBegin(s, path) then s.(holds := s.holds + [Hold(path, permits, 0, 0, false)]) else s
    case Try(i) => if i < |s.holds| && Proper(s.holds[i]) then Delivered(DoTry(s, i), i) else s
    case Assign(i, more) => if i < |s.holds| && Proper(s.holds[i]) then Delivered(DoAssign(s, i, more), i) else s
    case Release(i) => if i < |s.holds| then DoRelease(s, i) else s
    case Reset(channel) => s.(channels := s.channels - {channel})
    case VisitorEnds(channel) =>
      DoDrop(s.(channels := s.channels - {channel}, gone := s.gone + {channel}), channel, |s.holds|)
  }

  function Run(s: Sys, steps: seq<Step>): Sys
    decreases |steps|
  {
    if steps == [] then s else Run(Take(s, steps[0]), steps[1..])
  }

  function Init(machine: nat): Sys { Sys(machine, map[], [], {}, {}) }

  // --- Conservation --------------------------------------------------------------------------------------------

  ghost predicate AllProper(holds: seq<Hold>) { forall i :: 0 <= i < |holds| ==> Proper(holds[i]) }

  /** What a level has given out is what the reservations hold of it, and no more than there is. */
  ghost predicate Conserved(s: Sys, l: Level) {
    Used(s, l) == Held(s.holds, l) && Used(s, l) <= Budget(l, s.machine)
  }

  ghost predicate Inv(s: Sys) { AllProper(s.holds) && forall l :: Conserved(s, l) }

  lemma {:induction false} HeldUpdates(holds: seq<Hold>, i: nat, h: Hold, l: Level)
    requires i < |holds|
    ensures Held(holds[i := h], l) == Held(holds, l) - HeldOf(holds[i], l) + HeldOf(h, l)
    ensures HeldOf(holds[i], l) <= Held(holds, l)
  {
    hide HeldOf;
    if i == 0 {
      assert holds[0 := h][1..] == holds[1..];
    } else {
      assert holds[i := h][1..] == holds[1..][i - 1 := h];
      HeldUpdates(holds[1..], i - 1, h, l);
    }
  }

  lemma {:induction false} HeldAppends(holds: seq<Hold>, h: Hold, l: Level)
    ensures Held(holds + [h], l) == Held(holds, l) + HeldOf(h, l)
  {
    hide HeldOf;
    if holds == [] {
      assert (holds + [h])[1..] == [];
    } else {
      assert (holds + [h])[1..] == holds[1..] + [h];
      HeldAppends(holds[1..], h, l);
    }
  }

  /** What a reservation on a path holds, level by level. */
  lemma HeldOnPath(h: Hold, l: Level)
    requires Proper(h)
    ensures HeldOf(h, l) == HeldAt(h, l, 0) + HeldAt(h, l, 1) + HeldAt(h, l, 2)
  {
    assert HeldFrom(h, l, |h.path|) == 0;
    assert HeldFrom(h, l, |h.path| - 1) == HeldAt(h, l, |h.path| - 1);
    assert HeldFrom(h, l, |h.path| - 2) == HeldAt(h, l, |h.path| - 2) + HeldAt(h, l, |h.path| - 1);
  }

  function HeldAt(h: Hold, l: Level, i: nat): nat {
    if i >= |h.path| || h.path[i] != l then 0 else if i < h.stage then h.permits else if i == h.stage then h.part else 0
  }

  lemma TryTakes(h: Hold, l: Level)
    requires Proper(h) && !h.ended && h.stage < |h.path| && h.part == 0
    ensures HeldOf(h.(stage := h.stage + 1), l) == HeldOf(h, l) + if h.path[h.stage] == l then h.permits else 0
  {
    HeldOnPath(h, l);
    HeldOnPath(h.(stage := h.stage + 1), l);
  }

  lemma AssignTakes(h: Hold, more: nat, l: Level)
    requires Proper(h) && !h.ended && h.stage < |h.path| && h.part + more <= h.permits
    ensures var h' := if h.part + more == h.permits then h.(stage := h.stage + 1, part := 0)
                      else h.(part := h.part + more);
            Proper(h') && HeldOf(h', l) == HeldOf(h, l) + if h.path[h.stage] == l then more else 0
  {
    HeldOnPath(h, l);
    HeldOnPath(if h.part + more == h.permits then h.(stage := h.stage + 1, part := 0)
               else h.(part := h.part + more), l);
  }

  /** A reservation that gave everything back holds nothing of any level. */
  lemma ReleasedHoldsNothing(h: Hold, l: Level)
    requires Proper(h)
    ensures HeldOf(Over(h), l) == 0
  {
    HeldOnPath(Over(h), l);
  }

  lemma ReleaseKeepsInv(s: Sys, i: nat)
    requires Inv(s) && i < |s.holds|
    ensures Inv(DoRelease(s, i))
  {
    var h, t := s.holds[i], DoRelease(s, i);
    forall l ensures Conserved(t, l) {
      assert Conserved(s, l);
      HeldUpdates(s.holds, i, Over(h), l);
      ReleasedHoldsNothing(h, l);
      hide HeldOf, Held;
    }
  }

  lemma {:induction false} DropKeepsInv(s: Sys, channel: nat, n: nat)
    requires Inv(s) && n <= |s.holds|
    ensures Inv(DoDrop(s, channel, n))
  {
    hide Inv, DoRelease;
    if n > 0 {
      DropKeepsInv(s, channel, n - 1);
      var t := DoDrop(s, channel, n - 1);
      if On(t.holds[n - 1], channel) && Complete(t.holds[n - 1]) { ReleaseKeepsInv(DoDrop(s, channel, n - 1), n - 1); }
    }
  }

  lemma TryKeepsInv(s: Sys, i: nat)
    requires Inv(s) && i < |s.holds|
    ensures Inv(DoTry(s, i))
  {
    var h, t := s.holds[i], DoTry(s, i);
    if !h.ended && h.stage < |h.path| && h.part == 0 {
      if Free(s, h.path[h.stage]) >= h.permits {
        forall l ensures Conserved(t, l) {
          assert Conserved(s, l);
          HeldUpdates(s.holds, i, h.(stage := h.stage + 1), l);
          TryTakes(h, l);
          hide HeldOf, Held;
        }
      } else {
        ReleaseKeepsInv(s, i);
      }
    }
  }

  lemma AssignKeepsInv(s: Sys, i: nat, more: nat)
    requires Inv(s) && i < |s.holds|
    ensures Inv(DoAssign(s, i, more))
  {
    var h, t := s.holds[i], DoAssign(s, i, more);
    if !(h.ended || h.stage == |h.path| || h.part + more > h.permits || Free(s, h.path[h.stage]) < more) {
      AssignTakes(h, more, h.path[h.stage]);
      forall l ensures Conserved(t, l) {
        assert Conserved(s, l);
        HeldUpdates(s.holds, i, t.holds[i], l);
        AssignTakes(h, more, l);
        hide HeldOf, Held;
      }
    }
  }

  lemma DeliveredKeepsInv(s: Sys, i: nat)
    requires Inv(s) && i < |s.holds|
    ensures Inv(Delivered(s, i))
  {
    ReleaseKeepsInv(s, i);
    hide Inv, DoRelease;
  }

  lemma BeginKeepsInv(s: Sys, path: seq<Level>, permits: nat)
    requires Inv(s) && MayBegin(s, path)
    ensures Inv(Take(s, Begin(path, permits)))
  {
    var h, t := Hold(path, permits, 0, 0, false), Take(s, Begin(path, permits));
    forall l ensures Conserved(t, l) {
      assert Conserved(s, l);
      HeldAppends(s.holds, h, l);
      HeldOnPath(h, l);
      hide HeldOf, Held;
    }
  }

  lemma StepKeepsInv(s: Sys, step: Step)
    requires Inv(s)
    ensures Inv(Take(s, step))
  {
    hide HeldOf, Held, DoTry, DoAssign, DoRelease, DoDrop;
    match step
    case Begin(path, permits) => if MayBegin(s, path) { BeginKeepsInv(s, path, permits); }
    case Try(i) =>
      if i < |s.holds| {
        TryKeepsInv(s, i);
        DeliveredKeepsInv(DoTry(s, i), i);
      }
    case Assign(i, more) =>
      if i < |s.holds| {
        AssignKeepsInv(s, i, more);
        DeliveredKeepsInv(DoAssign(s, i, more), i);
      }
    case Release(i) => if i < |s.holds| { ReleaseKeepsInv(s, i); }
    case VisitorEnds(channel) =>
      var t := s.(channels := s.channels - {channel}, gone := s.gone + {channel});
      forall l ensures Conserved(t, l) { assert Conserved(s, l); }
      DropKeepsInv(t, channel, |s.holds|);
    case _ =>
      var t := Take(s, step);
      forall l ensures Conserved(t, l) { assert Conserved(s, l); }
  }

  lemma {:induction false} RunKeepsInv(s: Sys, steps: seq<Step>)
    requires Inv(s)
    ensures Inv(Run(s, steps))
    decreases |steps|
  {
    hide Inv, Take;
    if steps != [] {
      StepKeepsInv(s, steps[0]);
      RunKeepsInv(Take(s, steps[0]), steps[1..]);
    }
  }

  /**
   * In every run, with waits abandoned and connections reset at any point, free permits and permits held make up
   * each level's budget, so what is held never exceeds it.
   */
  lemma BudgetsAreConserved(machine: nat, steps: seq<Step>, l: Level)
    ensures var s := Run(Init(machine), steps);
            && Free(s, l) >= 0 && Free(s, l) + Held(s.holds, l) == Budget(l, s.machine)
  {
    var s := Init(machine);
    forall l ensures Conserved(s, l) {}
    RunKeepsInv(s, steps);
    assert Conserved(Run(s, steps), l);
  }

  /** A reservation that ends, whatever it had and whatever others did meanwhile, leaves every level its whole share. */
  lemma EndedHoldsNothing(machine: nat, steps: seq<Step>, i: nat, l: Level)
    requires i < |Run(Init(machine), steps).holds|
    ensures var s := Run(Init(machine), steps); var t := Take(s, Release(i));
            && HeldOf(t.holds[i], l) == 0 && Free(t, l) == Free(s, l) + HeldOf(s.holds[i], l)
            && forall j :: 0 <= j < |s.holds| && j != i ==> t.holds[j] == s.holds[j]
  {
    var s0 := Init(machine);
    forall l ensures Conserved(s0, l) {}
    RunKeepsInv(s0, steps);
    var s := Run(s0, steps);
    hide Run;
    assert Proper(s.holds[i]) && Conserved(s, l);
    ReleasedHoldsNothing(s.holds[i], l);
    HeldUpdates(s.holds, i, Over(s.holds[i]), l);
    hide HeldOf, Held;
  }

  // --- A connection whose visitor is gone ------------------------------------------------------------------------

  /** No data waits for the visitor any more: what is reserved for the connection waits with the bridge's reader. */
  ghost predicate Quiet(s: Sys, channel: nat) {
    && channel !in s.channels && channel in s.gone
    && forall i :: 0 <= i < |s.holds| && On(s.holds[i], channel) ==> !Complete(s.holds[i])
  }

  /** Not even that. */
  ghost predicate Silent(s: Sys, channel: nat) {
    && channel !in s.channels && channel in s.gone
    && forall i :: 0 <= i < |s.holds| && On(s.holds[i], channel) ==> s.holds[i].ended
  }

  lemma {:induction false} DropQuiets(s: Sys, channel: nat, n: nat)
    requires n <= |s.holds| && AllProper(s.holds)
    ensures var t := DoDrop(s, channel, n);
            && t.channels == s.channels && t.gone == s.gone
            && (forall i :: 0 <= i < |s.holds| ==> t.holds[i] == s.holds[i] || t.holds[i] == Over(s.holds[i]))
            && forall i :: 0 <= i < n && On(t.holds[i], channel) ==> !Complete(t.holds[i])
  {
    hide HeldOf;
    if n > 0 { DropQuiets(s, channel, n - 1); }
  }

  /** What one step does to the reservations there were: nothing, one of them moves on or ends, or some end. */
  lemma StepKeepsQuiet(s: Sys, step: Step, channel: nat)
    requires AllProper(s.holds) && Quiet(s, channel) && step != Open(channel)
    ensures Quiet(Take(s, step), channel)
    ensures Silent(s, channel) ==> Silent(Take(s, step), channel)
  {
    hide HeldOf, DoDrop;
    if step.VisitorEnds? {
      DropQuiets(s.(channels := s.channels - {step.channel}, gone := s.gone + {step.channel}), step.channel, |s.holds|);
    }
  }

  lemma {:induction false} NoneHeld(holds: seq<Hold>, channel: nat)
    requires forall i :: 0 <= i < |holds| ==> Proper(holds[i]) && (On(holds[i], channel) ==> holds[i].ended)
    ensures Held(holds, Connection(channel)) == 0
  {
    if holds != [] {
      HeldOnPath(holds[0], Connection(channel));
      NoneHeld(holds[1..], channel);
    }
  }

  lemma {:induction false} QuietStays(s: Sys, steps: seq<Step>, channel: nat)
    requires Inv(s) && Quiet(s, channel) && forall i :: 0 <= i < |steps| ==> steps[i] != Open(channel)
    ensures Inv(Run(s, steps)) && Quiet(Run(s, steps), channel)
    ensures Silent(s, channel) ==> Silent(Run(s, steps), channel)
    decreases |steps|
  {
    if steps != [] {
      StepKeepsQuiet(s, steps[0], channel);
      StepKeepsInv(s, steps[0]);
      hide Quiet, Silent, Take, Inv;
      QuietStays(Take(s, steps[0]), steps[1..], channel);
    }
  }

  /**
   * Once a visitor's task has ended, after a reset or on its own, no data is ever held for its connection until it
   * opens again: a reservation the reader still waits with gives everything back when it ends or gets its share.
   */
  lemma VisitorsDataIsGone(machine: nat, earlier: seq<Step>, channel: nat, later: seq<Step>)
    requires forall i :: 0 <= i < |later| ==> later[i] != Open(channel)
    ensures var s := Run(Take(Run(Init(machine), earlier), VisitorEnds(channel)), later);
            && Inv(s) && Quiet(s, channel)
            && (Silent(s, channel) ==> Free(s, Connection(channel)) == CHANNEL_BUDGET)
  {
    var s0 := Init(machine);
    StartsConserved(machine);
    RunKeepsInv(s0, earlier);
    var r := Run(s0, earlier);
    StepKeepsInv(r, VisitorEnds(channel));
    VisitorEndsQuietly(r, channel);
    QuietStays(Take(r, VisitorEnds(channel)), later, channel);
    var t := Run(Take(r, VisitorEnds(channel)), later);
    hide *;
    if Silent(t, channel) { SilentIsFree(t, channel); }
  }

  lemma StartsConserved(machine: nat)
    ensures Inv(Init(machine))
  {
    forall l ensures Conserved(Init(machine), l) {}
  }

  lemma VisitorEndsQuietly(s: Sys, channel: nat)
    requires Inv(s)
    ensures Quiet(Take(s, VisitorEnds(channel)), channel)
  {
    hide HeldOf, DoRelease;
    DropQuiets(s.(channels := s.channels - {channel}, gone := s.gone + {channel}), channel, |s.holds|);
  }

  lemma SilentIsFree(s: Sys, channel: nat)
    requires Inv(s) && Silent(s, channel)
    ensures Free(s, Connection(channel)) == CHANNEL_BUDGET
  {
    NoneHeld(s.holds, channel);
    assert Conserved(s, Connection(channel));
  }

  /** And once nothing waits for it either, its whole budget is free, and stays so. */
  lemma SilentStaysFree(machine: nat, earlier: seq<Step>, channel: nat, later: seq<Step>)
    requires Silent(Run(Init(machine), earlier), channel) && forall i :: 0 <= i < |later| ==> later[i] != Open(channel)
    ensures Free(Run(Run(Init(machine), earlier), later), Connection(channel)) == 524_288
  {
    var s0 := Init(machine);
    forall l ensures Conserved(s0, l) {}
    RunKeepsInv(s0, earlier);
    var s := Run(s0, earlier);
    assert Quiet(s, channel) by { assert forall i :: 0 <= i < |s.holds| ==> Proper(s.holds[i]); }
    QuietStays(s, later, channel);
    var t := Run(s, later);
    hide Run;
    NoneHeld(t.holds, channel);
    assert Conserved(t, Connection(channel));
  }

  // --- One reservation alone -----------------------------------------------------------------------------------

  /** Its tries in a row, with nothing in between. */
  function Tried(s: Sys, path: seq<Level>, permits: nat): Sys
    requires MayBegin(s, path)
  {
    var i, t := |s.holds|, Take(s, Begin(path, permits));
    var u := Take(Take(t, Try(i)), Try(i));
    if |path| == 3 then Take(u, Try(i)) else u
  }

  /** The levels of a path are different ones. */
  lemma PathIsDistinct(path: seq<Level>)
    requires IsPath(path)
    ensures forall i, j :: 0 <= i < j < |path| ==> path[i] != path[j]
  {
  }

  predicate VisitorGone(s: Sys, h: Hold) { h.path != [] && h.path[0].Connection? && h.path[0].id in s.gone }

  /** A try takes the next level's permits and leaves every other level alone. */
  lemma TrySucceeds(s: Sys, i: nat, l: Level)
    requires Inv(s) && i < |s.holds| && !s.holds[i].ended && s.holds[i].part == 0
    requires s.holds[i].stage < |s.holds[i].path|
    requires Free(s, s.holds[i].path[s.holds[i].stage]) >= s.holds[i].permits && !VisitorGone(s, s.holds[i])
    ensures var h := s.holds[i]; var t := Take(s, Try(i));
            && t.holds == s.holds[i := h.(stage := h.stage + 1)] && t.channels == s.channels && t.gone == s.gone
            && t.machine == s.machine && Inv(t)
            && Free(t, l) == Free(s, l) - if l == h.path[h.stage] then h.permits else 0
  {
    TryKeepsInv(s, i);
    hide HeldOf, Held, Conserved;
  }

  /** A try that fails ends the reservation and gives back the levels it had. */
  lemma TryFails(s: Sys, i: nat, l: Level)
    requires Inv(s) && i < |s.holds| && !s.holds[i].ended && s.holds[i].part == 0
    requires s.holds[i].stage < |s.holds[i].path|
    requires Free(s, s.holds[i].path[s.holds[i].stage]) < s.holds[i].permits
    ensures var h := s.holds[i]; var t := Take(s, Try(i));
            && t.holds == s.holds[i := Over(h)] && t.channels == s.channels && t.gone == s.gone
            && t.machine == s.machine && Inv(t)
            && Free(t, l) == Free(s, l) + if exists k :: 0 <= k < h.stage && h.path[k] == l then h.permits else 0
  {
    TryKeepsInv(s, i);
    var h := s.holds[i];
    HeldOnPath(h, l);
    assert Conserved(s, l);
    HeldUpdates(s.holds, i, Over(h), l);
    PathIsDistinct(h.path);
    hide HeldOf, Held;
  }

  /** Nothing happens to a reservation that ended. */
  lemma TryAgain(s: Sys, i: nat)
    requires i < |s.holds| && s.holds[i].ended
    ensures Take(s, Try(i)) == s
  {
  }

  lemma BeginTakesNothing(s: Sys, path: seq<Level>, permits: nat, l: Level)
    requires Inv(s) && MayBegin(s, path)
    ensures var t := Take(s, Begin(path, permits));
            && Inv(t) && t.holds == s.holds + [Hold(path, permits, 0, 0, false)] && t.machine == s.machine
            && t.gone == s.gone && Free(t, l) == Free(s, l)
  {
    BeginKeepsInv(s, path, permits);
  }

  predicate Fits(s: Sys, path: seq<Level>, permits: nat) {
    forall k :: 0 <= k < |path| ==> Free(s, path[k]) >= permits
  }

  /** The levels from the second on. */
  lemma TriedFromSecond(s1: Sys, i: nat, path: seq<Level>, permits: nat, l: Level)
    requires Inv(s1) && IsPath(path) && |path| == 3 && i < |s1.holds|
    requires s1.holds[i] == Hold(path, permits, 1, 0, false) && !VisitorGone(s1, s1.holds[i])
    ensures var t := Take(Take(s1, Try(i)), Try(i));
            var fits := Free(s1, path[1]) >= permits && Free(s1, path[2]) >= permits;
            && t.machine == s1.machine && |t.holds| == |s1.holds|
            && t.holds[i] == (if fits then Hold(path, permits, 3, 0, false) else Hold(path, permits, 0, 0, true))
            && Free(t, l) == Free(s1, l) - (if fits && (l == path[1] || l == path[2]) then permits else 0)
                             + (if !fits && l == path[0] then permits else 0)
  {
    var s2 := Take(s1, Try(i));
    PathIsDistinct(path);
    hide Take, Inv, Free;
    if Free(s1, path[1]) < permits {
      TryFails(s1, i, l);
      TryAgain(s2, i);
    } else {
      TrySucceeds(s1, i, l);
      TrySucceeds(s1, i, path[2]);
      if Free(s1, path[2]) < permits { TryFails(s2, i, l); } else { TrySucceeds(s2, i, l); }
    }
  }

  /** Alone, three tries in a row take a share of all three levels if all have room, and otherwise of none. */
  lemma TriedIsAllOrNone(s: Sys, path: seq<Level>, permits: nat, l: Level)
    requires Inv(s) && MayBegin(s, path) && |path| == 3
    ensures var t := Tried(s, path, permits);
            && t.machine == s.machine && |t.holds| == |s.holds| + 1
            && t.holds[|s.holds|] ==
                 (if Fits(s, path, permits) then Hold(path, permits, 3, 0, false) else Hold(path, permits, 0, 0, true))
            && Free(t, l) == Free(s, l) - if Fits(s, path, permits) && l in path then permits else 0
  {
    var i := |s.holds|;
    var s0 := Take(s, Begin(path, permits));
    var s1 := Take(s0, Try(i));
    PathIsDistinct(path);
    BeginTakesNothing(s, path, permits, l);
    BeginTakesNothing(s, path, permits, path[0]);
    BeginTakesNothing(s, path, permits, path[1]);
    BeginTakesNothing(s, path, permits, path[2]);
    hide Take, Inv, Free, IsPath;
    assert l in path <==> l == path[0] || l == path[1] || l == path[2];
    assert Fits(s, path, permits)
           <==> Free(s, path[0]) >= permits && Free(s, path[1]) >= permits && Free(s, path[2]) >= permits;
    hide Fits;
    if Free(s, path[0]) < permits {
      TryFails(s0, i, l);
      TryAgain(s1, i);
    } else {
      TrySucceeds(s0, i, l);
      TrySucceeds(s0, i, path[1]);
      TrySucceeds(s0, i, path[2]);
      TriedFromSecond(s1, i, path, permits, l);
    }
  }

  /** Data for a connection may ask for a share from when it opens until it is reset or its visitor's task ends. */
  lemma OpenUntilClosed(s: Sys, channel: nat, path: seq<Level>)
    requires |path| == 3 && IsPath(path) && path[0] == Connection(channel)
    ensures MayBegin(Take(s, Open(channel)), path)
    ensures !MayBegin(Take(s, Reset(channel)), path) && !MayBegin(Take(s, VisitorEnds(channel)), path)
  {
    var t := s.(channels := s.channels - {channel}, gone := s.gone + {channel});
    DropKeepsGone(t, channel, |s.holds|);
  }

  lemma {:induction false} DropKeepsGone(s: Sys, channel: nat, n: nat)
    requires n <= |s.holds|
    ensures DoDrop(s, channel, n).gone == s.gone && DoDrop(s, channel, n).channels == s.channels
  {
    hide HeldOf;
    if n > 0 { DropKeepsGone(s, channel, n - 1); }
  }

  // --- Waiting ---------------------------------------------------------------------------------------------------

  /** A reservation that may still be assigned permits at its level, and for which as many are free. */
  predicate MayTake(s: Sys, i: nat, more: nat) {
    && i < |s.holds| && Proper(s.holds[i]) && !s.holds[i].ended && s.holds[i].stage < |s.holds[i].path|
    && s.holds[i].part + more <= s.holds[i].permits && Free(s, s.holds[i].path[s.holds[i].stage]) >= more
  }

  lemma AssignedInPortions(s: Sys, i: nat, a: nat, b: nat)
    requires MayTake(s, i, a + b) && s.holds[i].part + a < s.holds[i].permits
    ensures var t := DoAssign(s, i, a);
            && MayTake(t, i, b) && !Complete(t.holds[i]) && DoAssign(t, i, b) == DoAssign(s, i, a + b)
  {
    var h := s.holds[i];
    var l := h.path[h.stage];
    var t := DoAssign(s, i, a);
    assert t.holds[i] == h.(part := h.part + a) && t.used == Charge(s, l, a);
    assert Charge(t, l, b) == Charge(s, l, a + b);
  }

  /** Permits that come in two portions are permits that come at once. */
  lemma PortionsAddUp(s: Sys, i: nat, a: nat, b: nat)
    requires MayTake(s, i, a + b) && s.holds[i].part + a < s.holds[i].permits
    ensures MayTake(Take(s, Assign(i, a)), i, b)
    ensures Take(Take(s, Assign(i, a)), Assign(i, b)) == Take(s, Assign(i, a + b))
  {
    AssignedInPortions(s, i, a, b);
    hide DoAssign, DoRelease, DoTry, DoDrop, Free;
  }

  /** All it needs of a level, given while it waits, is what a try takes. */
  lemma WaitedIsTried(s: Sys, i: nat)
    requires i < |s.holds| && s.holds[i].part == 0 && MayTake(s, i, s.holds[i].permits)
    ensures Take(s, Assign(i, s.holds[i].permits)) == Take(s, Try(i))
    ensures Take(s, Try(i)) != s
  {
    hide HeldOf;
    var t := DoTry(s, i);
    assert t.holds[i] != s.holds[i];
  }
}

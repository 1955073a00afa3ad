/**
 * A tunnel's record in the shared database and its cached copies on any number of machines (service.rs, store.rs).
 * Each machine writes a record only over the revision it read; a write that timed out may still apply later; imports
 * replace the record underneath.
 */
module Records {
  import opened Common

  type Machine = string

  /** A record as it is stored, as text. */
  type Record = string

  /** What an operation does to a record, by name; the theorems hold whatever the changes do. */
  type Change = string
  type Changes = (Change, Option<Record>) -> Record

  /** What put a record into the row: a machine's write with the change it made, or an import. */
  datatype Op = Update(write: nat, change: Change) | Import(record: Record, forced: bool)

  /** A machine's copy: the record (none if there was no row) and the revision it was read or written at. */
  datatype Copy = Copy(record: Option<Record>, revision: nat)

  datatype Cache = Cache(loaded: bool, copy: Copy)

  datatype Outcome = InFlight | Won | Conflict

  /** A write under way: the change, the copy it was made on, and what became of it. */
  datatype Write = Write(machine: Machine, change: Change, base: Copy, outcome: Outcome, answered: bool)

  /**
   * The row's records by revision (the first has revision 1) with what put each there, whether it was written here
   * since its last import, and the machines' copies, reads and writes.
   */
  datatype Sys = Sys(history: seq<Record>, ops: seq<Op>, local: bool, caches: map<Machine, Cache>,
                         selects: map<nat, (Machine, Copy)>, writes: map<nat, Write>)

  datatype Step =
    | Select(read: nat, machine: Machine)
    | Load(read: nat)
    | Prepare(write: nat, machine: Machine, change: Change)
    | Execute(write: nat)
    | Answer(write: nat)
    | ImportRow(record: Record, force: bool)
    | Invalidate(machine: Machine)

  function Init(): Sys { Sys([], [], false, map[], map[], map[]) }

  function CacheOf(s: Sys, m: Machine): Cache {
    if m in s.caches then s.caches[m] else Cache(false, Copy(None, 0))
  }

  /** The record at a revision: none at revision 0. */
  function At(history: seq<Record>, revision: nat): Option<Record>
    requires revision <= |history|
  {
    if revision == 0 then None else Some(history[revision - 1])
  }

  // --- Steps -------------------------------------------------------------------------------------------------

  /** The row as the database has it now, on its way to a machine. */
  function DoSelect(s: Sys, read: nat, m: Machine): Sys {
    if read in s.selects then s
    else s.(selects := s.selects[read := (m, Copy(At(s.history, |s.history|), |s.history|))])
  }

  /** A row that was read replaces the copy, however late it comes. */
  function DoLoad(s: Sys, read: nat): Sys {
    if read !in s.selects then s
    else s.(caches := s.caches[s.selects[read].0 := Cache(true, s.selects[read].1)])
  }

  /** A machine changes the record it has and sends the write. */
  function DoPrepare(s: Sys, write: nat, m: Machine, change: Change): Sys {
    if write in s.writes || !CacheOf(s, m).loaded then s
    else s.(writes := s.writes[write := Write(m, change, CacheOf(s, m).copy, InFlight, false)])
  }

  /** The database runs the write: an insert that fails when there is a row, or an update where the revision matches. */
  function DoExecute(s: Sys, write: nat, ap: Changes): Sys {
    if write !in s.writes || s.writes[write].outcome != InFlight then s
    else
      var w := s.writes[write];
      if w.base.revision == |s.history| then
        s.(history := s.history + [ap(w.change, w.base.record)], ops := s.ops + [Update(write, w.change)],
           local := true,
           writes := s.writes[write := w.(outcome := Won)])
      else s.(writes := s.writes[write := w.(outcome := Conflict)])
  }

  /** The machine hears what became of its write, unless it gave up waiting. */
  function DoAnswer(s: Sys, write: nat, ap: Changes): Sys {
    if write !in s.writes || s.writes[write].outcome == InFlight || s.writes[write].answered then s
    else
      var w := s.writes[write];
      var cache := if w.outcome == Won then Cache(true, Copy(Some(ap(w.change, w.base.record)), w.base.revision + 1))
                   else Cache(false, Copy(None, 0));
      s.(caches := s.caches[w.machine := cache], writes := s.writes[write := w.(answered := true)])
  }

  /** An import keeps a row written here since the last one unless forced, and an equal one. */
  function DoImport(s: Sys, record: Record, force: bool): Sys {
    if s.history != [] && ((s.local && !force) || s.history[|s.history| - 1] == record) then s
    else s.(history := s.history + [record], ops := s.ops + [Import(record, force)], local := false)
  }

  function DoInvalidate(s: Sys, m: Machine): Sys {
    s.(caches := s.caches[m := Cache(false, Copy(None, 0))])
  }

  function Take(s: Sys, step: Step, ap: Changes): Sys {
    match step
    case Select(read, m) => DoSelect(s, read, m)
    case Load(read) => DoLoad(s, read)
    case Prepare(write, m, change) => DoPrepare(s, write, m, change)
    case Execute(write) => DoExecute(s, write, ap)
    case Answer(write) => DoAnswer(s, write, ap)
    case ImportRow(record, force) => DoImport(s, record, force)
    case Invalidate(m) => DoInvalidate(s, m)
  }

  function Run(s: Sys, steps: seq<Step>, ap: Changes): Sys
    decreases |steps|
  {
    if steps == [] then s else Run(Take(s, steps[0], ap), steps[1..], ap)
  }

  // --- Invariants --------------------------------------------------------------------------------------------

  /** A copy is what was stored at its revision. */
  ghost predicate True(c: Copy, history: seq<Record>) {
    c.revision <= |history| && c.record == At(history, c.revision)
  }

  ghost predicate CachesTrue(caches: map<Machine, Cache>, history: seq<Record>) {
    forall m :: m in caches ==> True(caches[m].copy, history)
  }

  ghost predicate ReadsTrue(selects: map<nat, (Machine, Copy)>, history: seq<Record>) {
    forall r :: r in selects ==> True(selects[r].1, history)
  }

  ghost predicate WritesTrue(writes: map<nat, Write>, history: seq<Record>) {
    forall w :: w in writes ==> True(writes[w].base, history)
  }

  /** This write put this record there. */
  ghost predicate PutBy(ops: seq<Op>, revision: nat, write: nat, change: Change) {
    revision < |ops| && ops[revision] == Update(write, change)
  }

  /** A write that won is what put its record there. */
  ghost predicate WinsRecorded(writes: map<nat, Write>, ops: seq<Op>) {
    forall w :: w in writes && writes[w].outcome == Won ==> PutBy(ops, writes[w].base.revision, w, writes[w].change)
  }

  ghost predicate WonOn(writes: map<nat, Write>, write: nat, revision: nat) {
    write in writes && writes[write].outcome == Won && writes[write].base.revision == revision
  }

  /** An update in the row's history is a write that won on the revision before. */
  ghost predicate UpdatesWon(ops: seq<Op>, writes: map<nat, Write>) {
    forall i :: 0 <= i < |ops| && ops[i].Update? ==> WonOn(writes, ops[i].write, i)
  }

  function Result(op: Op, before: Option<Record>, ap: Changes): Record {
    match op
    case Update(_, change) => ap(change, before)
    case Import(record, _) => record
  }

  /** Each record is the change its writer made, on the record right before it, or what was imported. */
  ghost predicate Chained(history: seq<Record>, ops: seq<Op>, ap: Changes) {
    && |ops| == |history|
    && forall i :: 0 <= i < |ops| ==> ChainedAt(history, ops, i, ap)
  }

  ghost predicate ChainedAt(history: seq<Record>, ops: seq<Op>, i: nat, ap: Changes) {
    i < |ops| == |history| && history[i] == Result(ops[i], At(history, i), ap)
  }

  /** The row counts as local iff a write put its record there, and only a forced import replaced a local one. */
  ghost predicate LocalKept(local: bool, ops: seq<Op>) {
    && (local <==> ops != [] && ops[|ops| - 1].Update?)
    && forall i :: 0 <= i < |ops| ==> LocalKeptAt(ops, i)
  }

  ghost predicate LocalKeptAt(ops: seq<Op>, i: nat) {
    0 < i < |ops| && ops[i].Import? && !ops[i].forced ==> ops[i - 1].Import?
  }

  lemma AppendKeepsLocal(local: bool, ops: seq<Op>, op: Op)
    requires LocalKept(local, ops) && (op.Import? && local ==> op.forced)
    ensures LocalKept(op.Update?, ops + [op])
  {
    forall i | 0 <= i < |ops + [op]| ensures LocalKeptAt(ops + [op], i) {
      if i < |ops| { assert LocalKeptAt(ops, i); }
    }
  }

  ghost predicate Inv(s: Sys, ap: Changes) {
    && CachesTrue(s.caches, s.history) && ReadsTrue(s.selects, s.history) && WritesTrue(s.writes, s.history)
    && WinsRecorded(s.writes, s.ops) && UpdatesWon(s.ops, s.writes)
    && Chained(s.history, s.ops, ap) && LocalKept(s.local, s.ops)
  }

  lemma CurrentIsTrue(history: seq<Record>)
    ensures True(Copy(At(history, |history|), |history|), history)
  {
  }

  lemma CacheKeepsTrue(caches: map<Machine, Cache>, history: seq<Record>, m: Machine, cache: Cache)
    requires CachesTrue(caches, history) && True(cache.copy, history)
    ensures CachesTrue(caches[m := cache], history)
  {
    hide True;
  }

  /** A write is added, answered, or told of a conflict: the row does not change. */
  lemma WriteKeepsLedger(writes: map<nat, Write>, ops: seq<Op>, history: seq<Record>, id: nat, w: Write)
    requires WritesTrue(writes, history) && WinsRecorded(writes, ops) && UpdatesWon(ops, writes)
    requires True(w.base, history)
    requires if id in writes
             then w.base == writes[id].base && w.change == writes[id].change
                  && (w.outcome == Won <==> writes[id].outcome == Won)
             else w.outcome == InFlight
    ensures WritesTrue(writes[id := w], history) && WinsRecorded(writes[id := w], ops)
    ensures UpdatesWon(ops, writes[id := w])
  {
    hide True, PutBy;
    var writes' := writes[id := w];
    forall i | 0 <= i < |ops| && ops[i].Update? ensures WonOn(writes', ops[i].write, i) {
      assert WonOn(writes, ops[i].write, i);
    }
  }

  lemma ReadingKeepsInv(s: Sys, step: Step, ap: Changes)
    requires Inv(s, ap) && (step.Select? || step.Load? || step.Invalidate?)
    ensures Inv(Take(s, step, ap), ap)
  {
    CurrentIsTrue(s.history);
    assert True(Copy(None, 0), s.history);
    if step.Load? && step.read in s.selects {
      CacheKeepsTrue(s.caches, s.history, s.selects[step.read].0, Cache(true, s.selects[step.read].1));
    }
    if step.Invalidate? { CacheKeepsTrue(s.caches, s.history, step.machine, Cache(false, Copy(None, 0))); }
    hide True, WritesTrue, WinsRecorded, UpdatesWon, Chained, LocalKept, CachesTrue;
  }

  lemma PrepareKeepsInv(s: Sys, write: nat, m: Machine, change: Change, ap: Changes)
    requires Inv(s, ap)
    ensures Inv(DoPrepare(s, write, m, change), ap)
  {
    if write !in s.writes && CacheOf(s, m).loaded {
      WriteKeepsLedger(s.writes, s.ops, s.history, write, Write(m, change, CacheOf(s, m).copy, InFlight, false));
    }
    hide CachesTrue, ReadsTrue, WritesTrue, WinsRecorded, UpdatesWon, Chained, LocalKept;
  }

  /** What a machine hears of a write that won is what is stored. */
  lemma WonCopyIsTrue(s: Sys, write: nat, ap: Changes)
    requires Inv(s, ap) && write in s.writes && s.writes[write].outcome == Won
    ensures var w := s.writes[write]; True(Copy(Some(ap(w.change, w.base.record)), w.base.revision + 1), s.history)
  {
    var w := s.writes[write];
    assert PutBy(s.ops, w.base.revision, write, w.change);
    assert ChainedAt(s.history, s.ops, w.base.revision, ap);
    assert True(w.base, s.history);
  }

  lemma AnswerKeepsInv(s: Sys, write: nat, ap: Changes)
    requires Inv(s, ap)
    ensures Inv(DoAnswer(s, write, ap), ap)
  {
    if write in s.writes && s.writes[write].outcome != InFlight && !s.writes[write].answered {
      var w := s.writes[write];
      assert True(w.base, s.history);
      var cache := Cache(false, Copy(None, 0));
      if w.outcome == Won {
        WonCopyIsTrue(s, write, ap);
        cache := Cache(true, Copy(Some(ap(w.change, w.base.record)), w.base.revision + 1));
      }
      CacheKeepsTrue(s.caches, s.history, w.machine, cache);
      WriteKeepsLedger(s.writes, s.ops, s.history, write, w.(answered := true));
      hide CachesTrue, ReadsTrue, WritesTrue, WinsRecorded, UpdatesWon, Chained, LocalKept;
    }
  }

  // --- One more record ---------------------------------------------------------------------------------------

  /** The history only grows, so a true copy stays true. */
  lemma TrueStays(c: Copy, history: seq<Record>, more: Record)
    requires True(c, history)
    ensures True(c, history + [more])
  {
  }

  lemma AppendKeepsCopies(s: Sys, record: Record)
    requires CachesTrue(s.caches, s.history) && ReadsTrue(s.selects, s.history) && WritesTrue(s.writes, s.history)
    ensures CachesTrue(s.caches, s.history + [record]) && ReadsTrue(s.selects, s.history + [record])
            && WritesTrue(s.writes, s.history + [record])
  {
    hide True;
    forall m | m in s.caches ensures True(s.caches[m].copy, s.history + [record]) {
      TrueStays(s.caches[m].copy, s.history, record);
    }
    forall r | r in s.selects ensures True(s.selects[r].1, s.history + [record]) {
      TrueStays(s.selects[r].1, s.history, record);
    }
    forall w | w in s.writes ensures True(s.writes[w].base, s.history + [record]) {
      TrueStays(s.writes[w].base, s.history, record);
    }
  }

  lemma AppendKeepsChain(history: seq<Record>, ops: seq<Op>, record: Record, op: Op, ap: Changes)
    requires Chained(history, ops, ap) && record == Result(op, At(history, |history|), ap)
    ensures Chained(history + [record], ops + [op], ap)
  {
    var history', ops' := history + [record], ops + [op];
    forall i | 0 <= i < |ops'| ensures ChainedAt(history', ops', i, ap) {
      if i < |ops| { assert ChainedAt(history, ops, i, ap); }
    }
  }

  lemma WinKeepsLedger(writes: map<nat, Write>, ops: seq<Op>, history: seq<Record>, id: nat)
    requires WritesTrue(writes, history) && WinsRecorded(writes, ops) && UpdatesWon(ops, writes)
    requires id in writes && writes[id].outcome == InFlight && writes[id].base.revision == |ops|
    ensures var w := writes[id]; var writes', ops' := writes[id := w.(outcome := Won)], ops + [Update(id, w.change)];
            WritesTrue(writes', history) && WinsRecorded(writes', ops') && UpdatesWon(ops', writes')
  {
    hide True;
    var w := writes[id];
    var writes', ops' := writes[id := w.(outcome := Won)], ops + [Update(id, w.change)];
    forall k | k in writes' && writes'[k].outcome == Won
      ensures PutBy(ops', writes'[k].base.revision, k, writes'[k].change) {
      if k != id { assert PutBy(ops, writes[k].base.revision, k, writes[k].change); }
    }
    forall i | 0 <= i < |ops'| && ops'[i].Update? ensures WonOn(writes', ops'[i].write, i) {
      if i < |ops| { assert ops'[i] == ops[i] && WonOn(writes, ops[i].write, i); }
    }
  }

  lemma ImportKeepsLedger(writes: map<nat, Write>, ops: seq<Op>, op: Op)
    requires WinsRecorded(writes, ops) && UpdatesWon(ops, writes) && op.Import?
    ensures WinsRecorded(writes, ops + [op]) && UpdatesWon(ops + [op], writes)
  {
    forall k | k in writes && writes[k].outcome == Won
      ensures PutBy(ops + [op], writes[k].base.revision, k, writes[k].change) {
      assert PutBy(ops, writes[k].base.revision, k, writes[k].change);
    }
    forall i | 0 <= i < |ops + [op]| && (ops + [op])[i].Update? ensures WonOn(writes, (ops + [op])[i].write, i) {
      assert (ops + [op])[i] == ops[i] && WonOn(writes, ops[i].write, i);
    }
  }

  lemma ExecuteKeepsInv(s: Sys, write: nat, ap: Changes)
    requires Inv(s, ap)
    ensures Inv(DoExecute(s, write, ap), ap)
  {
    if write in s.writes && s.writes[write].outcome == InFlight {
      var w := s.writes[write];
      assert True(w.base, s.history);
      if w.base.revision == |s.history| {
        var record, op := ap(w.change, w.base.record), Update(write, w.change);
        AppendKeepsCopies(s, record);
        AppendKeepsChain(s.history, s.ops, record, op, ap);
        WinKeepsLedger(s.writes, s.ops, s.history + [record], write);
        AppendKeepsLocal(s.local, s.ops, op);
      } else {
        WriteKeepsLedger(s.writes, s.ops, s.history, write, w.(outcome := Conflict));
      }
      hide CachesTrue, ReadsTrue, WritesTrue, WinsRecorded, UpdatesWon, Chained, LocalKept;
    }
  }

  lemma ImportKeepsInv(s: Sys, record: Record, force: bool, ap: Changes)
    requires Inv(s, ap)
    ensures Inv(DoImport(s, record, force), ap)
  {
    if DoImport(s, record, force) != s {
      var op := Import(record, force);
      AppendKeepsCopies(s, record);
      AppendKeepsChain(s.history, s.ops, record, op, ap);
      ImportKeepsLedger(s.writes, s.ops, op);
      AppendKeepsLocal(s.local, s.ops, op);
      hide CachesTrue, ReadsTrue, WritesTrue, WinsRecorded, UpdatesWon, Chained, LocalKept;
    }
  }

  lemma StepKeepsInv(s: Sys, step: Step, ap: Changes)
    requires Inv(s, ap)
    ensures Inv(Take(s, step, ap), ap)
  {
    hide Inv;
    match step
    case Prepare(write, m, change) => PrepareKeepsInv(s, write, m, change, ap);
    case Execute(write) => ExecuteKeepsInv(s, write, ap);
    case Answer(write) => AnswerKeepsInv(s, write, ap);
    case ImportRow(record, force) => ImportKeepsInv(s, record, force, ap);
    case _ => ReadingKeepsInv(s, step, ap);
  }

  lemma {:induction false} RunKeepsInv(s: Sys, steps: seq<Step>, ap: Changes)
    requires Inv(s, ap)
    ensures Inv(Run(s, steps, ap), ap)
    decreases |steps|
  {
    if steps != [] {
      StepKeepsInv(s, steps[0], ap);
      RunKeepsInv(Take(s, steps[0], ap), steps[1..], ap);
    }
  }

  // --- What follows for every run ----------------------------------------------------------------------------

  /** The record a list of operations makes, each on the one before it. */
  function Replay(ops: seq<Op>, ap: Changes): Option<Record> {
    if ops == [] then None else Some(Result(ops[|ops| - 1], Replay(ops[..|ops| - 1], ap), ap))
  }

  lemma {:induction false} ChainIsReplay(s: Sys, n: nat, ap: Changes)
    requires Chained(s.history, s.ops, ap) && n <= |s.ops|
    ensures At(s.history, n) == Replay(s.ops[..n], ap)
  {
    if n > 0 {
      ChainIsReplay(s, n - 1, ap);
      assert ChainedAt(s.history, s.ops, n - 1, ap);
      assert s.ops[..n][..n - 1] == s.ops[..n - 1];
    }
  }

  /**
   * Whatever machines cached, however late reads and writes
   * arrive, no update is lost: the record is all of them in turn.
   */
  lemma NoLostUpdate(steps: seq<Step>, ap: Changes)
    ensures var s := Run(Init(), steps, ap); At(s.history, |s.history|) == Replay(s.ops, ap)
  {
    RunKeepsInv(Init(), steps, ap);
    var s := Run(Init(), steps, ap);
    ChainIsReplay(s, |s.ops|, ap);
    assert s.ops[..|s.ops|] == s.ops;
  }

  /** A cached record and revision are always what was stored at that revision. */
  lemma CachedCopiesAreTrue(steps: seq<Step>, ap: Changes, m: Machine)
    ensures var s := Run(Init(), steps, ap); True(CacheOf(s, m).copy, s.history)
  {
    RunKeepsInv(Init(), steps, ap);
  }

  /** A save that succeeded, answered or not, replaced exactly the record its writer had read with its change of it. */
  lemma SavesReplaceWhatWasRead(steps: seq<Step>, ap: Changes, write: nat)
    ensures var s := Run(Init(), steps, ap);
            write in s.writes && s.writes[write].outcome == Won ==>
              var w := s.writes[write];
              && w.base.revision < |s.history| && At(s.history, w.base.revision) == w.base.record
              && s.history[w.base.revision] == ap(w.change, w.base.record)
  {
    RunKeepsInv(Init(), steps, ap);
    var s := Run(Init(), steps, ap);
    if write in s.writes && s.writes[write].outcome == Won { WonCopyIsTrue(s, write, ap); }
  }

  /** No two saves succeed on one revision, and none applies twice. */
  lemma SavesAreExclusive(steps: seq<Step>, ap: Changes, a: nat, b: nat, i: nat, j: nat)
    requires var s := Run(Init(), steps, ap);
             && a in s.writes && b in s.writes && s.writes[a].outcome == Won && s.writes[b].outcome == Won
             && i < |s.ops| && j < |s.ops| && s.ops[i].Update? && s.ops[j].Update?
    ensures var s := Run(Init(), steps, ap);
            && (s.writes[a].base.revision == s.writes[b].base.revision ==> a == b)
            && (s.ops[i].write == s.ops[j].write ==> i == j)
  {
    RunKeepsInv(Init(), steps, ap);
  }

  /** An import that was not forced never replaced a record written here. */
  lemma ImportsKeepLocalRecords(steps: seq<Step>, ap: Changes, i: nat)
    ensures var s := Run(Init(), steps, ap);
            0 < i < |s.ops| && s.ops[i].Import? && !s.ops[i].forced ==> s.ops[i - 1].Import?
  {
    RunKeepsInv(Init(), steps, ap);
    var s := Run(Init(), steps, ap);
    if 0 < i < |s.ops| { assert LocalKeptAt(s.ops, i); }
  }

  // --- Updates take effect -------------------------------------------------------------------------------------

  /** Steps of other tasks that put nothing into the row. */
  predicate PutsNothing(step: Step) { !step.Execute? && !step.ImportRow? }

  lemma {:induction false} RowStays(s: Sys, steps: seq<Step>, ap: Changes, write: nat)
    requires write in s.writes && s.writes[write].outcome == InFlight
    requires forall i :: 0 <= i < |steps| ==> PutsNothing(steps[i])
    ensures var t := Run(s, steps, ap);
            t.history == s.history && t.ops == s.ops && write in t.writes && t.writes[write] == s.writes[write]
    decreases |steps|
  {
    if steps != [] {
      assert PutsNothing(steps[0]);
      RowStays(Take(s, steps[0], ap), steps[1..], ap, write);
    }
  }

  lemma {:induction false} RunsInTurn(s: Sys, a: seq<Step>, b: seq<Step>, ap: Changes)
    ensures Run(s, a + b, ap) == Run(Run(s, a, ap), b, ap)
    decreases |a|
  {
    if a == [] {
      assert a + b == b;
    } else {
      assert (a + b)[1..] == a[1..] + b;
      RunsInTurn(Take(s, a[0], ap), a[1..], b, ap);
    }
  }

  lemma OneStep(s: Sys, step: Step, ap: Changes)
    ensures Run(s, [step], ap) == Take(s, step, ap)
  {
    assert [step][1..] == [] && Run(Take(s, step, ap), [], ap) == Take(s, step, ap);
  }

  /** A machine reads the row and changes it, others do what puts nothing into it, and the write gets there. */
  function ReadAndWrite(m: Machine, read: nat, write: nat, change: Change, others: seq<Step>): seq<Step> {
    [Select(read, m)] + ([Load(read)] + ([Prepare(write, m, change)] + (others + ([Execute(write)] + [Answer(write)]))))
  }

  lemma ReadAndWriteRuns(s: Sys, m: Machine, read: nat, write: nat, change: Change, others: seq<Step>, ap: Changes)
    ensures Run(s, ReadAndWrite(m, read, write, change, others), ap)
         == var sent := Take(Take(Take(s, Select(read, m), ap), Load(read), ap), Prepare(write, m, change), ap);
            Take(Take(Run(sent, others, ap), Execute(write), ap), Answer(write), ap)
  {
    hide Take, Run;
    var last := [Execute(write)] + [Answer(write)];
    var a := Take(s, Select(read, m), ap);
    var b := Take(a, Load(read), ap);
    var sent := Take(b, Prepare(write, m, change), ap);
    var done := Run(sent, others, ap);
    OneStep(s, Select(read, m), ap);
    RunsInTurn(s, [Select(read, m)], [Load(read)] + ([Prepare(write, m, change)] + (others + last)), ap);
    OneStep(a, Load(read), ap);
    RunsInTurn(a, [Load(read)], [Prepare(write, m, change)] + (others + last), ap);
    OneStep(b, Prepare(write, m, change), ap);
    RunsInTurn(b, [Prepare(write, m, change)], others + last, ap);
    RunsInTurn(sent, others, last, ap);
    RunsInTurn(done, [Execute(write)], [Answer(write)], ap);
    OneStep(done, Execute(write), ap);
    OneStep(Take(done, Execute(write), ap), Answer(write), ap);
  }

  /**
   * A change made on the latest record, with nothing put into the row until the write gets there, takes effect, and the
   * machine that made it has it, however many others read, write and forget meanwhile.
   */
  lemma UpdateTakesEffect(s: Sys, m: Machine, read: nat, write: nat, change: Change, others: seq<Step>, ap: Changes)
    requires read !in s.selects && write !in s.writes
    requires forall i :: 0 <= i < |others| ==> PutsNothing(others[i])
    ensures var t := Run(s, ReadAndWrite(m, read, write, change, others), ap);
            var record := ap(change, At(s.history, |s.history|));
            && t.history == s.history + [record] && t.ops == s.ops + [Update(write, change)] && t.local
            && CacheOf(t, m) == Cache(true, Copy(Some(record), |t.history|))
  {
    ReadAndWriteRuns(s, m, read, write, change, others, ap);
    var sent := Take(Take(Take(s, Select(read, m), ap), Load(read), ap), Prepare(write, m, change), ap);
    RowStays(sent, others, ap, write);
  }

  /** After a conflict the machine has to read the row again before it can write. */
  lemma ConflictReadsAgain(s: Sys, write: nat, next: nat, change: Change, ap: Changes)
    requires write in s.writes && s.writes[write].outcome == InFlight && !s.writes[write].answered
    requires s.writes[write].base.revision != |s.history|
    ensures var t := Take(Take(s, Execute(write), ap), Answer(write), ap); var m := s.writes[write].machine;
            && t.history == s.history && !CacheOf(t, m).loaded && Take(t, Prepare(next, m, change), ap) == t
  {
  }

  /** A machine that has not read the row, or was told to forget it, writes nothing. */
  lemma UnreadWritesNothing(s: Sys, m: Machine, write: nat, change: Change, ap: Changes)
    ensures m !in s.caches ==> Take(s, Prepare(write, m, change), ap) == s
    ensures var t := Take(s, Invalidate(m), ap); Take(t, Prepare(write, m, change), ap) == t
  {
  }

  /** An import puts its record there unless a record written here is kept from it. */
  lemma ImportTakesEffectIff(s: Sys, record: Record, force: bool, ap: Changes)
    ensures var t := Take(s, ImportRow(record, force), ap);
            At(t.history, |t.history|) == Some(record)
            <==> s.history == [] || !s.local || force || s.history[|s.history| - 1] == record
  {
  }
}

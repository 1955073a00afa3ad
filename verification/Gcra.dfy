/**
 * The shared rate limits (store.rs, limits.rs): one row per key holds the theoretical arrival time, and each request
 * is a conditional update of it or an insert. The statements of many requests interleave, and rows whose time has
 * passed are deleted in between.
 */
module Gcra {
  import opened Common

  /** `interval` milliseconds per request on average, `tolerance` for those at once. */
  datatype Rate = Rate(interval: nat, tolerance: nat)

  function Max(a: int, b: int): int { if a < b then b else a }

  /** `count` per `period`, `burst` at once: no limit for a count of 0. */
  function NewRate(count: nat, period: nat, burst: nat): Option<Rate> {
    if count == 0 then None
    else
      var interval := Max(period / count, 1);
      assert 0 <= interval * (Max(burst, 1) - 1);
      Some(Rate(interval, interval * (Max(burst, 1) - 1)))
  }

  datatype Verdict = Allowed | Limited(retryAfter: int)

  type Key = string

  type Rows = map<Key, int>

  // --- Statements --------------------------------------------------------------------------------------------

  /** The update of a key's row, which happens only within the budget. */
  predicate Updates(rows: Rows, name: Key, now: int, rate: Rate) {
    name in rows && Max(rows[name], now) <= now + rate.tolerance
  }

  function Updated(rows: Rows, name: Key, now: int, rate: Rate): Rows
    requires Updates(rows, name, now, rate)
  {
    rows[name := Max(rows[name], now) + rate.interval]
  }

  /** The insert of a key's first row. */
  function Inserted(rows: Rows, name: Key, now: int, rate: Rate): Rows
    requires name !in rows
  {
    rows[name := now + rate.interval]
  }

  /** The last read of the row: how long until the request would be within the budget. */
  function RetryAfter(rows: Rows, name: Key, now: int, rate: Rate): int {
    Max(if name in rows then rows[name] - rate.tolerance - now else 0, 1)
  }

  /** The prune, of some of the rows whose time has passed: one statement deletes at most ten thousand. */
  function Pruned(rows: Rows, names: set<Key>, now: int): Rows {
    map name | name in rows && !(name in names && rows[name] < now) :: rows[name]
  }

  // --- One request alone -------------------------------------------------------------------------------------

  /** Whether a request at `now` is within the budget: what GCRA asks of a row. */
  predicate Conforms(row: Option<int>, now: int, rate: Rate) {
    row.Some? ==> row.value <= now + rate.tolerance
  }

  function RowOf(rows: Rows, name: Key): Option<int> { if name in rows then Some(rows[name]) else None }

  /** The row after a request that conforms. */
  function Arrived(row: Option<int>, now: int, rate: Rate): int {
    (if row.Some? then Max(row.value, now) else now) + rate.interval
  }

  class RateLimits {
    var rows: Rows

    constructor ()
      ensures rows == map[]
    {
      rows := map[];
    }

    method Update(name: Key, now: int, rate: Rate) returns (affected: bool)
      modifies this
      ensures affected == Updates(old(rows), name, now, rate)
      ensures rows == if affected then Updated(old(rows), name, now, rate) else old(rows)
    {
      affected := name in rows && Max(rows[name], now) <= now + rate.tolerance;
      if affected {
        rows := rows[name := Max(rows[name], now) + rate.interval];
      }
    }

    method Insert(name: Key, now: int, rate: Rate) returns (inserted: bool)
      modifies this
      ensures inserted == (name !in old(rows))
      ensures rows == if inserted then Inserted(old(rows), name, now, rate) else old(rows)
    {
      inserted := name !in rows;
      if inserted {
        rows := rows[name := now + rate.interval];
      }
    }

    /**
     * Takes one request, alone: it is allowed iff it conforms, and otherwise changes nothing and says exactly when
     * it would be.
     */
    method TakeRate(name: Key, now: int, rate: Rate) returns (v: Verdict)
      modifies this
      ensures v.Allowed? <==> Conforms(RowOf(old(rows), name), now, rate)
      ensures v.Allowed? ==> rows == old(rows)[name := Arrived(RowOf(old(rows), name), now, rate)]
      ensures v.Limited? ==> rows == old(rows) && v.retryAfter >= 1
      ensures v.Limited? ==> forall at: int :: Conforms(RowOf(rows, name), at, rate) <==> at >= now + v.retryAfter
    {
      for i := 0 to 2
        invariant rows == old(rows)
        invariant i > 0 ==> name in rows && !Updates(rows, name, now, rate)
      {
        var affected := Update(name, now, rate);
        if affected {
          return Allowed;
        }
        var inserted := Insert(name, now, rate);
        if inserted {
          return Allowed;
        }
      }
      v := Limited(RetryAfter(rows, name, now, rate));
    }

    method PruneRateLimits(now: int, names: set<Key>) returns (pruned: nat)
      modifies this
      ensures rows == Pruned(old(rows), names, now)
      ensures pruned == |old(rows).Keys| - |rows.Keys|
    {
      var kept := Pruned(rows, names, now);
      SubsetIsSmaller(kept.Keys, rows.Keys);
      pruned := |rows.Keys| - |kept.Keys|;
      rows := kept;
    }
  }

  // --- Pruning is invisible ----------------------------------------------------------------------------------

  /** Requests to one key and prunes that reach its row, each with the clock it read. */
  datatype Event = Request(now: int) | Prune(now: int)

  function After(row: Option<int>, e: Event, rate: Rate): Option<int> {
    match e
    case Request(now) => if Conforms(row, now, rate) then Some(Arrived(row, now, rate)) else row
    case Prune(now) => if row.Some? && row.value < now then None else row
  }

  /** That is what the statements do to the row: of a request alone, and of a prune that reaches it. */
  lemma StatementsDoSo(rows: Rows, name: Key, now: int, rate: Rate)
    ensures Updates(rows, name, now, rate) ==>
              RowOf(Updated(rows, name, now, rate), name) == After(RowOf(rows, name), Request(now), rate)
    ensures name !in rows ==>
              RowOf(Inserted(rows, name, now, rate), name) == After(RowOf(rows, name), Request(now), rate)
    ensures name in rows && !Updates(rows, name, now, rate) ==>
              After(RowOf(rows, name), Request(now), rate) == RowOf(rows, name)
    ensures RowOf(Pruned(rows, {name}, now), name) == After(RowOf(rows, name), Prune(now), rate)
  {
  }

  /** The verdicts of a run of requests, with the prunes or as if there were none. */
  function Verdicts(row: Option<int>, es: seq<Event>, rate: Rate, pruning: bool): seq<bool>
    decreases |es|
  {
    if es == [] then []
    else if es[0].Request? then
      [Conforms(row, es[0].now, rate)] + Verdicts(After(row, es[0], rate), es[1..], rate, pruning)
    else Verdicts(if pruning then After(row, es[0], rate) else row, es[1..], rate, pruning)
  }

  /** No request is made with a clock more than a millisecond behind a prune before it. */
  predicate Timely(es: seq<Event>, floor: int) {
    if es == [] then true
    else if es[0].Request? then es[0].now + 1 >= floor && Timely(es[1..], floor)
    else Timely(es[1..], Max(floor, es[0].now))
  }

  /** The row that was pruned, if there is none any more, lay in the past. */
  ghost predicate SameRow(kept: Option<int>, pruned: Option<int>, floor: int) {
    kept == pruned || (kept.Some? && pruned.None? && kept.value < floor)
  }

  /** Pruning changes no verdict of any run. */
  lemma {:induction false} PruningIsInvisible(kept: Option<int>, pruned: Option<int>, es: seq<Event>, rate: Rate,
                                              floor: int)
    requires SameRow(kept, pruned, floor) && Timely(es, floor)
    ensures Verdicts(kept, es, rate, false) == Verdicts(pruned, es, rate, true)
    decreases |es|
  {
    if es != [] {
      if es[0].Request? {
        PruningIsInvisible(After(kept, es[0], rate), After(pruned, es[0], rate), es[1..], rate, floor);
      } else {
        PruningIsInvisible(kept, After(pruned, es[0], rate), es[1..], rate, Max(floor, es[0].now));
      }
    }
  }

  function Outcome(row: Option<int>, now: int, rate: Rate): (bool, Option<int>) {
    (Conforms(row, now, rate), After(row, Request(now), rate))
  }

  /** The condition is exact: a prune at `at` is invisible to a request at `now` whatever it pruned, or it is not. */
  lemma PruneIsInvisibleIff(rate: Rate, at: int, now: int)
    ensures now + 1 >= at <==> forall row: int :: row < at ==> Outcome(Some(row), now, rate) == Outcome(None, now, rate)
  {
    if now + 1 < at {
      assert Outcome(Some(at - 1), now, rate) != Outcome(None, now, rate);
    }
  }

  // --- Exactly which requests are allowed ----------------------------------------------------------------------

  /** The clocks of the requests of a run. */
  function Clocks(es: seq<Event>): seq<int> {
    if es == [] then [] else (if es[0].Request? then [es[0].now] else []) + Clocks(es[1..])
  }

  predicate AllTrue(vs: seq<bool>) { forall k :: 0 <= k < |vs| ==> vs[k] }

  /** A row moved on by `n` requests is within the budget. */
  predicate Within(row: int, n: nat, now: int, rate: Rate) { row + n * rate.interval <= now + rate.tolerance }

  ghost predicate WithinFrom(row: Option<int>, clocks: seq<int>, rate: Rate) {
    row.Some? ==> forall j :: 0 <= j < |clocks| ==> Within(row.value, j, clocks[j], rate)
  }

  ghost predicate Spread(clocks: seq<int>, rate: Rate) {
    forall i, j :: 0 <= i < j < |clocks| ==> Within(clocks[i], j - i, clocks[j], rate)
  }

  lemma OneFurther(row: Option<int>, clocks: seq<int>, rate: Rate)
    requires clocks != [] && Conforms(row, clocks[0], rate)
    ensures WithinFrom(Some(Arrived(row, clocks[0], rate)), clocks[1..], rate) && Spread(clocks[1..], rate)
            <==> WithinFrom(row, clocks, rate) && Spread(clocks, rate)
  {
    var next, rest := Arrived(row, clocks[0], rate), clocks[1..];
    forall j | 0 <= j < |rest|
      ensures Within(next, j, rest[j], rate)
              <==> (row.Some? ==> Within(row.value, j + 1, clocks[j + 1], rate))
                   && Within(clocks[0], j + 1, clocks[j + 1], rate) {
      OneMore(j, rate.interval);
    }
    if WithinFrom(Some(next), rest, rate) && Spread(rest, rate) {
      forall j | 0 <= j < |clocks| && row.Some? ensures Within(row.value, j, clocks[j], rate) {
        if j > 0 { assert Within(next, j - 1, rest[j - 1], rate); }
      }
      forall i, j | 0 <= i < j < |clocks| ensures Within(clocks[i], j - i, clocks[j], rate) {
        if i > 0 {
          assert Within(rest[i - 1], (j - 1) - (i - 1), rest[j - 1], rate);
        } else {
          assert Within(next, j - 1, rest[j - 1], rate);
        }
      }
    }
    if WithinFrom(row, clocks, rate) && Spread(clocks, rate) {
      forall j | 0 <= j < |rest| ensures Within(next, j, rest[j], rate) {
        assert Within(clocks[0], j + 1 - 0, clocks[j + 1], rate);
      }
      forall i, j | 0 <= i < j < |rest| ensures Within(rest[i], j - i, rest[j], rate) {
        assert Within(clocks[i + 1], (j + 1) - (i + 1), clocks[j + 1], rate);
      }
    }
  }

  lemma {:induction false} AllowedFrom(row: Option<int>, es: seq<Event>, rate: Rate)
    ensures AllTrue(Verdicts(row, es, rate, false))
            <==> WithinFrom(row, Clocks(es), rate) && Spread(Clocks(es), rate)
    decreases |es|
  {
    if es != [] {
      var vs, rest := Verdicts(row, es, rate, false), Clocks(es[1..]);
      if es[0].Request? {
        AllowedFrom(After(row, es[0], rate), es[1..], rate);
        assert Clocks(es)[1..] == rest && Clocks(es)[0] == es[0].now;
        assert vs[0] == Conforms(row, es[0].now, rate);
        if vs[0] {
          OneFurther(row, Clocks(es), rate);
          assert vs[1..] == Verdicts(After(row, es[0], rate), es[1..], rate, false);
          assert AllTrue(vs) <==> AllTrue(vs[1..]) by { assert forall k :: 0 < k < |vs| ==> vs[k] == vs[1..][k - 1]; }
        } else {
          assert !Within(row.value, 0, Clocks(es)[0], rate);
        }
      } else {
        AllowedFrom(row, es[1..], rate);
        assert Clocks(es) == rest;
      }
    }
  }

  /** From each request to each later one, all but the burst have been earned in the time between. */
  ghost predicate Earned(clocks: seq<int>, count: nat, period: nat, burst: nat)
    requires count > 0
  {
    forall i, j :: 0 <= i < j < |clocks| ==> Needed(j - i + 1, count, period, burst) <= clocks[j] - clocks[i]
  }

  /** The time in which so many requests are earned, but for the burst: at least a millisecond each. */
  function Needed(n: nat, count: nat, period: nat, burst: nat): int
    requires count > 0
  {
    (n - Max(burst, 1)) * Max(period / count, 1)
  }

  lemma NeededIsWithin(count: nat, period: nat, burst: nat, rate: Rate, n: nat, x: int, y: int)
    requires NewRate(count, period, burst) == Some(rate) && n > 0
    ensures Needed(n + 1, count, period, burst) <= y - x <==> Within(x, n, y, rate)
  {
    var spacing, more := Max(period / count, 1), Max(burst, 1);
    assert (n + 1 - more) * spacing == n * spacing - spacing * (more - 1) by {
      assert (n + 1 - more) * spacing == n * spacing - (more - 1) * spacing;
    }
  }

  /**
   * A key not seen before, and requests and prunes in any order: every request is allowed iff from each to each later
   * one, all but the burst were earned in between. With no count there is no limit.
   */
  lemma AllAllowedIff(es: seq<Event>, floor: int, count: nat, period: nat, burst: nat)
    requires Timely(es, floor)
    ensures NewRate(count, period, burst).Some? <==> count > 0
    ensures count > 0 ==> (AllTrue(Verdicts(None, es, NewRate(count, period, burst).value, true))
                           <==> Earned(Clocks(es), count, period, burst))
  {
    if count > 0 {
      var rate, clocks := NewRate(count, period, burst).value, Clocks(es);
      PruningIsInvisible(None, None, es, rate, floor);
      AllowedFrom(None, es, rate);
      forall i, j | 0 <= i < j < |clocks|
        ensures Needed(j - i + 1, count, period, burst) <= clocks[j] - clocks[i]
                <==> Within(clocks[i], j - i, clocks[j], rate) {
        NeededIsWithin(count, period, burst, rate, j - i, clocks[i], clocks[j]);
      }
      hide Needed, Within;
    }
  }

  function Asked(n: nat, start: int, every: nat): seq<Event> {
    seq(n, k requires 0 <= k < n => Request(start + k * every))
  }

  lemma {:induction false} AskedAt(n: nat, start: int, every: nat)
    ensures Clocks(Asked(n, start, every)) == seq(n, k requires 0 <= k < n => start + k * every)
    ensures Timely(Asked(n, start, every), start)
    decreases n
  {
    if n > 0 {
      var es := Asked(n, start, every);
      assert es[0] == Request(start + 0 * every);
      assert es[1..] == Asked(n - 1, start + every, every) by {
        forall k | 0 <= k < n - 1 ensures es[1..][k] == Asked(n - 1, start + every, every)[k] { OneMore(k, every); }
      }
      AskedAt(n - 1, start + every, every);
      TimelyLater(es[1..], start + every, start);
      var clocks := seq(n, k requires 0 <= k < n => start + k * every);
      forall k | 0 < k < n ensures clocks[k] == Clocks(es[1..])[k - 1] { OneMore(k - 1, every); }
    }
  }

  lemma {:induction false} TimelyLater(es: seq<Event>, floor: int, earlier: int)
    requires Timely(es, floor) && earlier <= floor
    ensures Timely(es, earlier)
  {
    if es != [] && es[0].Request? {
      TimelyLater(es[1..], floor, earlier);
    } else if es != [] {
      TimelyLater(es[1..], Max(floor, es[0].now), Max(earlier, es[0].now));
    }
  }

  /** Whoever asks `count` times in a period, evenly, is always allowed, for as long as it goes on. */
  lemma SteadyClientIsAllowed(n: nat, start: int, count: nat, period: nat, burst: nat)
    requires count > 0
    ensures NewRate(count, period, burst).Some?
    ensures AllTrue(Verdicts(None, Asked(n, start, Max(period / count, 1)), NewRate(count, period, burst).value, true))
  {
    var every: nat := Max(period / count, 1);
    AskedAt(n, start, every);
    AllAllowedIff(Asked(n, start, every), start, count, period, burst);
    var clocks := Clocks(Asked(n, start, every));
    forall i, j | 0 <= i < j < |clocks| ensures Needed(j - i + 1, count, period, burst) <= clocks[j] - clocks[i] {
      var more := Max(burst, 1);
      assert clocks[j] - clocks[i] == (j - i) * every by { assert (j - i) * every == j * every - i * every; }
      assert (j - i + 1 - more) * every <= (j - i) * every;
    }
  }

  /** At one instant, so many are all allowed iff they are at most the burst, or one. */
  lemma BurstIsAllowedIff(n: nat, now: int, count: nat, period: nat, burst: nat)
    requires count > 0
    ensures NewRate(count, period, burst).Some?
    ensures AllTrue(Verdicts(None, Asked(n, now, 0), NewRate(count, period, burst).value, true))
            <==> n <= Max(burst, 1)
  {
    AskedAt(n, now, 0);
    AllAllowedIff(Asked(n, now, 0), now, count, period, burst);
    var clocks := Clocks(Asked(n, now, 0));
    assert |clocks| == n && forall k :: 0 <= k < n ==> clocks[k] == now;
    hide Clocks, Asked, Verdicts, AllTrue;
    forall i, j | 0 <= i < j < |clocks|
      ensures Needed(j - i + 1, count, period, burst) <= clocks[j] - clocks[i] <==> j - i + 1 <= Max(burst, 1) {
      NeededAtOnce(j - i + 1, count, period, burst);
    }
    hide Needed;
    if n > Max(burst, 1) {
      assert Needed((n - 1) - 0 + 1, count, period, burst) > clocks[n - 1] - clocks[0];
    }
  }

  lemma NeededAtOnce(n: nat, count: nat, period: nat, burst: nat)
    requires count > 0
    ensures Needed(n, count, period, burst) <= 0 <==> n <= Max(burst, 1)
  {
    var every, more := Max(period / count, 1), n - Max(burst, 1);
    if more > 0 { assert more * every > 0; } else { assert more * every <= 0; }
  }

  // --- Every interleaving ------------------------------------------------------------------------------------

  /** Which statement a request runs next. */
  datatype Stage = AtUpdate(round: nat) | AtInsert(round: nat) | AtSelect | Answered(verdict: Verdict) | Lost

  datatype Call = Call(name: Key, now: int, stage: Stage)

  /** The shared rows, the requests under way, those allowed so far with their clocks, and the latest prune. */
  datatype Sys = Sys(rows: Rows, calls: map<nat, Call>, allowed: seq<(Key, int)>, floor: Option<int>)

  /**
   * A request arrives with the clock it reads, or runs its next
   * statement (its answer may be lost), or rows are pruned.
   */
  datatype Step =
    | Arrive(id: nat, name: Key, clock: int)
    | Run(id: nat, lost: bool)
    | PruneRows(names: set<Key>, clock: int)

  type Rates = Key -> Rate

  function Granted(s: Sys, id: nat, c: Call, rows: Rows, lost: bool): Sys {
    s.(rows := rows, calls := s.calls[id := c.(stage := if lost then Lost else Answered(Allowed))],
       allowed := s.allowed + [(c.name, c.now)])
  }

  function Moved(s: Sys, id: nat, c: Call, stage: Stage, lost: bool): Sys {
    s.(calls := s.calls[id := c.(stage := if lost then Lost else stage)])
  }

  function RunStatement(s: Sys, id: nat, lost: bool, rates: Rates): Sys {
    if id !in s.calls then s
    else
      var c := s.calls[id];
      var rate := rates(c.name);
      match c.stage
      case AtUpdate(round) =>
        if Updates(s.rows, c.name, c.now, rate) then Granted(s, id, c, Updated(s.rows, c.name, c.now, rate), lost)
        else Moved(s, id, c, AtInsert(round), lost)
      case AtInsert(round) =>
        if c.name !in s.rows then Granted(s, id, c, Inserted(s.rows, c.name, c.now, rate), lost)
        else Moved(s, id, c, if round == 0 then AtUpdate(1) else AtSelect, lost)
      case AtSelect => Moved(s, id, c, Answered(Limited(RetryAfter(s.rows, c.name, c.now, rate))), lost)
      case Answered(_) => s
      case Lost => s
  }

  function Take(s: Sys, step: Step, rates: Rates): Sys {
    match step
    case Arrive(id, name, clock) =>
      if id in s.calls then s else s.(calls := s.calls[id := Call(name, clock, AtUpdate(0))])
    case Run(id, lost) => RunStatement(s, id, lost, rates)
    case PruneRows(names, clock) =>
      s.(rows := Pruned(s.rows, names, clock),
         floor := Some(if s.floor.Some? then Max(s.floor.value, clock) else clock))
  }

  const INIT := Sys(map[], map[], [], None)

  function RunAll(s: Sys, steps: seq<Step>, rates: Rates): Sys
    decreases |steps|
  {
    if steps == [] then s else RunAll(Take(s, steps[0], rates), steps[1..], rates)
  }

  /** A statement of a request for this key runs with a clock at most so many milliseconds behind a prune. */
  predicate InTime(s: Sys, step: Step, name: Key, slack: nat) {
    step.Run? && step.id in s.calls && s.calls[step.id].name == name && s.floor.Some?
    ==> s.calls[step.id].now + slack >= s.floor.value
  }

  predicate AllInTime(s: Sys, steps: seq<Step>, rates: Rates, name: Key, slack: nat)
    decreases |steps|
  {
    steps == []
    || (InTime(s, steps[0], name, slack) && AllInTime(Take(s, steps[0], rates), steps[1..], rates, name, slack))
  }

  /** Every clock reading is at least `now` and the readings before it. */
  predicate NonDecreasing(steps: seq<Step>, now: int) {
    steps == []
    || (if steps[0].Run? then NonDecreasing(steps[1..], now)
        else steps[0].clock >= now && NonDecreasing(steps[1..], steps[0].clock))
  }

  /** How many requests for a key were allowed with their clock in the window. */
  function Count(allowed: seq<(Key, int)>, name: Key, from: int, to: int): nat {
    if allowed == [] then 0
    else
      var last := allowed[|allowed| - 1];
      Count(allowed[..|allowed| - 1], name, from, to) + if last.0 == name && from <= last.1 <= to then 1 else 0
  }

  /** As many intervals have passed in the row, or before the latest prune, as requests were allowed in the window. */
  ghost predicate Ahead(s: Sys, name: Key, from: int, n: nat, rate: Rate) {
    n > 0 ==>
      if name in s.rows then s.rows[name] >= from + n * rate.interval
      else s.floor.Some? && s.floor.value > from + n * rate.interval
  }

  /** The most a rate allows in a window: those at once, and one more for each whole interval. */
  function Most(rate: Rate, length: nat): nat
    requires rate.interval > 0
  {
    1 + (rate.tolerance + length) / rate.interval
  }

  ghost predicate Inv(s: Sys, name: Key, from: int, length: nat, rate: Rate)
    requires rate.interval > 0
  {
    var n := Count(s.allowed, name, from, from + length);
    Ahead(s, name, from, n, rate) && n <= Most(rate, length)
  }

  lemma WholeIntervals(n: nat, interval: nat, room: nat)
    requires interval > 0 && n * interval <= room
    ensures n <= room / interval
  {
    var q := room / interval;
    assert room < (q + 1) * interval;
    NoMore(n, q + 1, interval);
  }

  lemma NoMore(a: nat, b: nat, d: nat)
    requires a * d < b * d
    ensures a < b
  {
  }

  lemma OneMore(n: nat, interval: nat)
    ensures (n + 1) * interval == n * interval + interval
  {
  }

  lemma CountGrows(allowed: seq<(Key, int)>, more: (Key, int), name: Key, from: int, to: int)
    ensures Count(allowed + [more], name, from, to)
         == Count(allowed, name, from, to) + if more.0 == name && from <= more.1 <= to then 1 else 0
  {
    assert (allowed + [more])[..|allowed|] == allowed;
  }

  /** A request that is allowed puts the row one interval further. */
  lemma GrantKeepsInv(s: Sys, id: nat, c: Call, rows: Rows, lost: bool, name: Key, from: int, length: nat, rate: Rate)
    requires rate.interval > 0 && Inv(s, name, from, length, rate)
    requires c.name != name ==> RowOf(rows, name) == RowOf(s.rows, name)
    requires c.name == name ==> Conforms(RowOf(s.rows, name), c.now, rate)
                                && RowOf(rows, name) == Some(Arrived(RowOf(s.rows, name), c.now, rate))
    requires c.name == name && s.floor.Some? ==> c.now + 1 >= s.floor.value
    ensures Inv(Granted(s, id, c, rows, lost), name, from, length, rate)
  {
    var n := Count(s.allowed, name, from, from + length);
    CountGrows(s.allowed, (c.name, c.now), name, from, from + length);
    hide Count;
    if c.name == name {
      OneMore(n, rate.interval);
      OneMore(0, rate.interval);
      if from <= c.now <= from + length {
        if n > 0 {
          WholeIntervals(n, rate.interval, rate.tolerance + length);
        }
      }
    }
  }

  lemma StepKeepsInv(s: Sys, step: Step, rates: Rates, name: Key, from: int, length: nat)
    requires rates(name).interval > 0 && Inv(s, name, from, length, rates(name)) && InTime(s, step, name, 1)
    ensures Inv(Take(s, step, rates), name, from, length, rates(name))
  {
    hide Count;
    if step.Run? && step.id in s.calls {
      var c := s.calls[step.id];
      var rate := rates(c.name);
      match c.stage
      case AtUpdate(_) =>
        if Updates(s.rows, c.name, c.now, rate) {
          GrantKeepsInv(s, step.id, c, Updated(s.rows, c.name, c.now, rate), step.lost, name, from, length,
                        rates(name));
        }
      case AtInsert(_) =>
        if c.name !in s.rows {
          GrantKeepsInv(s, step.id, c, Inserted(s.rows, c.name, c.now, rate), step.lost, name, from, length,
                        rates(name));
        }
      case _ =>
    }
  }

  lemma {:induction false} RunKeepsInv(s: Sys, steps: seq<Step>, rates: Rates, name: Key, from: int, length: nat)
    requires rates(name).interval > 0 && Inv(s, name, from, length, rates(name)) && AllInTime(s, steps, rates, name, 1)
    ensures Inv(RunAll(s, steps, rates), name, from, length, rates(name))
    decreases |steps|
  {
    if steps != [] {
      StepKeepsInv(s, steps[0], rates, name, from, length);
      RunKeepsInv(Take(s, steps[0], rates), steps[1..], rates, name, from, length);
    }
  }

  /**
   * In every interleaving of every request's statements and of prunes, the requests allowed for a key in any window
   * are at most the burst and one more for each whole part of the window in which one is earned.
   */
  lemma AllowedWithinBudget(steps: seq<Step>, rates: Rates, name: Key, from: int, length: nat, count: nat, period: nat,
                            burst: nat)
    requires NewRate(count, period, burst) == Some(rates(name)) && AllInTime(INIT, steps, rates, name, 1)
    ensures Count(RunAll(INIT, steps, rates).allowed, name, from, from + length)
         <= Max(burst, 1) + length / Max(period / count, 1)
  {
    RunKeepsInv(INIT, steps, rates, name, from, length);
    BurstAndIntervals(rates(name).interval, Max(burst, 1) - 1, length);
  }

  /** In any window of the period itself: the burst and the count, with what rounding the spacing down adds. */
  lemma AllowedPerPeriod(steps: seq<Step>, rates: Rates, name: Key, from: int, count: nat, period: nat, burst: nat)
    requires 0 < count <= period
    requires NewRate(count, period, burst) == Some(rates(name)) && AllInTime(INIT, steps, rates, name, 1)
    ensures Count(RunAll(INIT, steps, rates).allowed, name, from, from + period)
         <= Max(burst, 1) + count + (period % count) / (period / count)
  {
    AllowedWithinBudget(steps, rates, name, from, period, count, period, burst);
    WholeSpacings(period, count);
  }

  lemma WholeSpacings(period: nat, count: nat)
    requires 0 < count <= period
    ensures period / count >= 1 && period / (period / count) == count + (period % count) / (period / count)
  {
    var spacing, rest := period / count, period % count;
    assert period == spacing * count + rest;
    if spacing == 0 { assert false; }
    BurstAndIntervals(spacing, count, rest);
  }

  lemma BurstAndIntervals(interval: nat, more: nat, length: nat)
    requires interval > 0
    ensures (interval * more + length) / interval == more + length / interval
  {
    var q, r := length / interval, length % interval;
    assert interval * more + length == interval * (more + q) + r;
    DivideOut(interval, more + q, r);
  }

  lemma DivideOut(d: nat, q: nat, r: nat)
    requires r < d
    ensures (d * q + r) / d == q
  {
    var x := (d * q + r) / d;
    assert x * d <= d * q + r < (x + 1) * d;
    assert q * d == d * q && (q + 1) * d == q * d + d;
    NoMore(q, x + 1, d);
    NoMore(x, q + 1, d);
  }

  // --- Refused for a reason ------------------------------------------------------------------------------------

  /** What a request under way found out: a row after a lost insert, and one over the budget after another update. */
  ghost predicate Informed(c: Call, rows: Rows, rate: Rate) {
    && (c.stage == AtUpdate(1) ==> c.name in rows)
    && (c.stage == AtInsert(1) || c.stage == AtSelect || (c.stage.Answered? && c.stage.verdict.Limited?) ==>
          !Conforms(RowOf(rows, c.name), c.now, rate))
    && (c.stage.AtUpdate? || c.stage.AtInsert? ==> c.stage.round <= 1)
  }

  ghost predicate AllInformed(s: Sys, name: Key, rate: Rate) {
    forall id :: id in s.calls && s.calls[id].name == name ==> Informed(s.calls[id], s.rows, rate)
  }

  lemma StepKeepsInformed(s: Sys, step: Step, rates: Rates, name: Key)
    requires AllInformed(s, name, rates(name)) && (step.PruneRows? ==> name !in step.names)
    ensures AllInformed(Take(s, step, rates), name, rates(name))
  {
    var t := Take(s, step, rates);
    if step.Run? && step.id in s.calls {
      var c := s.calls[step.id];
      assert name in s.rows ==> name in t.rows && (c.name != name ==> t.rows[name] == s.rows[name])
                                && t.rows[name] >= s.rows[name];
    }
  }

  /**
   * However statements interleave, while no prune takes its row away: a request is only refused if it does not conform,
   * so one that lost the insert of a key's first row to another is tried again.
   */
  lemma {:induction false} RefusedDoesNotConform(s: Sys, steps: seq<Step>, rates: Rates, name: Key)
    requires AllInformed(s, name, rates(name))
    requires forall i :: 0 <= i < |steps| && steps[i].PruneRows? ==> name !in steps[i].names
    ensures AllInformed(RunAll(s, steps, rates), name, rates(name))
    ensures var t := RunAll(s, steps, rates);
            forall id :: id in t.calls && t.calls[id].name == name && t.calls[id].stage.Answered?
                         && t.calls[id].stage.verdict.Limited? ==>
                           !Conforms(RowOf(t.rows, name), t.calls[id].now, rates(name))
    decreases |steps|
  {
    if steps != [] {
      StepKeepsInformed(s, steps[0], rates, name);
      hide Take, AllInformed, Informed;
      RefusedDoesNotConform(Take(s, steps[0], rates), steps[1..], rates, name);
    }
  }

  /** The statements a request has left to run at most. */
  function Left(s: Sys, id: nat): nat {
    if id !in s.calls then 0
    else
      match s.calls[id].stage
      case AtUpdate(round) => if round == 0 then 5 else 3
      case AtInsert(round) => if round == 0 then 4 else 2
      case AtSelect => 1
      case Answered(_) => 0
      case Lost => 0
  }

  function RunsOf(steps: seq<Step>, id: nat): nat {
    if steps == [] then 0 else RunsOf(steps[1..], id) + if steps[0].Run? && steps[0].id == id then 1 else 0
  }

  /** A request has its answer, or lost it, after five statements at most, whatever others do. */
  lemma {:induction false} AnsweredAfterFive(s: Sys, steps: seq<Step>, rates: Rates, id: nat)
    requires id in s.calls
    ensures id in RunAll(s, steps, rates).calls
    ensures Left(RunAll(s, steps, rates), id) <= Max(Left(s, id) - RunsOf(steps, id), 0)
    ensures RunsOf(steps, id) >= 5 ==>
              RunAll(s, steps, rates).calls[id].stage.Answered? || RunAll(s, steps, rates).calls[id].stage.Lost?
    decreases |steps|
  {
    if steps != [] {
      OneLess(s, steps[0], rates, id);
      hide Take;
      AnsweredAfterFive(Take(s, steps[0], rates), steps[1..], rates, id);
    }
  }

  lemma OneLess(s: Sys, step: Step, rates: Rates, id: nat)
    requires id in s.calls
    ensures id in Take(s, step, rates).calls
    ensures Left(Take(s, step, rates), id) <= Max(Left(s, id) - RunsOf([step], id), 0)
  {
    hide Updated, Inserted, Pruned, RetryAfter, Updates;
    assert [step][1..] == [] && RunsOf([], id) == 0;
    if step.Run? && step.id == id { assert RunsOf([step], id) == 1; } else { assert RunsOf([step], id) == 0; }
    hide RunsOf;
  }

  // --- A clock behind a prune --------------------------------------------------------------------------------

  lemma {:induction false} RunsInTurn(s: Sys, a: seq<Step>, b: seq<Step>, rates: Rates)
    ensures RunAll(s, a + b, rates) == RunAll(RunAll(s, a, rates), b, rates)
    decreases |a|
  {
    if a == [] {
      assert a + b == b;
    } else {
      assert (a + b)[1..] == a[1..] + b;
      RunsInTurn(Take(s, a[0], rates), a[1..], b, rates);
    }
  }

  lemma {:induction false} InTimeInTurn(s: Sys, a: seq<Step>, b: seq<Step>, rates: Rates, name: Key, slack: nat)
    requires AllInTime(s, a, rates, name, slack) && AllInTime(RunAll(s, a, rates), b, rates, name, slack)
    ensures AllInTime(s, a + b, rates, name, slack)
    decreases |a|
  {
    if a == [] {
      assert a + b == b;
    } else {
      assert (a + b)[1..] == a[1..] + b;
      InTimeInTurn(Take(s, a[0], rates), a[1..], b, rates, name, slack);
    }
  }

  /** So many requests arrive, one after the other. */
  function Arrivals(base: nat, n: nat, name: Key, clock: int): seq<Step>
    decreases n
  {
    if n == 0 then [] else [Arrive(base + 1, name, clock)] + Arrivals(base + 1, n - 1, name, clock)
  }

  /** Each runs its update and then its insert, if it needs one. */
  function Finish(base: nat, n: nat): seq<Step>
    decreases n
  {
    if n == 0 then [] else Twice(Run(base + 1, false), Finish(base + 1, n - 1))
  }

  function Twice(step: Step, rest: seq<Step>): seq<Step> { [step, step] + rest }

  ghost predicate Fresh(s: Sys, base: nat) { forall id :: id in s.calls ==> id <= base }

  ghost predicate WaitingCalls(s: Sys, base: nat, n: nat, name: Key, clock: int) {
    forall id :: base < id <= base + n ==> id in s.calls && s.calls[id] == Call(name, clock, AtUpdate(0))
  }

  lemma {:induction false} ArrivalsWait(s: Sys, base: nat, n: nat, name: Key, clock: int, rates: Rates, slack: nat)
    requires Fresh(s, base)
    ensures var t := RunAll(s, Arrivals(base, n, name, clock), rates);
            && t == s.(calls := t.calls) && Fresh(t, base + n) && WaitingCalls(t, base, n, name, clock)
            && (forall id :: id in s.calls ==> id in t.calls && t.calls[id] == s.calls[id])
    ensures AllInTime(s, Arrivals(base, n, name, clock), rates, name, slack)
    decreases n
  {
    if n > 0 {
      var s' := Take(s, Arrive(base + 1, name, clock), rates);
      assert Arrivals(base, n, name, clock)[1..] == Arrivals(base + 1, n - 1, name, clock);
      ArrivalsWait(s', base + 1, n - 1, name, clock, rates, slack);
      assert base + 1 in s'.calls && s'.calls[base + 1] == Call(name, clock, AtUpdate(0));
    }
  }

  /** So many requests at one clock have been allowed since there was no row. */
  ghost predicate Filled(s: Sys, name: Key, clock: int, k: nat, rate: Rate) {
    RowOf(s.rows, name) == if k == 0 then None else Some(clock + k * rate.interval)
  }

  lemma OneMoreAtOnce(s: Sys, id: nat, name: Key, clock: int, k: nat, rates: Rates)
    requires Filled(s, name, clock, k, rates(name)) && k * rates(name).interval <= rates(name).tolerance
    requires id in s.calls && s.calls[id] == Call(name, clock, AtUpdate(0))
    ensures var r := Run(id, false); var t := Take(Take(s, r, rates), r, rates);
            && Filled(t, name, clock, k + 1, rates(name)) && t.floor == s.floor
            && t.calls == s.calls[id := Call(name, clock, Answered(Allowed))]
            && t.allowed == s.allowed + [(name, clock)]
  {
    OneMore(k, rates(name).interval);
    var rate := rates(name);
    var s' := Take(s, Run(id, false), rates);
    if k == 0 {
      assert !Updates(s.rows, name, clock, rate);
      assert s'.calls[id].stage == AtInsert(0);
    } else {
      assert Updates(s.rows, name, clock, rate);
      assert s'.calls[id].stage == Answered(Allowed);
    }
  }

  ghost predicate Finishing(s: Sys, base: nat, n: nat, k: nat, name: Key, clock: int, rate: Rate, slack: nat) {
    && WaitingCalls(s, base, n, name, clock) && Filled(s, name, clock, k, rate)
    && (n > 0 ==> (k + n - 1) * rate.interval <= rate.tolerance)
    && (s.floor.Some? ==> clock + slack >= s.floor.value)
  }

  lemma FinishOne(s: Sys, base: nat, n: nat, k: nat, name: Key, clock: int, rates: Rates, slack: nat)
    requires n > 0 && Finishing(s, base, n, k, name, clock, rates(name), slack)
    ensures var r := Run(base + 1, false); var t := Take(Take(s, r, rates), r, rates);
            && Finishing(t, base + 1, n - 1, k + 1, name, clock, rates(name), slack)
            && t.floor == s.floor && t.calls.Keys == s.calls.Keys && t.allowed == s.allowed + [(name, clock)]
            && InTime(s, r, name, slack) && InTime(Take(s, r, rates), r, name, slack)
            && Finish(base, n) == Twice(r, Finish(base + 1, n - 1))
  {
    assert base + 1 in s.calls && s.calls[base + 1] == Call(name, clock, AtUpdate(0));
    Fewer(k, k + n - 1, rates(name).interval);
    OneMoreAtOnce(s, base + 1, name, clock, k, rates);
    hide Filled;
  }

  lemma FinishNone(s: Sys, base: nat, k: nat, name: Key, clock: int, rates: Rates, slack: nat)
    requires Finishing(s, base, 0, k, name, clock, rates(name), slack)
    ensures Filled(RunAll(s, Finish(base, 0), rates), name, clock, k, rates(name))
    ensures RunAll(s, Finish(base, 0), rates) == s
    ensures AllInTime(s, Finish(base, 0), rates, name, slack)
  {
  }

  lemma {:induction false} FinishFills(s: Sys, base: nat, n: nat, k: nat, name: Key, clock: int, rates: Rates,
                                       slack: nat, from: int, to: int)
    requires Finishing(s, base, n, k, name, clock, rates(name), slack) && from <= clock <= to
    ensures var t := RunAll(s, Finish(base, n), rates);
            && Filled(t, name, clock, k + n, rates(name)) && t.floor == s.floor && t.calls.Keys == s.calls.Keys
            && Count(t.allowed, name, from, to) == Count(s.allowed, name, from, to) + n
    ensures AllInTime(s, Finish(base, n), rates, name, slack)
    decreases n
  {
    hide *;
    if n == 0 {
      FinishNone(s, base, k, name, clock, rates, slack);
    } else {
      var r := Run(base + 1, false);
      var t := Take(Take(s, r, rates), r, rates);
      FinishOne(s, base, n, k, name, clock, rates, slack);
      CountGrows(s.allowed, (name, clock), name, from, to);
      FinishFills(t, base + 1, n - 1, k + 1, name, clock, rates, slack, from, to);
      TwoSteps(s, r, Finish(base + 1, n - 1), rates, name, slack);
    }
  }

  lemma TwoSteps(s: Sys, r: Step, rest: seq<Step>, rates: Rates, name: Key, slack: nat)
    requires InTime(s, r, name, slack) && InTime(Take(s, r, rates), r, name, slack)
    requires AllInTime(Take(Take(s, r, rates), r, rates), rest, rates, name, slack)
    ensures RunAll(s, Twice(r, rest), rates) == RunAll(Take(Take(s, r, rates), r, rates), rest, rates)
    ensures AllInTime(s, Twice(r, rest), rates, name, slack)
  {
    hide Take, InTime;
    var steps := Twice(r, rest);
    assert steps[1..] == [r] + rest && steps[1..][1..] == rest;
    assert AllInTime(Take(s, r, rates), steps[1..], rates, name, slack);
  }

  lemma Fewer(a: nat, b: nat, d: nat)
    requires a <= b
    ensures a * d <= b * d
  {
  }

  /**
   * The whole burst at 0; as many arrive one millisecond before the row's time, and run their statements after a
   * prune one millisecond past it.
   */
  function LateRun(name: Key, n: nat, clock: int): seq<Step> {
    Arrivals(0, n, name, 0)
    + (Finish(0, n) + (Arrivals(n, n, name, clock) + ([PruneRows({name}, clock + 2)] + Finish(n, n))))
  }

  lemma {:induction false} ArrivalsKeepClock(base: nat, n: nat, name: Key, clock: int, rest: seq<Step>, now: int)
    requires n > 0 && now <= clock && NonDecreasing(rest, clock)
    ensures NonDecreasing(Arrivals(base, n, name, clock) + rest, now)
    decreases n
  {
    var steps := Arrivals(base, n, name, clock) + rest;
    assert steps[1..] == Arrivals(base + 1, n - 1, name, clock) + rest;
    if n == 1 {
      assert Arrivals(base + 1, 0, name, clock) + rest == rest;
    } else {
      ArrivalsKeepClock(base + 1, n - 1, name, clock, rest, clock);
    }
  }

  lemma {:induction false} FinishKeepsClock(base: nat, n: nat, rest: seq<Step>, now: int)
    requires NonDecreasing(rest, now)
    ensures NonDecreasing(Finish(base, n) + rest, now)
    decreases n
  {
    if n == 0 {
      assert Finish(base, n) + rest == rest;
    } else {
      var r, tail := Run(base + 1, false), Finish(base + 1, n - 1) + rest;
      FinishKeepsClock(base + 1, n - 1, rest, now);
      hide NonDecreasing;
      assert Finish(base, n) + rest == Twice(r, tail);
      TwiceKeepsClock(r, tail, now);
    }
  }

  lemma TwiceKeepsClock(r: Step, rest: seq<Step>, now: int)
    requires r.Run? && NonDecreasing(rest, now)
    ensures NonDecreasing(Twice(r, rest), now)
  {
    var steps := Twice(r, rest);
    assert steps[1..] == [r] + rest && ([r] + rest)[1..] == rest;
    assert NonDecreasing([r] + rest, now);
  }

  lemma LateRunKeepsClock(name: Key, n: nat, clock: nat)
    requires n > 0
    ensures NonDecreasing(LateRun(name, n, clock), 0)
  {
    var p := [PruneRows({name}, clock + 2)];
    assert Finish(n, n) + [] == Finish(n, n);
    FinishKeepsClock(n, n, [], clock + 2);
    assert (p + Finish(n, n))[1..] == Finish(n, n);
    ArrivalsKeepClock(n, n, name, clock, p + Finish(n, n), 0);
    FinishKeepsClock(0, n, Arrivals(n, n, name, clock) + (p + Finish(n, n)), 0);
    ArrivalsKeepClock(0, n, name, 0, Finish(0, n) + (Arrivals(n, n, name, clock) + (p + Finish(n, n))), 0);
  }

  /** The last part of the late run: after the prune, the row starts again. */
  lemma PruneAndFinish(s: Sys, n: nat, name: Key, clock: int, rates: Rates, from: int)
    requires n > 0 && (n - 1) * rates(name).interval <= rates(name).tolerance && from <= clock
    requires WaitingCalls(s, n, n, name, clock) && RowOf(s.rows, name) == Some(clock + 1) && s.floor == None
    ensures var steps := [PruneRows({name}, clock + 2)] + Finish(n, n);
            && Count(RunAll(s, steps, rates).allowed, name, from, clock) == Count(s.allowed, name, from, clock) + n
            && AllInTime(s, steps, rates, name, 2)
  {
    var p := PruneRows({name}, clock + 2);
    var t := Take(s, p, rates);
    assert Filled(t, name, clock, 0, rates(name));
    FinishFills(t, n, n, 0, name, clock, rates, 2, from, clock);
    assert ([p] + Finish(n, n))[1..] == Finish(n, n);
  }

  lemma LateRunExceedsBudget(name: Key, n: nat, rates: Rates)
    requires n > 0 && rates(name).interval > 0 && rates(name).tolerance == rates(name).interval * (n - 1)
    ensures var clock := n * rates(name).interval - 1;
            && Count(RunAll(INIT, LateRun(name, n, clock), rates).allowed, name, 0, clock) == 2 * n
            && AllInTime(INIT, LateRun(name, n, clock), rates, name, 2)
  {
    var clock := n * rates(name).interval - 1;
    OneMore(n - 1, rates(name).interval);
    assert (n - 1) * rates(name).interval == rates(name).tolerance;
    var a, b, c, d := Arrivals(0, n, name, 0), Finish(0, n), Arrivals(n, n, name, clock),
                      [PruneRows({name}, clock + 2)] + Finish(n, n);
    hide Take, Count, Arrivals, Finish, InTime;
    ArrivalsWait(INIT, 0, n, name, 0, rates, 2);
    var s1 := RunAll(INIT, a, rates);
    FinishFills(s1, 0, n, 0, name, 0, rates, 2, 0, clock);
    var s2 := RunAll(s1, b, rates);
    ArrivalsWait(s2, n, n, name, clock, rates, 2);
    var s3 := RunAll(s2, c, rates);
    PruneAndFinish(s3, n, name, clock, rates, 0);
    RunsInTurn(INIT, a, b + (c + d), rates);
    RunsInTurn(s1, b, c + d, rates);
    RunsInTurn(s2, c, d, rates);
    InTimeInTurn(s2, c, d, rates, name, 2);
    InTimeInTurn(s1, b, c + d, rates, name, 2);
    InTimeInTurn(INIT, a, b + (c + d), rates, name, 2);
    NoneAllowedYet(name, 0, clock);
  }

  lemma NoneAllowedYet(name: Key, from: int, to: int)
    ensures Count([], name, from, to) == 0
  {
  }

  lemma {:induction false} InTimeWithMore(s: Sys, steps: seq<Step>, rates: Rates, name: Key, slack: nat, more: nat)
    requires slack <= more && AllInTime(s, steps, rates, name, slack)
    ensures AllInTime(s, steps, rates, name, more)
    decreases |steps|
  {
    if steps != [] {
      InTimeWithMore(Take(s, steps[0], rates), steps[1..], rates, name, slack, more);
    }
  }

  /** A run whose clock never goes back, with statements so far behind prunes, keeps a window within the budget. */
  ghost predicate KeepsBudget(steps: seq<Step>, rates: Rates, name: Key, count: nat, period: nat, burst: nat,
                              slack: nat, from: int, length: nat)
    requires count > 0
  {
    NonDecreasing(steps, 0) && AllInTime(INIT, steps, rates, name, slack) ==>
      Count(RunAll(INIT, steps, rates).allowed, name, from, from + length) <=
        Max(burst, 1) + length / Max(period / count, 1)
  }

  /** For every rate the bound holds of all runs iff no statement runs more than a millisecond behind a prune. */
  lemma BudgetHoldsIff(rates: Rates, name: Key, count: nat, period: nat, burst: nat, slack: nat)
    requires NewRate(count, period, burst) == Some(rates(name))
    ensures count > 0
    ensures (forall steps, from, length: nat ::
               KeepsBudget(steps, rates, name, count, period, burst, slack, from, length)) <==> slack <= 1
  {
    hide Count, RunAll, NonDecreasing, AllInTime;
    if slack <= 1 {
      forall steps, from, length: nat
        ensures KeepsBudget(steps, rates, name, count, period, burst, slack, from, length) {
        if AllInTime(INIT, steps, rates, name, slack) {
          InTimeWithMore(INIT, steps, rates, name, slack, 1);
          AllowedWithinBudget(steps, rates, name, from, length, count, period, burst);
        }
      }
    } else {
      BudgetFails(rates, name, count, period, burst, slack);
      var n := Max(burst, 1);
      assert !KeepsBudget(LateRun(name, n, n * rates(name).interval - 1), rates, name, count, period, burst, slack, 0,
                          n * rates(name).interval - 1);
    }
  }

  lemma BudgetFails(rates: Rates, name: Key, count: nat, period: nat, burst: nat, slack: nat)
    requires slack > 1 && NewRate(count, period, burst) == Some(rates(name))
    ensures var n := Max(burst, 1); var clock := n * rates(name).interval - 1;
            clock >= 0 && !KeepsBudget(LateRun(name, n, clock), rates, name, count, period, burst, slack, 0, clock)
  {
    var n: nat := Max(burst, 1);
    hide Count, RunAll, NonDecreasing, AllInTime;
    var interval := rates(name).interval;
    OneMore(n - 1, interval);
    var clock := n * interval - 1;
    assert clock == interval * (n - 1) + (interval - 1);
    LateRunKeepsClock(name, n, clock);
    LateRunExceedsBudget(name, n, rates);
    InTimeWithMore(INIT, LateRun(name, n, clock), rates, name, 2, slack);
    DivideOut(interval, n - 1, interval - 1);
  }
}

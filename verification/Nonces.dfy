/** Nonces of signed requests already accepted (peer_auth.rs), forgotten once no request with them can be fresh. */
module Nonces {
  import opened Common

  const MAX_SKEW_MS: nat := 30_000
  const MAX_NONCES: nat := 100_000

  type Nonce = string

  type Seen = map<Nonce, nat>

  predicate Fresh(timestamp: nat, now: nat) {
    (if timestamp < now then now - timestamp else timestamp - now) <= MAX_SKEW_MS
  }

  // --- Sorted times ----------------------------------------------------------------------------------------------

  predicate Sorted(s: seq<nat>) { forall i, j :: 0 <= i < j < |s| ==> s[i] <= s[j] }

  function Insert(s: seq<nat>, x: nat): (r: seq<nat>)
    requires Sorted(s)
    ensures Sorted(r) && |r| == |s| + 1 && forall i :: 0 <= i < |r| ==> r[i] == x || r[i] in s
  {
    if s == [] then [x]
    else if x <= s[0] then [x] + s
    else [s[0]] + Insert(s[1..], x)
  }

  function AtMost(s: seq<nat>, m: nat): nat {
    if s == [] then 0 else (if s[0] <= m then 1 else 0) + AtMost(s[1..], m)
  }

  lemma {:induction false} InsertCounts(s: seq<nat>, x: nat, m: nat)
    requires Sorted(s)
    ensures AtMost(Insert(s, x), m) == AtMost(s, m) + if x <= m then 1 else 0
  {
    if s == [] {
      assert [x][1..] == [];
    } else if x <= s[0] {
      assert ([x] + s)[1..] == s;
    } else {
      InsertCounts(s[1..], x, m);
      assert ([s[0]] + Insert(s[1..], x))[1..] == Insert(s[1..], x);
    }
  }

  /** In a sorted list, everything up to a place is at most what is there. */
  lemma {:induction false} CountUpTo(s: seq<nat>, i: nat)
    requires Sorted(s) && i < |s|
    ensures AtMost(s, s[i]) >= i + 1
  {
    if i > 0 { CountUpTo(s[1..], i - 1); }
  }

  /** And nothing from that place on is below it. */
  lemma {:induction false} CountBelow(s: seq<nat>, i: nat, m: nat)
    requires Sorted(s) && i < |s| && m < s[i]
    ensures AtMost(s, m) <= i
  {
    if i > 0 {
      CountBelow(s[1..], i - 1, m);
    } else {
      NoneAtMost(s, m);
    }
  }

  lemma {:induction false} NoneAtMost(s: seq<nat>, m: nat)
    requires forall i :: 0 <= i < |s| ==> m < s[i]
    ensures AtMost(s, m) == 0
  {
    if s != [] { NoneAtMost(s[1..], m); }
  }

  // --- The median ------------------------------------------------------------------------------------------------

  /** The nonces signed at a time or before, and those signed before it. */
  function UpTo(seen: Seen, m: nat): set<Nonce> { set n | n in seen && seen[n] <= m }

  function Below(seen: Seen, m: nat): set<Nonce> { set n | n in seen && seen[n] < m }

  /** What stands in the middle of the sorted times: at most half are before it, more than half not after it. */
  ghost predicate IsMedian(seen: Seen, m: nat) {
    |Below(seen, m)| <= |seen| / 2 < |UpTo(seen, m)|
  }

  /** A time is at or before the median iff at most half of the nonces are older than it. */
  lemma AtOrBeforeMedian(seen: Seen, m: nat, t: nat)
    requires IsMedian(seen, m)
    ensures t <= m <==> |Below(seen, t)| <= |seen| / 2
  {
    if t <= m {
      SubsetIsSmaller(Below(seen, t), Below(seen, m));
    } else {
      SubsetIsSmaller(UpTo(seen, m), Below(seen, t));
    }
  }

  lemma MedianIsUnique(seen: Seen, a: nat, b: nat)
    requires IsMedian(seen, a) && IsMedian(seen, b)
    ensures a == b
  {
    AtOrBeforeMedian(seen, a, b);
    AtOrBeforeMedian(seen, b, a);
  }

  lemma MiddleIsMedian(seen: Seen, times: seq<nat>)
    requires times != [] && Sorted(times) && |times| == |seen| && forall m :: AtMost(times, m) == |UpTo(seen, m)|
    ensures IsMedian(seen, times[|times| / 2])
  {
    var i := |times| / 2;
    CountUpTo(times, i);
    if times[i] == 0 {
      assert Below(seen, 0) == {};
    } else {
      CountBelow(times, i, times[i] - 1);
      assert Below(seen, times[i]) == UpTo(seen, times[i] - 1);
    }
  }

  lemma OneMoreTime(seen: Seen, n: Nonce, at: nat, m: nat)
    requires n !in seen
    ensures |UpTo(seen[n := at], m)| == |UpTo(seen, m)| + if at <= m then 1 else 0
  {
    if at <= m {
      assert UpTo(seen[n := at], m) == UpTo(seen, m) + {n};
    } else {
      assert UpTo(seen[n := at], m) == UpTo(seen, m);
    }
  }

  lemma OneMore(seen: Seen, nonce: Nonce, timestamp: nat)
    requires nonce !in seen
    ensures |seen[nonce := timestamp]| == |seen| + 1
  {
    assert seen[nonce := timestamp].Keys == seen.Keys + {nonce};
  }

  /** Every table's times can be put in order. */
  lemma {:induction false} TimesInOrder(seen: Seen) returns (times: seq<nat>)
    ensures Sorted(times) && |times| == |seen| && forall m :: AtMost(times, m) == |UpTo(seen, m)|
    decreases |seen|
  {
    if seen == map[] {
      times := [];
      assert forall m :: UpTo(seen, m) == {};
    } else {
      var n :| n in seen;
      var rest := seen - {n};
      assert rest[n := seen[n]] == seen;
      OneMore(rest, n, seen[n]);
      var others := TimesInOrder(rest);
      times := Insert(others, seen[n]);
      forall m ensures AtMost(times, m) == |UpTo(seen, m)| {
        InsertCounts(others, seen[n], m);
        OneMoreTime(rest, n, seen[n], m);
      }
    }
  }

  lemma MedianExists(seen: Seen)
    requires seen != map[]
    ensures exists m :: IsMedian(seen, m)
  {
    var times := TimesInOrder(seen);
    assert |seen| == |seen.Keys| && times != [];
    MiddleIsMedian(seen, times);
  }

  ghost function Median(seen: Seen): (m: nat)
    requires seen != map[]
    ensures IsMedian(seen, m)
  {
    MedianExists(seen);
    var m :| IsMedian(seen, m);
    m
  }

  // --- Forgetting ------------------------------------------------------------------------------------------------

  /** The nonces signed recently enough to be fresh. */
  function Swept(seen: Seen, now: nat): Seen {
    map n | n in seen && seen[n] + MAX_SKEW_MS >= now :: seen[n]
  }

  function Above(seen: Seen, median: nat): Seen { map n | n in seen && seen[n] > median :: seen[n] }

  /** Whether even the fresh nonces are too many, so that the oldest half is forgotten. */
  predicate Overflows(seen: Seen, now: nat) { |seen| >= MAX_NONCES && |Swept(seen, now)| >= MAX_NONCES }

  /** The table once it has room for one more. */
  ghost function Trimmed(seen: Seen, now: nat): Seen {
    if |seen| < MAX_NONCES then seen
    else if |Swept(seen, now)| < MAX_NONCES then Swept(seen, now)
    else Above(Swept(seen, now), Median(Swept(seen, now)))
  }

  /** Keeping what is above the median forgets more than half, and no more than the median's own time adds to half. */
  lemma HalfIsForgotten(seen: Seen, median: nat)
    requires IsMedian(seen, median)
    ensures |Above(seen, median)| < |seen| - |seen| / 2
    ensures |seen| - |Above(seen, median)| <= |seen| / 2 + |UpTo(seen, median) - Below(seen, median)|
  {
    assert seen.Keys == UpTo(seen, median) + Above(seen, median).Keys;
    assert UpTo(seen, median) == Below(seen, median) + (UpTo(seen, median) - Below(seen, median));
    assert |seen| == |seen.Keys|;
  }

  lemma SweptIsSmaller(seen: Seen, now: nat)
    ensures |Swept(seen, now)| <= |seen|
  {
    SubsetIsSmaller(Swept(seen, now).Keys, seen.Keys);
    assert |seen| == |seen.Keys| && |Swept(seen, now)| == |Swept(seen, now).Keys|;
  }

  class Table {
    var seen: Seen

    constructor ()
      ensures seen == map[]
    {
      seen := map[];
    }

    /** The times in order, with as many at or before any time as there are nonces. */
    method SortedTimes() returns (times: seq<nat>)
      ensures Sorted(times) && |times| == |seen| && forall m :: AtMost(times, m) == |UpTo(seen, m)|
    {
      times := [];
      var rest := seen.Keys;
      ghost var done: Seen := map[];
      assert forall m :: UpTo(done, m) == {};
      while rest != {}
        invariant rest <= seen.Keys && done == map n | n in seen && n !in rest :: seen[n]
        invariant Sorted(times) && |times| == |done| && forall m :: AtMost(times, m) == |UpTo(done, m)|
        decreases |rest|
      {
        var n :| n in rest;
        ghost var more := done[n := seen[n]];
        forall m ensures AtMost(Insert(times, seen[n]), m) == |UpTo(more, m)| {
          InsertCounts(times, seen[n], m);
          OneMoreTime(done, n, seen[n], m);
        }
        times := Insert(times, seen[n]);
        assert more.Keys == done.Keys + {n};
        rest := rest - {n};
        done := more;
      }
      assert done == seen;
    }

    /** Forgets what is at or before the middle of the sorted times. */
    method ForgetOldest()
      requires seen != map[]
      modifies this
      ensures seen == Above(old(seen), Median(old(seen)))
    {
      var times := SortedTimes();
      assert |seen| == |seen.Keys|;
      var middle := times[|times| / 2];
      MiddleIsMedian(seen, times);
      MedianIsUnique(seen, middle, Median(seen));
      hide IsMedian;
      seen := map n | n in seen && seen[n] > middle :: seen[n];
    }

    /** Makes room when the table is full: forgets the stale, and if that is not enough the oldest half. */
    method Trim(now: nat)
      requires |seen| <= MAX_NONCES
      modifies this
      ensures seen == Trimmed(old(seen), now) && |seen| < MAX_NONCES
    {
      if |seen| >= MAX_NONCES {
        SweptIsSmaller(seen, now);
        seen := map n | n in seen && seen[n] >= (if now < MAX_SKEW_MS then 0 else now - MAX_SKEW_MS) :: seen[n];
        assert seen == Swept(old(seen), now);
        hide Swept, IsMedian, Above;
        if |seen| >= MAX_NONCES {
          HalfIsForgotten(seen, Median(seen));
          ForgetOldest();
        }
      }
    }

    /** Records a nonce unless it was seen before. The table stays bounded. */
    method FirstUse(nonce: Nonce, timestamp: nat, now: nat) returns (first: bool)
      requires |seen| <= MAX_NONCES
      modifies this
      ensures |seen| <= MAX_NONCES
      ensures first <==> nonce !in Trimmed(old(seen), now)
      ensures seen == if first then Trimmed(old(seen), now)[nonce := timestamp] else Trimmed(old(seen), now)
    {
      Trim(now);
      hide Trimmed;
      first := nonce !in seen;
      if first {
        OneMore(seen, nonce, timestamp);
        seen := seen[nonce := timestamp];
      }
    }
  }

  /**
   * Exactly when a request that is remembered and fresh is accepted again: the table is full of nonces that are fresh
   * too, and at most half of those are older.
   */
  lemma AcceptedAgainIff(seen: Seen, nonce: Nonce, now: nat)
    requires nonce in seen && Fresh(seen[nonce], now)
    ensures nonce !in Trimmed(seen, now)
       <==> Overflows(seen, now) && |Below(Swept(seen, now), seen[nonce])| <= |Swept(seen, now)| / 2
  {
    var freshOnes := Swept(seen, now);
    assert nonce in freshOnes;
    AtOrBeforeMedian(freshOnes, Median(freshOnes), seen[nonce]);
  }

  // --- Every run -------------------------------------------------------------------------------------------------

  /** A request under way: it read the clock and was fresh, and comes to the table later. */
  datatype Call = Call(nonce: Nonce, timestamp: nat, now: nat)

  /**
   * The table, the requests on their way to it, the requests accepted, the latest clock a sweep of the table was made
   * with, and what was forgotten with the oldest half.
   */
  datatype Sys = Sys(seen: Seen, calls: map<nat, Call>, accepted: seq<(Nonce, nat)>, sweptAt: nat,
                     forgotten: set<(Nonce, nat)>)

  /** A request with the right proof reads the clock, or comes to the table. */
  datatype Step = Check(id: nat, nonce: Nonce, timestamp: nat, now: nat) | Record(id: nat)

  const INIT := Sys(map[], map[], [], 0, {})

  function Max(a: nat, b: nat): nat { if a < b then b else a }

  /** What the oldest half takes with it. */
  ghost function Lost(seen: Seen, now: nat): set<(Nonce, nat)> {
    set n | n in seen && seen[n] + MAX_SKEW_MS >= now && n !in Trimmed(seen, now) :: (n, seen[n])
  }

  ghost predicate Accepts(s: Sys, id: nat) {
    id in s.calls && s.calls[id].nonce !in Trimmed(s.seen, s.calls[id].now)
  }

  ghost function DoRecord(s: Sys, id: nat): Sys
    requires id in s.calls
  {
    var c := s.calls[id];
    var kept := Trimmed(s.seen, c.now);
    var first := c.nonce !in kept;
    Sys(if first then kept[c.nonce := c.timestamp] else kept, s.calls - {id},
        if first then s.accepted + [(c.nonce, c.timestamp)] else s.accepted,
        if |s.seen| >= MAX_NONCES then Max(s.sweptAt, c.now) else s.sweptAt, s.forgotten + Lost(s.seen, c.now))
  }

  ghost function Take(s: Sys, step: Step): Sys {
    match step
    case Check(id, nonce, timestamp, now) =>
      if id in s.calls || !Fresh(timestamp, now) then s else s.(calls := s.calls[id := Call(nonce, timestamp, now)])
    case Record(id) => if id in s.calls then DoRecord(s, id) else s
  }

  ghost function Run(s: Sys, steps: seq<Step>): Sys
    decreases |steps|
  {
    if steps == [] then s else Run(Take(s, steps[0]), steps[1..])
  }

  /** Every reading of the clock is at least the ones before it. */
  predicate NonDecreasing(steps: seq<Step>, now: nat) {
    steps == []
    || (if steps[0].Record? then NonDecreasing(steps[1..], now)
        else steps[0].now >= now && NonDecreasing(steps[1..], steps[0].now))
  }

  /** A request comes to the table with a clock at most so many milliseconds behind a sweep of it. */
  predicate InTime(s: Sys, step: Step, slack: nat) {
    step.Record? && step.id in s.calls ==> s.calls[step.id].now + slack >= s.sweptAt
  }

  ghost predicate AllInTime(s: Sys, steps: seq<Step>, slack: nat)
    decreases |steps|
  {
    steps == [] || (InTime(s, steps[0], slack) && AllInTime(Take(s, steps[0]), steps[1..], slack))
  }

  /** When the table is full, at most so many of its nonces are fresh. */
  predicate Roomy(s: Sys, step: Step, most: nat) {
    step.Record? && step.id in s.calls && |s.seen| >= MAX_NONCES ==> |Swept(s.seen, s.calls[step.id].now)| <= most
  }

  ghost predicate AllRoomy(s: Sys, steps: seq<Step>, most: nat)
    decreases |steps|
  {
    steps == [] || (Roomy(s, steps[0], most) && AllRoomy(Take(s, steps[0]), steps[1..], most))
  }

  /** A request that was accepted is remembered, or went with the oldest half, or was stale at the latest sweep. */
  ghost predicate Remembered(s: Sys, a: (Nonce, nat)) {
    (a.0 in s.seen && s.seen[a.0] == a.1) || a in s.forgotten || a.1 + MAX_SKEW_MS < s.sweptAt
  }

  ghost predicate Inv(s: Sys) {
    && (forall i :: 0 <= i < |s.accepted| ==> Remembered(s, s.accepted[i]))
    && (forall id :: id in s.calls ==> Fresh(s.calls[id].timestamp, s.calls[id].now))
  }

  /** Trimming only loses what is stale or what the oldest half takes with it, and changes no time. */
  lemma TrimLoses(seen: Seen, now: nat, n: Nonce)
    requires n in seen
    ensures n in Trimmed(seen, now) ==> Trimmed(seen, now)[n] == seen[n]
    ensures n !in Trimmed(seen, now) ==>
              (|seen| >= MAX_NONCES && seen[n] + MAX_SKEW_MS < now) || (n, seen[n]) in Lost(seen, now)
  {
  }

  lemma NothingLost(seen: Seen, now: nat)
    requires !Overflows(seen, now)
    ensures Lost(seen, now) == {}
  {
  }

  /** Without an overflow, only the stale nonces of a full table are forgotten. */
  lemma TrimsStale(seen: Seen, now: nat)
    requires !Overflows(seen, now)
    ensures Trimmed(seen, now) == if |seen| < MAX_NONCES then seen else Swept(seen, now)
  {
  }

  /** A nonce the trimmed table does not have is recorded. */
  lemma RecordsFirst(s: Sys, id: nat, c: Call, kept: Seen)
    requires id in s.calls && s.calls[id] == c && kept == Trimmed(s.seen, c.now) && c.nonce !in kept
    requires Lost(s.seen, c.now) == {}
    ensures Take(s, Record(id))
         == Sys(kept[c.nonce := c.timestamp], s.calls - {id}, s.accepted + [(c.nonce, c.timestamp)],
                if |s.seen| >= MAX_NONCES then Max(s.sweptAt, c.now) else s.sweptAt, s.forgotten)
  {
    hide Trimmed, Lost;
    assert s.forgotten + {} == s.forgotten;
  }

  lemma RecordRemembers(s: Sys, id: nat, a: (Nonce, nat))
    requires id in s.calls && Remembered(s, a)
    ensures Remembered(DoRecord(s, id), a)
  {
    if a.0 in s.seen && s.seen[a.0] == a.1 { TrimLoses(s.seen, s.calls[id].now, a.0); }
    hide Trimmed, Lost;
  }

  lemma StepKeepsInv(s: Sys, step: Step)
    requires Inv(s)
    ensures Inv(Take(s, step))
  {
    var t := Take(s, step);
    if step.Record? && step.id in s.calls {
      forall i | 0 <= i < |t.accepted| ensures Remembered(t, t.accepted[i]) {
        if i < |s.accepted| { RecordRemembers(s, step.id, s.accepted[i]); }
      }
    } else {
      forall i | 0 <= i < |t.accepted| ensures Remembered(t, t.accepted[i]) { assert Remembered(s, s.accepted[i]); }
    }
  }

  lemma {:induction false} RunKeepsInv(s: Sys, steps: seq<Step>)
    requires Inv(s)
    ensures Inv(Run(s, steps))
    decreases |steps|
  {
    hide Inv, Take;
    if steps != [] {
      StepKeepsInv(s, steps[0]);
      RunKeepsInv(Take(s, steps[0]), steps[1..]);
    }
  }

  lemma AcceptedAgainFrom(s: Sys, id: nat, i: nat)
    requires Inv(s) && Accepts(s, id) && s.calls[id].now >= s.sweptAt
    requires i < |s.accepted| && s.accepted[i] == (s.calls[id].nonce, s.calls[id].timestamp)
    ensures s.accepted[i] in DoRecord(s, id).forgotten
  {
    var c := s.calls[id];
    assert Remembered(s, s.accepted[i]);
    if c.nonce in s.seen && s.seen[c.nonce] == c.timestamp { TrimLoses(s.seen, c.now, c.nonce); }
    hide Trimmed, Lost;
  }

  /** In every run, a request that comes to the table in time is accepted again only if it went with the oldest half. */
  lemma AcceptedAgainWasForgotten(steps: seq<Step>, id: nat, i: nat)
    requires var s := Run(INIT, steps);
             && Accepts(s, id) && InTime(s, Record(id), 0)
             && i < |s.accepted| && s.accepted[i] == (s.calls[id].nonce, s.calls[id].timestamp)
    ensures var s := Run(INIT, steps); s.accepted[i] in Take(s, Record(id)).forgotten
  {
    RunKeepsInv(INIT, steps);
    AcceptedAgainFrom(Run(INIT, steps), id, i);
  }

  ghost predicate AllDistinct(accepted: seq<(Nonce, nat)>) {
    forall i, j :: 0 <= i < j < |accepted| ==> accepted[i] != accepted[j]
  }

  lemma StepNeverRepeats(s: Sys, step: Step, most: nat)
    requires Inv(s) && s.forgotten == {} && AllDistinct(s.accepted) && InTime(s, step, 0) && Roomy(s, step, most)
    requires most < MAX_NONCES
    ensures Take(s, step).forgotten == {} && AllDistinct(Take(s, step).accepted)
  {
    if step.Record? && step.id in s.calls {
      var c := s.calls[step.id];
      NothingLost(s.seen, c.now);
      forall i | 0 <= i < |s.accepted| && Accepts(s, step.id) ensures s.accepted[i] != (c.nonce, c.timestamp) {
        if s.accepted[i] == (c.nonce, c.timestamp) { AcceptedAgainFrom(s, step.id, i); }
      }
    }
    hide Trimmed, Lost, Inv, Overflows;
  }

  lemma {:induction false} RunNeverRepeats(s: Sys, steps: seq<Step>, most: nat)
    requires Inv(s) && s.forgotten == {} && AllDistinct(s.accepted)
    requires AllInTime(s, steps, 0) && AllRoomy(s, steps, most) && most < MAX_NONCES
    ensures AllDistinct(Run(s, steps).accepted)
    decreases |steps|
  {
    hide Inv, Take, AllDistinct, InTime, Roomy;
    if steps != [] {
      StepKeepsInv(s, steps[0]);
      StepNeverRepeats(s, steps[0], most);
      RunNeverRepeats(Take(s, steps[0]), steps[1..], most);
    }
  }

  /**
   * While the fresh nonces fit and requests come to the table in time, none is accepted twice, whatever was evicted.
   */
  lemma NoReplay(steps: seq<Step>, most: nat)
    requires AllInTime(INIT, steps, 0) && AllRoomy(INIT, steps, most) && most < MAX_NONCES
    ensures AllDistinct(Run(INIT, steps).accepted)
  {
    RunNeverRepeats(INIT, steps, most);
  }

  // --- What is accepted ------------------------------------------------------------------------------------------

  /** Whoever is on its way to the table was fresh: within 30 seconds of the clock, before or after it. */
  ghost predicate Checked(s: Sys) {
    && (forall id :: id in s.calls ==>
          s.calls[id].now <= s.calls[id].timestamp + 30_000 && s.calls[id].timestamp <= s.calls[id].now + 30_000)
    && (forall n :: n in s.seen ==> (n, s.seen[n]) in s.accepted)
  }

  lemma StepKeepsChecked(s: Sys, step: Step)
    requires Checked(s)
    ensures Checked(Take(s, step))
  {
    if step.Record? && step.id in s.calls {
      var kept := Trimmed(s.seen, s.calls[step.id].now);
      assert forall n :: n in kept ==> n in s.seen && kept[n] == s.seen[n];
    }
  }

  lemma {:induction false} RunKeepsChecked(s: Sys, steps: seq<Step>)
    requires Checked(s)
    ensures Checked(Run(s, steps))
    decreases |steps|
  {
    if steps != [] {
      StepKeepsChecked(s, steps[0]);
      RunKeepsChecked(Take(s, steps[0]), steps[1..]);
    }
  }

  /**
   * In every run, a request comes to the table iff its timestamp is within 30 seconds of the clock it read, and one
   * whose nonce was never accepted is.
   */
  lemma FirstUseIsAccepted(steps: seq<Step>, id: nat, nonce: Nonce, timestamp: nat, now: nat)
    requires var s := Run(INIT, steps);
             id !in s.calls && forall i :: 0 <= i < |s.accepted| ==> s.accepted[i].0 != nonce
    ensures var s := Run(INIT, steps); var t := Take(s, Check(id, nonce, timestamp, now));
            && (id in t.calls <==> now <= timestamp + 30_000 && timestamp <= now + 30_000)
            && (id in t.calls ==> Take(t, Record(id)).accepted == s.accepted + [(nonce, timestamp)])
  {
    RunKeepsChecked(INIT, steps);
    var s := Run(INIT, steps);
    var t := Take(s, Check(id, nonce, timestamp, now));
    if id in t.calls {
      var kept := Trimmed(s.seen, now);
      assert forall n :: n in kept ==> n in s.seen;
      assert nonce !in s.seen;
    }
  }
}

/** Runs in which a request is accepted twice, and so exactly which runs are safe (peer_auth.rs, cluster.rs). */
module NonceRuns {
  import opened Nonces

  // --- A full table ----------------------------------------------------------------------------------------------

  /** Nonces of their own length, so no two are equal. */
  function Name(i: nat): (n: Nonce)
    ensures |n| == i
  {
    seq(i, _ => 'n')
  }

  /** So many requests at clock 0, one after the other. */
  function Fill(n: nat): seq<Step> {
    if n == 0 then [] else Fill(n - 1) + [Check(n - 1, Name(n - 1), 0, 0), Record(n - 1)]
  }

  function Names(n: nat): Seen {
    if n == 0 then map[] else Names(n - 1)[Name(n - 1) := 0]
  }

  function Pairs(n: nat): seq<(Nonce, nat)> {
    if n == 0 then [] else Pairs(n - 1) + [(Name(n - 1), 0)]
  }

  lemma {:induction false} NamesAre(n: nat)
    ensures |Names(n)| == n && |Pairs(n)| == n && (n > 0 ==> Pairs(n)[0] == (Name(0), 0) && Name(0) in Names(n))
    ensures forall x :: x in Names(n) ==> |x| < n && Names(n)[x] == 0
  {
    if n > 0 {
      NamesAre(n - 1);
      OneMore(Names(n - 1), Name(n - 1), 0);
    }
  }

  function Filled(n: nat): Sys { Sys(Names(n), map[], Pairs(n), 0, {}) }

  /** A request that is not remembered, while the table has room. */
  lemma OneIsAccepted(s: Sys, id: nat, nonce: Nonce, timestamp: nat, now: nat)
    requires |s.seen| < MAX_NONCES && nonce !in s.seen && id !in s.calls && Fresh(timestamp, now)
    ensures var t := Take(s, Check(id, nonce, timestamp, now));
            && t == s.(calls := s.calls[id := Call(nonce, timestamp, now)])
            && Take(t, Record(id)) ==
                 s.(seen := s.seen[nonce := timestamp], accepted := s.accepted + [(nonce, timestamp)])
  {
    NothingLost(s.seen, now);
    TrimsStale(s.seen, now);
    var c := Call(nonce, timestamp, now);
    assert s.calls[id := c] - {id} == s.calls;
    hide Trimmed, Lost, Overflows, Swept, DoRecord;
    RecordsFirst(Take(s, Check(id, nonce, timestamp, now)), id, c, s.seen);
  }

  // --- Steps in turn -----------------------------------------------------------------------------------------------

  /** A run from a state to another, in time, with room, under a clock that never goes back. */
  ghost predicate Leads(s: Sys, steps: seq<Step>, t: Sys, slack: nat, most: nat, from: nat) {
    Run(s, steps) == t && AllInTime(s, steps, slack) && AllRoomy(s, steps, most) && NonDecreasing(steps, from)
  }

  lemma LeadsNowhere(s: Sys, slack: nat, most: nat, from: nat)
    ensures Leads(s, [], s, slack, most, from)
  {
  }

  /** One step more in front. */
  lemma LeadsByOne(s: Sys, step: Step, rest: seq<Step>, t: Sys, slack: nat, most: nat, from: nat)
    requires InTime(s, step, slack) && Roomy(s, step, most) && (step.Check? ==> step.now >= from)
    requires Leads(Take(s, step), rest, t, slack, most, if step.Check? then step.now else from)
    ensures Leads(s, [step] + rest, t, slack, most, from)
  {
    hide Take, InTime, Roomy;
    assert ([step] + rest)[1..] == rest;
  }

  lemma {:induction false} LeadsInTurn(s: Sys, a: seq<Step>, t: Sys, b: seq<Step>, u: Sys, slack: nat, most: nat,
                                       from: nat, until: nat)
    requires Leads(s, a, t, slack, most, from) && Leads(t, b, u, slack, most, until) && from <= until
    requires forall i :: 0 <= i < |a| && a[i].Check? ==> a[i].now <= until
    ensures Leads(s, a + b, u, slack, most, from)
    decreases |a|
  {
    hide Take, InTime, Roomy;
    if a == [] {
      assert a + b == b;
      ClockFrom(b, until, from);
    } else {
      var next := if a[0].Check? then a[0].now else from;
      assert Leads(Take(s, a[0]), a[1..], t, slack, most, next);
      LeadsInTurn(Take(s, a[0]), a[1..], t, b, u, slack, most, next, until);
      assert a + b == [a[0]] + (a[1..] + b);
      LeadsByOne(s, a[0], a[1..] + b, u, slack, most, from);
    }
  }

  lemma {:induction false} ClockFrom(steps: seq<Step>, now: nat, earlier: nat)
    requires NonDecreasing(steps, now) && earlier <= now
    ensures NonDecreasing(steps, earlier)
  {
    if steps != [] && steps[0].Record? { ClockFrom(steps[1..], now, earlier); }
  }

  lemma TwoSteps(a: Step, b: Step)
    ensures [a, b] == [a] + ([b] + [])
  {
  }

  /** Filling the table breaks no condition: there is always room. */
  lemma {:induction false} FillLeads(n: nat, slack: nat, most: nat)
    requires n <= MAX_NONCES
    ensures Leads(INIT, Fill(n), Filled(n), slack, most, 0)
    ensures forall i :: 0 <= i < |Fill(n)| && Fill(n)[i].Check? ==> Fill(n)[i].now == 0
  {
    if n == 0 {
      LeadsNowhere(INIT, slack, most, 0);
    } else {
      FillLeads(n - 1, slack, most);
      NamesAre(n - 1);
      var s := Filled(n - 1);
      var a, b := Check(n - 1, Name(n - 1), 0, 0), Record(n - 1);
      OneIsAccepted(s, n - 1, Name(n - 1), 0, 0);
      var t := Take(s, a);
      var u := Take(t, b);
      assert u == Filled(n);
      assert InTime(t, b, slack) && Roomy(t, b, most) && InTime(s, a, slack) && Roomy(s, a, most);
      LeadsNowhere(u, slack, most, 0);
      hide Leads, Take, InTime, Roomy;
      LeadsByOne(t, b, [], u, slack, most, 0);
      LeadsByOne(s, a, [b] + [], u, slack, most, 0);
      TwoSteps(a, b);
      LeadsInTurn(INIT, Fill(n - 1), s, [a, b], u, slack, most, 0, 0);
    }
  }

  /** What was led to after filling, with two more steps. */
  lemma AfterFilling(n: nat, a: Step, b: Step, rest: seq<Step>, u: Sys, slack: nat, most: nat)
    requires n <= MAX_NONCES && a.Check?
    requires InTime(Filled(n), a, slack) && Roomy(Filled(n), a, most)
    requires Leads(Take(Filled(n), a), [b] + rest, u, slack, most, a.now)
    ensures Leads(INIT, Fill(n) + ([a] + ([b] + rest)), u, slack, most, 0)
  {
    FillLeads(n, slack, most);
    hide Take, InTime, Roomy, Leads, Fill;
    LeadsByOne(Filled(n), a, [b] + rest, u, slack, most, 0);
    LeadsInTurn(INIT, Fill(n), Filled(n), [a] + ([b] + rest), u, slack, most, 0, 0);
  }

  // --- The oldest half ---------------------------------------------------------------------------------------------

  const REPLAY: Step := Check(0, Name(0), 0, 0)

  function OverflowRun(): seq<Step> { Fill(MAX_NONCES) + ([REPLAY] + ([Record(0)] + [])) }

  lemma FullTableForgets(n: nat)
    requires n == MAX_NONCES
    ensures var s := Take(Filled(n), REPLAY); var t := Take(s, Record(0));
            && s.calls == map[0 := Call(Name(0), 0, 0)] && s.seen == Names(n) && s.sweptAt == 0
            && |Swept(s.seen, 0)| == n && t.accepted == Pairs(n) + [(Name(0), 0)]
  {
    hide Names, Pairs;
    NamesAre(n);
    assert Swept(Names(n), 0) == Names(n);
    assert Below(Names(n), 0) == {};
    AcceptedAgainIff(Names(n), Name(0), 0);
    hide Trimmed, Lost, Names, Pairs, Overflows, Swept, Below;
  }

  /** A request comes again to a table full of fresh nonces: it is forgotten with the oldest half, and accepted. */
  lemma OverflowAcceptsReplay(slack: nat, most: nat)
    requires most >= MAX_NONCES
    ensures var t := Run(INIT, OverflowRun());
            && Leads(INIT, OverflowRun(), t, slack, most, 0)
            && |t.accepted| == MAX_NONCES + 1 && t.accepted[0] == t.accepted[MAX_NONCES]
  {
    hide Fill, Names, Pairs;
    var n := MAX_NONCES;
    FullTableForgets(n);
    NamesAre(n);
    var s := Take(Filled(n), REPLAY);
    var t := Take(s, Record(0));
    assert InTime(s, Record(0), slack) && Roomy(s, Record(0), most);
    hide Take, Fill, Trimmed, Names, Pairs;
    LeadsNowhere(t, slack, most, 0);
    LeadsByOne(s, Record(0), [], t, slack, most, 0);
    AfterFilling(n, REPLAY, Record(0), [], t, slack, most);
  }

  // --- A clock behind a sweep --------------------------------------------------------------------------------------

  /** The same request again, fresh for the last time, and another a millisecond later that overtakes it. */
  const LATE: Step := Check(0, Name(0), 0, MAX_SKEW_MS)
  const OVERTAKES: Step := Check(1, Name(MAX_NONCES), MAX_SKEW_MS + 1, MAX_SKEW_MS + 1)

  function LateRun(): seq<Step> { Fill(MAX_NONCES) + ([LATE] + ([OVERTAKES] + ([Record(1)] + ([Record(0)] + [])))) }

  lemma LateCalls(n: nat)
    requires n == MAX_NONCES
    ensures var s := Take(Take(Filled(n), LATE), OVERTAKES);
            && s.calls == map[0 := Call(Name(0), 0, MAX_SKEW_MS), 1 := Call(Name(n), MAX_SKEW_MS + 1, MAX_SKEW_MS + 1)]
            && s == Filled(n).(calls := s.calls)
  {
    hide Names, Pairs;
  }

  /** The sweep of the one that overtakes forgets everything, as it may: all of it is stale by its clock. */
  lemma LateSweep(n: nat)
    requires n == MAX_NONCES
    ensures var s := Take(Take(Filled(n), LATE), OVERTAKES); var t := Take(s, Record(1));
            && |Swept(s.seen, MAX_SKEW_MS + 1)| == 0 && t.seen == map[Name(n) := MAX_SKEW_MS + 1]
            && t.sweptAt == MAX_SKEW_MS + 1
            && t.calls == map[0 := Call(Name(0), 0, MAX_SKEW_MS)]
            && t.accepted == Pairs(n) + [(Name(n), MAX_SKEW_MS + 1)]
  {
    hide Names, Pairs;
    LateCalls(n);
    NamesAre(n);
    SweptAway(n);
    var s, c := Take(Take(Filled(n), LATE), OVERTAKES), Call(Name(n), MAX_SKEW_MS + 1, MAX_SKEW_MS + 1);
    assert map[0 := Call(Name(0), 0, MAX_SKEW_MS), 1 := c] - {1} == map[0 := Call(Name(0), 0, MAX_SKEW_MS)];
    hide *;
    RecordsFirst(s, 1, c, map[]);
  }

  lemma SweptAway(n: nat)
    requires n == MAX_NONCES
    ensures |Names(n)| == n && Swept(Names(n), MAX_SKEW_MS + 1) == map[] && Trimmed(Names(n), MAX_SKEW_MS + 1) == map[]
    ensures Lost(Names(n), MAX_SKEW_MS + 1) == {}
  {
    hide Names, Pairs;
    NamesAre(n);
    assert Swept(Names(n), MAX_SKEW_MS + 1) == map[];
    TrimsStale(Names(n), MAX_SKEW_MS + 1);
    NothingLost(Names(n), MAX_SKEW_MS + 1);
  }

  lemma LateIsAccepted(n: nat)
    requires n == MAX_NONCES
    ensures var t := Take(Take(Take(Filled(n), LATE), OVERTAKES), Record(1)); var u := Take(t, Record(0));
            u.accepted == (Pairs(n) + [(Name(n), MAX_SKEW_MS + 1)]) + [(Name(0), 0)]
  {
    hide Names, Pairs;
    LateSweep(n);
    var t := Take(Take(Take(Filled(n), LATE), OVERTAKES), Record(1));
    assert |t.seen.Keys| == 1 && Name(0) !in t.seen;
    TrimsStale(t.seen, MAX_SKEW_MS);
    hide Names, Pairs, Lost, Trimmed, Swept;
  }

  /** A request a millisecond behind the sweep of another is accepted again, though the fresh nonces fit. */
  lemma LateRunAcceptsReplay(slack: nat, most: nat)
    requires slack >= 1
    ensures var u := Run(INIT, LateRun());
            && Leads(INIT, LateRun(), u, slack, most, 0)
            && |u.accepted| == MAX_NONCES + 2 && u.accepted[0] == u.accepted[MAX_NONCES + 1]
  {
    hide Fill, Names, Pairs;
    var n, k := MAX_NONCES, MAX_SKEW_MS;
    LateCalls(n);
    LateSweep(n);
    LateIsAccepted(n);
    NamesAre(n);
    var s := Take(Filled(n), LATE);
    var t := Take(s, OVERTAKES);
    var u := Take(t, Record(1));
    var v := Take(u, Record(0));
    assert |u.seen.Keys| == 1;
    assert InTime(u, Record(0), slack) && Roomy(u, Record(0), most) && InTime(t, Record(1), slack)
           && Roomy(t, Record(1), most);
    hide Take, Fill, Names, Pairs;
    LeadsNowhere(v, slack, most, k + 1);
    LeadsByOne(u, Record(0), [], v, slack, most, k + 1);
    LeadsByOne(t, Record(1), [Record(0)] + [], v, slack, most, k + 1);
    LeadsByOne(s, OVERTAKES, [Record(1)] + ([Record(0)] + []), v, slack, most, k);
    AfterFilling(n, LATE, OVERTAKES, [Record(1)] + ([Record(0)] + []), v, slack, most);
  }

  // --- Exactly when ------------------------------------------------------------------------------------------------

  ghost predicate AcceptsOnce(steps: seq<Step>, slack: nat, most: nat) {
    NonDecreasing(steps, 0) && AllInTime(INIT, steps, slack) && AllRoomy(INIT, steps, most) ==>
      AllDistinct(Run(INIT, steps).accepted)
  }

  /**
   * Under a clock that never goes back, no request is accepted twice in any run iff none comes to the table with a
   * clock behind a sweep of it and a full table never holds as many fresh nonces as it has places.
   */
  lemma NoReplayIff(slack: nat, most: nat)
    ensures (forall steps :: AcceptsOnce(steps, slack, most)) <==> slack == 0 && most < MAX_NONCES
  {
    hide NonDecreasing, AllInTime, AllRoomy, Run, Fill;
    if slack == 0 && most < MAX_NONCES {
      forall steps ensures AcceptsOnce(steps, slack, most) {
        if AllInTime(INIT, steps, slack) && AllRoomy(INIT, steps, most) { NoReplay(steps, most); }
      }
    } else if slack > 0 {
      LateRunAcceptsReplay(slack, most);
      assert !AcceptsOnce(LateRun(), slack, most);
    } else {
      OverflowAcceptsReplay(slack, most);
      assert !AcceptsOnce(OverflowRun(), slack, most);
    }
  }
}

/**
 * A tunnel's bridges on one machine (service.rs): which routes each holds, which visitors it carries, and the IDs of
 * their connections.
 */
module Routing {
  import opened Common

  const MAX_TUNNEL_ROUTES: nat := 256
  const STALE_BRIDGE_MS: nat := 45_000 + 15_000
  const IDS: nat := 0x1_0000_0000

  datatype Bridge = Bridge(id: nat, attached: bool, detached: bool, routes: seq<string>, maxConns: Option<nat>,
                           seenAt: nat, channels: set<nat>, visitors: nat)

  predicate Live(b: Bridge) { b.attached && !b.detached }

  predicate Claims(b: Bridge, route: string) { Live(b) && route in b.routes }

  /** The visitors a bridge may carry: what its client advertised, at least one and at most the limit. */
  function ConnLimit(b: Bridge, limit: nat): nat {
    match b.maxConns
    case None => limit
    case Some(n) => if n < 1 then 1 else if n > limit then limit else n
  }

  function Apartness(a: nat, b: nat): nat { if a < b then b - a else a - b }

  /** It is the number from 1 to the limit nearest to what the client advertised, and the limit if it did not. */
  lemma ConnLimitIsNearest(b: Bridge, limit: nat)
    requires limit >= 1
    ensures 1 <= ConnLimit(b, limit) <= limit && (b.maxConns.None? ==> ConnLimit(b, limit) == limit)
    ensures b.maxConns.Some? ==> forall x: nat :: 1 <= x <= limit ==>
              Apartness(ConnLimit(b, limit), b.maxConns.value) <= Apartness(x, b.maxConns.value)
  {
  }

  function Routes(bs: seq<Bridge>): nat {
    if bs == [] then 0 else (if Live(bs[0]) then |bs[0].routes| else 0) + Routes(bs[1..])
  }

  function Visitors(bs: seq<Bridge>): nat {
    if bs == [] then 0 else bs[0].visitors + Visitors(bs[1..])
  }

  /** Every connection ID in use on the bridges. */
  function InUse(bs: seq<Bridge>): set<nat> {
    if bs == [] then {} else bs[0].channels + InUse(bs[1..])
  }

  /** Two bridges share no route while both live, and no connection. */
  ghost predicate Apart(a: Bridge, b: Bridge) {
    && a.id != b.id && a.channels !! b.channels
    && (Live(a) && Live(b) ==> forall r :: r in a.routes ==> r !in b.routes)
  }

  ghost predicate AllApart(bs: seq<Bridge>) { forall i, j :: 0 <= i < j < |bs| ==> Apart(bs[i], bs[j]) }

  ghost predicate Sound(b: Bridge, limit: nat) {
    b.visitors <= ConnLimit(b, limit) && (!b.attached ==> b.visitors == 0 && !b.detached)
    && (forall c :: c in b.channels ==> 0 < c < IDS)
  }

  ghost predicate AllSound(bs: seq<Bridge>, limit: nat) { forall i :: 0 <= i < |bs| ==> Sound(bs[i], limit) }

  // --- Lists of bridges ----------------------------------------------------------------------------------------

  lemma {:induction false} SumsUpdate(bs: seq<Bridge>, k: nat, b: Bridge)
    requires k < |bs|
    ensures Visitors(bs[k := b]) == Visitors(bs) - bs[k].visitors + b.visitors
    ensures Routes(bs[k := b]) == Routes(bs) - RoutesOf(bs[k]) + RoutesOf(b)
  {
    if k == 0 {
      assert bs[0 := b][1..] == bs[1..];
    } else {
      assert bs[k := b][1..] == bs[1..][k - 1 := b];
      SumsUpdate(bs[1..], k - 1, b);
    }
  }

  function RoutesOf(b: Bridge): nat { if Live(b) then |b.routes| else 0 }

  lemma {:induction false} SumsJoin(a: seq<Bridge>, b: seq<Bridge>)
    ensures Visitors(a + b) == Visitors(a) + Visitors(b) && Routes(a + b) == Routes(a) + Routes(b)
  {
    if a == [] {
      assert a + b == b;
    } else {
      assert (a + b)[1..] == a[1..] + b;
      SumsJoin(a[1..], b);
    }
  }

  lemma {:induction false} InUseIs(bs: seq<Bridge>, c: nat)
    ensures c in InUse(bs) <==> exists i :: 0 <= i < |bs| && c in bs[i].channels
  {
    if bs != [] {
      InUseIs(bs[1..], c);
      if c in InUse(bs[1..]) {
        var i :| 0 <= i < |bs[1..]| && c in bs[1..][i].channels;
        assert bs[i + 1] == bs[1..][i];
      }
      forall i | 0 <= i < |bs| && c in bs[i].channels ensures c in InUse(bs) {
        if i > 0 { assert bs[1..][i - 1] == bs[i]; }
      }
    }
  }

  /** A bridge that only gave things up is apart from whatever it was apart from. */
  ghost predicate GaveUp(b: Bridge, was: Bridge) {
    && b.id == was.id && b.routes == was.routes && (Live(b) ==> Live(was)) && b.channels <= was.channels
    && b.visitors <= was.visitors && b.maxConns == was.maxConns && b.attached == was.attached
    && (b.detached ==> b.attached)
  }

  lemma ReplaceKeepsApart(bs: seq<Bridge>, k: nat, b: Bridge)
    requires k < |bs| && AllApart(bs) && forall j :: 0 <= j < |bs| && j != k ==> Apart(b, bs[j])
    ensures AllApart(bs[k := b])
  {
  }

  lemma GivingUpKeepsApart(bs: seq<Bridge>, k: nat, b: Bridge)
    requires k < |bs| && AllApart(bs) && GaveUp(b, bs[k])
    ensures AllApart(bs[k := b])
  {
    forall j | 0 <= j < |bs| && j != k ensures Apart(b, bs[j]) {
      assert if j < k then Apart(bs[j], bs[k]) else Apart(bs[k], bs[j]);
    }
    hide Apart;
    ReplaceKeepsApart(bs, k, b);
  }

  /** The list without one bridge. */
  function Without(bs: seq<Bridge>, k: nat): seq<Bridge>
    requires k < |bs|
  {
    bs[..k] + bs[k + 1..]
  }

  lemma RemovalLowersSums(bs: seq<Bridge>, k: nat)
    requires k < |bs|
    ensures Routes(Without(bs, k)) <= Routes(bs) && Visitors(Without(bs, k)) <= Visitors(bs)
  {
    hide Routes, Visitors;
    assert bs == bs[..k] + ([bs[k]] + bs[k + 1..]);
    SumsJoin(bs[..k], [bs[k]] + bs[k + 1..]);
    SumsJoin([bs[k]], bs[k + 1..]);
    SumsJoin(bs[..k], bs[k + 1..]);
  }

  lemma RemovalKeepsApart(bs: seq<Bridge>, k: nat, limit: nat)
    requires k < |bs| && AllApart(bs) && AllSound(bs, limit)
    ensures AllApart(Without(bs, k)) && AllSound(Without(bs, k), limit)
  {
    hide Apart, Sound;
    var left := Without(bs, k);
    forall i, j | 0 <= i < j < |left| ensures Apart(left[i], left[j]) {
      var i', j' := if i < k then i else i + 1, if j < k then j else j + 1;
      assert left[i] == bs[i'] && left[j] == bs[j'];
    }
  }

  // --- Connection IDs ------------------------------------------------------------------------------------------

  /** The ID tried after so many. */
  function Candidate(start: nat, k: nat): nat { (start + k) % IDS }

  lemma CandidatesDiffer(start: nat, j: nat, k: nat)
    requires j < k < j + IDS
    ensures Candidate(start, j) != Candidate(start, k)
  {
    var a, b := start + j, start + k;
    assert b - a == IDS * (b / IDS - a / IDS) + (b % IDS - a % IDS);
  }

  lemma NextCandidate(start: nat, k: nat)
    ensures (Candidate(start, k) + 1) % IDS == Candidate(start, k + 1)
  {
  }

  /**
   * The first ID from `sequence` on, around the end of 32 bits, that is not 0 and not in use. The search ends
   * because fewer IDs are in use than there are.
   */
  method AllocateId(sequence: nat, used: set<nat>) returns (conn: nat, next: nat, ghost k: nat)
    requires sequence < IDS && |used| < IDS - 1
    ensures 0 < conn < IDS && conn !in used
    ensures k < IDS && conn == Candidate(sequence, k) && next == Candidate(sequence, k + 1)
    ensures forall j :: 0 <= j < k ==> Candidate(sequence, j) == 0 || Candidate(sequence, j) in used
  {
    next := sequence;
    k := 0;
    ghost var tried: set<nat> := {};
    while true
      invariant next == Candidate(sequence, k) && |tried| == k <= |used| + 1
      invariant tried <= used + {0}
      invariant forall j :: 0 <= j < k ==> Candidate(sequence, j) in tried
      invariant forall c :: c in tried ==> exists j :: 0 <= j < k && c == Candidate(sequence, j)
      decreases |used| + 1 - k
    {
      conn := next;
      NextCandidate(sequence, k);
      next := (next + 1) % IDS;
      if conn != 0 && conn !in used {
        break;
      }
      forall j | 0 <= j < k ensures Candidate(sequence, j) != conn { CandidatesDiffer(sequence, j, k); }
      hide Candidate;
      assert conn !in tried;
      tried := tried + {conn};
      SubsetIsSmaller(tried, used + {0});
      k := k + 1;
    }
  }
}

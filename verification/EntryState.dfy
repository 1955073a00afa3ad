/** A tunnel's entry on one machine, updated in place by attaches, visitors and closes (service.rs). */
module EntryState {
  import opened Common
  import opened Routing

  datatype Attach = Attached | Refused(code: string)
  datatype Rejection = NoTunnel | CertificateNotReady | UnknownRoute | NoBridge | TooManyConnections
  datatype Routed = To(bridge: nat, conn: nat) | Rejected(outcome: Rejection)

  function Retire(b: Bridge, now: nat): Bridge {
    if Live(b) && now > b.seenAt + STALE_BRIDGE_MS then b.(detached := true, channels := {}) else b
  }

  /** The bridges once those whose client is gone are retired. */
  function Retired(bs: seq<Bridge>, now: nat): (r: seq<Bridge>)
    ensures |r| == |bs| && forall i :: 0 <= i < |bs| ==> r[i] == Retire(bs[i], now)
  {
    if bs == [] then [] else [Retire(bs[0], now)] + Retired(bs[1..], now)
  }

  /** The routes that attached bridges other than this one hold. */
  function HeldByOthers(bs: seq<Bridge>, id: nat): nat {
    if bs == [] then 0 else (if Live(bs[0]) && bs[0].id != id then |bs[0].routes| else 0) + HeldByOthers(bs[1..], id)
  }

  ghost predicate Conflict(bs: seq<Bridge>, id: nat, routes: seq<string>) {
    exists i :: 0 <= i < |bs| && bs[i].id != id && SharesRoute(bs[i], routes)
  }

  predicate SharesRoute(b: Bridge, routes: seq<string>) { exists r :: r in routes && Claims(b, r) }

  class Entry {
    const connsPerBridge: nat
    const connsPerTunnel: nat
    var bridges: seq<Bridge>
    /** The next connection ID to try. */
    var sequence: nat

    /**
     * No two live bridges claim one route, claimed routes total at most 256, every bridge and the tunnel are within
     * their visitor limits, and connection IDs are nonzero and used once.
     */
    ghost predicate Valid()
      reads this
    {
      && connsPerBridge >= 1 && connsPerTunnel >= 1 && sequence < IDS
      && AllApart(bridges) && AllSound(bridges, connsPerBridge)
      && Routes(bridges) <= MAX_TUNNEL_ROUTES && Visitors(bridges) <= connsPerTunnel
    }

    constructor (connsPerBridge: nat, connsPerTunnel: nat)
      requires connsPerBridge >= 1 && connsPerTunnel >= 1
      ensures Valid() && bridges == []
    {
      this.connsPerBridge, this.connsPerTunnel := connsPerBridge, connsPerTunnel;
      bridges, sequence := [], 0;
    }

    /** A bridge that has not attached yet; its ID was never used. */
    method RegisterBridge(id: nat, now: nat)
      requires Valid() && forall i :: 0 <= i < |bridges| ==> bridges[i].id != id
      modifies this
      ensures Valid() && bridges == old(bridges) + [Bridge(id, false, false, [], None, now, {}, 0)]
      ensures sequence == old(sequence)
    {
      var b := Bridge(id, false, false, [], None, now, {}, 0);
      SumsJoin(bridges, [b]);
      assert [b][1..] == [];
      bridges := bridges + [b];
    }

    /** The client of a bridge was heard from. */
    method Touch(k: nat, now: nat)
      requires Valid() && k < |bridges|
      modifies this`bridges
      ensures Valid() && bridges == old(bridges)[k := old(bridges)[k].(seenAt := now)]
    {
      ReplaceShrunk(k, bridges[k].(seenAt := now));
    }

    /** Puts a bridge back that only gave things up. */
    method ReplaceShrunk(k: nat, b: Bridge)
      requires Valid() && k < |bridges| && GaveUp(b, bridges[k])
      modifies this`bridges
      ensures Valid() && bridges == old(bridges)[k := b]
    {
      SumsUpdate(bridges, k, b);
      GivingUpKeepsApart(bridges, k, b);
      hide Routes, Visitors, AllApart;
      assert Sound(bridges[k], connsPerBridge);
      bridges := bridges[k := b];
    }

    /** Retires attached bridges not heard from for too long, ending their visitors' connections. */
    method RetireStale(now: nat)
      requires Valid()
      modifies this`bridges
      ensures Valid() && bridges == Retired(old(bridges), now) && |bridges| == |old(bridges)|
      ensures forall i :: 0 <= i < |bridges| ==>
                if Live(old(bridges)[i]) && now > old(bridges)[i].seenAt + 60_000
                then bridges[i].channels == {} && forall r :: !Claims(bridges[i], r)
                else bridges[i] == old(bridges)[i]
    {
      for k := 0 to |bridges|
        invariant Valid() && |bridges| == |old(bridges)|
        invariant forall i :: 0 <= i < k ==> bridges[i] == Retire(old(bridges)[i], now)
        invariant forall i :: k <= i < |bridges| ==> bridges[i] == old(bridges)[i]
      {
        if Live(bridges[k]) && now > bridges[k].seenAt + STALE_BRIDGE_MS {
          ReplaceShrunk(k, bridges[k].(detached := true, channels := {}));
        }
      }
    }

    /** A visitor ended, and gives its place back. */
    method VisitorEnded(k: nat)
      requires Valid() && k < |bridges| && bridges[k].visitors > 0
      modifies this`bridges
      ensures Valid() && bridges == old(bridges)[k := old(bridges)[k].(visitors := old(bridges)[k].visitors - 1)]
    {
      ReplaceShrunk(k, bridges[k].(visitors := bridges[k].visitors - 1));
    }

    /** A connection leaves its bridge: its client ended or reset it, or it was reset. */
    method ChannelEnded(k: nat, conn: nat)
      requires Valid() && k < |bridges|
      modifies this`bridges
      ensures Valid() && bridges == old(bridges)[k := old(bridges)[k].(channels := old(bridges)[k].channels - {conn})]
    {
      ReplaceShrunk(k, bridges[k].(channels := bridges[k].channels - {conn}));
    }

    /** A bridge's socket closed. */
    method BridgeClosed(k: nat)
      requires Valid() && k < |bridges|
      modifies this`bridges
      ensures Valid() && bridges == Without(old(bridges), k)
    {
      RemovalLowersSums(bridges, k);
      RemovalKeepsApart(bridges, k, connsPerBridge);
      hide Routes, Visitors, AllApart, AllSound;
      bridges := Without(bridges, k);
    }

    // --- Attaching -------------------------------------------------------------------------------------------

    /** The routes that other attached bridges hold, added up. */
    method CountHeld(id: nat) returns (held: nat)
      ensures held == HeldByOthers(bridges, id)
    {
      held := 0;
      for k := 0 to |bridges|
        invariant held + HeldByOthers(bridges[k..], id) == HeldByOthers(bridges, id)
      {
        if Live(bridges[k]) && bridges[k].id != id {
          held := held + |bridges[k].routes|;
        }
        assert bridges[k..][1..] == bridges[k + 1..];
      }
    }

    method FindConflict(id: nat, routes: seq<string>) returns (conflict: bool)
      ensures conflict <==> Conflict(bridges, id, routes)
    {
      for k := 0 to |bridges|
        invariant forall i :: 0 <= i < k && bridges[i].id != id ==> !SharesRoute(bridges[i], routes)
      {
        if bridges[k].id != id && exists r :: r in routes && Claims(bridges[k], r) {
          return true;
        }
      }
      conflict := false;
    }

    /**
     * Attaches a bridge for its routes. It is refused exactly when the caller may not, the routes are not valid,
     * they are more than the tunnel has left, another live bridge here claims one, or another machine does.
     */
    method AttachBridge(k: nat, authorized: bool, ready: bool, routes: seq<string>, valid: bool, elsewhere: bool,
                        maxConns: Option<nat>, now: nat) returns (a: Attach)
      requires Valid() && k < |bridges| && !bridges[k].attached
      modifies this`bridges
      ensures Valid()
      ensures var bs := Retired(old(bridges), now); var id := bs[k].id;
              if !authorized then a == Refused("bad_token") && bridges == old(bridges)
              else if !ready then a == Refused("cert_not_ready") && bridges == old(bridges)
              else if routes == [] || !valid then a == Refused("invalid_route") && bridges == old(bridges)
              else if HeldByOthers(bs, id) + |routes| > 256 then
                a == Refused("too_many_routes") && bridges == bs
              else if Conflict(bs, id, routes) || elsewhere then a == Refused("route_conflict") && bridges == bs
              else a == Attached && bridges == bs[k := AttachedFor(bs[k], routes, maxConns, now)]
      ensures NoMore(old(bridges), bridges)
      ensures a == Attached ==> OnlyThisGoesLive(old(bridges), bridges, k, routes, maxConns, now)
    {
      assert Sound(bridges[k], connsPerBridge);
      ghost var was := bridges;
      RetiredAreNoMore(was, now);
      ThisGoesLive(was, k, routes, maxConns, now);
      hide NoMore, OnlyThisGoesLive, Claims, Live;
      if !authorized {
        return Refused("bad_token");
      }
      if !ready {
        return Refused("cert_not_ready");
      }
      if routes == [] || !valid {
        return Refused("invalid_route");
      }
      RetireStale(now);
      hide Retired;
      var id := bridges[k].id;
      var held := CountHeld(id);
      if held + |routes| > MAX_TUNNEL_ROUTES {
        return Refused("too_many_routes");
      }
      var conflict := FindConflict(id, routes);
      if conflict || elsewhere {
        return Refused("route_conflict");
      }
      Commit(k, routes, maxConns, now);
      a := Attached;
    }

    /** A bridge goes live with routes that fit and that no other claims. */
    method Commit(k: nat, routes: seq<string>, maxConns: Option<nat>, now: nat)
      requires Valid() && k < |bridges| && !bridges[k].attached
      requires HeldByOthers(bridges, bridges[k].id) + |routes| <= MAX_TUNNEL_ROUTES
      requires !Conflict(bridges, bridges[k].id, routes)
      modifies this`bridges
      ensures Valid() && bridges == old(bridges)[k := AttachedFor(old(bridges)[k], routes, maxConns, now)]
    {
      var b := AttachedFor(bridges[k], routes, maxConns, now);
      SumsUpdate(bridges, k, b);
      OthersHold(bridges, k);
      assert Sound(bridges[k], connsPerBridge);
      forall j | 0 <= j < |bridges| && j != k ensures Apart(b, bridges[j]) {
        assert if j < k then Apart(bridges[j], bridges[k]) else Apart(bridges[k], bridges[j]);
        assert !SharesRoute(bridges[j], routes);
      }
      ReplaceKeepsApart(bridges, k, b);
      hide Routes, Visitors, AllApart, HeldByOthers;
      bridges := bridges[k := b];
    }

    // --- Visitors --------------------------------------------------------------------------------------------

    method FindBridge(route: string) returns (k: nat)
      ensures k <= |bridges| && (k < |bridges| ==> Claims(bridges[k], route))
      ensures k == |bridges| ==> forall i :: 0 <= i < |bridges| ==> !Claims(bridges[i], route)
    {
      k := 0;
      while k < |bridges| && !Claims(bridges[k], route)
        invariant k <= |bridges| && forall i :: 0 <= i < k ==> !Claims(bridges[i], route)
      {
        k := k + 1;
      }
    }

    method CountVisitors() returns (n: nat)
      ensures n == Visitors(bridges)
    {
      n := 0;
      for k := 0 to |bridges|
        invariant n + Visitors(bridges[k..]) == Visitors(bridges)
      {
        n := n + bridges[k].visitors;
        assert bridges[k..][1..] == bridges[k + 1..];
      }
    }

    /**
     * Finds a public connection its bridge, or says why there is none: the tunnel has no record, and then nothing is
     * looked at, or the first reason that holds of its certificate, route, bridges and limits.
     */
    method Route(known: bool, route: Option<string>, dotted: bool, ready: bool, now: nat)
      returns (r: Routed, ghost k: nat, ghost tries: nat)
      requires Valid() && |InUse(Retired(bridges, now))| < IDS - 1
      modifies this
      ensures Valid()
      ensures r == Rejected(NoTunnel) <==> !known
      ensures !known ==> bridges == old(bridges) && sequence == old(sequence)
      ensures known ==> Outcome(Retired(old(bridges), now), k, route, dotted, ready, r, old(sequence), tries)
      ensures known && ready && route.Some? && !dotted ==>
                GoesWhereClaimed(old(bridges), route.value, now, connsPerBridge, connsPerTunnel, r)
    {
      ghost var bs := bridges;
      hide AllApart, AllSound, Routes, Visitors, InUse, Retired, Chosen, Placed, GoesWhereClaimed;
      if !known {
        return Rejected(NoTunnel), 0, 0;
      }
      r, k, tries := RouteTunnel(route, dotted, ready, now);
      if ready && route.Some? && !dotted {
        ChosenGoesWhereClaimed(bs, k, route.value, now, connsPerBridge, connsPerTunnel, r);
      }
    }

    /**
     * The choice is the one the bridges call for; a connection
     * that has one is placed there, and otherwise nothing changes.
     */
    ghost predicate Outcome(bs: seq<Bridge>, k: nat, route: Option<string>, dotted: bool, ready: bool, r: Routed,
                            first: nat, tries: nat)
      reads this
    {
      && k <= |bs| && Chosen(bs, k, route, dotted, ready, connsPerBridge, connsPerTunnel, r)
      && if r.To? then k < |bs| && Placed(bs, k, r, first, tries, bridges, sequence)
         else bridges == bs && sequence == first
    }

    method RouteTunnel(route: Option<string>, dotted: bool, ready: bool, now: nat)
      returns (r: Routed, ghost k: nat, ghost tries: nat)
      requires Valid() && |InUse(Retired(bridges, now))| < IDS - 1
      modifies this
      ensures Valid() && r != Rejected(NoTunnel)
      ensures Outcome(Retired(old(bridges), now), k, route, dotted, ready, r, old(sequence), tries)
    {
      RetireStale(now);
      tries := 0;
      var rejection, at := Choose(route, dotted, ready);
      k := at;
      hide Retired, InUse, Chosen, Claims;
      if rejection.Some? {
        return Rejected(rejection.value), k, tries;
      }
      var conn;
      conn, tries := PlaceOn(at);
      r := To(bridges[at].id, conn);
    }

    /** The bridge for a connection, or why there is none. */
    method Choose(route: Option<string>, dotted: bool, ready: bool) returns (rejection: Option<Rejection>, at: nat)
      ensures at <= |bridges| && rejection != Some(NoTunnel)
      ensures match rejection
              case Some(why) => Chosen(bridges, at, route, dotted, ready, connsPerBridge, connsPerTunnel, Rejected(why))
              case None =>
                && at < |bridges| && Live(bridges[at])
                && bridges[at].visitors < ConnLimit(bridges[at], connsPerBridge) && Visitors(bridges) < connsPerTunnel
                && forall conn ::
                     Chosen(bridges, at, route, dotted, ready, connsPerBridge, connsPerTunnel, To(bridges[at].id, conn))
    {
      hide Visitors;
      at := |bridges|;
      if !ready {
        return Some(CertificateNotReady), at;
      }
      if route.None? || dotted {
        return Some(UnknownRoute), at;
      }
      at := FindBridge(route.value);
      if at == |bridges| {
        return Some(NoBridge), at;
      }
      var total := CountVisitors();
      if bridges[at].visitors >= ConnLimit(bridges[at], connsPerBridge) || total >= connsPerTunnel {
        return Some(TooManyConnections), at;
      }
      rejection := None;
    }

    /** Gives a connection the first free ID and a place on a bridge that has room. */
    method PlaceOn(k: nat) returns (conn: nat, ghost tries: nat)
      requires Valid() && k < |bridges| && Live(bridges[k]) && |InUse(bridges)| < IDS - 1
      requires bridges[k].visitors < ConnLimit(bridges[k], connsPerBridge) && Visitors(bridges) < connsPerTunnel
      modifies this
      ensures Valid() && Placed(old(bridges), k, To(old(bridges)[k].id, conn), old(sequence), tries, bridges, sequence)
    {
      hide InUse, Visitors, Routes, AllApart, AllSound, Candidate;
      var next;
      conn, next, tries := AllocateId(sequence, InUse(bridges));
      CandidateIsId(sequence, tries + 1);
      sequence := next;
      AddVisitor(k, conn);
    }

    /** A visitor joins a bridge under an ID that is free on all bridges. */
    method AddVisitor(k: nat, conn: nat)
      requires Valid() && k < |bridges| && Live(bridges[k]) && 0 < conn < IDS && conn !in InUse(bridges)
      requires bridges[k].visitors < ConnLimit(bridges[k], connsPerBridge) && Visitors(bridges) < connsPerTunnel
      modifies this`bridges
      ensures Valid()
      ensures bridges ==
                old(bridges)[k := old(bridges)[k].(visitors := old(bridges)[k].visitors + 1,
                                                   channels := old(bridges)[k].channels + {conn})]
    {
      var b := bridges[k].(visitors := bridges[k].visitors + 1, channels := bridges[k].channels + {conn});
      SumsUpdate(bridges, k, b);
      assert Sound(bridges[k], connsPerBridge);
      InUseIs(bridges, conn);
      forall j | 0 <= j < |bridges| && j != k ensures Apart(b, bridges[j]) {
        assert if j < k then Apart(bridges[j], bridges[k]) else Apart(bridges[k], bridges[j]);
      }
      ReplaceKeepsApart(bridges, k, b);
      hide Routes, Visitors, AllApart, InUse;
      bridges := bridges[k := b];
    }
  }

  /** Why a connection was rejected, or that the bridge at `k` claims its route and has room for it. */
  ghost predicate Chosen(bs: seq<Bridge>, k: nat, route: Option<string>, dotted: bool, ready: bool, perBridge: nat,
                         perTunnel: nat, r: Routed)
    requires k <= |bs|
  {
    if !ready then r == Rejected(CertificateNotReady)
    else if route.None? || dotted then r == Rejected(UnknownRoute)
    else if k == |bs| then r == Rejected(NoBridge) && forall i :: 0 <= i < |bs| ==> !Claims(bs[i], route.value)
    else
      && Claims(bs[k], route.value)
      && if bs[k].visitors >= ConnLimit(bs[k], perBridge) || Visitors(bs) >= perTunnel
         then r == Rejected(TooManyConnections)
         else r.To? && r.bridge == bs[k].id
  }

  /** The bridge's client was heard from in the last minute, and it claims the route. */
  predicate Serves(b: Bridge, route: string, now: nat) { Claims(b, route) && now <= b.seenAt + 60_000 }

  /**
   * A connection for a route goes to the bridge that claims it, whichever that is, while the bridge has room for what
   * its client said and the tunnel for its limit; and finds none iff no bridge claims it.
   */
  ghost predicate GoesWhereClaimed(bs: seq<Bridge>, route: string, now: nat, perBridge: nat, perTunnel: nat,
                                   r: Routed) {
    && (forall i :: 0 <= i < |bs| && Serves(bs[i], route, now) ==>
          if bs[i].visitors < ConnLimit(bs[i], perBridge) && Visitors(bs) < perTunnel
          then r.To? && r.bridge == bs[i].id else r == Rejected(TooManyConnections))
    && (r == Rejected(NoBridge) <==> forall i :: 0 <= i < |bs| ==> !Serves(bs[i], route, now))
  }

  lemma {:induction false} RetiredKeepVisitors(bs: seq<Bridge>, now: nat)
    ensures Visitors(Retired(bs, now)) == Visitors(bs)
  {
    if bs != [] { RetiredKeepVisitors(bs[1..], now); }
  }

  lemma ChosenGoesWhereClaimed(bs: seq<Bridge>, k: nat, route: string, now: nat, perBridge: nat, perTunnel: nat,
                               r: Routed)
    requires AllApart(bs) && k <= |bs| && Chosen(Retired(bs, now), k, Some(route), false, true, perBridge, perTunnel, r)
    ensures GoesWhereClaimed(bs, route, now, perBridge, perTunnel, r)
  {
    var rs := Retired(bs, now);
    RetiredKeepVisitors(bs, now);
    hide Visitors, Retired;
    forall i | 0 <= i < |bs| ensures Claims(rs[i], route) <==> Serves(bs[i], route, now) {}
    forall i, j | 0 <= i < j < |bs| ensures !(Claims(bs[i], route) && Claims(bs[j], route)) {
      assert Apart(bs[i], bs[j]);
    }
  }

  /**
   * A route a bridge has just attached for reaches it, for a minute without a word from its client and while both
   * limits have room.
   */
  method AttachThenRoute(e: Entry, k: nat, routes: seq<string>, maxConns: Option<nat>, now: nat, route: string,
                         later: nat)
    returns (a: Attach, r: Routed)
    requires e.Valid() && k < |e.bridges| && !e.bridges[k].attached && e.bridges[k].visitors == 0
    requires Visitors(e.bridges) < e.connsPerTunnel && now <= later <= now + 60_000
    requires |InUse(e.bridges)| < IDS - 1
    modifies e
    ensures e.Valid()
    ensures a == Attached && route in routes ==> r.To? && r.bridge == old(e.bridges)[k].id
  {
    ghost var was := e.bridges;
    a := e.AttachBridge(k, true, true, routes, true, false, maxConns, now);
    ghost var bs := e.bridges;
    hide *;
    AttachLeavesRoom(was, bs, later);
    ghost var at, tries;
    r, at, tries := e.Route(true, Some(route), false, true, later);
    if a == Attached && route in routes {
      RoutedThere(was[k], bs, k, routes, maxConns, now, route, later, e.connsPerBridge, e.connsPerTunnel, r);
    }
  }

  lemma RoutedThere(was: Bridge, bs: seq<Bridge>, k: nat, routes: seq<string>, maxConns: Option<nat>, now: nat,
                    route: string, later: nat, perBridge: nat, perTunnel: nat, r: Routed)
    requires k < |bs| && GoesLive(was, bs[k], routes, maxConns, now) && was.visitors == 0 && route in routes
    requires GoesWhereClaimed(bs, route, later, perBridge, perTunnel, r)
    requires Visitors(bs) < perTunnel && perBridge >= 1 && later <= now + 60_000
    ensures r.To? && r.bridge == was.id
  {
    hide Visitors;
    assert Serves(bs[k], route, later);
  }

  /** Bridges that only gave up connections. */
  ghost predicate NoMore(was: seq<Bridge>, bs: seq<Bridge>) {
    && |bs| == |was|
    && forall i :: 0 <= i < |bs| ==> bs[i].visitors == was[i].visitors && bs[i].channels <= was[i].channels
  }

  lemma {:induction false} SameVisitors(was: seq<Bridge>, bs: seq<Bridge>)
    requires NoMore(was, bs)
    ensures Visitors(bs) == Visitors(was)
  {
    if bs != [] { SameVisitors(was[1..], bs[1..]); }
  }

  /** Attaching takes no visitor's place and no connection ID. */
  lemma AttachLeavesRoom(was: seq<Bridge>, bs: seq<Bridge>, later: nat)
    requires NoMore(was, bs)
    ensures |InUse(Retired(bs, later))| <= |InUse(was)| && Visitors(bs) == Visitors(was)
  {
    hide InUse, Visitors;
    FewerInUse(was, bs);
    SameVisitors(was, bs);
    FewerInUse(bs, Retired(bs, later));
  }

  lemma FewerInUse(was: seq<Bridge>, bs: seq<Bridge>)
    requires |bs| == |was| && forall i :: 0 <= i < |bs| ==> bs[i].channels <= was[i].channels
    ensures |InUse(bs)| <= |InUse(was)|
  {
    forall c ensures c in InUse(bs) ==> c in InUse(was) {
      InUseIs(bs, c);
      InUseIs(was, c);
    }
    SubsetIsSmaller(InUse(bs), InUse(was));
  }

  /** The connection has a place on its bridge and the first free ID. */
  ghost predicate Placed(bs: seq<Bridge>, k: nat, r: Routed, sequence: nat, tries: nat, after: seq<Bridge>, next: nat)
    requires k < |bs| && r.To?
  {
    && 0 < r.conn < IDS && r.conn !in InUse(bs)
    && r.conn == Candidate(sequence, tries) && next == Candidate(sequence, tries + 1)
    && (forall j :: 0 <= j < tries ==> Candidate(sequence, j) == 0 || Candidate(sequence, j) in InUse(bs))
    && after == bs[k := bs[k].(visitors := bs[k].visitors + 1, channels := bs[k].channels + {r.conn})]
  }

  lemma CandidateIsId(start: nat, k: nat)
    ensures Candidate(start, k) < IDS
  {
  }

  /** The bridge claims exactly the routes asked for, carries as many as its client says, and is otherwise the same. */
  ghost predicate GoesLive(was: Bridge, b: Bridge, routes: seq<string>, maxConns: Option<nat>, now: nat) {
    && (forall r :: Claims(b, r) <==> r in routes) && b.maxConns == maxConns && b.seenAt == now
    && b.id == was.id && b.visitors == was.visitors && b.channels == was.channels
  }

  /** And no other bridge's claims change, but that those whose client was not heard from for a minute end. */
  ghost predicate OnlyThisGoesLive(was: seq<Bridge>, bs: seq<Bridge>, k: nat, routes: seq<string>,
                                   maxConns: Option<nat>, now: nat) {
    && k < |bs| == |was| && GoesLive(was[k], bs[k], routes, maxConns, now)
    && forall i, r :: 0 <= i < |bs| && i != k ==>
                        (Claims(bs[i], r) <==> Claims(was[i], r) && now <= was[i].seenAt + 60_000)
  }

  lemma RetiredAreNoMore(was: seq<Bridge>, now: nat)
    ensures NoMore(was, was) && NoMore(was, Retired(was, now))
  {
  }

  lemma ThisGoesLive(was: seq<Bridge>, k: nat, routes: seq<string>, maxConns: Option<nat>, now: nat)
    requires k < |was| && !was[k].attached && !was[k].detached
    ensures var bs := Retired(was, now)[k := AttachedFor(Retired(was, now)[k], routes, maxConns, now)];
            OnlyThisGoesLive(was, bs, k, routes, maxConns, now) && NoMore(was, bs)
  {
  }

  function AttachedFor(b: Bridge, routes: seq<string>, maxConns: Option<nat>, now: nat): Bridge {
    b.(attached := true, routes := routes, maxConns := maxConns, seenAt := now)
  }

  lemma {:induction false} NoneIsThis(bs: seq<Bridge>, id: nat)
    requires forall i :: 0 <= i < |bs| ==> bs[i].id != id
    ensures HeldByOthers(bs, id) == Routes(bs)
  {
    if bs != [] { NoneIsThis(bs[1..], id); }
  }

  /** What others hold is what all hold, without this one. */
  lemma {:induction false} OthersHold(bs: seq<Bridge>, k: nat)
    requires k < |bs| && AllApart(bs)
    ensures HeldByOthers(bs, bs[k].id) == Routes(bs) - RoutesOf(bs[k])
  {
    assert forall i :: 0 < i < |bs| ==> Apart(bs[0], bs[i]);
    if k == 0 {
      NoneIsThis(bs[1..], bs[0].id);
    } else {
      assert AllApart(bs[1..]) by {
        forall i, j | 0 <= i < j < |bs[1..]| ensures Apart(bs[1..][i], bs[1..][j]) {
          assert Apart(bs[i + 1], bs[j + 1]);
        }
      }
      OthersHold(bs[1..], k - 1);
      assert Apart(bs[0], bs[k]);
    }
  }
}

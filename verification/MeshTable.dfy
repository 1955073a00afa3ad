/**
 * What a machine knows of its peers (`Remote` in mesh.rs): one table of bridges per linked peer, and an index
 * from tunnels to the bridges that serve them. The functions give the meaning of each operation on the peers
 * alone; the class keeps the index beside them, as the server does.
 */
module MeshTable {
  import opened Common
  import opened Order

  /** A peer's clock may be this far ahead before its times are taken as now. */
  const MAX_CLOCK_AHEAD_MS: nat := 5_000

  datatype Entry = Entry(tunnel: string, bridge: nat, routes: seq<string>, attachedAt: nat)

  type Table = map<nat, Entry>

  datatype Hello = Hello(machine: string, region: string, address: string, epoch: nat, startedAt: nat, draining: bool)
  {
    function Life(): Life { Order.Life(startedAt, epoch) }
  }

  datatype Event = TunnelCreated(tunnel: string) | CertificateChanged(tunnel: string) | TunnelDeleted(tunnel: string)
                 | Leaving | JobEnqueued | UnknownEvent

  datatype Frame =
    | HelloFrame(hello: Hello)
    | Snapshot(epoch: nat, seq_: nat, entries: seq<Entry>, more: bool)
    | SnapshotPart(entries: seq<Entry>, more: bool)
    | Attached(seq_: nat, entry: Entry)
    | Detached(seq_: nat, tunnel: string, bridge: nat)
    | EventFrame(event: Event)
    | Ping
    | UnknownFrame

  datatype Peer = Peer(hello: Hello, link: nat, dialer: string, seq_: nat, entries: Table, snapshotOpen: bool)

  type Peers = map<string, Peer>

  function SaneTime(at: nat, now: nat): nat {
    if at > now + MAX_CLOCK_AHEAD_MS then now else at
  }

  function Clamp(e: Entry, now: nat): Entry {
    e.(attachedAt := SaneTime(e.attachedAt, now))
  }

  function Load(m: Table, es: seq<Entry>, now: nat): Table
    decreases |es|
  {
    if es == [] then m else Load(m[es[0].bridge := Clamp(es[0], now)], es[1..], now)
  }

  // --- Applying frames ---------------------------------------------------------------------------------------

  datatype EndReason = SecondHello | OtherEpoch | PartWithoutSnapshot | InsideSnapshot | OutOfSequence | Replaced

  datatype Applied = Applied(peer: Peer) | Ended(reason: EndReason)

  /** A frame from a peer's current link: the peer afterwards, or why the link ends (then nothing changed). */
  function ApplyFrame(p: Peer, f: Frame, now: nat): Applied {
    match f
    case Ping => Applied(p)
    case UnknownFrame => Applied(p)
    case HelloFrame(_) => Ended(SecondHello)
    case Snapshot(epoch, seq_, es, more) =>
      if epoch != p.hello.epoch then Ended(OtherEpoch)
      else Applied(p.(seq_ := seq_, snapshotOpen := more,
                      entries := if p.hello.draining then map[] else Load(map[], es, now)))
    case SnapshotPart(es, more) =>
      if !p.snapshotOpen then Ended(PartWithoutSnapshot)
      else Applied(p.(snapshotOpen := more,
                      entries := if p.hello.draining then p.entries else Load(p.entries, es, now)))
    case Attached(seq_, e) =>
      if p.snapshotOpen then Ended(InsideSnapshot)
      else if seq_ != p.seq_ + 1 then Ended(OutOfSequence)
      else Applied(p.(seq_ := seq_,
                      entries := if p.hello.draining then p.entries else p.entries[e.bridge := Clamp(e, now)]))
    case Detached(seq_, _, bridge) =>
      if seq_ != p.seq_ + 1 then Ended(OutOfSequence)
      else Applied(p.(seq_ := seq_, entries := p.entries - {bridge}))
    case EventFrame(event) =>
      if event.Leaving? then Applied(p.(hello := p.hello.(draining := true), entries := map[])) else Applied(p)
  }

  predicate Current(peers: Peers, machine: string, link: nat) {
    machine in peers && peers[machine].link == link
  }

  /** The peers after a frame arrived on a link of `machine`, and whether the link goes on. */
  function ApplyToPeers(peers: Peers, machine: string, link: nat, f: Frame, now: nat): (Peers, Option<EndReason>) {
    if !Current(peers, machine, link) then (peers, Some(Replaced))
    else match ApplyFrame(peers[machine], f, now)
         case Applied(p) => (peers[machine := p], None)
         case Ended(reason) => (peers, Some(reason))
  }

  function LinkDownPeers(peers: Peers, machine: string, link: nat): Peers {
    if Current(peers, machine, link) then peers - {machine} else peers
  }

  // --- Registering links -------------------------------------------------------------------------------------

  datatype Attempt = Attempt(hello: Hello, link: nat, dialer: string)

  /** Whether a new link takes the place of the registered one. */
  predicate Wins(existing: Peer, a: Attempt) {
    && existing.hello.address == a.hello.address
    && if a.hello.Life() != existing.hello.Life() then Older(existing.hello.Life(), a.hello.Life())
       else if existing.dialer != a.dialer then Less(a.dialer, existing.dialer)
       else true
  }

  predicate Accepts(peers: Peers, a: Attempt) {
    a.hello.machine in peers ==> Wins(peers[a.hello.machine], a)
  }

  /** The entries a newly registered link starts with: those of the same life, until its snapshot arrives. */
  function Carried(peers: Peers, a: Attempt): Table {
    if a.hello.machine in peers && peers[a.hello.machine].hello.Life() == a.hello.Life()
    then peers[a.hello.machine].entries else map[]
  }

  function RegisterPeers(peers: Peers, a: Attempt): Peers {
    if Accepts(peers, a)
    then peers[a.hello.machine := Peer(a.hello, a.link, a.dialer, 0, Carried(peers, a), false)]
    else peers
  }

  // --- The index ---------------------------------------------------------------------------------------------

  type Index = map<string, set<(string, nat)>>

  predicate Indexed(index: Index, tunnel: string, machine: string, bridge: nat) {
    tunnel in index && (machine, bridge) in index[tunnel]
  }

  /** What a full scan of the peers' tables finds. */
  predicate Serves(peers: Peers, tunnel: string, machine: string, bridge: nat) {
    machine in peers && bridge in peers[machine].entries && peers[machine].entries[bridge].tunnel == tunnel
  }

  ghost predicate Exact(peers: Peers, index: Index) {
    && (forall t :: t in index ==> index[t] != {})
    && (forall t, m, b :: Indexed(index, t, m, b) <==> Serves(peers, t, m, b))
  }

  predicate Keyed(table: Table) {
    forall b :: b in table ==> table[b].bridge == b
  }

  ghost predicate WellFormed(peers: Peers) {
    forall m :: m in peers ==> peers[m].hello.machine == m && Keyed(peers[m].entries)
  }

  function AddTo(index: Index, machine: string, e: Entry): Index {
    index[e.tunnel := if e.tunnel in index then index[e.tunnel] + {(machine, e.bridge)} else {(machine, e.bridge)}]
  }

  function RemoveFrom(index: Index, machine: string, e: Entry): Index {
    if e.tunnel !in index then index
    else
      var rest := index[e.tunnel] - {(machine, e.bridge)};
      if rest == {} then index - {e.tunnel} else index[e.tunnel := rest]
  }

  function WithEntries(peers: Peers, machine: string, entries: Table): Peers
    requires machine in peers
  {
    peers[machine := peers[machine].(entries := entries)]
  }

  /** The exact index is unique, so lookups through it cannot depend on how it came about. */
  lemma ExactIndexIsUnique(peers: Peers, a: Index, b: Index)
    requires Exact(peers, a) && Exact(peers, b)
    ensures a == b
  {
    forall t ensures t in a <==> t in b {
      if t in a {
        var h :| h in a[t];
        assert Indexed(a, t, h.0, h.1);
        assert Indexed(b, t, h.0, h.1);
      }
      if t in b {
        var h :| h in b[t];
        assert Indexed(b, t, h.0, h.1);
        assert Indexed(a, t, h.0, h.1);
      }
    }
    forall t | t in a ensures a[t] == b[t] {
      forall h: (string, nat) ensures h in a[t] <==> h in b[t] {
        assert Indexed(a, t, h.0, h.1) <==> Serves(peers, t, h.0, h.1);
        assert Indexed(b, t, h.0, h.1) <==> Serves(peers, t, h.0, h.1);
      }
    }
  }

  lemma RemovalStaysExact(peers: Peers, index: Index, machine: string, bridge: nat)
    requires Exact(peers, index) && machine in peers && bridge in peers[machine].entries
    requires Keyed(peers[machine].entries)
    ensures Exact(WithEntries(peers, machine, peers[machine].entries - {bridge}),
                  RemoveFrom(index, machine, peers[machine].entries[bridge]))
  {
    var e := peers[machine].entries[bridge];
    var index' := RemoveFrom(index, machine, e);
    var peers' := WithEntries(peers, machine, peers[machine].entries - {bridge});
    forall t, m, b: nat ensures Indexed(index', t, m, b) <==> Serves(peers', t, m, b) {
      assert Indexed(index, t, m, b) <==> Serves(peers, t, m, b);
      if t == e.tunnel && t in index {
        var rest := index[t] - {(machine, bridge)};
        assert (m, b) in rest <==> (m, b) in index[t] && !(m == machine && b == bridge);
      }
    }
  }

  lemma AdditionStaysExact(peers: Peers, index: Index, machine: string, e: Entry)
    requires Exact(peers, index) && machine in peers
    requires e.bridge in peers[machine].entries ==> peers[machine].entries[e.bridge].tunnel == e.tunnel
    ensures Exact(WithEntries(peers, machine, peers[machine].entries[e.bridge := e]), AddTo(index, machine, e))
  {
    var index' := AddTo(index, machine, e);
    var peers' := WithEntries(peers, machine, peers[machine].entries[e.bridge := e]);
    forall t, m, b: nat ensures Indexed(index', t, m, b) <==> Serves(peers', t, m, b) {
      assert Indexed(index, t, m, b) <==> Serves(peers, t, m, b);
      if t == e.tunnel {
        assert (m, b) in index'[t] <==> Indexed(index, t, m, b) || (m == machine && b == e.bridge);
      }
    }
  }

  // --- When loading a snapshot keeps the index exact ---------------------------------------------------------

  /** The index after a snapshot's entries: additions only, as the server does it. */
  function LoadIndex(index: Index, machine: string, es: seq<Entry>): Index
    decreases |es|
  {
    if es == [] then index else LoadIndex(AddTo(index, machine, es[0]), machine, es[1..])
  }

  /** No bridge ID is given for two tunnels, neither within the entries nor against those already held. */
  ghost predicate OneTunnelPerBridge(held: Table, es: seq<Entry>) {
    && (forall i, j :: 0 <= i < |es| && 0 <= j < |es| && es[i].bridge == es[j].bridge ==> es[i].tunnel == es[j].tunnel)
    && (forall i :: 0 <= i < |es| && es[i].bridge in held ==> held[es[i].bridge].tunnel == es[i].tunnel)
  }

  lemma {:induction false} LoadIndexOnlyGrows(index: Index, machine: string, es: seq<Entry>, t: string, m: string,
                                              b: nat)
    requires Indexed(index, t, m, b)
    decreases |es|
    ensures Indexed(LoadIndex(index, machine, es), t, m, b)
  {
    if es != [] {
      assert Indexed(AddTo(index, machine, es[0]), t, m, b);
      LoadIndexOnlyGrows(AddTo(index, machine, es[0]), machine, es[1..], t, m, b);
    }
  }

  lemma {:induction false} LoadIndexAdds(index: Index, machine: string, es: seq<Entry>, i: nat)
    requires i < |es|
    decreases |es|
    ensures Indexed(LoadIndex(index, machine, es), es[i].tunnel, machine, es[i].bridge)
  {
    if i == 0 {
      LoadIndexOnlyGrows(AddTo(index, machine, es[0]), machine, es[1..], es[0].tunnel, machine, es[0].bridge);
    } else {
      LoadIndexAdds(AddTo(index, machine, es[0]), machine, es[1..], i - 1);
    }
  }

  lemma {:induction false} ConsistentLoadStaysExact(peers: Peers, index: Index, machine: string, es: seq<Entry>,
                                                    now: nat)
    requires machine in peers && Exact(peers, index) && OneTunnelPerBridge(peers[machine].entries, es)
    decreases |es|
    ensures Exact(WithEntries(peers, machine, Load(peers[machine].entries, es, now)), LoadIndex(index, machine, es))
  {
    if es == [] {
      assert WithEntries(peers, machine, peers[machine].entries) == peers;
    } else {
      var e := Clamp(es[0], now);
      AdditionStaysExact(peers, index, machine, e);
      var peers' := WithEntries(peers, machine, peers[machine].entries[e.bridge := e]);
      assert AddTo(index, machine, e) == AddTo(index, machine, es[0]);
      assert OneTunnelPerBridge(peers'[machine].entries, es[1..]) by {
        forall i | 0 <= i < |es[1..]| && es[1..][i].bridge in peers'[machine].entries
          ensures peers'[machine].entries[es[1..][i].bridge].tunnel == es[1..][i].tunnel
        {
          assert es[1..][i] == es[i + 1];
        }
      }
      ConsistentLoadStaysExact(peers', AddTo(index, machine, es[0]), machine, es[1..], now);
      assert WithEntries(peers', machine, Load(peers'[machine].entries, es[1..], now))
          == WithEntries(peers, machine, Load(peers[machine].entries, es, now));
    }
  }

  /** Loading entries keeps the index exact precisely when no bridge ID stands for two tunnels. */
  lemma LoadKeepsIndexExactIff(peers: Peers, index: Index, machine: string, es: seq<Entry>, now: nat)
    requires machine in peers && Exact(peers, index)
    ensures Exact(WithEntries(peers, machine, Load(peers[machine].entries, es, now)), LoadIndex(index, machine, es))
        <==> OneTunnelPerBridge(peers[machine].entries, es)
  {
    var held := peers[machine].entries;
    var peers' := WithEntries(peers, machine, Load(held, es, now));
    var index' := LoadIndex(index, machine, es);
    if OneTunnelPerBridge(held, es) {
      ConsistentLoadStaysExact(peers, index, machine, es, now);
    }
    if Exact(peers', index') {
      forall i, j | 0 <= i < |es| && 0 <= j < |es| && es[i].bridge == es[j].bridge
        ensures es[i].tunnel == es[j].tunnel {
        LoadIndexAdds(index, machine, es, i);
        LoadIndexAdds(index, machine, es, j);
        assert Serves(peers', es[i].tunnel, machine, es[i].bridge);
        assert Serves(peers', es[j].tunnel, machine, es[j].bridge);
      }
      forall i | 0 <= i < |es| && es[i].bridge in held ensures held[es[i].bridge].tunnel == es[i].tunnel {
        var b := es[i].bridge;
        assert Serves(peers, held[b].tunnel, machine, b);
        assert Indexed(index, held[b].tunnel, machine, b);
        LoadIndexOnlyGrows(index, machine, es, held[b].tunnel, machine, b);
        LoadIndexAdds(index, machine, es, i);
        assert Serves(peers', es[i].tunnel, machine, b);
        assert Serves(peers', held[b].tunnel, machine, b);
      }
    }
  }

  /** One bridge for two tunnels: the index lists it under both, the table only under the second. */
  lemma TwoTunnelsBreakIndex(peers: Peers, index: Index, machine: string, first: string, second: string, bridge: nat,
                             now: nat)
    requires machine in peers && Exact(peers, index) && first != second
    ensures var es := [Entry(first, bridge, [], 0), Entry(second, bridge, [], 0)];
            !Exact(WithEntries(peers, machine, Load(peers[machine].entries, es, now)), LoadIndex(index, machine, es))
  {
    var es := [Entry(first, bridge, [], 0), Entry(second, bridge, [], 0)];
    LoadKeepsIndexExactIff(peers, index, machine, es, now);
    assert es[0].bridge == es[1].bridge && es[0].tunnel != es[1].tunnel;
  }

  lemma {:induction false} LoadKeepsKeys(m: Table, es: seq<Entry>, now: nat)
    requires Keyed(m)
    decreases |es|
    ensures Keyed(Load(m, es, now))
  {
    if es != [] {
      LoadKeepsKeys(m[es[0].bridge := Clamp(es[0], now)], es[1..], now);
    }
  }

  /** Whether a frame respects what its sender guarantees: its entries come from a map keyed by bridge ID. */
  ghost predicate Consistent(p: Peer, f: Frame) {
    match f
    case Snapshot(epoch, _, es, _) => p.hello.draining || epoch != p.hello.epoch || OneTunnelPerBridge(map[], es)
    case SnapshotPart(es, _) => p.hello.draining || !p.snapshotOpen || OneTunnelPerBridge(p.entries, es)
    case _ => true
  }

  // --- Lookups -----------------------------------------------------------------------------------------------

  datatype Location = Location(machine: string, region: string, address: string)

  function Where(p: Peer): Location { Location(p.hello.machine, p.hello.region, p.hello.address) }

  /** A live claim of a route, as a full scan of every peer's table sees it. */
  predicate Candidate(peers: Peers, tunnel: string, route: string, except: Option<string>, machine: string,
                      bridge: nat) {
    && Serves(peers, tunnel, machine, bridge)
    && Some(machine) != except
    && !peers[machine].hello.draining
    && route in peers[machine].entries[bridge].routes
  }

  /** A live claim that no other live claim is newer than. */
  ghost predicate Newest(peers: Peers, tunnel: string, route: string, except: Option<string>, machine: string,
                         bridge: nat) {
    && Candidate(peers, tunnel, route, except, machine, bridge)
    && forall m, b :: Candidate(peers, tunnel, route, except, m, b) ==>
                        peers[m].entries[b].attachedAt <= peers[machine].entries[bridge].attachedAt
  }

  predicate ClaimsAny(e: Entry, routes: seq<string>) {
    routes == [] || exists r :: r in e.routes && r in routes
  }

  predicate Holder(peers: Peers, tunnel: string, routes: seq<string>, machine: string, bridge: nat) {
    && Serves(peers, tunnel, machine, bridge)
    && !peers[machine].hello.draining
    && (routes == [] || exists r :: r in peers[machine].entries[bridge].routes && r in routes)
  }

  // --- What a new link leaves as it was ------------------------------------------------------------------------

  predicate SameLife(peers: Peers, a: Attempt) {
    a.hello.machine in peers && peers[a.hello.machine].hello.Life() == a.hello.Life()
  }

  /**
   * A link that takes another's place in the same life changes nothing of what is served, and no lookup while the
   * machine says the same of its leaving. One of another life leaves nothing of the machine served until its snapshot
   * comes, and all of the others.
   */
  ghost predicate KeepsWhatIsRight(peers: Peers, after: Peers, a: Attempt) {
    var machine := a.hello.machine;
    && (forall t, m, b :: Serves(after, t, m, b)
                          <==> Serves(peers, t, m, b) && (SameLife(peers, a) || m != machine))
    && (SameLife(peers, a) && peers[machine].hello.draining == a.hello.draining ==>
          forall t, r, except, m, b ::
            && (Candidate(after, t, r, except, m, b) <==> Candidate(peers, t, r, except, m, b))
            && (Newest(after, t, r, except, m, b) <==> Newest(peers, t, r, except, m, b)))
  }

  lemma TakenLinkKeepsWhatIsRight(peers: Peers, a: Attempt)
    requires Accepts(peers, a)
    ensures KeepsWhatIsRight(peers, RegisterPeers(peers, a), a)
  {
    hide Wins;
    var after := RegisterPeers(peers, a);
    if SameLife(peers, a) && peers[a.hello.machine].hello.draining == a.hello.draining {
      forall t, r, except, m, b
        ensures Candidate(after, t, r, except, m, b) <==> Candidate(peers, t, r, except, m, b) {}
      assert forall m :: m in peers ==> m in after && after[m].entries == peers[m].entries;
    }
  }

  class Remote {
    var peers: Peers
    var index: Index
    /** Links told to end, because another took their place. */
    var cancelled: set<nat>

    ghost predicate Valid()
      reads this
    {
      WellFormed(peers) && Exact(peers, index)
    }

    constructor ()
      ensures Valid() && peers == map[] && cancelled == {}
    {
      peers, index, cancelled := map[], map[], {};
    }

    method IndexAdd(machine: string, e: Entry)
      modifies this`index
      ensures index == AddTo(old(index), machine, e)
    {
      if e.tunnel in index {
        index := index[e.tunnel := index[e.tunnel] + {(machine, e.bridge)}];
      } else {
        index := index[e.tunnel := {(machine, e.bridge)}];
      }
    }

    method IndexRemove(machine: string, e: Entry)
      modifies this`index
      ensures index == RemoveFrom(old(index), machine, e)
    {
      if e.tunnel in index {
        var rest := index[e.tunnel] - {(machine, e.bridge)};
        if rest == {} {
          index := index - {e.tunnel};
        } else {
          index := index[e.tunnel := rest];
        }
      }
    }

    /** Empties a peer's entries, taking each out of the index. */
    method Clear(machine: string)
      requires Valid() && machine in peers
      modifies this`peers, this`index
      ensures Valid()
      ensures peers == WithEntries(old(peers), machine, map[])
    {
      var before := peers;
      var entries: Table := before[machine].entries;
      var gone: set<nat> := {};
      assert entries - gone == entries;
      assert WithEntries(before, machine, entries) == before;
      while entries.Keys - gone != {}
        invariant gone <= entries.Keys
        invariant peers == before
        invariant Exact(WithEntries(before, machine, entries - gone), index)
        decreases entries.Keys - gone
      {
        var b :| b in entries.Keys - gone;
        ghost var now := WithEntries(before, machine, entries - gone);
        RemovalStaysExact(now, index, machine, b);
        IndexRemove(machine, entries[b]);
        gone := gone + {b};
        assert now[machine].entries - {b} == entries - gone;
        assert WithEntries(now, machine, entries - gone) == WithEntries(before, machine, entries - gone);
      }
      assert entries - gone == map[];
      peers := WithEntries(before, machine, map[]);
    }

    /** Takes in a snapshot's entries one by one. */
    method LoadEntries(machine: string, es: seq<Entry>, now: nat)
      requires Valid() && machine in peers
      modifies this`peers, this`index
      ensures WellFormed(peers)
      ensures peers == WithEntries(old(peers), machine, Load(old(peers)[machine].entries, es, now))
      ensures Valid() <==> OneTunnelPerBridge(old(peers)[machine].entries, es)
    {
      var before := peers;
      ghost var index0 := index;
      assert es[0..] == es;
      assert WithEntries(before, machine, before[machine].entries) == before;
      for i := 0 to |es|
        invariant machine in peers
        invariant peers == WithEntries(before, machine, peers[machine].entries)
        invariant Load(peers[machine].entries, es[i..], now) == Load(before[machine].entries, es, now)
        invariant LoadIndex(index, machine, es[i..]) == LoadIndex(index0, machine, es)
      {
        var e := Clamp(es[i], now);
        assert es[i..][1..] == es[i + 1..];
        IndexAdd(machine, e);
        peers := WithEntries(peers, machine, peers[machine].entries[e.bridge := e]);
      }
      LoadKeepsKeys(before[machine].entries, es, now);
      LoadKeepsIndexExactIff(before, index0, machine, es, now);
    }

    /** Registers an attempt iff it wins over what is registered for its machine. */
    method Register(a: Attempt) returns (taken: bool)
      requires Valid()
      modifies this
      ensures Valid()
      ensures taken <==> Accepts(old(peers), a)
      ensures peers == RegisterPeers(old(peers), a)
      ensures if taken then KeepsWhatIsRight(old(peers), peers, a) else peers == old(peers)
      ensures cancelled == old(cancelled) + if taken && a.hello.machine in old(peers)
                                            then {old(peers)[a.hello.machine].link} else {}
    {
      if Accepts(peers, a) { TakenLinkKeepsWhatIsRight(peers, a); }
      hide KeepsWhatIsRight;
      var machine := a.hello.machine;
      var entries: Table := map[];
      if machine in peers {
        var existing := peers[machine];
        if existing.hello.address != a.hello.address {
          return false;
        }
        var life, known := a.hello.Life(), existing.hello.Life();
        var wins := if life != known then Older(known, life)
                    else if existing.dialer != a.dialer then Less(a.dialer, existing.dialer)
                    else true;
        if !wins {
          return false;
        }
        cancelled := cancelled + {existing.link};
        if life == known {
          entries := existing.entries;
        } else {
          Clear(machine);
        }
      }
      ghost var before := peers;
      peers := peers[machine := Peer(a.hello, a.link, a.dialer, 0, entries, false)];
      assert Exact(peers, index) by {
        forall t, m, b ensures Indexed(index, t, m, b) <==> Serves(peers, t, m, b) {
          assert Indexed(index, t, m, b) <==> Serves(before, t, m, b);
        }
      }
      assert peers == RegisterPeers(old(peers), a);
      return true;
    }

    /** Forgets a peer when its link ends; the end of a replaced link changes nothing. */
    method LinkDown(machine: string, link: nat)
      requires Valid()
      modifies this`peers, this`index
      ensures Valid()
      ensures peers == LinkDownPeers(old(peers), machine, link)
    {
      if machine !in peers || peers[machine].link != link {
        return;
      }
      Clear(machine);
      ghost var before := peers;
      peers := peers - {machine};
      assert Exact(peers, index) by {
        forall t, m, b ensures Indexed(index, t, m, b) <==> Serves(peers, t, m, b) {
          assert Indexed(index, t, m, b) <==> Serves(before, t, m, b);
        }
      }
      assert peers == old(peers) - {machine};
    }

    /** A numbered attach, once its sequence number was found to be the next. */
    method Insert(machine: string, e: Entry)
      requires Valid() && machine in peers
      modifies this`peers, this`index
      ensures Valid()
      ensures peers == WithEntries(old(peers), machine, old(peers)[machine].entries[e.bridge := e])
    {
      var before := peers;
      var entries: Table := before[machine].entries;
      ghost var without: Table := entries - {e.bridge};
      if e.bridge in entries {
        RemovalStaysExact(before, index, machine, e.bridge);
        IndexRemove(machine, entries[e.bridge]);
      } else {
        assert without == entries;
        assert WithEntries(before, machine, entries) == before;
      }
      ghost var middle := WithEntries(before, machine, without);
      AdditionStaysExact(middle, index, machine, e);
      IndexAdd(machine, e);
      peers := WithEntries(before, machine, entries[e.bridge := e]);
      assert without[e.bridge := e] == entries[e.bridge := e];
      assert peers == WithEntries(middle, machine, without[e.bridge := e]);
    }

    method Delete(machine: string, bridge: nat)
      requires Valid() && machine in peers
      modifies this`peers, this`index
      ensures Valid()
      ensures peers == WithEntries(old(peers), machine, old(peers)[machine].entries - {bridge})
    {
      var before := peers;
      var entries: Table := before[machine].entries;
      if bridge in entries {
        RemovalStaysExact(before, index, machine, bridge);
        peers := WithEntries(before, machine, entries - {bridge});
        IndexRemove(machine, entries[bridge]);
      } else {
        assert entries - {bridge} == entries;
        assert WithEntries(before, machine, entries) == before;
      }
    }

    /** Changes of a peer's fields other than its entries leave the index exact. */
    method SetPeer(machine: string, p: Peer)
      requires Valid() && machine in peers && p.entries == peers[machine].entries && p.hello.machine == machine
      modifies this`peers
      ensures Valid()
      ensures peers == old(peers)[machine := p]
    {
      ghost var before := peers;
      peers := peers[machine := p];
      forall t, m, b ensures Indexed(index, t, m, b) <==> Serves(peers, t, m, b) {
        assert Indexed(index, t, m, b) <==> Serves(before, t, m, b);
      }
    }

    /** A snapshot of the peer's epoch replaces whatever was known of it. */
    method StartSnapshot(machine: string, seq_: nat, es: seq<Entry>, more: bool, now: nat)
      requires Valid() && machine in peers
      modifies this`peers, this`index
      ensures WellFormed(peers)
      ensures var p := old(peers)[machine];
              peers == old(peers)[machine := p.(seq_ := seq_, snapshotOpen := more,
                                                entries := if p.hello.draining then map[] else Load(map[], es, now))]
      ensures Valid() <==> (old(peers)[machine].hello.draining || OneTunnelPerBridge(map[], es))
    {
      var peer := peers[machine];
      Clear(machine);
      var emptied := peer.(entries := map[], seq_ := seq_, snapshotOpen := more);
      SetPeer(machine, emptied);
      assert peers == old(peers)[machine := emptied];
      if !peer.hello.draining {
        LoadEntries(machine, es, now);
        assert peers == old(peers)[machine := emptied.(entries := Load(map[], es, now))];
      }
    }

    /**
     * Applies a frame from a peer's link. The index stays exact whatever arrives, except entries that give one
     * bridge ID for two tunnels.
     */
    method Apply(machine: string, link: nat, f: Frame, now: nat) returns (end: Option<EndReason>)
      requires Valid()
      modifies this`peers, this`index
      ensures WellFormed(peers)
      ensures (peers, end) == ApplyToPeers(old(peers), machine, link, f, now)
      ensures Valid() <==> (Current(old(peers), machine, link) ==> Consistent(old(peers)[machine], f))
    {
      if machine !in peers || peers[machine].link != link {
        return Some(Replaced);
      }
      hide Exact, Load, OneTunnelPerBridge, Keyed;
      var peer := peers[machine];
      match f
      case Ping => assert peers == peers[machine := peer]; return None;
      case UnknownFrame => assert peers == peers[machine := peer]; return None;
      case HelloFrame(_) => return Some(SecondHello);
      case Snapshot(epoch, seq_, es, more) =>
        if epoch != peer.hello.epoch {
          return Some(OtherEpoch);
        }
        StartSnapshot(machine, seq_, es, more, now);
        return None;
      case SnapshotPart(es, more) =>
        if !peer.snapshotOpen {
          return Some(PartWithoutSnapshot);
        }
        SetPeer(machine, peer.(snapshotOpen := more));
        if !peer.hello.draining {
          LoadEntries(machine, es, now);
          assert peers == old(peers)[machine := peer.(snapshotOpen := more, entries := Load(peer.entries, es, now))];
        }
        return None;
      case Attached(seq_, e) =>
        var entry := Clamp(e, now);
        if peer.snapshotOpen {
          return Some(InsideSnapshot);
        }
        if seq_ != peer.seq_ + 1 {
          return Some(OutOfSequence);
        }
        SetPeer(machine, peer.(seq_ := seq_));
        if !peer.hello.draining {
          Insert(machine, entry);
          assert peers == old(peers)[machine := peer.(seq_ := seq_, entries := peer.entries[e.bridge := entry])];
        }
        return None;
      case Detached(seq_, _, bridge) =>
        if seq_ != peer.seq_ + 1 {
          return Some(OutOfSequence);
        }
        SetPeer(machine, peer.(seq_ := seq_));
        Delete(machine, bridge);
        assert peers == old(peers)[machine := peer.(seq_ := seq_, entries := peer.entries - {bridge})];
        return None;
      case EventFrame(event) =>
        if event.Leaving? {
          SetPeer(machine, peer.(hello := peer.hello.(draining := true)));
          Clear(machine);
          assert peers == old(peers)[machine := peer.(hello := peer.hello.(draining := true), entries := map[])];
        } else {
          assert peers == peers[machine := peer];
        }
        return None;
    }

    /**
     * The live machine holding a route, found through the index: none exactly when a full scan finds no live
     * claim, and otherwise one with the newest attach.
     */
    method Locate(tunnel: string, route: string, except: Option<string>) returns (found: Option<Location>)
      requires Valid()
      ensures found.None? <==> forall m, b :: !Candidate(peers, tunnel, route, except, m, b)
      ensures found.Some? ==>
                exists m, b :: Newest(peers, tunnel, route, except, m, b) && found.value == Where(peers[m])
    {
      if tunnel !in index {
        forall m, b ensures !Candidate(peers, tunnel, route, except, m, b) {
          assert !Indexed(index, tunnel, m, b);
        }
        return None;
      }
      var left := index[tunnel];
      var best: Option<(string, nat)> := None;
      while left != {}
        invariant left <= index[tunnel]
        invariant best.Some? ==> Candidate(peers, tunnel, route, except, best.value.0, best.value.1)
        invariant forall m, b: nat :: Candidate(peers, tunnel, route, except, m, b) && (m, b) !in left ==>
                    best.Some? && peers[m].entries[b].attachedAt <= peers[best.value.0].entries[best.value.1].attachedAt
        decreases left
      {
        var h :| h in left;
        left := left - {h};
        assert Indexed(index, tunnel, h.0, h.1);
        var peer := peers[h.0];
        var entry := peer.entries[h.1];
        if Some(h.0) != except && !peer.hello.draining && route in entry.routes
           && (best.None? || peers[best.value.0].entries[best.value.1].attachedAt <= entry.attachedAt) {
          best := Some(h);
        }
      }
      if best.Some? {
        assert Newest(peers, tunnel, route, except, best.value.0, best.value.1);
        found := Some(Where(peers[best.value.0]));
      } else {
        found := None;
      }
    }

    /**
     * Every peer with a bridge of the tunnel that claims one of
     * the routes, or any bridge of it if no route is asked for.
     */
    method Holders(tunnel: string, routes: seq<string>) returns (found: seq<Location>)
      requires Valid()
      ensures forall i, j :: 0 <= i < j < |found| ==> found[i].machine != found[j].machine
      ensures forall m :: m in peers ==>
                (Where(peers[m]) in found <==> exists b :: Holder(peers, tunnel, routes, m, b))
      ensures forall l :: l in found ==> l.machine in peers && l == Where(peers[l.machine])
    {
      found := [];
      var left := if tunnel in index then index[tunnel] else {};
      while left != {}
        invariant tunnel in index ==> left <= index[tunnel]
        invariant tunnel !in index ==> left == {}
        invariant forall i, j :: 0 <= i < j < |found| ==> found[i].machine != found[j].machine
        invariant forall l :: l in found ==> l.machine in peers && l == Where(peers[l.machine])
        invariant forall l :: l in found ==> exists b :: Holder(peers, tunnel, routes, l.machine, b)
        invariant forall m, b: nat :: Holder(peers, tunnel, routes, m, b) && (m, b) !in left ==>
                    Where(peers[m]) in found
        decreases left
      {
        var h :| h in left;
        left := left - {h};
        assert Indexed(index, tunnel, h.0, h.1);
        var peer := peers[h.0];
        var entry := peer.entries[h.1];
        if !peer.hello.draining && ClaimsAny(entry, routes) && Where(peer) !in found {
          assert Holder(peers, tunnel, routes, h.0, h.1);
          found := found + [Where(peer)];
        }
      }
      forall m, b | Holder(peers, tunnel, routes, m, b) ensures Where(peers[m]) in found {
        assert Indexed(index, tunnel, m, b);
      }
    }
  }
}

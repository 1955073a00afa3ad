/**
 * The mesh as a step system: machines that change their own bridge tables and announce the changes over FIFO
 * links, and one receiver that applies what arrives (mesh.rs). Any number of machines, lives of each machine, and
 * links per machine; links may be cut, replaced or refused at any time, and frames wait in flight.
 */
module MeshReplication {
  import opened Common
  import opened Order
  import opened MeshTable

  /** Frames queued for a link. */
  const LINK_QUEUE: nat := 200_000

  // --- Tables as they were and as they are received -----------------------------------------------------------

  /** An entry as the receiver keeps it: the same but for a time that was too far ahead of the receiver's clock. */
  predicate ClampOf(kept: Entry, sent: Entry) {
    kept == sent.(attachedAt := kept.attachedAt)
    && (kept.attachedAt == sent.attachedAt || kept.attachedAt + 5_000 < sent.attachedAt)
  }

  predicate ClampedBelow(kept: Table, sent: Table) {
    forall b :: b in kept ==> b in sent && ClampOf(kept[b], sent[b])
  }

  predicate ClampedAs(kept: Table, sent: Table) {
    kept.Keys == sent.Keys && ClampedBelow(kept, sent)
  }

  /** The clamping relation is exactly what `SaneTime` may do under some clock. */
  lemma {:induction false} ClampOfIsSaneTime(kept: Entry, sent: Entry)
    ensures ClampOf(kept, sent) <==> exists now :: kept == Clamp(sent, now)
  {
    if ClampOf(kept, sent) {
      var now := if kept.attachedAt == sent.attachedAt then sent.attachedAt else kept.attachedAt;
      assert kept == Clamp(sent, now);
    }
  }

  predicate SubTable(a: Table, b: Table) {
    forall x :: x in a ==> x in b && a[x] == b[x]
  }

  /** Entries put into a table as they are. */
  function Put(m: Table, es: seq<Entry>): Table
    decreases |es|
  {
    if es == [] then m else Put(m[es[0].bridge := es[0]], es[1..])
  }

  lemma {:induction false} LoadIsClampedPut(kept: Table, sent: Table, es: seq<Entry>, now: nat)
    requires ClampedAs(kept, sent)
    ensures ClampedAs(Load(kept, es, now), Put(sent, es))
    decreases |es|
  {
    if es != [] {
      LoadIsClampedPut(kept[es[0].bridge := Clamp(es[0], now)], sent[es[0].bridge := es[0]], es[1..], now);
    }
  }

  // --- What a link carries ------------------------------------------------------------------------------------

  /** How far a link's frames were applied: the sequence number reached, and the entries sent up to there. */
  datatype View = View(started: bool, open: bool, k: nat, held: Table)

  /** The sender's side of a link: its life's tables by sequence number, whether it still announces on the link, and
      whether the snapshot was cut off at the queue's end. */
  datatype Source = Source(epoch: nat, hist: seq<Table>, live: bool, cut: bool)

  ghost predicate Sound(v: View, hist: seq<Table>) {
    v.started ==> v.k < |hist| && if v.open then SubTable(v.held, hist[v.k]) else v.held == hist[v.k]
  }

  ghost predicate SnapshotPiece(held: Table, more: bool, table: Table) {
    if more then SubTable(held, table) else held == table
  }

  predicate DistinctBridges(es: seq<Entry>) {
    forall i, j :: 0 <= i < j < |es| ==> es[i].bridge != es[j].bridge
  }

  predicate NoneHeld(es: seq<Entry>, held: Table) {
    forall i :: 0 <= i < |es| ==> es[i].bridge !in held
  }

  /** The frames in flight continue the history from where the view is, in order and without a gap. */
  ghost predicate Follows(q: seq<Frame>, v: View, src: Source)
    decreases |q|
  {
    if q == [] then
      src.live ==> v.started && v.k == |src.hist| - 1 && (v.open ==> src.cut)
    else
      match q[0]
      case Snapshot(epoch, seq_, es, more) =>
        && !v.started && epoch == src.epoch && seq_ < |src.hist| && DistinctBridges(es)
        && SnapshotPiece(Put(map[], es), more, src.hist[seq_])
        && Follows(q[1..], View(true, more, seq_, Put(map[], es)), src)
      case SnapshotPart(es, more) =>
        && v.started && v.open && DistinctBridges(es) && NoneHeld(es, v.held)
        && v.k < |src.hist| && SnapshotPiece(Put(v.held, es), more, src.hist[v.k])
        && Follows(q[1..], v.(open := more, held := Put(v.held, es)), src)
      case Attached(seq_, e) =>
        && v.started && seq_ == v.k + 1 < |src.hist|
        && src.hist[seq_] == src.hist[v.k][e.bridge := e]
        && (v.open ==> src.cut)
        && (!v.open ==> Follows(q[1..], v.(k := seq_, held := v.held[e.bridge := e]), src))
      case Detached(seq_, _, bridge) =>
        && v.started && seq_ == v.k + 1 < |src.hist|
        && src.hist[seq_] == src.hist[v.k] - {bridge}
        && Follows(q[1..], v.(k := seq_, held := v.held - {bridge}), src)
      case EventFrame(_) => v.started && Follows(q[1..], v, src)
      case _ => false
  }

  /** The view after the next frame, when the receiver goes on. */
  function Advance(v: View, f: Frame): View {
    match f
    case Snapshot(_, seq_, es, more) => View(true, more, seq_, Put(map[], es))
    case SnapshotPart(es, more) => v.(open := more, held := Put(v.held, es))
    case Attached(seq_, e) => v.(k := seq_, held := v.held[e.bridge := e])
    case Detached(seq_, _, bridge) => v.(k := seq_, held := v.held - {bridge})
    case _ => v
  }

  /** What the receiver holds for a peer, given how far the frames of its link were applied. */
  ghost predicate Matches(p: Peer, v: View, hist: seq<Table>) {
    if !v.started then
      p.seq_ == 0 && !p.snapshotOpen && exists j :: 0 <= j < |hist| && ClampedBelow(p.entries, hist[j])
    else
      && p.seq_ == v.k && p.snapshotOpen == v.open
      && if p.hello.draining then p.entries == map[] else ClampedAs(p.entries, v.held)
  }

  lemma {:induction false} AdvanceStaysSound(q: seq<Frame>, v: View, src: Source)
    requires q != [] && Follows(q, v, src) && Sound(v, src.hist)
    requires q[0].Attached? ==> !v.open
    ensures Sound(Advance(v, q[0]), src.hist)
    ensures Follows(q[1..], Advance(v, q[0]), src)
  {
  }

  lemma {:induction false} FrameKeepsMatch(q: seq<Frame>, v: View, src: Source, p: Peer, now: nat)
    requires q != [] && Follows(q, v, src) && Sound(v, src.hist)
    requires Matches(p, v, src.hist) && p.hello.epoch == src.epoch
    ensures ApplyFrame(p, q[0], now).Ended? ==> q[0].Attached? && v.open && src.cut
    ensures ApplyFrame(p, q[0], now).Applied? ==>
              && !(q[0].Attached? && v.open)
              && Matches(ApplyFrame(p, q[0], now).peer, Advance(v, q[0]), src.hist)
  {
    match q[0]
    case Snapshot(_, _, es, _) => LoadIsClampedPut(map[], map[], es, now);
    case SnapshotPart(es, _) =>
      if !p.hello.draining { LoadIsClampedPut(p.entries, v.held, es, now); }
    case _ =>
  }

  /** Announcing one more change at the end of a live link. */
  lemma {:induction false} AnnounceExtends(q: seq<Frame>, v: View, src: Source, f: Frame, table: Table)
    requires Follows(q, v, src) && src.live
    requires match f
             case Attached(seq_, e) => seq_ == |src.hist| > 0 && table == src.hist[|src.hist| - 1][e.bridge := e]
             case Detached(seq_, _, b) => seq_ == |src.hist| > 0 && table == src.hist[|src.hist| - 1] - {b}
             case _ => false
    ensures Follows(q + [f], v, src.(hist := src.hist + [table]))
    decreases |q|
  {
    if q == [] {
      assert q + [f] == [f];
      assert [f][1..] == [];
    } else {
      assert (q + [f])[1..] == q[1..] + [f];
      if !(q[0].Attached? && v.open) {
        AnnounceExtends(q[1..], Advance(v, q[0]), src, f, table);
      }
    }
  }

  lemma {:induction false} EventExtends(q: seq<Frame>, v: View, src: Source, event: Event)
    requires Follows(q, v, src) && src.live
    ensures Follows(q + [EventFrame(event)], v, src)
    decreases |q|
  {
    var f := EventFrame(event);
    if q == [] {
      assert q + [f] == [f];
      assert [f][1..] == [];
    } else {
      assert (q + [f])[1..] == q[1..] + [f];
      if !(q[0].Attached? && v.open) {
        EventExtends(q[1..], Advance(v, q[0]), src, event);
      }
    }
  }

  /** A link nothing is announced on any more may lose any of the frames at its end, while its sender moves on. */
  lemma {:induction false} CutShort(q: seq<Frame>, n: nat, v: View, src: Source, more: seq<Table>)
    requires n <= |q| && Follows(q, v, src) && Sound(v, src.hist)
    ensures Follows(q[..n], v, src.(live := false, hist := src.hist + more))
    decreases n
  {
    if n > 0 {
      assert q[..n][1..] == q[1..][..n - 1];
      if !(q[0].Attached? && v.open) {
        AdvanceStaysSound(q, v, src);
        CutShort(q[1..], n - 1, Advance(v, q[0]), src, more);
      }
    }
  }

  // --- Snapshots ----------------------------------------------------------------------------------------------

  function Flatten(chunks: seq<seq<Entry>>): seq<Entry> {
    if chunks == [] then [] else chunks[0] + Flatten(chunks[1..])
  }

  /** The entries of a table, each once, in any order and any chunks. */
  predicate ChunksOf(chunks: seq<seq<Entry>>, table: Table) {
    && chunks != []
    && DistinctBridges(Flatten(chunks))
    && (forall e :: e in Flatten(chunks) ==> e.bridge in table && table[e.bridge] == e)
    && (forall b :: b in table ==> table[b] in Flatten(chunks))
  }

  function Parts(chunks: seq<seq<Entry>>): seq<Frame> {
    if chunks == [] then [] else [SnapshotPart(chunks[0], |chunks| > 1)] + Parts(chunks[1..])
  }

  function SnapshotFrames(epoch: nat, seq_: nat, chunks: seq<seq<Entry>>): seq<Frame>
    requires chunks != []
  {
    [Snapshot(epoch, seq_, chunks[0], |chunks| > 1)] + Parts(chunks[1..])
  }

  lemma {:induction false} PartsLength(chunks: seq<seq<Entry>>)
    ensures |Parts(chunks)| == |chunks|
  {
    if chunks != [] { PartsLength(chunks[1..]); }
  }

  lemma {:induction false} PutHas(m: Table, es: seq<Entry>, b: nat)
    ensures b in Put(m, es) <==> b in m || exists i :: 0 <= i < |es| && es[i].bridge == b
    ensures (forall i :: 0 <= i < |es| ==> es[i].bridge != b) && b in m ==> Put(m, es)[b] == m[b]
    decreases |es|
  {
    if es != [] {
      PutHas(m[es[0].bridge := es[0]], es[1..], b);
      assert forall i :: 0 < i < |es| ==> es[i] == es[1..][i - 1];
      if b in Put(m, es) && b !in m && es[0].bridge != b {
        var i :| 0 <= i < |es[1..]| && es[1..][i].bridge == b;
        assert es[i + 1].bridge == b;
      }
    }
  }

  lemma {:induction false} PutInTable(m: Table, es: seq<Entry>, table: Table)
    requires SubTable(m, table) && forall i :: 0 <= i < |es| ==> es[i].bridge in table && table[es[i].bridge] == es[i]
    ensures SubTable(Put(m, es), table)
    decreases |es|
  {
    if es != [] {
      forall i | 0 <= i < |es[1..]| ensures es[1..][i].bridge in table && table[es[1..][i].bridge] == es[1..][i] {
        assert es[1..][i] == es[i + 1];
      }
      PutInTable(m[es[0].bridge := es[0]], es[1..], table);
    }
  }

  lemma {:induction false} PutAppend(m: Table, a: seq<Entry>, b: seq<Entry>)
    ensures Put(Put(m, a), b) == Put(m, a + b)
    decreases |a|
  {
    if a == [] {
      assert a + b == b;
    } else {
      assert (a + b)[1..] == a[1..] + b;
      PutAppend(m[a[0].bridge := a[0]], a[1..], b);
    }
  }

  lemma {:induction false} PutAllIsTable(chunks: seq<seq<Entry>>, table: Table)
    requires ChunksOf(chunks, table) && Keyed(table)
    ensures Put(map[], Flatten(chunks)) == table
  {
    var es := Flatten(chunks);
    forall i | 0 <= i < |es| ensures es[i].bridge in table && table[es[i].bridge] == es[i] {
      assert es[i] in es;
    }
    PutInTable(map[], es, table);
    forall b | b in table ensures b in Put(map[], es) {
      assert table[b] in es;
      var i :| 0 <= i < |es| && es[i] == table[b];
      PutHas(map[], es, b);
    }
  }

  lemma {:induction false} SplitDistinct(a: seq<Entry>, b: seq<Entry>, held: Table)
    requires DistinctBridges(a + b) && NoneHeld(a + b, held)
    ensures DistinctBridges(a) && DistinctBridges(b)
    ensures NoneHeld(a, held) && NoneHeld(b, Put(held, a))
  {
    var ab := a + b;
    forall i, j | 0 <= i < j < |a| ensures a[i].bridge != a[j].bridge {
      assert ab[i] == a[i] && ab[j] == a[j];
    }
    forall i, j | 0 <= i < j < |b| ensures b[i].bridge != b[j].bridge {
      assert ab[|a| + i] == b[i] && ab[|a| + j] == b[j];
    }
    forall i | 0 <= i < |a| ensures a[i].bridge !in held {
      assert ab[i] == a[i];
    }
    forall j | 0 <= j < |b| ensures b[j].bridge !in Put(held, a) {
      assert ab[|a| + j] == b[j];
      PutHas(held, a, b[j].bridge);
      forall i | 0 <= i < |a| ensures a[i].bridge != b[j].bridge {
        assert ab[i] == a[i];
      }
    }
  }

  /** The snapshot a new link starts with, cut at the queue's end, leads to the table it was taken of. */
  lemma {:induction false} PartsFollow(chunks: seq<seq<Entry>>, n: nat, v: View, src: Source)
    requires v.started && v.open == (chunks != []) && |src.hist| > 0 && v.k == |src.hist| - 1
    requires n <= |chunks| && src.cut == (n < |chunks|)
    requires Put(v.held, Flatten(chunks)) == src.hist[v.k]
    requires forall e :: e in Flatten(chunks) ==> e.bridge in src.hist[v.k] && src.hist[v.k][e.bridge] == e
    requires SubTable(v.held, src.hist[v.k])
    requires DistinctBridges(Flatten(chunks)) && NoneHeld(Flatten(chunks), v.held)
    ensures n <= |Parts(chunks)| && Follows(Parts(chunks)[..n], v, src)
    decreases n
  {
    PartsLength(chunks);
    if n > 0 {
      var es, rest := chunks[0], chunks[1..];
      assert Flatten(chunks) == es + Flatten(rest);
      var v' := v.(open := |chunks| > 1, held := Put(v.held, es));
      PutAppend(v.held, es, Flatten(rest));
      forall i | 0 <= i < |es| ensures es[i].bridge in src.hist[v.k] && src.hist[v.k][es[i].bridge] == es[i] {
        assert es[i] == Flatten(chunks)[i];
        assert es[i] in Flatten(chunks);
      }
      PutInTable(v.held, es, src.hist[v.k]);
      forall e | e in Flatten(rest) ensures e.bridge in src.hist[v.k] && src.hist[v.k][e.bridge] == e {
        assert e in Flatten(chunks);
      }
      SplitDistinct(es, Flatten(rest), v.held);
      PartsFollow(rest, n - 1, v', src);
      assert Parts(chunks)[..n][1..] == Parts(rest)[..n - 1];
    }
  }

  const NOTHING_YET := View(false, false, 0, map[])

  lemma {:induction false} FirstChunk(chunks: seq<seq<Entry>>, table: Table)
    requires Keyed(table) && ChunksOf(chunks, table)
    ensures SubTable(Put(map[], chunks[0]), table)
    ensures Put(Put(map[], chunks[0]), Flatten(chunks[1..])) == table
    ensures forall e :: e in Flatten(chunks[1..]) ==> e.bridge in table && table[e.bridge] == e
  {
    var es, rest := chunks[0], chunks[1..];
    assert Flatten(chunks) == es + Flatten(rest);
    PutAllIsTable(chunks, table);
    PutAppend(map[], es, Flatten(rest));
    forall i | 0 <= i < |es| ensures es[i].bridge in table && table[es[i].bridge] == es[i] {
      assert es[i] == Flatten(chunks)[i];
      assert es[i] in Flatten(chunks);
    }
    PutInTable(map[], es, table);
    forall e | e in Flatten(rest) ensures e.bridge in table && table[e.bridge] == e {
      assert e in Flatten(chunks);
    }
  }

  lemma {:induction false} SnapshotFollows(chunks: seq<seq<Entry>>, n: nat, src: Source)
    requires |src.hist| > 0 && Keyed(src.hist[|src.hist| - 1]) && ChunksOf(chunks, src.hist[|src.hist| - 1])
    requires 1 <= n <= |chunks| && src.cut == (n < |chunks|)
    ensures n <= |SnapshotFrames(src.epoch, |src.hist| - 1, chunks)|
    ensures Follows(SnapshotFrames(src.epoch, |src.hist| - 1, chunks)[..n], NOTHING_YET, src)
  {
    var k, rest := |src.hist| - 1, chunks[1..];
    var v := View(true, |chunks| > 1, k, Put(map[], chunks[0]));
    FirstChunk(chunks, src.hist[k]);
    FirstChunkIsApart(chunks);
    LastPiece(chunks, src.hist[k]);
    PartsLength(rest);
    var first, q := Snapshot(src.epoch, k, chunks[0], |chunks| > 1), SnapshotFrames(src.epoch, k, chunks)[..n];
    FirstOfFrames(first, Parts(rest), n);
    assert DistinctBridges(Flatten(chunks));
    hide *;
    PartsFollow(rest, n - 1, v, src);
    OpensFollowing(q, src);
  }

  lemma FirstOfFrames(first: Frame, parts: seq<Frame>, n: nat)
    requires 1 <= n <= |parts| + 1
    ensures ([first] + parts)[..n][0] == first && ([first] + parts)[..n][1..] == parts[..n - 1]
  {
  }

  lemma OpensFollowing(q: seq<Frame>, src: Source)
    requires q != [] && q[0].Snapshot? && q[0].epoch == src.epoch && q[0].seq_ < |src.hist|
    requires DistinctBridges(q[0].entries)
    requires SnapshotPiece(Put(map[], q[0].entries), q[0].more, src.hist[q[0].seq_])
    requires Follows(q[1..], View(true, q[0].more, q[0].seq_, Put(map[], q[0].entries)), src)
    ensures Follows(q, NOTHING_YET, src)
  {
    hide Put, SnapshotPiece, DistinctBridges;
  }

  lemma FirstChunkIsApart(chunks: seq<seq<Entry>>)
    requires chunks != [] && DistinctBridges(Flatten(chunks))
    ensures DistinctBridges(chunks[0]) && DistinctBridges(Flatten(chunks[1..]))
    ensures NoneHeld(Flatten(chunks[1..]), Put(map[], chunks[0]))
  {
    assert Flatten(chunks) == chunks[0] + Flatten(chunks[1..]);
    SplitDistinct(chunks[0], Flatten(chunks[1..]), map[]);
  }

  /** A snapshot in one piece is the whole table. */
  lemma LastPiece(chunks: seq<seq<Entry>>, table: Table)
    requires chunks != [] && Put(Put(map[], chunks[0]), Flatten(chunks[1..])) == table
    requires SubTable(Put(map[], chunks[0]), table)
    ensures SnapshotPiece(Put(map[], chunks[0]), |chunks| > 1, table)
  {
    if |chunks| == 1 { assert chunks[1..] == [] && Flatten([]) == []; }
  }

  // --- The system ---------------------------------------------------------------------------------------------

  /** A machine: its current life, and the tables of every life by sequence number. */
  datatype Sender = Sender(life: Life, lives: map<Life, seq<Table>>, draining: bool)

  /** A connection from a machine to the receiver, with the frames it carries and has not delivered. */
  datatype Conn = Conn(machine: string, life: Life, hello: Option<Hello>, registered: bool, queue: seq<Frame>,
                       live: bool, cut: bool, view: View)

  datatype Sys = Sys(senders: map<string, Sender>, conns: map<nat, Conn>, peers: Peers)

  datatype Step =
    | Start(machine: string, life: Life)
    | Attach(machine: string, entry: Entry)
    | Detach(machine: string, tunnel: string, bridge: nat)
    | Publish(machine: string, event: Event)
    | Drain(machine: string)
    | Connect(machine: string, id: nat, chunks: seq<seq<Entry>>)
    | SayHello(id: nat, region: string, address: string)
    | Register(id: nat, dialer: string)
    | Deliver(id: nat, now: nat)
    | Lose(id: nat, left: nat)
    | Drop(id: nat)

  const INIT := Sys(map[], map[], map[])

  function History(snd: Sender): seq<Table> {
    if snd.life in snd.lives then snd.lives[snd.life] else []
  }

  function Broadcast(conns: map<nat, Conn>, machine: string, f: Frame): map<nat, Conn> {
    map id | id in conns ::
      if conns[id].machine == machine && conns[id].live then conns[id].(queue := conns[id].queue + [f]) else conns[id]
  }

  function Hang(conns: map<nat, Conn>, machine: string): map<nat, Conn> {
    map id | id in conns :: if conns[id].machine == machine then conns[id].(live := false) else conns[id]
  }

  function Announce(s: Sys, machine: string, f: Frame, table: Table): Sys
    requires machine in s.senders
  {
    var snd := s.senders[machine];
    s.(senders := s.senders[machine := snd.(lives := snd.lives[snd.life := History(snd) + [table]])],
       conns := Broadcast(s.conns, machine, f))
  }

  function Forget(s: Sys, id: nat): Sys
    requires id in s.conns
  {
    s.(conns := s.conns - {id}, peers := LinkDownPeers(s.peers, s.conns[id].machine, id))
  }

  function Min(a: nat, b: nat): nat { if a < b then a else b }

  // Each step on its own; one that cannot happen in a state changes nothing.

  /** A machine starts, for the first time or again: its links of earlier lives carry nothing new. */
  function DoStart(s: Sys, machine: string, life: Life): Sys {
    if machine !in s.senders then
      s.(senders := s.senders[machine := Sender(life, map[life := [map[]]], false)])
    else if life in s.senders[machine].lives then s
    else
      s.(senders := s.senders[machine := Sender(life, s.senders[machine].lives[life := [map[]]], false)],
         conns := Hang(s.conns, machine))
  }

  function DoAttach(s: Sys, machine: string, entry: Entry): Sys {
    if machine !in s.senders || |History(s.senders[machine])| == 0 then s
    else
      var hist := History(s.senders[machine]);
      Announce(s, machine, Attached(|hist|, entry), hist[|hist| - 1][entry.bridge := entry])
  }

  function DoDetach(s: Sys, machine: string, tunnel: string, bridge: nat): Sys {
    if machine !in s.senders || |History(s.senders[machine])| == 0 then s
    else
      var hist := History(s.senders[machine]);
      if bridge !in hist[|hist| - 1] then s
      else Announce(s, machine, Detached(|hist|, tunnel, bridge), hist[|hist| - 1] - {bridge})
  }

  function DoPublish(s: Sys, machine: string, event: Event): Sys {
    if machine !in s.senders then s
    else s.(conns := Broadcast(s.conns, machine, EventFrame(event)))
  }

  /** A machine is about to leave: what it says of itself from now on, which no link hears yet. */
  function DoDrain(s: Sys, machine: string): Sys {
    if machine !in s.senders then s
    else s.(senders := s.senders[machine := s.senders[machine].(draining := true)])
  }

  /** A new link's queue starts with a snapshot, as much of it as fits. */
  function DoConnect(s: Sys, machine: string, id: nat, chunks: seq<seq<Entry>>): Sys {
    if machine !in s.senders || id in s.conns || |History(s.senders[machine])| == 0 then s
    else
      var snd := s.senders[machine];
      var hist := History(snd);
      if !ChunksOf(chunks, hist[|hist| - 1]) then s
      else
        var frames := SnapshotFrames(snd.life.epoch, |hist| - 1, chunks);
        var n := Min(|frames|, LINK_QUEUE);
        s.(conns := s.conns[id := Conn(machine, snd.life, None, false, frames[..n], true, n < |frames|, NOTHING_YET)])
  }

  function DoSayHello(s: Sys, id: nat, region: string, address: string): Sys {
    if id !in s.conns || s.conns[id].hello.Some? || s.conns[id].machine !in s.senders then s
    else
      var c := s.conns[id];
      var hello := Hello(c.machine, region, address, c.life.epoch, c.life.startedAt, s.senders[c.machine].draining);
      s.(conns := s.conns[id := c.(hello := Some(hello))])
  }

  function DoRegister(s: Sys, id: nat, dialer: string): Sys {
    if id !in s.conns || s.conns[id].hello.None? || s.conns[id].registered then s
    else
      var c := s.conns[id];
      var a := Attempt(c.hello.value, id, dialer);
      if Accepts(s.peers, a)
      then s.(conns := s.conns[id := c.(registered := true)], peers := RegisterPeers(s.peers, a))
      else Forget(s, id)
  }

  function DoDeliver(s: Sys, id: nat, now: nat): Sys {
    if id !in s.conns || !s.conns[id].registered || s.conns[id].queue == [] then s
    else
      var c := s.conns[id];
      var (peers, end) := ApplyToPeers(s.peers, c.machine, id, c.queue[0], now);
      if end.None?
      then s.(conns := s.conns[id := c.(queue := c.queue[1..], view := Advance(c.view, c.queue[0]))], peers := peers)
      else Forget(s, id)
  }

  /** The sender gives a link up (its queue was full, or it ended): frames not delivered yet may be lost. */
  function DoLose(s: Sys, id: nat, left: nat): Sys {
    if id !in s.conns || left > |s.conns[id].queue| then s
    else s.(conns := s.conns[id := s.conns[id].(live := false, queue := s.conns[id].queue[..left])])
  }

  function Take(s: Sys, step: Step): Sys {
    match step
    case Start(machine, life) => DoStart(s, machine, life)
    case Attach(machine, entry) => DoAttach(s, machine, entry)
    case Detach(machine, tunnel, bridge) => DoDetach(s, machine, tunnel, bridge)
    case Publish(machine, event) => DoPublish(s, machine, event)
    case Drain(machine) => DoDrain(s, machine)
    case Connect(machine, id, chunks) => DoConnect(s, machine, id, chunks)
    case SayHello(id, region, address) => DoSayHello(s, id, region, address)
    case Register(id, dialer) => DoRegister(s, id, dialer)
    case Deliver(id, now) => DoDeliver(s, id, now)
    case Lose(id, left) => DoLose(s, id, left)
    case Drop(id) => if id in s.conns then Forget(s, id) else s
  }

  function Run(s: Sys, steps: seq<Step>): Sys {
    if steps == [] then s else Take(Run(s, steps[..|steps| - 1]), steps[|steps| - 1])
  }

  // --- The invariant ------------------------------------------------------------------------------------------

  ghost predicate SenderOk(snd: Sender) {
    && snd.life in snd.lives
    && forall l :: l in snd.lives ==>
         |snd.lives[l]| > 0 && forall k :: 0 <= k < |snd.lives[l]| ==> Keyed(snd.lives[l][k])
  }

  function SourceOf(snd: Sender, c: Conn): Source
    requires c.life in snd.lives
  {
    Source(c.life.epoch, snd.lives[c.life], c.live, c.cut)
  }

  ghost predicate ConnOk(senders: map<string, Sender>, c: Conn) {
    && c.machine in senders && c.life in senders[c.machine].lives
    && (c.live ==> c.life == senders[c.machine].life)
    && Sound(c.view, senders[c.machine].lives[c.life])
    && Follows(c.queue, c.view, SourceOf(senders[c.machine], c))
    && (c.hello.Some? ==> c.hello.value.machine == c.machine && c.hello.value.Life() == c.life)
    && (!c.registered ==> !c.view.started)
    && (c.registered ==> c.hello.Some?)
  }

  ghost predicate PeerOk(s: Sys, m: string, p: Peer) {
    && p.link in s.conns
    && var c := s.conns[p.link];
    && c.machine == m && c.registered && p.hello.machine == m && p.hello.Life() == c.life
    && m in s.senders && c.life in s.senders[m].lives
    && Matches(p, c.view, s.senders[m].lives[c.life])
  }

  ghost predicate SendersOk(s: Sys) {
    forall m :: m in s.senders ==> SenderOk(s.senders[m])
  }

  ghost predicate ConnsOk(s: Sys) {
    forall id :: id in s.conns ==> ConnOk(s.senders, s.conns[id])
  }

  ghost predicate PeersOk(s: Sys) {
    forall m :: m in s.peers ==> PeerOk(s, m, s.peers[m])
  }

  ghost predicate Inv(s: Sys) {
    SendersOk(s) && ConnsOk(s) && PeersOk(s)
  }

  lemma {:induction false} MatchesGrows(p: Peer, v: View, hist: seq<Table>, more: seq<Table>)
    requires Matches(p, v, hist)
    ensures Matches(p, v, hist + more)
  {
    if !v.started {
      var j :| 0 <= j < |hist| && ClampedBelow(p.entries, hist[j]);
      assert (hist + more)[j] == hist[j];
    }
  }

  lemma {:induction false} SoundGrows(v: View, hist: seq<Table>, more: seq<Table>)
    requires Sound(v, hist)
    ensures Sound(v, hist + more)
  {
  }

  /** Nothing a peer depends on changes but that its machine's history may grow. */
  ghost predicate Undisturbed(s: Sys, s': Sys, m: string, link: nat)
    requires link in s.conns && m in s.senders && s.conns[link].life in s.senders[m].lives
  {
    && link in s'.conns && m in s'.senders && s.conns[link].life in s'.senders[m].lives
    && s'.conns[link].machine == s.conns[link].machine && s'.conns[link].registered == s.conns[link].registered
    && s'.conns[link].life == s.conns[link].life && s'.conns[link].view == s.conns[link].view
    && s.senders[m].lives[s.conns[link].life] <= s'.senders[m].lives[s.conns[link].life]
  }

  lemma {:induction false} PeerStaysOk(s: Sys, s': Sys, m: string, p: Peer)
    requires PeerOk(s, m, p) && Undisturbed(s, s', m, p.link)
    ensures PeerOk(s', m, p)
  {
    var life := s.conns[p.link].life;
    var before, after := s.senders[m].lives[life], s'.senders[m].lives[life];
    MatchesGrows(p, s.conns[p.link].view, before, after[|before|..]);
    assert after == before + after[|before|..];
  }

  lemma {:induction false} ConnStaysOk(senders: map<string, Sender>, senders': map<string, Sender>, c: Conn)
    requires ConnOk(senders, c) && c.machine in senders' && c.life in senders'[c.machine].lives
    requires senders'[c.machine].lives[c.life] == senders[c.machine].lives[c.life]
    requires c.live ==> senders'[c.machine].life == senders[c.machine].life
    ensures ConnOk(senders', c)
  {
  }

  lemma {:induction false} ConnHears(senders: map<string, Sender>, senders': map<string, Sender>, c: Conn, f: Frame,
                                     table: Table)
    requires ConnOk(senders, c) && SenderOk(senders[c.machine]) && NextChange(senders[c.machine], f, table)
    requires var snd := senders[c.machine];
             c.life == snd.life
             && senders' == senders[c.machine := snd.(lives := snd.lives[snd.life := History(snd) + [table]])]
    ensures ConnOk(senders', if c.live then c.(queue := c.queue + [f]) else c)
  {
    var src := SourceOf(senders[c.machine], c);
    SoundGrows(c.view, src.hist, [table]);
    if c.live {
      AnnounceExtends(c.queue, c.view, src, f, table);
    } else {
      CutShort(c.queue, |c.queue|, c.view, src, [table]);
      assert c.queue[..|c.queue|] == c.queue;
    }
  }

  lemma {:induction false} ConnShortened(senders: map<string, Sender>, c: Conn, left: nat)
    requires ConnOk(senders, c) && left <= |c.queue|
    ensures ConnOk(senders, c.(live := false, queue := c.queue[..left]))
  {
    var src := SourceOf(senders[c.machine], c);
    CutShort(c.queue, left, c.view, src, []);
    assert src.hist + [] == src.hist;
  }

  /** What a numbered change announces: the next sequence number, and the table after it. */
  ghost predicate NextChange(snd: Sender, f: Frame, table: Table) {
    var hist := History(snd);
    && |hist| > 0
    && match f
       case Attached(seq_, e) => seq_ == |hist| && table == hist[|hist| - 1][e.bridge := e]
       case Detached(seq_, _, b) => seq_ == |hist| && table == hist[|hist| - 1] - {b}
       case _ => false
  }

  lemma {:induction false} AnnounceKeepsConns(s: Sys, machine: string, f: Frame, table: Table)
    requires SendersOk(s) && ConnsOk(s) && machine in s.senders && NextChange(s.senders[machine], f, table)
    ensures ConnsOk(Announce(s, machine, f, table))
  {
    var s' := Announce(s, machine, f, table);
    forall id | id in s'.conns ensures ConnOk(s'.senders, s'.conns[id]) {
      var c := s.conns[id];
      assert ConnOk(s.senders, c);
      if c.machine == machine && c.life == s.senders[machine].life {
        ConnHears(s.senders, s'.senders, c, f, table);
      } else {
        ConnStaysOk(s.senders, s'.senders, c);
      }
    }
  }

  lemma {:induction false} AnnounceKeepsSenders(s: Sys, machine: string, f: Frame, table: Table)
    requires SendersOk(s) && machine in s.senders && NextChange(s.senders[machine], f, table)
    ensures SendersOk(Announce(s, machine, f, table))
  {
    var s' := Announce(s, machine, f, table);
    var snd := s.senders[machine];
    assert SenderOk(snd);
    var hist := History(snd);
    assert Keyed(hist[|hist| - 1]);
    forall m | m in s'.senders ensures SenderOk(s'.senders[m]) {
      assert SenderOk(s.senders[m]);
    }
  }

  lemma {:induction false} AnnounceKeepsInv(s: Sys, machine: string, f: Frame, table: Table)
    requires Inv(s) && machine in s.senders && NextChange(s.senders[machine], f, table)
    ensures Inv(Announce(s, machine, f, table))
  {
    AnnounceKeepsConns(s, machine, f, table);
    AnnounceKeepsSenders(s, machine, f, table);
    AnnounceKeepsPeers(s, machine, f, table);
  }

  lemma {:induction false} AnnounceKeepsPeers(s: Sys, machine: string, f: Frame, table: Table)
    requires PeersOk(s) && machine in s.senders
    ensures PeersOk(Announce(s, machine, f, table))
  {
    var s' := Announce(s, machine, f, table);
    forall m | m in s'.peers ensures PeerOk(s', m, s'.peers[m]) {
      PeerStaysOk(s, s', m, s.peers[m]);
    }
  }

  lemma {:induction false} StartKeepsConns(s: Sys, machine: string, life: Life)
    requires ConnsOk(s)
    ensures ConnsOk(DoStart(s, machine, life))
  {
    var s' := DoStart(s, machine, life);
    if machine !in s.senders || life !in s.senders[machine].lives {
      forall id | id in s'.conns ensures ConnOk(s'.senders, s'.conns[id]) {
        var c := s.conns[id];
        assert ConnOk(s.senders, c);
        if c.machine == machine {
          ConnShortened(s.senders, c, |c.queue|);
          assert c.queue[..|c.queue|] == c.queue;
          ConnStaysOk(s.senders, s'.senders, c.(live := false));
        } else {
          ConnStaysOk(s.senders, s'.senders, c);
        }
      }
    }
  }

  lemma {:induction false} StartKeepsInv(s: Sys, machine: string, life: Life)
    requires Inv(s)
    ensures Inv(DoStart(s, machine, life))
  {
    StartKeepsConns(s, machine, life);
    StartKeepsSenders(s, machine, life);
    StartKeepsPeers(s, machine, life);
  }

  lemma {:induction false} StartKeepsSenders(s: Sys, machine: string, life: Life)
    requires SendersOk(s)
    ensures SendersOk(DoStart(s, machine, life))
  {
    var s' := DoStart(s, machine, life);
    forall m | m in s'.senders ensures SenderOk(s'.senders[m]) {
      if m in s.senders { assert SenderOk(s.senders[m]); }
    }
  }

  lemma {:induction false} StartKeepsPeers(s: Sys, machine: string, life: Life)
    requires PeersOk(s)
    ensures PeersOk(DoStart(s, machine, life))
  {
    var s' := DoStart(s, machine, life);
    forall m | m in s'.peers ensures PeerOk(s', m, s'.peers[m]) {
      PeerStaysOk(s, s', m, s.peers[m]);
    }
  }

  lemma {:induction false} ConnHearsEvent(senders: map<string, Sender>, c: Conn, event: Event)
    requires ConnOk(senders, c) && c.live
    ensures ConnOk(senders, c.(queue := c.queue + [EventFrame(event)]))
  {
    EventExtends(c.queue, c.view, SourceOf(senders[c.machine], c), event);
  }

  lemma {:induction false} PublishKeepsConns(s: Sys, machine: string, event: Event)
    requires ConnsOk(s)
    ensures ConnsOk(DoPublish(s, machine, event))
  {
    var s' := DoPublish(s, machine, event);
    hide ConnOk;
    forall id | id in s'.conns ensures ConnOk(s'.senders, s'.conns[id]) {
      var c := s.conns[id];
      assert ConnOk(s.senders, c);
      if c.machine == machine && c.live {
        ConnHearsEvent(s.senders, c, event);
      }
    }
  }

  lemma {:induction false} PublishKeepsInv(s: Sys, machine: string, event: Event)
    requires Inv(s)
    ensures Inv(DoPublish(s, machine, event))
  {
    PublishKeepsConns(s, machine, event);
    hide Follows, Sound, Matches;
    var s' := DoPublish(s, machine, event);
    forall m | m in s'.peers ensures PeerOk(s', m, s'.peers[m]) {
      PeerStaysOk(s, s', m, s.peers[m]);
    }
  }

  lemma {:induction false} DrainKeepsInv(s: Sys, machine: string)
    requires Inv(s)
    ensures Inv(DoDrain(s, machine))
  {
    hide Follows, Sound, Matches;
    var s' := DoDrain(s, machine);
    assert SendersOk(s') by {
      assert machine in s.senders ==> SenderOk(s.senders[machine]);
    }
    forall id | id in s'.conns ensures ConnOk(s'.senders, s'.conns[id]) {
      ConnStaysOk(s.senders, s'.senders, s.conns[id]);
    }
    forall m | m in s'.peers ensures PeerOk(s', m, s'.peers[m]) {
      PeerStaysOk(s, s', m, s.peers[m]);
    }
  }

  /** One connection changes in ways no peer depends on. */
  lemma {:induction false} OneConnChanged(s: Sys, s': Sys, id: nat)
    requires Inv(s) && s'.senders == s.senders && s'.peers == s.peers
    requires id in s'.conns && s'.conns == s.conns[id := s'.conns[id]] && ConnOk(s'.senders, s'.conns[id])
    requires id in s.conns ==>
               && s'.conns[id].machine == s.conns[id].machine && s'.conns[id].registered == s.conns[id].registered
               && s'.conns[id].life == s.conns[id].life && s'.conns[id].view == s.conns[id].view
    ensures Inv(s')
  {
    forall m | m in s'.peers ensures PeerOk(s', m, s'.peers[m]) {
      assert PeerOk(s, m, s.peers[m]);
      PeerStaysOk(s, s', m, s.peers[m]);
    }
  }

  lemma {:induction false} ConnectKeepsInv(s: Sys, machine: string, id: nat, chunks: seq<seq<Entry>>)
    requires Inv(s)
    ensures Inv(DoConnect(s, machine, id, chunks))
  {
    var s' := DoConnect(s, machine, id, chunks);
    if s' != s {
      var snd := s.senders[machine];
      assert SenderOk(snd);
      var hist := History(snd);
      var frames := SnapshotFrames(snd.life.epoch, |hist| - 1, chunks);
      PartsLength(chunks[1..]);
      var n := Min(|frames|, LINK_QUEUE);
      SnapshotFollows(chunks, n, Source(snd.life.epoch, hist, true, n < |frames|));
      assert ConnOk(s'.senders, s'.conns[id]);
      OneConnChanged(s, s', id);
    }
  }

  lemma {:induction false} ForgetKeepsInv(s: Sys, id: nat)
    requires Inv(s) && id in s.conns
    ensures Inv(Forget(s, id))
  {
    var s' := Forget(s, id);
    forall m | m in s'.peers ensures PeerOk(s', m, s'.peers[m]) {
      assert PeerOk(s, m, s.peers[m]);
      PeerStaysOk(s, s', m, s.peers[m]);
    }
  }

  /** Entries carried over from the link a new one replaces come from a table of the same life. */
  lemma {:induction false} CarriedEntriesMatch(s: Sys, c: Conn, a: Attempt)
    requires ConnOk(s.senders, c) && SenderOk(s.senders[c.machine]) && !c.registered
    requires c.hello.Some? && a.hello == c.hello.value
    requires c.machine in s.peers ==>
               PeerOk(s, c.machine, s.peers[c.machine]) && ConnOk(s.senders, s.conns[s.peers[c.machine].link])
    ensures Matches(Peer(a.hello, a.link, a.dialer, 0, Carried(s.peers, a), false), c.view,
                    s.senders[c.machine].lives[c.life])
  {
    var m, hist := c.machine, s.senders[c.machine].lives[c.life];
    if m in s.peers && s.peers[m].hello.Life() == c.life {
      var replaced := s.conns[s.peers[m].link];
      if replaced.view.started {
        assert ClampedBelow(s.peers[m].entries, hist[replaced.view.k]);
      }
    } else {
      assert ClampedBelow(map[], hist[0]);
    }
  }

  /** Peers of other machines, when one connection and one machine's peer change. */
  lemma {:induction false} OtherPeersStayOk(s: Sys, s': Sys, id: nat, m: string)
    requires PeersOk(s) && id in s.conns && s'.senders == s.senders
    requires id in s'.conns && s'.conns == s.conns[id := s'.conns[id]]
    requires s'.conns[id].machine == s.conns[id].machine == m
    requires m in s'.peers && s'.peers == s.peers[m := s'.peers[m]] && PeerOk(s', m, s'.peers[m])
    ensures PeersOk(s')
  {
    forall n | n in s'.peers ensures PeerOk(s', n, s'.peers[n]) {
      if n != m {
        assert PeerOk(s, n, s.peers[n]);
        PeerStaysOk(s, s', n, s.peers[n]);
      }
    }
  }

  lemma {:induction false} RegisterKeepsInv(s: Sys, id: nat, dialer: string)
    requires Inv(s)
    ensures Inv(DoRegister(s, id, dialer))
  {
    var s' := DoRegister(s, id, dialer);
    if id in s.conns && s.conns[id].hello.Some? && !s.conns[id].registered {
      var c := s.conns[id];
      if Accepts(s.peers, Attempt(c.hello.value, id, dialer)) {
        assert ConnOk(s.senders, c);
        assert ConnsOk(s');
        AcceptedLinkIsOk(s, id, dialer);
      } else {
        ForgetKeepsInv(s, id);
      }
    }
  }

  lemma {:induction false} AcceptedLinkIsOk(s: Sys, id: nat, dialer: string)
    requires Inv(s) && id in s.conns && s.conns[id].hello.Some? && !s.conns[id].registered
    requires Accepts(s.peers, Attempt(s.conns[id].hello.value, id, dialer))
    ensures PeersOk(DoRegister(s, id, dialer))
  {
    var s' := DoRegister(s, id, dialer);
    var c := s.conns[id];
    assert ConnOk(s.senders, c);
    if c.machine in s.peers {
      assert PeerOk(s, c.machine, s.peers[c.machine]);
    }
    CarriedEntriesMatch(s, c, Attempt(c.hello.value, id, dialer));
    assert PeerOk(s', c.machine, s'.peers[c.machine]);
    OtherPeersStayOk(s, s', id, c.machine);
  }

  lemma {:induction false} DeliverKeepsInv(s: Sys, id: nat, now: nat)
    requires Inv(s)
    ensures Inv(DoDeliver(s, id, now))
  {
    var s' := DoDeliver(s, id, now);
    if id in s.conns && s.conns[id].registered && s.conns[id].queue != [] {
      var c := s.conns[id];
      assert ConnOk(s.senders, c);
      if ApplyToPeers(s.peers, c.machine, id, c.queue[0], now).1.None? {
        var p := s.peers[c.machine];
        assert PeerOk(s, c.machine, p);
        DeliveredFrame(s.senders, c, p, now);
        OtherPeersStayOk(s, s', id, c.machine);
      } else {
        ForgetKeepsInv(s, id);
      }
    }
  }

  lemma {:induction false} DeliveredFrame(senders: map<string, Sender>, c: Conn, p: Peer, now: nat)
    requires ConnOk(senders, c) && c.queue != [] && p.hello.Life() == c.life
    requires Matches(p, c.view, senders[c.machine].lives[c.life])
    requires ApplyFrame(p, c.queue[0], now).Applied? && c.registered
    ensures ConnOk(senders, c.(queue := c.queue[1..], view := Advance(c.view, c.queue[0])))
    ensures Matches(ApplyFrame(p, c.queue[0], now).peer, Advance(c.view, c.queue[0]), senders[c.machine].lives[c.life])
    ensures ApplyFrame(p, c.queue[0], now).peer.hello ==
              p.hello.(draining := ApplyFrame(p, c.queue[0], now).peer.hello.draining)
    ensures ApplyFrame(p, c.queue[0], now).peer.link == p.link
  {
    var src := SourceOf(senders[c.machine], c);
    FrameKeepsMatch(c.queue, c.view, src, p, now);
    AdvanceStaysSound(c.queue, c.view, src);
  }

  lemma {:induction false} LoseKeepsInv(s: Sys, id: nat, left: nat)
    requires Inv(s)
    ensures Inv(DoLose(s, id, left))
  {
    var s' := DoLose(s, id, left);
    if id in s.conns && left <= |s.conns[id].queue| {
      ConnShortened(s.senders, s.conns[id], left);
      OneConnChanged(s, s', id);
    }
  }

  lemma {:induction false} SayHelloKeepsInv(s: Sys, id: nat, region: string, address: string)
    requires Inv(s)
    ensures Inv(DoSayHello(s, id, region, address))
  {
    var s' := DoSayHello(s, id, region, address);
    if id in s.conns && s.conns[id].hello.None? && s.conns[id].machine in s.senders {
      assert ConnOk(s.senders, s.conns[id]);
      OneConnChanged(s, s', id);
    }
  }

  lemma {:induction false} AttachKeepsInv(s: Sys, machine: string, entry: Entry)
    requires Inv(s)
    ensures Inv(DoAttach(s, machine, entry))
  {
    if machine in s.senders && |History(s.senders[machine])| > 0 {
      var hist := History(s.senders[machine]);
      var f, table: Table := Attached(|hist|, entry), hist[|hist| - 1][entry.bridge := entry];
      AnnounceKeepsInv(s, machine, f, table);
      assert DoAttach(s, machine, entry) == Announce(s, machine, f, table);
    } else {
      assert DoAttach(s, machine, entry) == s;
    }
  }

  lemma {:induction false} DetachKeepsInv(s: Sys, machine: string, tunnel: string, bridge: nat)
    requires Inv(s)
    ensures Inv(DoDetach(s, machine, tunnel, bridge))
  {
    var hist := if machine in s.senders then History(s.senders[machine]) else [];
    if |hist| > 0 && bridge in hist[|hist| - 1] {
      var f, table: Table := Detached(|hist|, tunnel, bridge), hist[|hist| - 1] - {bridge};
      AnnounceKeepsInv(s, machine, f, table);
      assert DoDetach(s, machine, tunnel, bridge) == Announce(s, machine, f, table);
    } else {
      assert DoDetach(s, machine, tunnel, bridge) == s;
    }
  }

  lemma {:induction false} StepKeepsInv(s: Sys, step: Step)
    requires Inv(s)
    ensures Inv(Take(s, step))
  {
    match step
    case Start(machine, life) => StartKeepsInv(s, machine, life);
    case Attach(machine, entry) => AttachKeepsInv(s, machine, entry);
    case Detach(machine, tunnel, bridge) => DetachKeepsInv(s, machine, tunnel, bridge);
    case Publish(machine, event) => PublishKeepsInv(s, machine, event);
    case Drain(machine) => DrainKeepsInv(s, machine);
    case Connect(machine, id, chunks) => ConnectKeepsInv(s, machine, id, chunks);
    case SayHello(id, region, address) => SayHelloKeepsInv(s, id, region, address);
    case Register(id, dialer) => RegisterKeepsInv(s, id, dialer);
    case Deliver(id, now) => DeliverKeepsInv(s, id, now);
    case Lose(id, left) => LoseKeepsInv(s, id, left);
    case Drop(id) => if id in s.conns { ForgetKeepsInv(s, id); }
  }

  lemma {:induction false} RunKeepsInv(s: Sys, steps: seq<Step>)
    requires Inv(s)
    ensures Inv(Run(s, steps))
  {
    if steps != [] {
      RunKeepsInv(s, steps[..|steps| - 1]);
      StepKeepsInv(Run(s, steps[..|steps| - 1]), steps[|steps| - 1]);
    }
  }

  // --- What every run guarantees --------------------------------------------------------------------------------

  /**
   * In every run, what the receiver holds for a peer comes from one table of that life of the peer: part of it
   * while no snapshot of the link is complete, nothing once the peer is known to leave, and otherwise exactly the
   * table at the sequence number reached (but for times ahead of the receiver's clock).
   */
  lemma {:induction false} ReplicationRefinesHistory(steps: seq<Step>, m: string)
    requires m in Run(INIT, steps).peers
    ensures var s := Run(INIT, steps); var p := s.peers[m];
            && m in s.senders && p.hello.Life() in s.senders[m].lives && p.link in s.conns
            && var hist := s.senders[m].lives[p.hello.Life()]; var v := s.conns[p.link].view;
            && (exists j :: 0 <= j < |hist| && ClampedBelow(p.entries, hist[j]))
            && (v.started && p.hello.draining ==> p.entries == map[])
            && (v.started && !p.hello.draining && p.snapshotOpen ==>
                  p.seq_ < |hist| && ClampedBelow(p.entries, hist[p.seq_]))
            && (v.started && !p.hello.draining && !p.snapshotOpen ==>
                  p.seq_ < |hist| && ClampedAs(p.entries, hist[p.seq_]))
  {
    RunKeepsInv(INIT, steps);
    var s := Run(INIT, steps);
    var p := s.peers[m];
    assert PeerOk(s, m, p);
    var c := s.conns[p.link];
    assert ConnOk(s.senders, c);
    if c.view.started {
      assert ClampedBelow(p.entries, s.senders[m].lives[c.life][c.view.k]);
    }
  }

  /** Applies frames one after the other, each under its own clock, until one ends the link. */
  function ApplyAll(p: Peer, q: seq<Frame>, clocks: seq<nat>): Applied
    requires |clocks| == |q|
    decreases |q|
  {
    if q == [] then Applied(p)
    else match ApplyFrame(p, q[0], clocks[0])
         case Ended(reason) => Ended(reason)
         case Applied(p') => ApplyAll(p', q[1..], clocks[1..])
  }

  lemma {:induction false} QueueLeadsToCurrentTable(p: Peer, q: seq<Frame>, clocks: seq<nat>, v: View, src: Source)
    requires |clocks| == |q| && src.live && Follows(q, v, src) && Sound(v, src.hist)
    requires Matches(p, v, src.hist) && p.hello.epoch == src.epoch
    ensures match ApplyAll(p, q, clocks)
            case Ended(_) => src.cut
            case Applied(p') =>
              && |src.hist| > 0 && p'.seq_ == |src.hist| - 1
              && (p'.snapshotOpen ==> src.cut)
              && (if p'.hello.draining then p'.entries == map[]
                  else if p'.snapshotOpen then ClampedBelow(p'.entries, src.hist[p'.seq_])
                  else ClampedAs(p'.entries, src.hist[p'.seq_]))
    decreases |q|
  {
    if q != [] {
      FrameKeepsMatch(q, v, src, p, clocks[0]);
      if ApplyFrame(p, q[0], clocks[0]).Applied? {
        AdvanceStaysSound(q, v, src);
        QueueLeadsToCurrentTable(ApplyFrame(p, q[0], clocks[0]).peer, q[1..], clocks[1..], Advance(v, q[0]), src);
      }
    }
  }

  /**
   * In every run, applying the frames in flight on a live link, under whatever clocks, ends with exactly the
   * sender's current table; only a snapshot with more frames than the queue holds leads elsewhere, and then the
   * receiver still knows that its snapshot is open, or ends the link.
   */
  lemma {:induction false} QueuedFramesCatchUp(steps: seq<Step>, m: string, clocks: seq<nat>)
    requires var s := Run(INIT, steps);
             && m in s.peers && s.peers[m].link in s.conns && s.conns[s.peers[m].link].live
             && |clocks| == |s.conns[s.peers[m].link].queue|
    ensures var s := Run(INIT, steps); var c := s.conns[s.peers[m].link];
            && m in s.senders && |History(s.senders[m])| > 0
            && var hist := History(s.senders[m]);
            match ApplyAll(s.peers[m], c.queue, clocks)
            case Ended(_) => c.cut
            case Applied(p) =>
              && p.seq_ == |hist| - 1
              && (p.snapshotOpen ==> c.cut)
              && (if p.hello.draining then p.entries == map[]
                  else if p.snapshotOpen then ClampedBelow(p.entries, hist[|hist| - 1])
                  else ClampedAs(p.entries, hist[|hist| - 1]))
  {
    RunKeepsInv(INIT, steps);
    var s := Run(INIT, steps);
    var p := s.peers[m];
    var c := s.conns[p.link];
    assert PeerOk(s, m, p);
    assert ConnOk(s.senders, c);
    QueueLeadsToCurrentTable(p, c.queue, clocks, c.view, SourceOf(s.senders[m], c));
  }

  /** In every run, the frames a peer's link delivers keep the receiver's index exact. */
  lemma DeliveredFramesAreConsistent(steps: seq<Step>, id: nat)
    requires var s := Run(INIT, steps);
             id in s.conns && s.conns[id].queue != [] && Current(s.peers, s.conns[id].machine, id)
    ensures var s := Run(INIT, steps); Consistent(s.peers[s.conns[id].machine], s.conns[id].queue[0])
  {
    RunKeepsInv(INIT, steps);
    var s := Run(INIT, steps);
    assert ConnOk(s.senders, s.conns[id]);
    assert PeerOk(s, s.conns[id].machine, s.peers[s.conns[id].machine]);
  }

  /** How far a link's frames have come: the sequence number, and whether a snapshot is open. */
  datatype Point = Point(seq_: nat, open: bool)

  /**
   * Where frames lead, if they are in order: snapshots of the peer's epoch, parts only while one is open, no attach
   * inside one, no delta missing, and no second hello.
   */
  function Reached(q: seq<Frame>, epoch: nat, at: Point): Option<Point>
    decreases |q|
  {
    if q == [] then Some(at)
    else
      match q[0]
      case HelloFrame(_) => None
      case Snapshot(other, start, _, more) =>
        if other == epoch then Reached(q[1..], epoch, Point(start, more)) else None
      case SnapshotPart(_, more) => if at.open then Reached(q[1..], epoch, at.(open := more)) else None
      case Attached(next, _) =>
        if !at.open && next == at.seq_ + 1 then Reached(q[1..], epoch, at.(seq_ := next)) else None
      case Detached(next, _, _) => if next == at.seq_ + 1 then Reached(q[1..], epoch, at.(seq_ := next)) else None
      case _ => Reached(q[1..], epoch, at)
  }

  /** Whatever frames arrive, they are all applied iff they are in order; anything else ends the link. */
  lemma {:induction false} AllAppliedIff(p: Peer, q: seq<Frame>, clocks: seq<nat>)
    requires |clocks| == |q|
    ensures Reached(q, p.hello.epoch, Point(p.seq_, p.snapshotOpen))
         == match ApplyAll(p, q, clocks)
            case Ended(_) => None
            case Applied(p') => Some(Point(p'.seq_, p'.snapshotOpen))
    decreases |q|
  {
    if q != [] && ApplyFrame(p, q[0], clocks[0]).Applied? {
      AllAppliedIff(ApplyFrame(p, q[0], clocks[0]).peer, q[1..], clocks[1..]);
    }
  }
}

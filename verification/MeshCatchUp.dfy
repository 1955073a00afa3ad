/**
 * What a new link is for (mesh.rs): once registered, delivering the frames it carries gives the receiver the sender's
 * whole table.
 */
module MeshCatchUp {
  import opened Common
  import opened Order
  import opened MeshTable
  import opened MeshReplication

  function Deliveries(id: nat, clocks: seq<nat>): seq<Step> {
    if clocks == [] then [] else [Deliver(id, clocks[0])] + Deliveries(id, clocks[1..])
  }

  lemma {:induction false} OneFirst(s: Sys, step: Step, rest: seq<Step>)
    ensures Run(s, [step] + rest) == Run(Take(s, step), rest)
    decreases |rest|
  {
    hide Take;
    var all := [step] + rest;
    if rest == [] {
      assert all[..0] == [];
      assert Run(s, all[..0]) == s && Run(Take(s, step), []) == Take(s, step);
    } else {
      assert all[..|all| - 1] == [step] + rest[..|rest| - 1];
      OneFirst(s, step, rest[..|rest| - 1]);
    }
  }

  /** Delivering all a link carries, under any clocks, is applying it frame by frame. */
  lemma {:induction false} DeliveriesApply(s: Sys, id: nat, m: string, clocks: seq<nat>)
    requires id in s.conns && s.conns[id].registered && s.conns[id].machine == m && Current(s.peers, m, id)
    requires |clocks| == |s.conns[id].queue| && ApplyAll(s.peers[m], s.conns[id].queue, clocks).Applied?
    ensures var t := Run(s, Deliveries(id, clocks));
            && t.peers == s.peers[m := ApplyAll(s.peers[m], s.conns[id].queue, clocks).peer]
            && id in t.conns && t.conns[id].registered && t.conns[id].queue == []
    decreases |clocks|
  {
    if clocks == [] {
      assert s.peers[m := s.peers[m]] == s.peers;
    } else {
      var p, q := s.peers[m], s.conns[id].queue;
      var p' := ApplyFrame(p, q[0], clocks[0]).peer;
      OneFirst(s, Deliver(id, clocks[0]), Deliveries(id, clocks[1..]));
      LinkStays(p, q[0], clocks[0]);
      hide ApplyFrame, Run;
      var t := Take(s, Deliver(id, clocks[0]));
      assert t.peers == s.peers[m := p'] && t.conns[id].queue == q[1..];
      DeliveriesApply(t, id, m, clocks[1..]);
    }
  }

  lemma LinkStays(p: Peer, f: Frame, now: nat)
    requires ApplyFrame(p, f, now).Applied?
    ensures ApplyFrame(p, f, now).peer.link == p.link
  {
    hide Load;
  }

  /** The link once its snapshot is queued, its hello said, and it is registered. */
  function Linked(s: Sys, m: string, id: nat, chunks: seq<seq<Entry>>, region: string, address: string, dialer: string)
    : Sys
  {
    Take(Take(Take(s, Connect(m, id, chunks)), SayHello(id, region, address)), Register(id, dialer))
  }

  function HelloOf(snd: Sender, m: string, region: string, address: string): Hello {
    Hello(m, region, address, snd.life.epoch, snd.life.startedAt, snd.draining)
  }

  /** The machine may make this link, with a snapshot in chunks that fit the queue, and it would be registered. */
  ghost predicate MayLink(s: Sys, m: string, id: nat, chunks: seq<seq<Entry>>, region: string, address: string,
                          dialer: string) {
    && m in s.senders && |History(s.senders[m])| > 0 && id !in s.conns && 0 < |chunks| <= LINK_QUEUE
    && ChunksOf(chunks, History(s.senders[m])[|History(s.senders[m])| - 1])
    && Accepts(s.peers, Attempt(HelloOf(s.senders[m], m, region, address), id, dialer))
  }

  lemma OneFrameEach(epoch: nat, seq_: nat, chunks: seq<seq<Entry>>)
    requires chunks != []
    ensures |SnapshotFrames(epoch, seq_, chunks)| == |chunks|
  {
    PartsLength(chunks[1..]);
  }

  /** A link whose frames have yet to come. */
  ghost predicate IsUp(t: Sys, m: string, id: nat, frames: nat) {
    && Current(t.peers, m, id) && id in t.conns
    && t.conns[id].registered && t.conns[id].machine == m && t.conns[id].live && !t.conns[id].cut
    && |t.conns[id].queue| == frames
  }

  /** A link that may be registered is, and carries a snapshot of the current table. */
  lemma LinkIsUp(s: Sys, m: string, id: nat, chunks: seq<seq<Entry>>, region: string, address: string, dialer: string)
    requires MayLink(s, m, id, chunks, region, address, dialer)
    ensures var t := Linked(s, m, id, chunks, region, address, dialer);
            && IsUp(t, m, id, |chunks|) && t.peers[m].hello == HelloOf(s.senders[m], m, region, address)
            && t.senders == s.senders
  {
    OneFrameEach(s.senders[m].life.epoch, |History(s.senders[m])| - 1, chunks);
    hide ChunksOf, SnapshotFrames, Wins, Carried;
  }

  lemma QueueHolds(s: Sys, m: string, id: nat, clocks: seq<nat>)
    requires Inv(s) && IsUp(s, m, id, |clocks|)
    ensures m in s.senders && |History(s.senders[m])| > 0
    ensures var r := ApplyAll(s.peers[m], s.conns[id].queue, clocks); r.Applied? && Holds(r.peer, History(s.senders[m]))
  {
    var p, c := s.peers[m], s.conns[id];
    assert PeerOk(s, m, p) && ConnOk(s.senders, c);
    hide Inv, SendersOk, ConnsOk, PeersOk, ApplyAll, Follows, Matches, Sound, ClampedAs, ClampedBelow;
    var src := SourceOf(s.senders[m], c);
    assert src.hist == History(s.senders[m]);
    QueueLeadsToCurrentTable(p, c.queue, clocks, c.view, src);
  }

  lemma CatchesUp(s: Sys, m: string, id: nat, clocks: seq<nat>)
    requires Inv(s) && IsUp(s, m, id, |clocks|)
    ensures var t := Run(s, Deliveries(id, clocks));
            && m in s.senders && |History(s.senders[m])| > 0
            && Current(t.peers, m, id) && id in t.conns && t.conns[id].queue == []
            && Holds(t.peers[m], History(s.senders[m])) && (s.peers[m].hello.draining ==> t.peers[m].hello.draining)
  {
    var p, c := s.peers[m], s.conns[id];
    QueueHolds(s, m, id, clocks);
    hide *;
    DeliveriesApply(s, id, m, clocks);
    AppliedKeepsLink(p, c.queue, clocks);
  }

  /** The peer's copy is the last table, all of it, or nothing if the machine is leaving. */
  ghost predicate Holds(p: Peer, hist: seq<Table>)
    requires |hist| > 0
  {
    && p.seq_ == |hist| - 1 && !p.snapshotOpen
    && if p.hello.draining then p.entries == map[] else ClampedAs(p.entries, hist[|hist| - 1])
  }

  /**
   * In every run, a new link with a snapshot that fits the queue brings the receiver the sender's whole table, whatever
   * was known of the machine before and under whatever clocks its frames arrive.
   */
  lemma NewLinkBringsTable(before: seq<Step>, m: string, id: nat, chunks: seq<seq<Entry>>, region: string,
                           address: string, dialer: string, clocks: seq<nat>)
    requires MayLink(Run(INIT, before), m, id, chunks, region, address, dialer) && |clocks| == |chunks|
    ensures var s := Run(INIT, before);
            var t := Run(Linked(s, m, id, chunks, region, address, dialer), Deliveries(id, clocks));
            && Current(t.peers, m, id) && id in t.conns && t.conns[id].queue == []
            && Holds(t.peers[m], History(s.senders[m])) && (s.senders[m].draining ==> t.peers[m].hello.draining)
  {
    var s := Run(INIT, before);
    RunKeepsInv(INIT, before);
    LinkKeepsInv(s, m, id, chunks, region, address, dialer);
    LinkIsUp(s, m, id, chunks, region, address, dialer);
    hide Linked, Run, Inv, ChunksOf, Accepts;
    CatchesUp(Linked(s, m, id, chunks, region, address, dialer), m, id, clocks);
  }

  /**
   * A machine that starts again has an empty table, is not leaving, and its links from before carry nothing new; what
   * its earlier lives had is as it was.
   */
  lemma RestartBeginsAnew(s: Sys, m: string, life: Life)
    requires m in s.senders ==> life !in s.senders[m].lives
    ensures var t := Take(s, Start(m, life));
            && m in t.senders && t.senders[m].life == life && History(t.senders[m]) == [map[]] && !t.senders[m].draining
            && (m in s.senders ==> forall l :: l in s.senders[m].lives ==>
                  l in t.senders[m].lives && t.senders[m].lives[l] == s.senders[m].lives[l])
            && (m in s.senders ==> forall id :: id in t.conns && t.conns[id].machine == m ==> !t.conns[id].live)
            && t.peers == s.peers && t.conns.Keys == s.conns.Keys
  {
  }

  /** The end of a link that another took the place of leaves the other alone, however late it is noticed. */
  lemma ReplacementSurvives(s: Sys, m: string, id: nat, dialer: string, replaced: nat)
    requires id in s.conns && s.conns[id].hello.Some? && !s.conns[id].registered && s.conns[id].machine == m
    requires s.conns[id].hello.value.machine == m && Accepts(s.peers, Attempt(s.conns[id].hello.value, id, dialer))
    requires replaced in s.conns && s.conns[replaced].machine == m && replaced != id
    ensures var t := Take(s, Register(id, dialer));
            && Current(t.peers, m, id) && Take(t, Drop(replaced)).peers == t.peers
            && replaced !in Take(t, Drop(replaced)).conns && Take(t, Drop(id)).peers == t.peers - {m}
  {
    hide Wins, Carried;
  }

  lemma {:induction false} AppliedKeepsLink(p: Peer, q: seq<Frame>, clocks: seq<nat>)
    requires |clocks| == |q| && ApplyAll(p, q, clocks).Applied?
    ensures ApplyAll(p, q, clocks).peer.link == p.link
    ensures p.hello.draining ==> ApplyAll(p, q, clocks).peer.hello.draining
    decreases |q|
  {
    if q != [] {
      LinkStays(p, q[0], clocks[0]);
      DrainingStays(p, q[0], clocks[0]);
      hide ApplyFrame;
      AppliedKeepsLink(ApplyFrame(p, q[0], clocks[0]).peer, q[1..], clocks[1..]);
    }
  }

  lemma DrainingStays(p: Peer, f: Frame, now: nat)
    requires ApplyFrame(p, f, now).Applied?
    ensures p.hello.draining ==> ApplyFrame(p, f, now).peer.hello.draining
  {
    hide Load;
  }

  lemma LinkKeepsInv(s: Sys, m: string, id: nat, chunks: seq<seq<Entry>>, region: string, address: string,
                     dialer: string)
    requires Inv(s)
    ensures Inv(Linked(s, m, id, chunks, region, address, dialer))
  {
    hide Inv, Take;
    var a := Take(s, Connect(m, id, chunks));
    StepKeepsInv(s, Connect(m, id, chunks));
    StepKeepsInv(a, SayHello(id, region, address));
    StepKeepsInv(Take(a, SayHello(id, region, address)), Register(id, dialer));
  }
}

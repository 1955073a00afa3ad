/** A machine's own bridges and the links they are announced on (`Local` in mesh.rs). */
module MeshLocal {
  import opened Common
  import opened Order
  import opened MeshTable
  import opened MeshReplication

  /** The queues after a frame went to every link; a full one is closed instead. */
  function Sent(links: map<nat, seq<Frame>>, f: Frame): map<nat, seq<Frame>> {
    map l | l in links && |links[l]| < LINK_QUEUE :: links[l] + [f]
  }

  function Full(links: map<nat, seq<Frame>>): set<nat> {
    set l | l in links && |links[l]| >= LINK_QUEUE
  }

  function TotalSize(es: seq<Entry>, size: Entry -> nat): nat {
    if es == [] then 0 else TotalSize(es[..|es| - 1], size) + size(es[|es| - 1])
  }

  /** Every chunk holds something and stays within the limit, unless its single entry alone is larger. */
  ghost predicate WellSized(chunks: seq<seq<Entry>>, size: Entry -> nat, limit: nat) {
    && (forall i :: 0 <= i < |chunks| && |chunks[i]| > 1 ==> TotalSize(chunks[i], size) <= limit)
    && (|chunks| > 1 ==> forall i :: 0 <= i < |chunks| ==> chunks[i] != [])
  }

  /** No chunk ends early: the next one's first entry would not have fitted. */
  ghost predicate Tight(chunks: seq<seq<Entry>>, size: Entry -> nat, limit: nat) {
    forall i, j :: 0 <= i < j < |chunks| && j == i + 1 && chunks[j] != [] ==>
      TotalSize(chunks[i], size) + size(chunks[j][0]) > limit
  }

  lemma {:induction false} FlattenAppend(a: seq<seq<Entry>>, b: seq<seq<Entry>>)
    ensures Flatten(a + b) == Flatten(a) + Flatten(b)
  {
    if a == [] {
      assert a + b == b;
    } else {
      assert (a + b)[1..] == a[1..] + b;
      FlattenAppend(a[1..], b);
    }
  }

  lemma GrowLastChunk(chunks: seq<seq<Entry>>, e: Entry)
    requires chunks != []
    ensures Flatten(chunks[|chunks| - 1 := chunks[|chunks| - 1] + [e]]) == Flatten(chunks) + [e]
  {
    var n := |chunks| - 1;
    var last := chunks[n];
    FlattenAppend(chunks[..n], [last]);
    FlattenAppend(chunks[..n], [last + [e]]);
    assert chunks == chunks[..n] + [last];
    assert chunks[n := last + [e]] == chunks[..n] + [last + [e]];
    assert Flatten([last]) == last + Flatten([]) && Flatten([last + [e]]) == last + [e] + Flatten([]);
  }

  lemma NewChunk(chunks: seq<seq<Entry>>)
    ensures Flatten(chunks + [[]]) == Flatten(chunks)
  {
    FlattenAppend(chunks, [[]]);
    assert Flatten([[]]) == [] + Flatten([]);
  }

  lemma {:induction false} PartAt(chunks: seq<seq<Entry>>, i: nat)
    requires i < |chunks|
    ensures i < |Parts(chunks)| && Parts(chunks)[i] == SnapshotPart(chunks[i], i + 1 < |chunks|)
  {
    PartsLength(chunks);
    if i > 0 { PartAt(chunks[1..], i - 1); }
  }

  /** The bridges packed so far are exactly those of the entries. */
  ghost predicate Packed(es: seq<Entry>, table: Table, packed: set<nat>) {
    && packed <= table.Keys
    && DistinctBridges(es)
    && (forall e :: e in es ==> e.bridge in packed && table[e.bridge] == e)
    && (forall b :: b in packed ==> table[b] in es)
  }

  lemma PackMore(es: seq<Entry>, table: Table, packed: set<nat>, b: nat)
    requires Keyed(table) && Packed(es, table, packed) && b in table && b !in packed
    ensures Packed(es + [table[b]], table, packed + {b})
  {
    forall i | 0 <= i < |es| ensures es[i].bridge != b {
      assert es[i] in es;
    }
  }

  lemma PlaceKeepsSizes(chunks: seq<seq<Entry>>, size: Entry -> nat, limit: nat, e: Entry)
    requires chunks != []
    requires forall i :: 0 <= i < |chunks| - 1 ==> chunks[i] != []
    requires forall i :: 0 <= i < |chunks| - 1 && |chunks[i]| > 1 ==> TotalSize(chunks[i], size) <= limit
    requires chunks[|chunks| - 1] != [] ==> TotalSize(chunks[|chunks| - 1], size) + size(e) <= limit
    ensures WellSized(chunks[|chunks| - 1 := chunks[|chunks| - 1] + [e]], size, limit)
    ensures TotalSize(chunks[|chunks| - 1] + [e], size) == TotalSize(chunks[|chunks| - 1], size) + size(e)
  {
    var last := chunks[|chunks| - 1] + [e];
    assert last[..|last| - 1] == chunks[|chunks| - 1];
  }

  /** Puts one more entry into the last chunk, or a new one when it would grow past the limit. */
  method Place(chunks: seq<seq<Entry>>, total: nat, e: Entry, size: Entry -> nat, limit: nat)
    returns (chunks': seq<seq<Entry>>, total': nat)
    requires chunks != [] && WellSized(chunks, size, limit) && total == TotalSize(chunks[|chunks| - 1], size)
    requires Tight(chunks, size, limit)
    ensures chunks' != [] && WellSized(chunks', size, limit) && total' == TotalSize(chunks'[|chunks'| - 1], size)
    ensures Flatten(chunks') == Flatten(chunks) + [e] && Tight(chunks', size, limit)
  {
    chunks', total' := chunks, total;
    if total + size(e) > limit && chunks[|chunks| - 1] != [] {
      NewChunk(chunks);
      chunks', total' := chunks + [[]], 0;
    }
    PlaceKeepsSizes(chunks', size, limit, e);
    GrowLastChunk(chunks', e);
    chunks', total' := chunks'[|chunks'| - 1 := chunks'[|chunks'| - 1] + [e]], total' + size(e);
  }

  /** A table's entries in chunks of at most `limit` encoded bytes. */
  method ChunkTable(table: Table, size: Entry -> nat, limit: nat) returns (chunks: seq<seq<Entry>>)
    requires Keyed(table)
    ensures ChunksOf(chunks, table) && WellSized(chunks, size, limit) && Tight(chunks, size, limit)
  {
    chunks := [[]];
    var total := 0;
    var gone: set<nat> := {};
    assert Flatten([[]]) == [] + Flatten([]);
    while table.Keys - gone != {}
      invariant chunks != [] && Packed(Flatten(chunks), table, gone)
      invariant total == TotalSize(chunks[|chunks| - 1], size)
      invariant WellSized(chunks, size, limit) && Tight(chunks, size, limit)
      decreases table.Keys - gone
    {
      var b :| b in table.Keys - gone;
      PackMore(Flatten(chunks), table, gone, b);
      chunks, total := Place(chunks, total, table[b], size, limit);
      gone := gone + {b};
    }
  }

  // --- A machine's links as connections of the replication --------------------------------------------------------

  /** A link's queue is the end of what its connection carries: what comes before was sent and not delivered yet. */
  ghost predicate Carries(c: Conn, machine: string, queue: seq<Frame>) {
    && c.machine == machine && c.live && |queue| <= |c.queue|
    && c.queue[|c.queue| - |queue|..] == queue
  }

  /** The links to the receiver are its live connections from this machine, one for one. */
  ghost predicate Linked(links: map<nat, seq<Frame>>, at: map<nat, nat>, conns: map<nat, Conn>, machine: string) {
    && (forall l :: l in at ==> l in links && at[l] in conns && Carries(conns[at[l]], machine, links[l]))
    && (forall l, k :: l in at && k in at && l != k ==> at[l] != at[k])
    && (forall id :: id in conns && conns[id].machine == machine && conns[id].live ==> id in at.Values)
  }

  /** Connections that carry nothing new. */
  function Ended(conns: map<nat, Conn>, ids: set<nat>): map<nat, Conn> {
    map id | id in conns :: if id in ids then conns[id].(live := false) else conns[id]
  }

  function Without(at: map<nat, nat>, gone: set<nat>): map<nat, nat> { map l | l in at && l !in gone :: at[l] }

  function Of(at: map<nat, nat>, gone: set<nat>): set<nat> { set l | l in at && l in gone :: at[l] }

  ghost predicate AllLost(steps: seq<Step>) { forall i :: 0 <= i < |steps| ==> steps[i].Lose? }

  lemma OneMore(s: Sys, steps: seq<Step>, step: Step)
    ensures Run(s, steps + [step]) == Take(Run(s, steps), step)
  {
    hide Take;
    assert (steps + [step])[..|steps|] == steps;
  }

  /** Ending connections is a run. */
  lemma {:induction false} EndedIsARun(s: Sys, ids: set<nat>) returns (steps: seq<Step>)
    requires ids <= s.conns.Keys
    ensures Run(s, steps) == s.(conns := Ended(s.conns, ids)) && AllLost(steps)
    decreases ids
  {
    if ids == {} {
      steps := [];
      assert Ended(s.conns, {}) == s.conns;
    } else {
      var id :| id in ids;
      var before := EndedIsARun(s, ids - {id});
      var c := Ended(s.conns, ids - {id})[id];
      steps := before + [Lose(id, |c.queue|)];
      OneMore(s, before, Lose(id, |c.queue|));
      hide Run, DoStart, DoAttach, DoDetach, DoConnect, DoRegister, DoDeliver;
      assert c.queue[..|c.queue|] == c.queue;
      assert Ended(s.conns, ids) == Ended(s.conns, ids - {id})[id := c.(live := false)];
    }
  }

  lemma EndingKeepsLinks(links: map<nat, seq<Frame>>, at: map<nat, nat>, conns: map<nat, Conn>, machine: string,
                         gone: set<nat>)
    requires Linked(links, at, conns, machine)
    ensures Linked(links, Without(at, gone), Ended(conns, Of(at, gone)), machine)
  {
    var at', conns' := Without(at, gone), Ended(conns, Of(at, gone));
    forall l | l in at' ensures at'[l] in conns' && Carries(conns'[at'[l]], machine, links[l]) {
      assert at'[l] !in Of(at, gone);
    }
    forall id | id in conns' && conns'[id].machine == machine && conns'[id].live ensures id in at'.Values {
      var l :| l in at && at[l] == id;
      assert l !in gone && l in at' && at'[l] == id;
    }
  }

  /** A frame taken off a link's queue is still in flight on its connection. */
  lemma WritingKeepsLinks(links: map<nat, seq<Frame>>, at: map<nat, nat>, conns: map<nat, Conn>, machine: string,
                          link: nat)
    requires Linked(links, at, conns, machine) && link in links && links[link] != []
    ensures Linked(links[link := links[link][1..]], at, conns, machine)
  {
    var links' := links[link := links[link][1..]];
    forall l | l in at ensures l in links' && at[l] in conns && Carries(conns[at[l]], machine, links'[l]) {
      var q, all := links[l], conns[at[l]].queue;
      assert Carries(conns[at[l]], machine, q);
      if l == link { assert all[|all| - |q|..][1..] == all[|all| - (|q| - 1)..]; }
    }
  }

  /** A frame sent on every link with room is a frame announced on every connection, once the full ones have ended. */
  lemma SentIsBroadcast(links: map<nat, seq<Frame>>, at: map<nat, nat>, conns: map<nat, Conn>, machine: string,
                        f: Frame)
    requires Linked(links, at, conns, machine) && forall l :: l in at ==> l !in Full(links)
    ensures Linked(Sent(links, f), at, MeshReplication.Broadcast(conns, machine, f), machine)
  {
    var links', conns' := Sent(links, f), MeshReplication.Broadcast(conns, machine, f);
    forall l | l in at ensures l in links' && at[l] in conns' && Carries(conns'[at[l]], machine, links'[l]) {
      var q, all := links[l], conns[at[l]].queue;
      assert Carries(conns[at[l]], machine, q);
      assert (all + [f])[|all| - |q|..] == all[|all| - |q|..] + [f];
    }
    forall id | id in conns' && conns'[id].machine == machine && conns'[id].live ensures id in at.Values {
      assert conns[id].machine == machine && conns[id].live;
    }
  }

  /** An announcement adds one table to the sender's history and its frame to every live connection. */
  lemma Announced(s: Sys, machine: string, f: Frame, table: Table)
    requires machine in s.senders
    ensures var t, snd := Announce(s, machine, f, table), s.senders[machine];
            && machine in t.senders && t.senders[machine].life == snd.life
            && t.senders[machine].draining == snd.draining
            && History(t.senders[machine]) == History(snd) + [table]
            && t.conns == MeshReplication.Broadcast(s.conns, machine, f)
  {
  }

  lemma DetachAnnounces(s: Sys, machine: string, tunnel: string, bridge: nat)
    requires machine in s.senders && |History(s.senders[machine])| > 0
    requires bridge in History(s.senders[machine])[|History(s.senders[machine])| - 1]
    ensures var hist := History(s.senders[machine]);
            Take(s, Detach(machine, tunnel, bridge))
            == Announce(s, machine, Frame.Detached(|hist|, tunnel, bridge), hist[|hist| - 1] - {bridge})
  {
    hide Announce, History;
  }

  class Local {
    const machine: string
    const epoch: nat
    var seq_: nat
    var entries: Table
    /** Frames queued per link. */
    var links: map<nat, seq<Frame>>
    /** Links told to end. */
    var cancelled: set<nat>
    var nextLink: nat
    var draining: bool

    ghost predicate Valid()
      reads this
    {
      && Keyed(entries)
      && (forall l :: l in links ==> l < nextLink)
    }

    /**
     * The replication system has this machine as its sender: its table is the last of its current life, and the
     * links in `at` are its connections to the receiver. Other links lead to other machines.
     */
    ghost predicate Simulates(s: Sys, at: map<nat, nat>)
      reads this
    {
      && machine in s.senders && s.senders[machine].life.epoch == epoch && s.senders[machine].draining == draining
      && |History(s.senders[machine])| == seq_ + 1 && History(s.senders[machine])[seq_] == entries
      && Linked(links, at, s.conns, machine)
    }

    constructor (machine: string, life: Life, ghost s: Sys)
      requires machine !in s.senders && forall id :: id in s.conns ==> s.conns[id].machine != machine
      ensures Valid() && this.machine == machine && epoch == life.epoch
      ensures Simulates(Take(s, Start(machine, life)), map[])
    {
      this.machine, this.epoch := machine, life.epoch;
      seq_, entries, links, cancelled, nextLink, draining := 0, map[], map[], {}, 1, false;
    }

    /** Appends a frame to the queues that have room, and gives up the links of the others. */
    method Send(f: Frame)
      requires Valid()
      modifies this`links, this`cancelled
      ensures Valid() && links == Sent(old(links), f) && cancelled == old(cancelled) + Full(old(links))
    {
      var full := set l | l in links && |links[l]| >= LINK_QUEUE;
      links := map l | l in links && |links[l]| < LINK_QUEUE :: links[l] + [f];
      cancelled := cancelled + full;
    }

    /** The links with a full queue end first: the run that leads there. */
    ghost method EndFull(s: Sys, at: map<nat, nat>) returns (lost: seq<Step>, s': Sys, at': map<nat, nat>)
      requires Simulates(s, at)
      ensures AllLost(lost) && s' == Run(s, lost) && Simulates(s', at') && at' == Without(at, Full(links))
    {
      var ids := Of(at, Full(links));
      lost := EndedIsARun(s, ids);
      s', at' := Run(s, lost), Without(at, Full(links));
      EndingKeepsLinks(links, at, s.conns, machine, Full(links));
    }

    /** A bridge attached here: the step of that name, once the links with full queues have ended. */
    method Attached(entry: Entry, ghost s: Sys, ghost at: map<nat, nat>) returns (ghost lost: seq<Step>)
      requires Valid() && Simulates(s, at)
      modifies this`seq_, this`entries, this`links, this`cancelled
      ensures Valid() && AllLost(lost) && cancelled == old(cancelled) + Full(old(links))
      ensures Simulates(Take(Run(s, lost), Attach(machine, entry)), Without(at, Full(old(links))))
    {
      ghost var s', at';
      lost, s', at' := EndFull(s, at);
      seq_ := seq_ + 1;
      entries := entries[entry.bridge := entry];
      SentIsBroadcast(links, at', s'.conns, machine, Frame.Attached(seq_, entry));
      Announced(s', machine, Frame.Attached(seq_, entry), entries);
      hide Linked, Announce, MeshReplication.Broadcast, Sent, Full, Without, History;
      Send(Frame.Attached(seq_, entry));
    }

    /** A bridge is gone: the step of that name, or nothing for one never announced. */
    method Detached(tunnel: string, bridge: nat, ghost s: Sys, ghost at: map<nat, nat>)
      returns (ghost lost: seq<Step>, ghost at': map<nat, nat>)
      requires Valid() && Simulates(s, at)
      modifies this`seq_, this`entries, this`links, this`cancelled
      ensures Valid() && AllLost(lost) && Simulates(Take(Run(s, lost), Detach(machine, tunnel, bridge)), at')
      ensures bridge !in old(entries) ==> lost == [] && cancelled == old(cancelled) && links == old(links)
      ensures bridge in old(entries) ==>
                at' == Without(at, Full(old(links))) && cancelled == old(cancelled) + Full(old(links))
    {
      hide Linked, Announce, MeshReplication.Broadcast, Sent, Full, Without, Keyed;
      lost, at' := [], at;
      if bridge !in entries {
        return;
      }
      hide History;
      at' := Without(at, Full(links));
      lost := Withdraw(tunnel, bridge, s, at);
    }

    method Withdraw(tunnel: string, bridge: nat, ghost s: Sys, ghost at: map<nat, nat>) returns (ghost lost: seq<Step>)
      requires Valid() && Simulates(s, at) && bridge in entries
      modifies this`seq_, this`entries, this`links, this`cancelled
      ensures Valid() && AllLost(lost)
      ensures Simulates(Take(Run(s, lost), Detach(machine, tunnel, bridge)), Without(at, Full(old(links))))
      ensures cancelled == old(cancelled) + Full(old(links))
    {
      ghost var s', at';
      lost, s', at' := EndFull(s, at);
      entries := entries - {bridge};
      seq_ := seq_ + 1;
      SentIsBroadcast(links, at', s'.conns, machine, Frame.Detached(seq_, tunnel, bridge));
      Announced(s', machine, Frame.Detached(seq_, tunnel, bridge), entries);
      DetachAnnounces(s', machine, tunnel, bridge);
      hide Take, Run, Keyed, Linked, Announce, MeshReplication.Broadcast, Sent, Full, Without, History;
      Send(Frame.Detached(seq_, tunnel, bridge));
    }

    /** An event for the other machines: the step of that name, which leaves the table as it is. */
    method PublishEvent(event: Event, ghost s: Sys, ghost at: map<nat, nat>) returns (ghost lost: seq<Step>)
      requires Valid() && Simulates(s, at)
      modifies this`links, this`cancelled
      ensures Valid() && AllLost(lost) && cancelled == old(cancelled) + Full(old(links))
      ensures Simulates(Take(Run(s, lost), Publish(machine, event)), Without(at, Full(old(links))))
    {
      ghost var s', at';
      lost, s', at' := EndFull(s, at);
      SentIsBroadcast(links, at', s'.conns, machine, EventFrame(event));
      Send(EventFrame(event));
    }

    /** What this machine says of itself changes first, without the lock on its table. */
    method StartLeaving(ghost s: Sys, ghost at: map<nat, nat>)
      requires Valid() && Simulates(s, at)
      modifies this`draining
      ensures Valid() && draining && Simulates(Take(s, Drain(machine)), at)
    {
      draining := true;
    }

    /** The machine leaves: a link that says hello from now on says so, and every other link is told. */
    method Leave(ghost s: Sys, ghost at: map<nat, nat>) returns (ghost lost: seq<Step>)
      requires Valid() && Simulates(s, at)
      modifies this`draining, this`links, this`cancelled
      ensures Valid() && AllLost(lost) && draining && cancelled == old(cancelled) + Full(old(links))
      ensures Simulates(Take(Run(Take(s, Drain(machine)), lost), Publish(machine, Leaving)),
                        Without(at, Full(old(links))))
    {
      StartLeaving(s, at);
      hide *;
      lost := PublishEvent(Leaving, Take(s, Drain(machine)), at);
    }

    /** The next frame of a link's queue goes out: it is on its way, so the connection still carries it. */
    method WriteNext(link: nat, ghost s: Sys, ghost at: map<nat, nat>) returns (f: Frame)
      requires Valid() && Simulates(s, at) && link in links && links[link] != []
      modifies this`links
      ensures Valid() && Simulates(s, at) && f == old(links)[link][0]
      ensures links == old(links)[link := old(links)[link][1..]]
    {
      WritingKeepsLinks(links, at, s.conns, machine, link);
      hide Linked, History, Keyed;
      f := links[link][0];
      links := links[link := links[link][1..]];
    }

    /** A link ended: its connection carries nothing new. */
    method Unsubscribe(link: nat, ghost s: Sys, ghost at: map<nat, nat>) returns (ghost lost: seq<Step>)
      requires Valid() && Simulates(s, at)
      modifies this`links
      ensures Valid() && AllLost(lost) && Simulates(Run(s, lost), Without(at, {link})) && links == old(links) - {link}
    {
      ghost var ids := Of(at, {link});
      lost := EndedIsARun(s, ids);
      EndingKeepsLinks(links, at, s.conns, machine, {link});
      links := links - {link};
    }

    /**
     * A new link, whose queue starts with as much of a snapshot as
     * it holds: the connection's step, if it leads to the receiver.
     */
    method Subscribe(size: Entry -> nat, limit: nat, ghost s: Sys, ghost at: map<nat, nat>, ghost id: Option<nat>)
      returns (link: nat, ghost chunks: seq<seq<Entry>>)
      requires Valid() && Simulates(s, at) && (id.Some? ==> id.value !in s.conns)
      modifies this`links, this`nextLink
      ensures Valid() && link == old(nextLink) && link !in at
      ensures WellSized(chunks, size, limit) && Tight(chunks, size, limit)
      ensures match id
              case None => Simulates(s, at)
              case Some(i) => Simulates(Take(s, Connect(machine, i, chunks)), at[link := i])
    {
      link := nextLink;
      nextLink := nextLink + 1;
      var parts := ChunkTable(entries, size, limit);
      chunks := parts;
      var queue := FirstFrames(epoch, seq_, parts);
      ghost var before := links;
      links := links[link := queue];
      NewLink(before, at, s.conns, machine, link, queue);
      if id.Some? {
        var t := Take(s, Connect(machine, id.value, chunks));
        assert t.conns == s.conns[id.value := t.conns[id.value]] && t.conns[id.value].queue == queue;
        NewConnection(links, at, s.conns, machine, link, id.value, t.conns[id.value]);
      }
    }
  }

  /** The frames of a snapshot, as far as a queue holds them. */
  method FirstFrames(epoch: nat, seq_: nat, parts: seq<seq<Entry>>) returns (queue: seq<Frame>)
    requires parts != []
    ensures |SnapshotFrames(epoch, seq_, parts)| == |parts|
    ensures queue == SnapshotFrames(epoch, seq_, parts)[..Min(|parts|, LINK_QUEUE)]
  {
    ghost var frames := SnapshotFrames(epoch, seq_, parts);
    PartsLength(parts[1..]);
    queue := [];
    for i := 0 to |parts|
      invariant queue == frames[..Min(i, LINK_QUEUE)]
    {
      var more := i + 1 < |parts|;
      var frame := if i == 0 then Snapshot(epoch, seq_, parts[i], more) else SnapshotPart(parts[i], more);
      assert frame == frames[i] by {
        if i > 0 { PartAt(parts[1..], i - 1); }
      }
      if |queue| < LINK_QUEUE {
        queue := queue + [frame];
      }
    }
  }

  lemma NewLink(links: map<nat, seq<Frame>>, at: map<nat, nat>, conns: map<nat, Conn>, machine: string, link: nat,
                queue: seq<Frame>)
    requires Linked(links, at, conns, machine) && link !in links
    ensures Linked(links[link := queue], at, conns, machine) && link !in at
  {
  }

  lemma NewConnection(links: map<nat, seq<Frame>>, at: map<nat, nat>, conns: map<nat, Conn>, machine: string,
                      link: nat, id: nat, c: Conn)
    requires Linked(links, at, conns, machine) && link in links && link !in at && id !in conns
    requires Carries(c, machine, links[link])
    ensures Linked(links, at[link := id], conns[id := c], machine)
  {
    var at', conns' := at[link := id], conns[id := c];
    forall x | x in conns' && conns'[x].machine == machine && conns'[x].live ensures x in at'.Values {
      if x == id {
        assert at'[link] == id;
      } else {
        var l :| l in at && at[l] == x;
        assert at'[l] == x;
      }
    }
  }
}

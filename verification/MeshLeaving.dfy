/**
 * A machine that leaves (`leave` in mesh.rs) says so in every hello from then on, and then tells the links it has.
 * A link is subscribed before it says hello, so no link misses both, however the steps of other tasks come between.
 */
module MeshLeaving {
  import opened Common
  import opened MeshTable
  import opened MeshReplication

  /** A link of `m` either said so, still carries it, or its peer knows. */
  ghost predicate LinkTold(s: Sys, m: string, id: nat)
    requires id in s.conns
  {
    var c := s.conns[id];
    c.machine == m && c.live && c.hello.Some? && EventFrame(Leaving) !in c.queue ==>
      && (!c.registered ==> c.hello.value.draining)
      && (c.registered && Current(s.peers, m, id) ==> s.peers[m].hello.draining)
  }

  ghost predicate Told(s: Sys, m: string) {
    && m in s.senders && s.senders[m].draining
    && forall id :: id in s.conns ==> LinkTold(s, m, id)
  }

  ghost predicate NoRestart(steps: seq<Step>, m: string) {
    forall i :: 0 <= i < |steps| ==> steps[i].Start? ==> steps[i].machine != m
  }

  lemma LeavingTells(s: Sys, m: string)
    requires m in s.senders && s.senders[m].draining
    ensures Told(Take(s, Publish(m, Leaving)), m)
  {
    var s' := Take(s, Publish(m, Leaving));
    forall id | id in s'.conns ensures LinkTold(s', m, id) {
      var c, c' := s.conns[id], s'.conns[id];
      if c.machine == m && c.live {
        assert c'.queue[|c.queue|] == EventFrame(Leaving);
      }
    }
  }

  /** A frame applied leaves a peer known to leave as it is, and makes one known to leave if it says so. */
  lemma ApplyKeepsDraining(p: Peer, f: Frame, now: nat)
    requires ApplyFrame(p, f, now).Applied?
    ensures p.hello.draining || f == EventFrame(Leaving) ==> ApplyFrame(p, f, now).peer.hello.draining
    ensures ApplyFrame(p, f, now).peer.link == p.link
  {
    hide Load;
  }

  lemma DeliverKeepsTold(s: Sys, m: string, id: nat, now: nat)
    requires Told(s, m)
    ensures Told(DoDeliver(s, id, now), m)
  {
    hide ApplyFrame;
    var s' := DoDeliver(s, id, now);
    if id in s.conns && s.conns[id].queue != [] && Current(s.peers, s.conns[id].machine, id) {
      var c := s.conns[id];
      assert c.queue == [c.queue[0]] + c.queue[1..];
      if ApplyFrame(s.peers[c.machine], c.queue[0], now).Applied? {
        ApplyKeepsDraining(s.peers[c.machine], c.queue[0], now);
      }
    }
    forall x | x in s'.conns ensures LinkTold(s', m, x) {
      assert LinkTold(s, m, x);
    }
  }

  lemma RegisterKeepsTold(s: Sys, m: string, id: nat, dialer: string)
    requires Told(s, m) && ConnsOk(s)
    ensures Told(DoRegister(s, id, dialer), m)
  {
    hide Wins, Carried, Follows, Sound;
    var s' := DoRegister(s, id, dialer);
    forall x | x in s'.conns ensures LinkTold(s', m, x) {
      assert LinkTold(s, m, x);
      assert id in s.conns ==> ConnOk(s.senders, s.conns[id]);
    }
  }

  /** A step that changes a link's queue at its end and no peer. */
  ghost predicate OnlyQueued(s: Sys, s': Sys, m: string) {
    && s'.peers == s.peers && s'.conns.Keys == s.conns.Keys
    && m in s.senders && m in s'.senders && (s.senders[m].draining ==> s'.senders[m].draining)
    && forall id :: id in s.conns ==>
                      && s'.conns[id] == s.conns[id].(queue := s'.conns[id].queue, live := s'.conns[id].live)
                      && (s'.conns[id].live ==> s.conns[id].live && s.conns[id].queue <= s'.conns[id].queue)
  }

  lemma OnlyQueuedKeepsTold(s: Sys, s': Sys, m: string)
    requires Told(s, m) && OnlyQueued(s, s', m)
    ensures Told(s', m)
  {
    forall id | id in s'.conns ensures LinkTold(s', m, id) {
      assert LinkTold(s, m, id);
      var q, q' := s.conns[id].queue, s'.conns[id].queue;
      assert q <= q' ==> forall f :: f in q ==> f in q';
    }
  }

  lemma SenderStepQueues(s: Sys, m: string, step: Step)
    requires m in s.senders && (step.Start? ==> step.machine != m)
    requires step.Start? || step.Attach? || step.Detach? || step.Publish? || step.Drain? || step.Lose?
    ensures OnlyQueued(s, Take(s, step), m)
  {
    hide DoRegister, DoDeliver, DoConnect, DoSayHello;
  }

  lemma LinkStepKeepsTold(s: Sys, m: string, step: Step)
    requires ConnsOk(s) && Told(s, m) && (step.Connect? || step.SayHello? || step.Drop?)
    ensures Told(Take(s, step), m)
  {
    hide ChunksOf, SnapshotFrames, DoRegister, DoDeliver, Follows, Sound;
    var s' := Take(s, step);
    forall id | id in s'.conns ensures LinkTold(s', m, id) {
      if id in s.conns {
        assert LinkTold(s, m, id) && ConnOk(s.senders, s.conns[id]);
      }
    }
  }

  lemma StepKeepsTold(s: Sys, m: string, step: Step)
    requires ConnsOk(s) && Told(s, m) && (step.Start? ==> step.machine != m)
    ensures Told(Take(s, step), m)
  {
    match step
    case Deliver(id, now) => DeliverKeepsTold(s, m, id, now);
    case Register(id, dialer) => RegisterKeepsTold(s, m, id, dialer);
    case Connect(_, _, _) => LinkStepKeepsTold(s, m, step);
    case SayHello(_, _, _) => LinkStepKeepsTold(s, m, step);
    case Drop(_) => LinkStepKeepsTold(s, m, step);
    case _ =>
      SenderStepQueues(s, m, step);
      OnlyQueuedKeepsTold(s, Take(s, step), m);
  }

  lemma {:induction false} RunKeepsTold(s: Sys, m: string, steps: seq<Step>)
    requires Inv(s) && Told(s, m) && NoRestart(steps, m)
    ensures Told(Run(s, steps), m)
  {
    if steps != [] {
      var before := steps[..|steps| - 1];
      RunKeepsTold(s, m, before);
      RunKeepsInv(s, before);
      StepKeepsTold(Run(s, before), m, steps[|steps| - 1]);
    }
  }

  lemma {:induction false} DrainingStays(s: Sys, m: string, steps: seq<Step>)
    requires m in s.senders && s.senders[m].draining && NoRestart(steps, m)
    ensures m in Run(s, steps).senders && Run(s, steps).senders[m].draining
  {
    if steps != [] {
      var before, step := steps[..|steps| - 1], steps[|steps| - 1];
      DrainingStays(s, m, before);
      var t := Run(s, before);
      hide DoRegister, DoDeliver, DoConnect, DoSayHello, Run;
      assert m in Take(t, step).senders && Take(t, step).senders[m].draining;
    }
  }

  /** A machine leaves: steps before, the flag, steps between, the event, and steps after. */
  function Left(before: seq<Step>, m: string, between: seq<Step>, after: seq<Step>): Sys {
    Run(Take(Run(Take(Run(INIT, before), Drain(m)), between), Publish(m, Leaving)), after)
  }

  /**
   * Once a machine has left, and until it starts again, a receiver that has applied what its link carries knows,
   * and sends it no visitors: it holds none of the machine's bridges, whatever was attached, linked or announced
   * before, in between or after.
   */
  lemma {:induction false} LeavingReachesPeers(before: seq<Step>, m: string, between: seq<Step>, after: seq<Step>)
    requires m in Run(INIT, before).senders && NoRestart(between, m) && NoRestart(after, m)
    ensures var s := Left(before, m, between, after);
            && m in s.senders && s.senders[m].draining
            && (m in s.peers && s.peers[m].link in s.conns
                && s.conns[s.peers[m].link].live && s.conns[s.peers[m].link].queue == []
                ==> s.peers[m].hello.draining && s.peers[m].entries == map[])
  {
    var flagged := Take(Run(INIT, before), Drain(m));
    var told := Run(flagged, between);
    RunKeepsInv(INIT, before);
    StepKeepsInv(Run(INIT, before), Drain(m));
    RunKeepsInv(flagged, between);
    DrainingStays(flagged, m, between);
    StepKeepsInv(told, Publish(m, Leaving));
    LeavingTells(told, m);
    hide Run, Take;
    RunKeepsTold(Take(told, Publish(m, Leaving)), m, after);
    RunKeepsInv(Take(told, Publish(m, Leaving)), after);
    var s := Left(before, m, between, after);
    if m in s.peers {
      assert PeerOk(s, m, s.peers[m]) && ConnOk(s.senders, s.conns[s.peers[m].link]);
      assert LinkTold(s, m, s.peers[m].link);
    }
  }

  // --- And only then -------------------------------------------------------------------------------------------

  ghost predicate ConnStays(c: Conn, m: string) {
    c.machine == m ==> (c.hello.Some? ==> !c.hello.value.draining) && EventFrame(Leaving) !in c.queue
  }

  /** Nothing says that the machine is leaving. */
  ghost predicate Staying(s: Sys, m: string) {
    && (m in s.senders ==> !s.senders[m].draining)
    && (m in s.peers ==> !s.peers[m].hello.draining)
    && forall id :: id in s.conns ==> ConnStays(s.conns[id], m)
  }

  predicate Leaves(step: Step, m: string) { step == Drain(m) || step == Publish(m, Leaving) }

  lemma {:induction false} PartsAreNoEvents(chunks: seq<seq<Entry>>, event: Event)
    ensures EventFrame(event) !in Parts(chunks)
  {
    if chunks != [] { PartsAreNoEvents(chunks[1..], event); }
  }

  lemma SnapshotHasNoEvents(epoch: nat, seq_: nat, chunks: seq<seq<Entry>>, n: nat)
    requires chunks != [] && n <= |SnapshotFrames(epoch, seq_, chunks)|
    ensures EventFrame(Leaving) !in SnapshotFrames(epoch, seq_, chunks)[..n]
  {
    PartsAreNoEvents(chunks[1..], Leaving);
  }

  lemma ApplyDrainsNoOther(p: Peer, f: Frame, now: nat)
    requires ApplyFrame(p, f, now).Applied? && f != EventFrame(Leaving)
    ensures ApplyFrame(p, f, now).peer.hello == p.hello
  {
    hide Load;
  }

  lemma DeliverKeepsStaying(s: Sys, m: string, id: nat, now: nat)
    requires Staying(s, m)
    ensures Staying(DoDeliver(s, id, now), m)
  {
    hide ApplyFrame;
    var s' := DoDeliver(s, id, now);
    if id in s.conns && s.conns[id].queue != [] && Current(s.peers, s.conns[id].machine, id) {
      var c := s.conns[id];
      assert ConnStays(c, m);
      assert c.queue == [c.queue[0]] + c.queue[1..];
      if c.machine == m && ApplyFrame(s.peers[m], c.queue[0], now).Applied? {
        ApplyDrainsNoOther(s.peers[m], c.queue[0], now);
      }
    }
    forall x | x in s'.conns ensures ConnStays(s'.conns[x], m) {
      assert ConnStays(s.conns[x], m);
    }
  }

  lemma ConnectKeepsStaying(s: Sys, m: string, machine: string, id: nat, chunks: seq<seq<Entry>>)
    requires Staying(s, m)
    ensures Staying(DoConnect(s, machine, id, chunks), m)
  {
    hide ChunksOf;
    var s' := DoConnect(s, machine, id, chunks);
    if s' != s {
      var snd := s.senders[machine];
      var seq_: nat := |History(snd)| - 1;
      assert chunks != [] by { assert ChunksOf(chunks, History(snd)[seq_]); Nonempty(chunks, History(snd)[seq_]); }
      SnapshotHasNoEvents(snd.life.epoch, seq_, chunks, |s'.conns[id].queue|);
      hide SnapshotFrames;
    }
  }

  lemma Nonempty(chunks: seq<seq<Entry>>, table: Table)
    requires ChunksOf(chunks, table)
    ensures chunks != []
  {
  }

  lemma RegisterKeepsStaying(s: Sys, m: string, id: nat, dialer: string)
    requires ConnsOk(s) && Staying(s, m)
    ensures Staying(DoRegister(s, id, dialer), m)
  {
    hide Wins, Carried, Follows, Sound;
    var s' := DoRegister(s, id, dialer);
    assert id in s.conns ==> ConnOk(s.senders, s.conns[id]) && ConnStays(s.conns[id], m);
    forall x | x in s'.conns ensures ConnStays(s'.conns[x], m) {
      assert ConnStays(s.conns[x], m);
    }
  }

  lemma OtherStepKeepsStaying(s: Sys, m: string, step: Step)
    requires Staying(s, m) && !Leaves(step, m) && !step.Deliver? && !step.Connect? && !step.Register?
    ensures Staying(Take(s, step), m)
  {
    hide DoDeliver, DoConnect, DoRegister;
    var s' := Take(s, step);
    forall id | id in s'.conns ensures ConnStays(s'.conns[id], m) {
      assert ConnStays(s.conns[id], m);
    }
  }

  lemma {:induction false} RunKeepsStaying(s: Sys, m: string, steps: seq<Step>)
    requires Inv(s) && Staying(s, m) && forall i :: 0 <= i < |steps| ==> !Leaves(steps[i], m)
    ensures Staying(Run(s, steps), m)
  {
    if steps != [] {
      var before, step := steps[..|steps| - 1], steps[|steps| - 1];
      RunKeepsStaying(s, m, before);
      RunKeepsInv(s, before);
      var t := Run(s, before);
      hide Staying, DoDeliver, DoConnect, DoRegister;
      match step
      case Deliver(id, now) => DeliverKeepsStaying(t, m, id, now);
      case Connect(machine, id, chunks) => ConnectKeepsStaying(t, m, machine, id, chunks);
      case Register(id, dialer) => RegisterKeepsStaying(t, m, id, dialer);
      case _ => OtherStepKeepsStaying(t, m, step);
    }
  }

  /** In every run, a machine that did not say so is never taken to be leaving, whatever other events it sends. */
  lemma OnlyLeavingDrains(steps: seq<Step>, m: string)
    requires forall i :: 0 <= i < |steps| ==> !Leaves(steps[i], m)
    ensures var s := Run(INIT, steps); m in s.peers ==> !s.peers[m].hello.draining
  {
    RunKeepsStaying(INIT, m, steps);
  }
}

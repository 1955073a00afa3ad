/** A receiver's tables and index through whole runs of the replication (mesh.rs). */
module MeshReceiver {
  import opened Common
  import opened MeshTable
  import opened MeshReplication

  /** One step of a run, as the receiver acts on it: its peers stay those of the run, and its index exact. */
  method Follow(remote: Remote, s: Sys, step: Step, ghost earlier: seq<Step>)
    requires remote.Valid() && remote.peers == s.peers && s == Run(INIT, earlier)
    modifies remote
    ensures remote.Valid() && remote.peers == Take(s, step).peers
  {
    match step
    case Register(id, dialer) =>
      if id in s.conns && s.conns[id].hello.Some? && !s.conns[id].registered {
        var taken := remote.Register(Attempt(s.conns[id].hello.value, id, dialer));
        if !taken {
          remote.LinkDown(s.conns[id].machine, id);
        }
      }
    case Deliver(id, now) =>
      if id in s.conns && s.conns[id].registered && s.conns[id].queue != [] {
        var c := s.conns[id];
        if Current(s.peers, c.machine, id) { DeliveredFramesAreConsistent(earlier, id); }
        var end := remote.Apply(c.machine, id, c.queue[0], now);
        if end.Some? {
          remote.LinkDown(c.machine, id);
        }
      }
    case Drop(id) =>
      if id in s.conns {
        remote.LinkDown(s.conns[id].machine, id);
      }
    case _ =>
  }

  /** After any run, the index is exact: what it lists is what the peers' tables serve. */
  method Receive(steps: seq<Step>) returns (remote: Remote)
    ensures fresh(remote) && remote.Valid() && remote.peers == Run(INIT, steps).peers
    ensures Exact(Run(INIT, steps).peers, remote.index)
  {
    remote := new Remote();
    var s := INIT;
    for i := 0 to |steps|
      invariant fresh(remote) && remote.Valid() && remote.peers == s.peers && s == Run(INIT, steps[..i])
    {
      assert steps[..i + 1][..i] == steps[..i];
      Follow(remote, s, steps[i], steps[..i]);
      s := Take(s, steps[i]);
    }
    assert steps[..|steps|] == steps;
  }
}

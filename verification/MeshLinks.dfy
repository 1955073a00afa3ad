/** Which of several links to one machine survives (`Mesh::register` in mesh.rs), whatever order they come up in. */
module MeshLinks {
  import opened Order
  import opened MeshTable

  /** Registers links one after the other. */
  function RegisterAll(peers: Peers, attempts: seq<Attempt>): Peers {
    if attempts == [] then peers
    else RegisterPeers(RegisterAll(peers, attempts[..|attempts| - 1]), attempts[|attempts| - 1])
  }

  /** The order of links to one machine: by life first, the newest best, and then by dialer, the lowest best. */
  predicate Better(a: Attempt, b: Attempt) {
    if a.hello.Life() != b.hello.Life() then Older(b.hello.Life(), a.hello.Life()) else Less(a.dialer, b.dialer)
  }

  lemma BetterIsAStrictOrder(a: Attempt, b: Attempt, c: Attempt)
    ensures !(Better(a, b) && Better(b, a))
    ensures Better(a, b) && Better(b, c) ==> Better(a, c)
    ensures a.hello.Life() != b.hello.Life() || a.dialer != b.dialer ==> Better(a, b) || Better(b, a)
  {
    LessIsTotal(a.dialer, b.dialer);
    if Less(a.dialer, b.dialer) && Less(b.dialer, c.dialer) {
      LessIsTransitive(a.dialer, b.dialer, c.dialer);
    }
  }

  /** Links to one machine at one address, no two of the same life and dialer. */
  ghost predicate Rivals(attempts: seq<Attempt>, machine: string, address: string) {
    && (forall i :: 0 <= i < |attempts| ==>
          attempts[i].hello.machine == machine && attempts[i].hello.address == address)
    && (forall i, j :: 0 <= i < j < |attempts| ==>
          attempts[i].hello.Life() != attempts[j].hello.Life() || attempts[i].dialer != attempts[j].dialer)
  }

  /** The link the peer is registered with is attempt `w`, and no other attempt is better. */
  ghost predicate Survivor(peers: Peers, machine: string, attempts: seq<Attempt>, w: int) {
    && 0 <= w < |attempts|
    && machine in peers
    && peers[machine].link == attempts[w].link
    && peers[machine].dialer == attempts[w].dialer
    && peers[machine].hello == attempts[w].hello
    && forall j :: 0 <= j < |attempts| && j != w ==> Better(attempts[w], attempts[j])
  }

  lemma {:induction false} BestLinkSurvives(peers: Peers, attempts: seq<Attempt>, machine: string, address: string)
    returns (w: int)
    requires machine !in peers && attempts != [] && Rivals(attempts, machine, address)
    ensures Survivor(RegisterAll(peers, attempts), machine, attempts, w)
  {
    var n := |attempts| - 1;
    var earlier, last := attempts[..n], attempts[n];
    if n == 0 {
      assert RegisterAll(peers, earlier) == peers;
      w := 0;
    } else {
      var v := BestLinkSurvives(peers, earlier, machine, address);
      var before := RegisterAll(peers, earlier);
      assert earlier[v] == attempts[v];
      forall j | 0 <= j < n ensures earlier[j] == attempts[j] {}
      w := if Wins(before[machine], last) then n else v;
      forall j | 0 <= j < |attempts| && j != w ensures Better(attempts[w], attempts[j]) {
        BetterIsAStrictOrder(last, attempts[v], attempts[j]);
        BetterIsAStrictOrder(attempts[v], last, attempts[j]);
      }
    }
  }

  lemma NotBetterIsTransitive(a: Attempt, b: Attempt, c: Attempt)
    ensures !Better(a, b) && !Better(b, c) ==> !Better(a, c)
  {
    BetterIsAStrictOrder(a, b, c);
    BetterIsAStrictOrder(b, a, c);
    BetterIsAStrictOrder(c, b, a);
    BetterIsAStrictOrder(b, c, a);
  }

  /** The link is attempt `w`: none is better, and of those as good it is the last. */
  ghost predicate LastOfBest(peers: Peers, machine: string, attempts: seq<Attempt>, w: int) {
    && 0 <= w < |attempts| && machine in peers && peers[machine].link == attempts[w].link
    && peers[machine].dialer == attempts[w].dialer && peers[machine].hello == attempts[w].hello
    && (forall j :: 0 <= j < |attempts| ==> !Better(attempts[j], attempts[w]))
    && (forall j :: w < j < |attempts| ==> Better(attempts[w], attempts[j]))
  }

  /** A machine that comes back with the same dialer takes its own place: of links as good, the last one survives. */
  lemma {:induction false} LastOfBestSurvives(peers: Peers, attempts: seq<Attempt>, machine: string, address: string)
    returns (w: int)
    requires machine !in peers && attempts != []
    requires forall i :: 0 <= i < |attempts| ==>
               attempts[i].hello.machine == machine && attempts[i].hello.address == address
    ensures LastOfBest(RegisterAll(peers, attempts), machine, attempts, w)
  {
    var n := |attempts| - 1;
    var earlier, last := attempts[..n], attempts[n];
    if n == 0 {
      assert RegisterAll(peers, earlier) == peers;
      w := 0;
      BetterIsAStrictOrder(last, last, last);
    } else {
      var v := LastOfBestSurvives(peers, earlier, machine, address);
      var before := RegisterAll(peers, earlier);
      forall j | 0 <= j < n ensures earlier[j] == attempts[j] {}
      BetterIsAStrictOrder(last, attempts[v], last);
      BetterIsAStrictOrder(last, last, last);
      w := if Wins(before[machine], last) then n else v;
      forall j | 0 <= j < |attempts| ensures !Better(attempts[j], attempts[w]) {
        if j < n { NotBetterIsTransitive(attempts[j], attempts[v], last); }
      }
    }
  }

  /** Two orders of the same links end with the same one. */
  lemma SurvivorIsOrderIndependent(peers: Peers, a: seq<Attempt>, b: seq<Attempt>, machine: string, address: string)
    requires machine !in peers && a != [] && Rivals(a, machine, address) && Rivals(b, machine, address)
    requires forall x :: x in a <==> x in b
    ensures machine in RegisterAll(peers, a) && machine in RegisterAll(peers, b)
    ensures RegisterAll(peers, a)[machine].link == RegisterAll(peers, b)[machine].link
    ensures RegisterAll(peers, a)[machine].dialer == RegisterAll(peers, b)[machine].dialer
    ensures RegisterAll(peers, a)[machine].hello == RegisterAll(peers, b)[machine].hello
  {
    assert a[0] in b;
    var v := BestLinkSurvives(peers, a, machine, address);
    var w := BestLinkSurvives(peers, b, machine, address);
    assert a[v] in b && b[w] in a;
    var v' :| 0 <= v' < |b| && b[v'] == a[v];
    var w' :| 0 <= w' < |a| && a[w'] == b[w];
    if v' != w {
      assert Better(b[w], a[v]);
      assert w' != v;
      assert Better(a[v], b[w]);
      BetterIsAStrictOrder(a[v], b[w], a[v]);
    }
  }

  /** A registered peer is only ever replaced by the same or a newer life of its machine. */
  lemma {:induction false} LifeNeverGoesBack(peers: Peers, attempts: seq<Attempt>, machine: string)
    requires machine in peers
    ensures machine in RegisterAll(peers, attempts)
    ensures !Older(RegisterAll(peers, attempts)[machine].hello.Life(), peers[machine].hello.Life())
    ensures RegisterAll(peers, attempts)[machine].hello.address == peers[machine].hello.address
  {
    if attempts != [] {
      LifeNeverGoesBack(peers, attempts[..|attempts| - 1], machine);
    }
  }

  // --- Both ends -----------------------------------------------------------------------------------------------

  /** One connection between machines A and B: the life of each end, and the address that dialed. */
  datatype Connection = Connection(id: nat, lifeA: Life, lifeB: Life, dialer: string)

  function SeenByA(c: Connection, b: string, addressB: string): Attempt {
    Attempt(Hello(b, "", addressB, c.lifeB.epoch, c.lifeB.startedAt, false), c.id, c.dialer)
  }

  function SeenByB(c: Connection, a: string, addressA: string): Attempt {
    Attempt(Hello(a, "", addressA, c.lifeA.epoch, c.lifeA.startedAt, false), c.id, c.dialer)
  }

  function AttemptsAtA(cs: seq<Connection>, b: string, addressB: string): seq<Attempt> {
    seq(|cs|, i requires 0 <= i < |cs| => SeenByA(cs[i], b, addressB))
  }

  function AttemptsAtB(cs: seq<Connection>, a: string, addressA: string): seq<Attempt> {
    seq(|cs|, i requires 0 <= i < |cs| => SeenByB(cs[i], a, addressA))
  }

  /** What one end saw: connections of its own current life, no two to the same life from the same dialer. */
  ghost predicate AtA(cs: seq<Connection>, nowA: Life, nowB: Life) {
    && (forall i :: 0 <= i < |cs| ==> cs[i].lifeA == nowA && !Older(nowB, cs[i].lifeB))
    && (forall i, j :: 0 <= i < j < |cs| ==> cs[i].lifeB != cs[j].lifeB || cs[i].dialer != cs[j].dialer)
  }

  ghost predicate AtB(cs: seq<Connection>, nowA: Life, nowB: Life) {
    && (forall i :: 0 <= i < |cs| ==> cs[i].lifeB == nowB && !Older(nowA, cs[i].lifeA))
    && (forall i, j :: 0 <= i < j < |cs| ==> cs[i].lifeA != cs[j].lifeA || cs[i].dialer != cs[j].dialer)
  }

  /**
   * Each end registers the connections it saw in its own order, including ones to earlier lives of the other. Once
   * both saw the connections between the two current lives, they keep the same one.
   */
  lemma BothEndsKeepTheSameLink(atA: seq<Connection>, atB: seq<Connection>, a: string, addressA: string,
                                b: string, addressB: string, nowA: Life, nowB: Life)
    requires AtA(atA, nowA, nowB) && AtB(atB, nowA, nowB)
    requires forall c: Connection :: c.lifeA == nowA && c.lifeB == nowB ==> (c in atA <==> c in atB)
    requires exists c :: c in atA && c.lifeB == nowB
    ensures b in RegisterAll(map[], AttemptsAtA(atA, b, addressB))
    ensures a in RegisterAll(map[], AttemptsAtB(atB, a, addressA))
    ensures RegisterAll(map[], AttemptsAtA(atA, b, addressB))[b].link ==
              RegisterAll(map[], AttemptsAtB(atB, a, addressA))[a].link
  {
    var xs, ys := AttemptsAtA(atA, b, addressB), AttemptsAtB(atB, a, addressA);
    var c :| c in atA && c.lifeB == nowB;
    assert c in atB;
    var i :| 0 <= i < |atA| && atA[i] == c;
    var j :| 0 <= j < |atB| && atB[j] == c;
    var v := BestLinkSurvives(map[], xs, b, addressB);
    var w := BestLinkSurvives(map[], ys, a, addressA);
    // Both survivors join the current lives: an older life loses to `c`.
    assert atA[v].lifeB == nowB by {
      if v != i { assert Better(xs[v], xs[i]); }
    }
    assert atB[w].lifeA == nowA by {
      if w != j { assert Better(ys[w], ys[j]); }
    }
    assert atA[v] in atB && atB[w] in atA;
    var v' :| 0 <= v' < |atB| && atB[v'] == atA[v];
    var w' :| 0 <= w' < |atA| && atA[w'] == atB[w];
    if v' != w {
      assert Better(ys[w], ys[v']);
      assert w' != v;
      assert Better(xs[v], xs[w']);
      LessIsTotal(atA[v].dialer, atB[w].dialer);
    }
  }
}

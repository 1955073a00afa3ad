/** One reservation for data from a client, taken in place while other tasks use the same budgets (bridge.rs). */
module Reservation {
  import Budgets

  /** The semaphore is a level of the budgets. */
  ghost predicate Backs(sem: Semaphore, s: Budgets.Sys, l: Budgets.Level)
    reads sem
  {
    sem.budget == Budgets.Budget(l, s.machine) && sem.free == Budgets.Free(s, l)
  }

  function Sum(ns: seq<nat>): nat { if ns == [] then 0 else Sum(ns[..|ns| - 1]) + ns[|ns| - 1] }

  lemma SumOneMore(ns: seq<nat>, n: nat)
    ensures Sum(ns + [n]) == Sum(ns) + n
  {
    assert (ns + [n])[..|ns|] == ns;
  }

  class Semaphore {
    const budget: nat
    var free: nat
    /** What this reservation has of it, out of what is not free. */
    var mine: nat
    /** What was free each time this reservation's wait was served. */
    ghost var offered: seq<nat>

    ghost predicate Valid()
      reads this
    {
      free + mine <= budget
    }

    constructor (budget: nat)
      ensures Valid() && this.budget == budget && free == budget && mine == 0 && offered == []
    {
      this.budget, free, mine := budget, budget, 0;
      offered := [];
    }

    /** Other tasks take and give back permits of their own. */
    method Others()
      requires Valid()
      modifies this`free
      ensures Valid()
    {
      var n: nat := *;
      if n + mine <= budget {
        free := n;
      }
    }

    method TryAcquire(n: nat) returns (ok: bool)
      requires Valid()
      modifies this`free, this`mine
      ensures Valid() && (ok <==> old(free) >= n)
      ensures if ok then free == old(free) - n && mine == old(mine) + n else free == old(free) && mine == old(mine)
    {
      ok := free >= n;
      if ok {
        free, mine := free - n, mine + n;
      }
    }

    method Release(n: nat)
      requires Valid() && n <= mine
      modifies this`free, this`mine
      ensures Valid() && free == old(free) + n && mine == old(mine) - n
    {
      free, mine := free + n, mine - n;
    }

    /** Since then it was offered less than it needs, though it was served as often as its patience allows. */
    ghost predicate Short(since: nat, n: nat, patience: nat)
      reads this
    {
      && |offered| == since + patience
      && (patience > 0 ==> Sum(offered[since..]) < n)
    }

    /**
     * Waits for permits, given some at a time as others give them back; abandoned when it takes too long. It takes all
     * it is offered, so it fails only if that is less than it needs.
     */
    method Acquire(n: nat, patience: nat) returns (ok: bool)
      requires Valid()
      modifies this
      ensures Valid() && mine == old(mine) + (if ok then n else 0) && old(offered) <= offered
      ensures if ok then patience > 0 && Sum(offered[|old(offered)|..]) >= n else Short(|old(offered)|, n, patience)
    {
      var got := 0;
      ghost var since := |offered|;
      assert offered[since..] == [];
      for turn := 0 to patience
        invariant Valid() && 0 <= got <= n && mine == old(mine) + got
        invariant old(offered) <= offered && |offered| == since + turn && got == Sum(offered[since..])
        invariant turn > 0 ==> got < n
      {
        Others();
        SumOneMore(offered[since..], free);
        assert (offered + [free])[since..] == offered[since..] + [free];
        offered := offered + [free];
        var more := if free < n - got then free else n - got;
        free, mine, got := free - more, mine + more, got + more;
        if got == n {
          return true;
        }
      }
      Release(got);
      ok := false;
    }
  }

  /** The share of all three budgets at once, or of none. */
  method TryHold(local: Semaphore, shared: Semaphore, global: Semaphore, n: nat) returns (ok: bool)
    requires local != shared && local != global && shared != global
    requires local.Valid() && shared.Valid() && global.Valid()
    modifies local`free, local`mine, shared`free, shared`mine, global`free, global`mine
    ensures local.Valid() && shared.Valid() && global.Valid()
    ensures ok <==> old(local.free) >= n && old(shared.free) >= n && old(global.free) >= n
    ensures var taken := if ok then n else 0;
            && local.mine == old(local.mine) + taken && local.free == old(local.free) - taken
            && shared.mine == old(shared.mine) + taken && shared.free == old(shared.free) - taken
            && global.mine == old(global.mine) + taken && global.free == old(global.free) - taken
  {
    ok := local.TryAcquire(n);
    if !ok {
      return;
    }
    ok := shared.TryAcquire(n);
    if !ok {
      local.Release(n);
      return;
    }
    ok := global.TryAcquire(n);
    if !ok {
      local.Release(n);
      shared.Release(n);
    }
  }

  /** On the levels of a run of the budgets, with nothing in between, it does what the run's three tries do. */
  method TryHoldInRun(local: Semaphore, shared: Semaphore, global: Semaphore, n: nat, ghost s: Budgets.Sys,
                      ghost path: seq<Budgets.Level>)
    returns (ok: bool)
    requires local != shared && local != global && shared != global
    requires local.Valid() && shared.Valid() && global.Valid()
    requires Budgets.Inv(s) && Budgets.MayBegin(s, path) && |path| == 3
    requires Backs(local, s, path[0]) && Backs(shared, s, path[1]) && Backs(global, s, path[2])
    modifies local, shared, global
    ensures var t := Budgets.Tried(s, path, n);
            && Backs(local, t, path[0]) && Backs(shared, t, path[1]) && Backs(global, t, path[2])
            && ok == !t.holds[|t.holds| - 1].ended
  {
    Budgets.TriedIsAllOrNone(s, path, n, path[0]);
    Budgets.TriedIsAllOrNone(s, path, n, path[1]);
    Budgets.TriedIsAllOrNone(s, path, n, path[2]);
    hide *;
    ok := TryHold(local, shared, global, n);
  }

  /** Waits level by level; a wait that is abandoned gives back the levels it had, and was short of one. */
  method WaitToHold(local: Semaphore, shared: Semaphore, global: Semaphore, n: nat, patience: nat) returns (ok: bool)
    requires local != shared && local != global && shared != global
    requires local.Valid() && shared.Valid() && global.Valid()
    modifies local, shared, global
    ensures local.Valid() && shared.Valid() && global.Valid()
    ensures var taken := if ok then n else 0;
            local.mine == old(local.mine) + taken && shared.mine == old(shared.mine) + taken
            && global.mine == old(global.mine) + taken
    ensures !ok ==> || local.Short(|old(local.offered)|, n, patience)
                    || shared.Short(|old(shared.offered)|, n, patience)
                    || global.Short(|old(global.offered)|, n, patience)
  {
    ok := local.Acquire(n, patience);
    if !ok {
      return;
    }
    ok := shared.Acquire(n, patience);
    local.Others();
    if !ok {
      local.Release(n);
      return;
    }
    ok := global.Acquire(n, patience);
    local.Others();
    shared.Others();
    if !ok {
      local.Release(n);
      shared.Release(n);
    }
  }

  /**
   * Tries, waits, and tries once more after stalled connections were reset, unless the bridge ended while it waited
   * or its own connection was among those reset. Whatever other tasks do, a reservation that succeeds has its share
   * of all three budgets, and one that fails has none of any; it fails only if its wait was short of a budget and then
   * the bridge ended, its connection was reset, or a budget has no room for it at last.
   */
  method HoldInbound(local: Semaphore, shared: Semaphore, global: Semaphore, n: nat, patience: nat, cancelled: bool,
                     reset: bool)
    returns (ok: bool)
    requires local != shared && local != global && shared != global
    requires local.Valid() && shared.Valid() && global.Valid()
    modifies local, shared, global
    ensures local.Valid() && shared.Valid() && global.Valid()
    ensures var taken := if ok then n else 0;
            local.mine == old(local.mine) + taken && shared.mine == old(shared.mine) + taken
            && global.mine == old(global.mine) + taken
    ensures old(local.free) >= n && old(shared.free) >= n && old(global.free) >= n ==> ok
    ensures !ok ==> || local.Short(|old(local.offered)|, n, patience)
                    || shared.Short(|old(shared.offered)|, n, patience)
                    || global.Short(|old(global.offered)|, n, patience)
    ensures !ok ==> cancelled || reset || local.free < n || shared.free < n || global.free < n
  {
    ok := TryHold(local, shared, global, n);
    if ok {
      return;
    }
    ok := WaitToHold(local, shared, global, n, patience);
    if ok || cancelled {
      return;
    }
    local.Others();
    shared.Others();
    global.Others();
    if reset {
      return;
    }
    ok := TryHold(local, shared, global, n);
  }
}

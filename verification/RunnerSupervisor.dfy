/**
 The supervision of the launched children. A list entry that was overwritten with -1 is still polled, and
 waitpid(-1) reaps any child; children exit at any moment in between.
*/
module RunnerSupervisor {

  datatype Status = Running | Zombie | Reaped

  type Children = map<int, Status>

  ghost predicate Unreaped(c: Children, p: int) {
    p in c && c[p] != Reaped
  }

  /** Time passes: children may exit; what is reaped stays reaped and nothing starts running again. */
  ghost predicate Later(c: Children, d: Children) {
    && d.Keys == c.Keys
    && forall p :: p in c ==> (c[p] == Reaped ==> d[p] == Reaped) && (c[p] == Zombie ==> d[p] != Running)
  }

  lemma LaterTransitive(c: Children, d: Children, e: Children)
    requires Later(c, d) && Later(d, e)
    ensures Later(c, e)
  {
  }

  /** What the monitoring loop asks of the kernel. */
  datatype Call = Poll(pid: int) | Nap

  /** n rounds of the monitoring loop, each of which polls len entries and then naps. */
  ghost predicate Rounds(calls: seq<Call>, n: nat, len: nat)
    decreases n
  {
    if n == 0 then calls == []
    else
      var at := |calls| - 1 - len;
      && at >= 0 && calls[at + len] == Nap
      && (forall i :: at <= i < at + len ==> calls[i].Poll?)
      && Rounds(calls[..at], n - 1, len)
  }

  /** Since `before`, n rounds of the loop and nothing else. */
  ghost predicate RoundsSince(before: seq<Call>, calls: seq<Call>, n: nat, len: nat) {
    before <= calls && Rounds(calls[|before|..], n, len)
  }

  lemma NoRound(before: seq<Call>, len: nat)
    ensures RoundsSince(before, before, 0, len)
  {
  }

  lemma OneMoreRound(before: seq<Call>, calls: seq<Call>, n: nat, polls: seq<Call>)
    requires RoundsSince(before, calls, n, |polls|)
    requires forall i :: 0 <= i < |polls| ==> polls[i].Poll?
    ensures RoundsSince(before, calls + polls + [Nap], n + 1, |polls|)
  {
    var done := calls[|before|..];
    var all := done + polls + [Nap];
    assert (calls + polls + [Nap])[|before|..] == all;
    assert all[..|done|] == done;
    forall i | |done| <= i < |done| + |polls|
      ensures all[i] == polls[i - |done|]
    {
    }
  }

  /** The runner's children as the kernel sees them. A pid is not given out twice. */
  class Kernel {
    var child: Children
    /** The processes that were sent a SIGKILL, and the polls and naps so far. */
    ghost var killed: set<int>
    ghost var calls: seq<Call>

    constructor (child: Children)
      ensures this.child == child && killed == {} && calls == []
    {
      this.child, killed, calls := child, {}, [];
    }

    /** usleep(500000). */
    method Sleep()
      modifies this`calls
      ensures calls == old(calls) + [Nap]
    {
      calls := calls + [Nap];
    }

    /** Any running children exit. */
    method Exits()
      modifies this`child
      ensures Later(old(child), child)
      ensures forall p :: p in child ==> (child[p] == Reaped <==> old(child)[p] == Reaped)
    {
      var gone: set<int> := *;
      child := map p | p in child :: if p in gone && child[p] == Running then Zombie else child[p];
    }

    /** waitpid(pid, NULL, WNOHANG): -1 without a matching child, 0 when none has exited yet, else the pid reaped. */
    method WaitNoHang(pid: int) returns (r: int)
      requires pid == -1 || pid > 0
      requires forall p :: p in child ==> p > 0
      modifies this`child, this`calls
      ensures calls == old(calls) + [Poll(pid)]
      ensures Later(old(child), child)
      ensures r == -1 ==> child == old(child) && forall p :: Unreaped(child, p) ==> pid != -1 && p != pid
      ensures r == 0 ==> child == old(child) && (if pid == -1 then (exists p :: p in child && child[p] == Running)
                                                                    && (forall p :: p in child ==> child[p] != Zombie)
                                                 else pid in child && child[pid] == Running)
      ensures r != -1 && r != 0 ==>
                && r > 0 && r in old(child) && old(child)[r] == Zombie && (pid == -1 || r == pid)
                && child == old(child)[r := Reaped]
    {
      calls := calls + [Poll(pid)];
      if pid != -1 {
        if pid !in child || child[pid] == Reaped {
          return -1;
        }
        if child[pid] == Running {
          return 0;
        }
        child := child[pid := Reaped];
        return pid;
      }
      if exists p :: p in child && child[p] == Zombie {
        r :| r in child && child[r] == Zombie;
        child := child[r := Reaped];
        return;
      }
      if exists p :: p in child && child[p] == Running {
        return 0;
      }
      assert forall p :: p in child ==> child[p] == Reaped;
      return -1;
    }

    /** kill(pid, SIGKILL): -1 if there is no such process; a running child dies of it. */
    method Kill(pid: int) returns (r: int)
      modifies this`child, this`killed
      ensures killed == if Unreaped(old(child), pid) then old(killed) + {pid} else old(killed)
      ensures Later(old(child), child)
      ensures r == if Unreaped(old(child), pid) then 0 else -1
      ensures child == if Unreaped(old(child), pid) then old(child)[pid := Zombie] else old(child)
    {
      if pid !in child || child[pid] == Reaped {
        return -1;
      }
      child := child[pid := Zombie];
      killed := killed + {pid};
      return 0;
    }

    /** waitpid(pid, NULL, 0) on a child that has died. */
    method Wait(pid: int)
      requires pid in child && child[pid] == Zombie
      modifies this`child
      ensures child == old(child)[pid := Reaped]
    {
      child := child[pid := Reaped];
    }
  }

  /** The list of pids, with its items overwritten in place. */
  class Supervisor {
    const items: array<int>

    /** execute_command has put the pid of every child on the list. */
    constructor (pids: seq<int>, ghost c: Children)
      requires forall p :: p in pids <==> p in c
      requires forall p :: p in pids ==> p > 0
      ensures items[..] == pids && fresh(items) && Tracked(c)
    {
      items := new int[|pids|](i requires 0 <= i < |pids| => pids[i]);
    }

    /** Every child that is not reaped still has its own pid in the list; an entry is -1 or some child's pid. */
    ghost predicate Tracked(c: Children)
      reads items
    {
      && (forall p :: p in c ==> p > 0)
      && (forall p :: Unreaped(c, p) ==> p in items[..])
      && (forall i :: 0 <= i < items.Length ==> items[i] == -1 || items[i] in c)
    }

    /** When every entry is given up or reaped, every child is reaped. */
    lemma NothingLeft(c: Children)
      requires Tracked(c)
      requires forall i :: 0 <= i < items.Length ==> !Unreaped(c, items[i])
      ensures forall p :: p in c ==> c[p] == Reaped
    {
      forall p | p in c
        ensures c[p] == Reaped
      {
        assert c[p] == Reaped || Unreaped(c, p);
      }
    }

    /**
     One pass of the monitoring loop. It counts nothing only if every child is reaped and every entry is -1, and
     it does count nothing if no child was running when it started, whichever entry reaped which child. It polls
     each entry once, as it stands, and kills nobody.
    */
    method Pass(k: Kernel) returns (count: nat)
      requires Tracked(k.child)
      modifies k`child, k`calls, items
      ensures Tracked(k.child) && Later(old(k.child), k.child)
      ensures k.calls == old(k.calls) + Polls(old(items[..]))
      ensures forall i :: 0 <= i < items.Length ==> items[i] == -1 || items[i] == old(items[i])
      ensures count == 0 ==> (forall p :: p in k.child ==> k.child[p] == Reaped)
                             && forall i :: 0 <= i < items.Length ==> items[i] == -1
      ensures (forall p :: p in old(k.child) ==> old(k.child)[p] != Running) ==> count == 0
    {
      count := 0;
      ghost var start := k.child;
      for i := 0 to items.Length
        invariant Tracked(k.child) && Later(start, k.child)
        invariant k.calls == old(k.calls) + Polls(old(items[..])[..i])
        invariant forall j :: 0 <= j < i ==> items[j] == -1 || items[j] == old(items[j])
        invariant forall j :: i <= j < items.Length ==> items[j] == old(items[j])
        invariant count == 0 ==> forall j :: 0 <= j < i ==> items[j] == -1
        invariant (forall p :: p in start ==> start[p] != Running) ==> count == 0
      {
        k.Exits();
        ghost var before := k.child;
        assert Tracked(before);
        assert old(items[..])[..i + 1] == old(items[..])[..i] + [items[i]];
        var pid := k.WaitNoHang(items[i]);
        LaterTransitive(start, before, k.child);
        if pid == -1 || pid > 0 {
          EntryGivenUp(items[..], i, before, k.child, pid);
          ghost var entries := items[..];
          items[i] := -1;
          assert items[..] == entries[i := -1];
        } else {
          count := count + 1;
        }
      }
      assert old(items[..])[..items.Length] == old(items[..]);
      if count == 0 {
        NothingLeft(k.child);
      }
    }

    /** One poll per entry, in order. */
    static function Polls(entries: seq<int>): (calls: seq<Call>)
      ensures |calls| == |entries|
      ensures forall i :: 0 <= i < |entries| ==> calls[i] == Poll(entries[i])
    {
      seq(|entries|, i requires 0 <= i < |entries| => Poll(entries[i]))
    }

    /** Overwriting the polled entry loses no unreaped child. */
    static lemma EntryGivenUp(items: seq<int>, i: nat, c: Children, d: Children, pid: int)
      requires i < |items|
      requires forall p :: Unreaped(c, p) ==> p in items
      requires pid == -1 ==> d == c && (forall p :: Unreaped(c, p) ==> p != items[i])
      requires pid > 0 ==> pid in c && d == c[pid := Reaped] && (items[i] == -1 || items[i] == pid)
      requires pid == -1 || pid > 0
      requires forall p :: p in c ==> p > 0
      ensures forall p :: Unreaped(d, p) ==> p in items[i := -1]
    {
      forall p | Unreaped(d, p)
        ensures p in items[i := -1]
      {
        assert Unreaped(c, p);
        var j :| 0 <= j < |items| && items[j] == p;
        assert items[i := -1][j] == p;
      }
    }

    /** The monitoring loop of main: it ends when nothing is counted, or by a signal within `patience` passes. */
    method Monitor(k: Kernel, patience: nat) returns (interrupted: bool)
      requires Tracked(k.child)
      modifies k`child, k`calls, items
      ensures exists n :: 0 <= n <= patience && (interrupted ==> n == patience)
                          && RoundsSince(old(k.calls), k.calls, n, items.Length)
      ensures Tracked(k.child) && Later(old(k.child), k.child)
      ensures interrupted || forall p :: p in k.child ==> k.child[p] == Reaped
    {
      var count, passes := items.Length, patience;
      var running := passes > 0;
      ghost var start, calls := k.child, k.calls;
      if count == 0 {
        NothingLeft(k.child);
      }
      NoRound(calls, items.Length);
      assert Later(start, start);
      hide Tracked, Later, RoundsSince;
      while running && count != 0
        invariant Tracked(k.child) && Later(start, k.child)
        invariant running <==> passes > 0
        invariant 0 <= passes <= patience
        invariant RoundsSince(calls, k.calls, patience - passes, items.Length)
        invariant count == 0 ==> forall p :: p in k.child ==> k.child[p] == Reaped
        decreases passes
      {
        ghost var before, asked, polls := k.child, k.calls, Polls(items[..]);
        count := Pass(k);
        LaterTransitive(start, before, k.child);
        k.Sleep();
        OneMoreRound(calls, asked, patience - passes, polls);
        passes := passes - 1;
        running := passes > 0;
      }
      interrupted := count != 0;
      assert RoundsSince(old(k.calls), k.calls, patience - passes, items.Length);
    }

    /** The kill loop of main: it kills children only, and only those that are still on the list. */
    method KillRemaining(k: Kernel)
      requires Tracked(k.child)
      modifies k`child, k`killed
      ensures old(k.killed) <= k.killed
      ensures forall p :: p in k.killed - old(k.killed) ==> p in items[..] && Unreaped(old(k.child), p)
      ensures Later(old(k.child), k.child)
      ensures forall p :: p in k.child ==> k.child[p] == Reaped
    {
      ghost var start := k.child;
      for i := 0 to items.Length
        invariant Tracked(k.child) && Later(start, k.child)
        invariant forall j :: 0 <= j < i ==> !Unreaped(k.child, items[j])
        invariant old(k.killed) <= k.killed
        invariant forall p :: p in k.killed - old(k.killed) ==> p in items[..] && Unreaped(start, p)
      {
        k.Exits();
        if items[i] != -1 {
          var r := k.Kill(items[i]);
          if r != -1 {
            k.Wait(items[i]);
          }
        }
      }
      NothingLeft(k.child);
    }

    /**
     However the children behave and whenever the signal comes, main ends with no child running or unreaped; nobody
     is killed unless the signal came.
    */
    method Supervise(k: Kernel, patience: nat)
      requires Tracked(k.child)
      modifies k, items
      ensures old(k.killed) <= k.killed
      ensures k.killed != old(k.killed) ==> RoundsSince(old(k.calls), k.calls, patience, items.Length)
      ensures forall p :: p in k.killed - old(k.killed) ==> p in old(k.child)
      ensures k.child.Keys == old(k.child).Keys
      ensures forall p :: p in k.child ==> k.child[p] == Reaped
    {
      var interrupted := Monitor(k, patience);
      ghost var before, children := k.killed, k.child;
      hide RoundsSince, Tracked;
      KillRemaining(k);
      if !interrupted {
        forall p | p in k.killed
          ensures p in before
        {
          assert p in k.killed - before ==> Unreaped(children, p);
        }
        assert k.killed == before;
      }
    }
  }
}

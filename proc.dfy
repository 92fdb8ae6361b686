/** The kernel's process table as the kernel keeps it: a fixed array of
    process slots, the next pid to hand out and the init process. Each
    method performs one operation of the table, or one step of one, and is
    proved to compute the corresponding function of `ProcSpec`; the methods
    that require `Valid()` also keep the table invariant. */
module Procs {
  import opened ProcTypes
  import opened KThreads
  import opened ProcSpec

  /** How kthread_exit ends: the caller alone became ZOMBIE, or it was the
      last active thread and the whole process went through exit. */
  datatype ThreadExitOutcome = ThreadZombie | ProcessExit(o: ExitOutcome)

  class Table {
    const procs: array<Proc>
    var nextpid: int
    var initproc: PRef

    ghost predicate Valid()
      reads this, procs
    {
      procs.Length == NPROC && TableInv(procs[..], nextpid)
    }

    // ------------------------------------------------------------- boot

    /** The zero-initialised static table, after procinit. */
    constructor ()
      ensures Valid() && procs[..] == BootTable() && nextpid == 1 && initproc == NoProc
    {
      procs := new Proc[NPROC](_ => ZeroProc);
      nextpid := 1;
      initproc := NoProc;
      new;
      ProcInit();
      assert procs[..] == BootTable();
      BootTableInv();
    }

    /** procinit: every slot becomes UNUSED and its thread slots are wired
        to their kernel stacks. */
    method ProcInit()
      requires procs.Length == NPROC && forall i :: 0 <= i < NPROC ==> Shaped(procs[i])
      modifies procs
      ensures forall i :: 0 <= i < NPROC ==> Shaped(old(procs[i])) && procs[i] == KThreadInitProc(old(procs[i]).(state := ProcUnused), i)
    {
      for i := 0 to NPROC
        invariant forall j :: 0 <= j < i ==> procs[j] == KThreadInitProc(old(procs[j]).(state := ProcUnused), j)
        invariant forall j :: i <= j < NPROC ==> procs[j] == old(procs[j])
      {
        procs[i] := procs[i].(state := ProcUnused);
        KThreadInit(procs, i);
      }
    }

    // ------------------------------------------------- allocation and release

    /** allocpid: hands out the counter and advances it. */
    method AllocPid() returns (pid: int)
      modifies this`nextpid
      ensures pid == old(nextpid) && nextpid == pid + 1
    {
      pid := nextpid;
      nextpid := nextpid + 1;
    }

    /** freeproc: resets slot `i` and every one of its thread slots. */
    method FreeProc(i: nat)
      requires i < procs.Length && Shaped(procs[i])
      modifies procs
      ensures procs[..] == old(procs[..])[i := FreedProc(old(procs[i]))]
    {
      ghost var p0 := procs[i];
      procs[i] := procs[i].(baseTrapframes := 0, pagetable := 0, sz := 0, pid := 0, killed := false, exitStatus := 0);
      procs[i] := procs[i].(parent := NoProc, name := "", threadIdCounter := 0, state := ProcUnused);
      ghost var p1 := procs[i];
      for k := 0 to NKT
        invariant forall j :: 0 <= j < procs.Length && j != i ==> procs[j] == old(procs[j])
        invariant procs[i] == p1.(kthreads := procs[i].kthreads) && |procs[i].kthreads| == NKT
        invariant forall j :: 0 <= j < k ==> procs[i].kthreads[j] == FreedThread(p0.kthreads[j])
        invariant forall j :: k <= j < NKT ==> procs[i].kthreads[j] == p0.kthreads[j]
      {
        FreeKThread(procs, i, k);
      }
      assert procs[i] == FreedProc(p0);
    }

    /** The scan of allocproc: the lowest UNUSED slot, or -1. */
    method FindUnusedProc() returns (i: int)
      requires procs.Length == NPROC
      ensures i == FirstUnusedProc(procs[..])
    {
      i := 0;
      while i < NPROC
        invariant 0 <= i <= NPROC
        invariant forall j :: 0 <= j < i ==> procs[j].state != ProcUnused
      {
        if procs[i].state == ProcUnused {
          return i;
        }
        i := i + 1;
      }
      return -1;
    }

    /** allocproc past its `found` label, on the UNUSED slot `i` with the pid
        already drawn; `ok` is false when an allocation failed and the slot
        was freed again. */
    method SetUpSlot(i: nat, pid: int, tfPage: nat, pagetable: int) returns (ok: bool)
      requires i < procs.Length && Shaped(procs[i])
      modifies procs
      ensures var (q, b) := AllocSlot(old(procs[i]), i, pid, tfPage, pagetable);
        ok == b && procs[..] == old(procs[..])[i := q]
    {
      procs[i] := procs[i].(pid := pid, state := ProcUsed);
      if tfPage == 0 {
        FreeProc(i);
        return false;
      }
      procs[i] := procs[i].(baseTrapframes := tfPage, pagetable := pagetable);
      if pagetable == 0 {
        FreeProc(i);
        return false;
      }
      procs[i] := procs[i].(threadIdCounter := 1);
      var k := AllocKThread(procs, i);
      return true;
    }

    /** allocproc, given the page kalloc returns for the trapframes and the
        handle proc_pagetable returns (0 for a failure). Returns the slot, or
        -1 for a null result. */
    method AllocProc(tfPage: nat, pagetable: int) returns (slot: int)
      requires Valid()
      modifies this`nextpid, procs
      ensures Valid()
      ensures Alloc(procs[..], nextpid, slot) == AllocProcSpec(old(procs[..]), old(nextpid), tfPage, pagetable)
    {
      ghost var s0 := procs[..];
      ghost var n0 := nextpid;
      AllocProcProps(s0, n0, tfPage, pagetable);
      var i := FindUnusedProc();
      if i < 0 {
        return -1;
      }
      var pid := AllocPid();
      var ok := SetUpSlot(i, pid, tfPage, pagetable);
      slot := if ok then i else -1;
    }

    /** userinit: allocates the first process, records it as init and makes
        its first thread runnable at user address 0. `ok` is false when
        allocproc failed (the source then dereferences a null pointer). */
    method UserInit(tfPage: nat, pagetable: int) returns (ok: bool)
      requires Valid()
      modifies this, procs
      ensures Valid()
      ensures var a := UserInitSpec(old(procs[..]), old(nextpid), tfPage, pagetable);
        && procs[..] == a.ps && nextpid == a.nextpid && ok == (a.slot >= 0)
        && initproc == (if a.slot < 0 then NoProc else ProcAt(a.slot))
    {
      ghost var s0 := procs[..];
      ghost var n0 := nextpid;
      UserInitInv(s0, n0, tfPage, pagetable);
      var p := AllocProc(tfPage, pagetable);
      initproc := if p < 0 then NoProc else ProcAt(p);
      if p < 0 {
        return false;
      }
      var q := procs[p];
      q := q.(sz := PGSIZE);
      q := q.(trapframes := q.trapframes[0 := q.trapframes[0].(epc := 0, sp := PGSIZE)]);
      q := q.(name := "initcode");
      q := SetThread(q, 0, q.kthreads[0].(tstate := KtRunnable));
      procs[p] := q;
      return true;
    }

    /** fork by thread `cur`, given the outcomes of the two allocations of
        allocproc and of uvmcopy. Returns the child's pid, or -1. */
    method Fork(cur: Cur, tfPage: nat, pagetable: int, copyOk: bool) returns (pid: int)
      requires Valid() && InTable(cur) && procs[cur.p].state == ProcUsed
      modifies this, procs
      ensures Valid() && initproc == old(initproc)
      ensures var f := ForkSpec(old(procs[..]), old(nextpid), cur, tfPage, pagetable, copyOk);
        && procs[..] == f.ps && nextpid == f.nextpid
        && pid == (if f.slot < 0 then -1 else f.ps[f.slot].pid)
    {
      ghost var s0 := procs[..];
      ghost var n0 := nextpid;
      ForkInv(s0, n0, cur, tfPage, pagetable, copyOk);
      AllocProcProps(s0, n0, tfPage, pagetable);
      var np := AllocProc(tfPage, pagetable);
      if np < 0 {
        return -1;
      }
      if !copyOk {
        FreeProc(np);
        return -1;
      }
      CopyIntoChild(np, cur);
      pid := procs[np].pid;
    }

    /** The part of fork that fills in the child slot `np` from the calling
        thread `cur`: size, saved registers with 0 as fork's result, name,
        parent, and a RUNNABLE first thread. */
    method CopyIntoChild(np: nat, cur: Cur)
      requires procs.Length == NPROC && InTable(cur) && np < NPROC && np != cur.p
      requires Shaped(procs[np]) && Shaped(procs[cur.p])
      modifies procs
      ensures procs[..] == old(procs[..])[np := ForkChild(old(procs[np]), old(procs[cur.p]), cur)]
    {
      var c := procs[np];
      var par := procs[cur.p];
      c := c.(sz := par.sz);
      c := c.(trapframes := c.trapframes[0 := par.trapframes[cur.k]]);
      c := c.(trapframes := c.trapframes[0 := c.trapframes[0].(a0 := 0)]);
      c := c.(name := par.name);
      c := c.(parent := ProcAt(cur.p));
      c := SetThread(c, 0, c.kthreads[0].(tstate := KtRunnable));
      assert c == ForkChild(old(procs[np]), par, cur);
      procs[np] := c;
    }

    // ------------------------------------------------------ wakeup, reparent

    /** wakeup(chan) run by thread `me`. */
    method Wakeup(chan: Chan, me: TRef)
      requires procs.Length == NPROC && AllShaped(procs[..])
      modifies procs
      ensures procs[..] == WakeupSpec(old(procs[..]), chan, me)
    {
      ghost var s0 := procs[..];
      for i := 0 to NPROC
        invariant forall j :: 0 <= j < i ==> procs[j] == WakeProc(s0[j], j, chan, me)
        invariant forall j :: i <= j < NPROC ==> procs[j] == s0[j]
      {
        if procs[i].state == ProcUsed {
          WakeSlot(i, chan, me);
        }
      }
      assert procs[..] == WakeupSpec(s0, chan, me);
    }

    /** The inner loop of wakeup over the thread slots of the USED process
        in slot `i`. */
    method WakeSlot(i: nat, chan: Chan, me: TRef)
      requires i < procs.Length && Shaped(procs[i]) && procs[i].state == ProcUsed
      modifies procs
      ensures procs[..] == old(procs[..])[i := WakeProc(old(procs[i]), i, chan, me)]
    {
      ghost var p0 := procs[i];
      for k := 0 to NKT
        invariant forall j :: 0 <= j < procs.Length && j != i ==> procs[j] == old(procs[j])
        invariant procs[i] == p0.(kthreads := procs[i].kthreads) && |procs[i].kthreads| == NKT
        invariant forall m :: 0 <= m < k ==> procs[i].kthreads[m] == WakeThread(p0.kthreads[m], ThreadAt(i, m) != me, chan)
        invariant forall m :: k <= m < NKT ==> procs[i].kthreads[m] == p0.kthreads[m]
      {
        if ThreadAt(i, k) != me {
          var t := procs[i].kthreads[k];
          if t.channel == chan && t.tstate == KtSleeping {
            procs[i] := SetThread(procs[i], k, t.(tstate := KtRunnable));
          }
        }
      }
      assert procs[i] == WakeProc(p0, i, chan, me);
    }

    /** reparent(me) run by thread `cur`: each child of slot `me` is handed
        to init, waking init each time. */
    method Reparent(me: nat, cur: TRef)
      requires procs.Length == NPROC && AllShaped(procs[..])
      modifies procs
      ensures procs[..] == ReparentSpec(old(procs[..]), me, initproc, cur)
    {
      ghost var s0 := procs[..];
      for pp := 0 to NPROC
        invariant AllShaped(procs[..])
        invariant procs[..] == if HasChildBelow(s0, me, pp) then WakeupSpec(ReparentPrefix(s0, me, initproc, pp), ProcChanOf(initproc), cur)
                               else ReparentPrefix(s0, me, initproc, pp)
      {
        ghost var before := procs[..];
        assert procs[pp].parent == s0[pp].parent by {
          if HasChildBelow(s0, me, pp) {
            WakeupProps(ReparentPrefix(s0, me, initproc, pp), ProcChanOf(initproc), cur);
          }
        }
        if procs[pp].parent == ProcAt(me) {
          procs[pp] := procs[pp].(parent := initproc);
          ReparentStep(s0, me, initproc, cur, pp);
          assert HasChildBelow(s0, me, pp + 1);
          Wakeup(ProcChanOf(initproc), cur);
        } else {
          assert ReparentPrefix(s0, me, initproc, pp + 1) == ReparentPrefix(s0, me, initproc, pp);
          assert HasChildBelow(s0, me, pp + 1) == HasChildBelow(s0, me, pp);
        }
      }
    }

    // ----------------------------------------------------------------- exit

    /** exit(status) by thread `cur`, up to the point where it gives up the
        CPU: the drain of the other threads, the init check, and the rest. */
    method Exit(cur: Cur, status: int) returns (o: ExitOutcome)
      requires Valid() && InTable(cur) && procs[cur.p].state == ProcUsed
      modifies procs
      ensures Valid()
      ensures ExitDone(old(procs[..]), initproc, cur, status, procs[..], o)
    {
      DrainInv(procs[..], nextpid, cur);
      assert SlotInv(procs[cur.p]);
      var d := Drain(cur);
      if d.DrainBlocked? {
        return ExitBlocked(d.k);
      }
      if initproc == ProcAt(cur.p) {
        return InitExiting;
      }
      ExitFinish(cur, status);
      return Exited;
    }

    /** The thread id exit's drain loop picks: that of the first thread slot
        other than the caller's. */
    method FirstOtherTid(cur: Cur) returns (killTid: int)
      requires procs.Length == NPROC && InTable(cur) && Shaped(procs[cur.p])
      ensures killTid == procs[cur.p].kthreads[Other(cur.k)].tid
    {
      killTid := 0;
      for kt := 0 to NKT
        invariant kt <= Other(cur.k)
      {
        if kt != cur.k {
          killTid := procs[cur.p].kthreads[kt].tid;
          return;
        }
      }
    }

    /** The drain loop at the start of exit: while the first other thread slot
        holds a positive tid, kill that thread and join it. */
    method Drain(cur: Cur) returns (d: DrainOutcome)
      requires procs.Length == NPROC && InTable(cur) && Shaped(procs[cur.p])
      modifies procs
      ensures var (q, dd) := DrainSpec(old(procs[cur.p]), cur.p, cur.k);
        d == dd && procs[..] == old(procs[..])[cur.p := q]
    {
      ghost var s0 := procs[..];
      ghost var p0 := procs[cur.p];
      DrainNeverFaults(p0, cur.p, cur.k);
      while true
        invariant Shaped(procs[cur.p])
        invariant procs[..] == s0[cur.p := procs[cur.p]]
        invariant DrainSpec(procs[cur.p], cur.p, cur.k) == DrainSpec(p0, cur.p, cur.k)
        decreases CountTids(procs[cur.p].kthreads)
      {
        var killTid := FirstOtherTid(cur);
        if killTid <= 0 {
          return Drained;
        }
        ghost var p := procs[cur.p];
        var j := KillAndJoin(cur, killTid);
        if j.JoinWouldSleep? {
          return DrainBlocked(j.k);
        }
        if !j.Joined? {
          assert false;
        }
        DrainDecreases(p, cur.p, cur.k, killTid);
      }
    }

    /** One round of exit's drain: kthread_kill(tid) then kthread_join(tid, 0). */
    method KillAndJoin(cur: Cur, tid: int) returns (j: JoinOutcome)
      requires procs.Length == NPROC && InTable(cur) && Shaped(procs[cur.p])
      modifies procs
      ensures var (q, jj) := JoinSpec(KillThreadSpec(old(procs[cur.p]), tid).0, cur.p, cur.k, tid, 0, true);
        j == jj && procs[..] == old(procs[..])[cur.p := q]
    {
      var _ := KillTidIn(cur.p, tid);
      j := JoinIn(cur, tid, 0, true);
    }

    /** The part of exit after the drain and the init check: reparent, wake
        the parent, then the process and all its thread slots become ZOMBIE. */
    method ExitFinish(cur: Cur, status: int)
      requires Valid() && InTable(cur) && procs[cur.p].state == ProcUsed && initproc != ProcAt(cur.p)
      modifies procs
      ensures Valid()
      ensures procs[..] == ExitFinishSpec(old(procs[..]), cur, status, initproc)
    {
      ghost var s0 := procs[..];
      ExitFinishProps(s0, nextpid, cur, status, initproc);
      Reparent(cur.p, CurRef(cur));
      Wakeup(ProcChanOf(procs[cur.p].parent), CurRef(cur));
      ghost var w := procs[..];
      procs[cur.p] := procs[cur.p].(exitStatus := status, state := ProcZombie);
      for k := 0 to NKT
        invariant forall j :: 0 <= j < NPROC && j != cur.p ==> procs[j] == w[j]
        invariant procs[cur.p] == w[cur.p].(exitStatus := status, state := ProcZombie, kthreads := procs[cur.p].kthreads)
        invariant |procs[cur.p].kthreads| == NKT
        invariant forall m :: 0 <= m < k ==> procs[cur.p].kthreads[m] == w[cur.p].kthreads[m].(tstate := KtZombie)
        invariant forall m :: k <= m < NKT ==> procs[cur.p].kthreads[m] == w[cur.p].kthreads[m]
      {
        procs[cur.p] := SetThread(procs[cur.p], k, procs[cur.p].kthreads[k].(tstate := KtZombie));
      }
      assert procs[cur.p] == ZombieProc(w[cur.p], status);
      assert procs[..] == w[cur.p := ZombieProc(w[cur.p], status)];
    }

    // ----------------------------------------------------------------- wait

    /** The scan of wait: the lowest ZOMBIE child of slot `me` and whether
        `me` has any child at all. */
    method ScanChildren(me: nat) returns (z: int, havekids: bool)
      requires procs.Length == NPROC
      ensures z == FirstZombieChild(procs[..], me)
      ensures z < 0 ==> havekids == HasChildBelow(procs[..], me, NPROC)
    {
      ghost var s0 := procs[..];
      havekids := false;
      for pp := 0 to NPROC
        invariant havekids == HasChildBelow(s0, me, pp)
        invariant forall j :: 0 <= j < pp ==> !(s0[j].parent == ProcAt(me) && s0[j].state == ProcZombie)
      {
        if procs[pp].parent == ProcAt(me) {
          havekids := true;
          if procs[pp].state == ProcZombie {
            return pp, true;
          }
        }
      }
      return -1, havekids;
    }

    /** One pass of wait(addr) by thread `cur`; `copyOk` is the outcome of
        the copy-out of the child's exit status. */
    method Wait(cur: Cur, addr: int, copyOk: bool) returns (o: WaitOutcome)
      requires Valid() && InTable(cur) && procs[cur.p].state == ProcUsed
      modifies procs
      ensures Valid()
      ensures (procs[..], o) == WaitSpec(old(procs[..]), cur, addr, copyOk)
    {
      WaitInv(procs[..], nextpid, cur, addr, copyOk);
      var pp, havekids := ScanChildren(cur.p);
      if pp >= 0 {
        var pid := procs[pp].pid;
        if addr != 0 && !copyOk {
          return WaitCopyFailed;
        }
        var st := procs[pp].exitStatus;
        assert SlotInv(procs[pp]);
        FreeProc(pp);
        return Reaped(pid, st);
      }
      var killed := procs[cur.p].kthreads[cur.k].tkilled;
      if killed || !havekids {
        return WaitFailed;
      }
      Sleep(cur, ProcChan(cur.p));
      return WaitWouldSleep;
    }

    // ------------------------------------------------------------ scheduling

    /** The scan of the scheduler's loop, resumed at thread slot `k0` of
        process slot `p0`: the first RUNNABLE thread of a USED process. */
    method FindRunnable(p0: nat, k0: nat) returns (t: TRef)
      requires procs.Length == NPROC && AllShaped(procs[..]) && k0 <= NKT
      ensures t == FirstRunnableFrom(procs[..], p0, k0)
    {
      ghost var s0 := procs[..];
      var p: nat, k: nat := p0, k0;
      while p < NPROC
        invariant k <= NKT
        invariant FirstRunnableFrom(s0, p, k) == FirstRunnableFrom(s0, p0, k0)
        decreases NPROC - p
      {
        if procs[p].state == ProcUsed {
          assert Shaped(s0[p]);
          while k < NKT
            invariant k <= NKT
            invariant FirstRunnableFrom(s0, p, k) == FirstRunnableFrom(s0, p0, k0)
          {
            if procs[p].kthreads[k].tstate == KtRunnable {
              return ThreadAt(p, k);
            }
            k := k + 1;
          }
        } else {
          FirstRunnableSkip(s0, p, k);
        }
        p := p + 1;
        k := 0;
      }
      return NoThread;
    }

    /** One selection of the scheduler, resuming its scan at thread slot
        `k0` of process slot `p0`: the thread found becomes RUNNING and is
        the CPU's current thread. */
    method SchedulerStep(p0: nat, k0: nat) returns (t: TRef)
      requires Valid() && k0 <= NKT
      modifies procs
      ensures Valid()
      ensures (procs[..], t) == SchedulerStepSpec(old(procs[..]), p0, k0)
    {
      SchedulerStepProps(procs[..], nextpid, p0, k0);
      t := FindRunnable(p0, k0);
      if t.ThreadAt? {
        procs[t.p] := SetThread(procs[t.p], t.k, procs[t.p].kthreads[t.k].(tstate := KtRunning));
      }
    }

    /** yield by thread `cur`: it becomes RUNNABLE before giving up the CPU. */
    method Yield(cur: Cur)
      requires Valid() && InTable(cur) && procs[cur.p].state == ProcUsed
      modifies procs
      ensures Valid()
      ensures procs[..] == UpdThread(old(procs[..]), cur, old(procs[cur.p].kthreads[cur.k]).(tstate := KtRunnable))
      ensures old(procs[cur.p].kthreads[cur.k].tstate) == KtRunning ==> AllEdges(old(procs[..]), procs[..])
    {
      UpdThreadInv(procs[..], nextpid, cur, procs[cur.p].kthreads[cur.k].(tstate := KtRunnable));
      if procs[cur.p].kthreads[cur.k].tstate == KtRunning {
        UpdThreadEdges(procs[..], cur, procs[cur.p].kthreads[cur.k].(tstate := KtRunnable));
      }
      procs[cur.p] := SetThread(procs[cur.p], cur.k, procs[cur.p].kthreads[cur.k].(tstate := KtRunnable));
    }

    /** sleep(chan) by thread `cur`, up to the switch to the scheduler. */
    method Sleep(cur: Cur, chan: Chan)
      requires Valid() && InTable(cur) && procs[cur.p].state == ProcUsed
      modifies procs
      ensures Valid()
      ensures procs[..] == UpdThread(old(procs[..]), cur, SleepOn(old(procs[cur.p].kthreads[cur.k]), chan))
      ensures old(procs[cur.p].kthreads[cur.k].tstate) == KtRunning ==> AllEdges(old(procs[..]), procs[..])
    {
      UpdThreadInv(procs[..], nextpid, cur, SleepOn(procs[cur.p].kthreads[cur.k], chan));
      if procs[cur.p].kthreads[cur.k].tstate == KtRunning {
        UpdThreadEdges(procs[..], cur, SleepOn(procs[cur.p].kthreads[cur.k], chan));
      }
      var t := procs[cur.p].kthreads[cur.k];
      t := t.(channel := chan);
      t := t.(tstate := KtSleeping);
      procs[cur.p] := SetThread(procs[cur.p], cur.k, t);
    }

    /** The rest of sleep once the thread runs again: the channel is cleared. */
    method SleepReturn(cur: Cur)
      requires Valid() && InTable(cur) && procs[cur.p].state == ProcUsed
      modifies procs
      ensures Valid()
      ensures procs[..] == UpdThread(old(procs[..]), cur, old(procs[cur.p].kthreads[cur.k]).(channel := NoChan))
    {
      UpdThreadInv(procs[..], nextpid, cur, procs[cur.p].kthreads[cur.k].(channel := NoChan));
      procs[cur.p] := SetThread(procs[cur.p], cur.k, procs[cur.p].kthreads[cur.k].(channel := NoChan));
    }

    // ----------------------------------------------------------------- kill

    /** The scan of kill: the first slot holding `pid`, or -1. */
    method FindPid(pid: int) returns (i: int)
      requires procs.Length == NPROC
      ensures i == FirstWithPid(procs[..], pid)
    {
      for p := 0 to NPROC
        invariant forall j :: 0 <= j < p ==> procs[j].pid != pid
      {
        if procs[p].pid == pid {
          return p;
        }
      }
      return -1;
    }

    /** The body of kill on the slot found: the process and each of its
        threads are marked killed, and sleeping threads are woken. */
    method KillSlot(i: nat)
      requires i < procs.Length && Shaped(procs[i])
      modifies procs
      ensures procs[..] == old(procs[..])[i := KillProc(old(procs[i]))]
    {
      ghost var p0 := procs[i];
      procs[i] := procs[i].(killed := true);
      for kt := 0 to NKT
        invariant forall j :: 0 <= j < procs.Length && j != i ==> procs[j] == old(procs[j])
        invariant procs[i] == p0.(killed := true, kthreads := procs[i].kthreads) && |procs[i].kthreads| == NKT
        invariant forall m :: 0 <= m < kt ==> procs[i].kthreads[m] == KillOne(p0.kthreads[m])
        invariant forall m :: kt <= m < NKT ==> procs[i].kthreads[m] == p0.kthreads[m]
      {
        var t := procs[i].kthreads[kt].(tkilled := true);
        if t.tstate == KtSleeping {
          t := t.(tstate := KtRunnable);
        }
        procs[i] := SetThread(procs[i], kt, t);
      }
      assert procs[i] == KillProc(p0);
    }

    /** kill(pid): returns 0 after marking the first slot with that pid, or
        -1 when there is none. */
    method Kill(pid: int) returns (r: int)
      requires Valid()
      modifies procs
      ensures Valid()
      ensures (procs[..], r) == KillSpec(old(procs[..]), pid)
    {
      KillInv(procs[..], nextpid, pid);
      var i := FindPid(pid);
      if i < 0 {
        return -1;
      }
      assert SlotInv(procs[i]);
      KillSlot(i);
      return 0;
    }

    /** setkilled: marks the process in slot `i` killed. */
    method SetKilled(i: nat)
      requires Valid() && i < NPROC
      modifies procs
      ensures Valid()
      ensures procs[..] == old(procs[..])[i := old(procs[i]).(killed := true)]
    {
      procs[i] := procs[i].(killed := true);
      assert SlotInv(procs[i]);
      TableInvPointwise(old(procs[..]), procs[..], nextpid);
    }

    /** killed: the process in slot `i` has been marked killed. */
    method Killed(i: nat) returns (k: bool)
      requires Valid() && i < NPROC
      ensures k <==> procs[i].killed
    {
      k := procs[i].killed;
    }

    // ------------------------------------------------------ kernel threads

    /** kthread_create by thread `cur`: returns the new thread's tid, or -1. */
    method KThreadCreate(cur: Cur, startFunc: nat, stack: nat, stackSize: int) returns (tid: int)
      requires Valid() && InTable(cur) && procs[cur.p].state == ProcUsed
      modifies procs
      ensures Valid()
      ensures var (r, t) := ThreadCreateSpec(old(procs[cur.p]), cur.p, startFunc, stack, stackSize);
        tid == t && procs[..] == old(procs[..])[cur.p := r]
    {
      ThreadCreateInv(procs[..], nextpid, cur, startFunc, stack, stackSize);
      assert SlotInv(procs[cur.p]);
      tid := CreateIn(cur.p, startFunc, stack, stackSize);
    }

    /** The body of kthread_create in process slot `pi`: allocate a thread
        slot, make it RUNNABLE and point its saved user registers at the
        entry point and the top of the given stack. */
    method CreateIn(pi: nat, startFunc: nat, stack: nat, stackSize: int) returns (tid: int)
      requires pi < procs.Length && Shaped(procs[pi])
      modifies procs
      ensures var (r, t) := ThreadCreateSpec(old(procs[pi]), pi, startFunc, stack, stackSize);
        tid == t && procs[..] == old(procs[..])[pi := r]
    {
      ghost var spec := ThreadCreateSpec(procs[pi], pi, startFunc, stack, stackSize);
      ghost var alloc := AllocKThreadSpec(procs[pi], pi);
      var k := AllocKThread(procs, pi);
      assert procs[pi] == alloc.0 && k == alloc.1;
      if k < 0 {
        return -1;
      }
      var p := procs[pi];
      p := SetThread(p, k, p.kthreads[k].(tstate := KtRunnable));
      tid := p.kthreads[k].tid;
      p := p.(trapframes := p.trapframes[k := p.trapframes[k].(epc := startFunc)]);
      p := p.(trapframes := p.trapframes[k := p.trapframes[k].(sp := (stack + stackSize) % U64)]);
      assert p == spec.0 && tid == spec.1;
      procs[pi] := p;
    }

    /** kthread_id: the tid of the calling thread; it is 0 or a tid the
        process's counter handed out. */
    method KThreadId(cur: Cur) returns (tid: int)
      requires Valid() && InTable(cur)
      ensures tid == procs[cur.p].kthreads[cur.k].tid
      ensures tid == 0 || 0 < tid < procs[cur.p].threadIdCounter
    {
      tid := procs[cur.p].kthreads[cur.k].tid;
    }

    /** The scan of kthread_kill and kthread_join: the first thread slot of
        process slot `pi` holding `ktid`, or -1. */
    method FindTid(pi: nat, ktid: int) returns (k: int)
      requires pi < procs.Length && Shaped(procs[pi])
      ensures k == FirstWithTid(procs[pi].kthreads, ktid)
    {
      for kt := 0 to NKT
        invariant forall j :: 0 <= j < kt ==> procs[pi].kthreads[j].tid != ktid
      {
        if procs[pi].kthreads[kt].tid == ktid {
          return kt;
        }
      }
      return -1;
    }

    /** kthread_kill(ktid) by thread `cur`: returns 0 after marking the first
        thread slot of the caller's process with that tid, or -1. */
    method KThreadKill(cur: Cur, ktid: int) returns (r: int)
      requires Valid() && InTable(cur)
      modifies procs
      ensures Valid()
      ensures var (q, res) := KillThreadSpec(old(procs[cur.p]), ktid);
        r == res && procs[..] == old(procs[..])[cur.p := q]
    {
      KillThreadInv(procs[..], nextpid, cur.p, ktid);
      assert SlotInv(procs[cur.p]);
      r := KillTidIn(cur.p, ktid);
    }

    /** The body of kthread_kill in process slot `pi`. */
    method KillTidIn(pi: nat, ktid: int) returns (r: int)
      requires pi < procs.Length && Shaped(procs[pi])
      modifies procs
      ensures var (q, res) := KillThreadSpec(old(procs[pi]), ktid);
        r == res && procs[..] == old(procs[..])[pi := q]
    {
      var k := FindTid(pi, ktid);
      if k < 0 {
        return -1;
      }
      var t := procs[pi].kthreads[k].(tkilled := true);
      if t.tstate == KtSleeping {
        t := t.(tstate := KtRunnable);
      }
      procs[pi] := SetThread(procs[pi], k, t);
      return 0;
    }

    /** One pass of kthread_join(ktid, status) by thread `cur`; `copyOk` is
        the outcome of the copy-out of the exit status. */
    method KThreadJoin(cur: Cur, ktid: int, status: int, copyOk: bool) returns (o: JoinOutcome)
      requires Valid() && InTable(cur) && procs[cur.p].state == ProcUsed
      modifies procs
      ensures Valid()
      ensures var (q, res) := JoinSpec(old(procs[cur.p]), cur.p, cur.k, ktid, status, copyOk);
        o == res && procs[..] == old(procs[..])[cur.p := q]
    {
      JoinInv(procs[..], nextpid, cur, ktid, status, copyOk);
      assert SlotInv(procs[cur.p]);
      o := JoinIn(cur, ktid, status, copyOk);
    }

    /** The body of one pass of kthread_join by thread `cur`. */
    method JoinIn(cur: Cur, ktid: int, status: int, copyOk: bool) returns (o: JoinOutcome)
      requires procs.Length == NPROC && InTable(cur) && Shaped(procs[cur.p])
      modifies procs
      ensures var (q, res) := JoinSpec(old(procs[cur.p]), cur.p, cur.k, ktid, status, copyOk);
        o == res && procs[..] == old(procs[..])[cur.p := q]
    {
      var k := FindTid(cur.p, ktid);
      if k < 0 {
        return JoinNotFound;
      }
      if procs[cur.p].kthreads[k].tstate == KtZombie {
        if status != 0 && !copyOk {
          return JoinCopyFailed;
        }
        var st := procs[cur.p].kthreads[k].texitStatus;
        FreeKThread(procs, cur.p, k);
        return Joined(st);
      }
      var t := procs[cur.p].kthreads[cur.k];
      procs[cur.p] := SetThread(procs[cur.p], cur.k, SleepOn(t, ThreadChan(cur.p, k)));
      return JoinWouldSleep(k);
    }

    /** The rest of kthread_join once the caller, asleep on slot `k`, runs
        again: the channel is cleared and the join gives up (returns -1) when
        the joined slot, not the caller, is marked killed. */
    method KThreadJoinAfterWake(cur: Cur, k: nat) returns (giveUp: bool)
      requires Valid() && InTable(cur) && procs[cur.p].state == ProcUsed && k < NKT
      modifies procs
      ensures Valid()
      ensures giveUp <==> old(procs[cur.p].kthreads[k].tkilled)
      ensures procs[..] == UpdThread(old(procs[..]), cur, old(procs[cur.p].kthreads[cur.k]).(channel := NoChan))
    {
      SleepReturn(cur);
      giveUp := procs[cur.p].kthreads[k].tkilled;
    }

    /** The count kthread_exit makes: the thread slots of process slot `pi`
        that are USED, RUNNABLE, RUNNING or SLEEPING. */
    method CountActive(pi: nat) returns (flag: nat)
      requires pi < procs.Length && Shaped(procs[pi])
      ensures flag == ActiveCount(procs[pi].kthreads, NKT)
    {
      flag := 0;
      for kt := 0 to NKT
        invariant flag == ActiveCount(procs[pi].kthreads, kt)
      {
        var st := procs[pi].kthreads[kt].tstate;
        if st == KtRunnable || st == KtRunning || st == KtSleeping || st == KtUsed {
          flag := flag + 1;
        }
      }
    }

    /** kthread_exit(status) by thread `cur`, up to the point where it gives
        up the CPU: with other active threads only the caller becomes ZOMBIE,
        after waking the threads joined on it; the last active thread runs
        exit instead. */
    method KThreadExit(cur: Cur, status: int) returns (o: ThreadExitOutcome)
      requires Valid() && InTable(cur) && procs[cur.p].state == ProcUsed
      modifies procs
      ensures Valid()
      ensures var n := ActiveCount(old(procs[cur.p]).kthreads, NKT);
        && (n != 1 ==> o == ThreadZombie && procs[..] == ThreadExitSpec(old(procs[..]), cur, status))
        && (n == 1 ==> o.ProcessExit? && ExitDone(old(procs[..]), initproc, cur, status, procs[..], o.o))
    {
      assert SlotInv(procs[cur.p]);
      var flag := CountActive(cur.p);
      if flag != 1 {
        ZombieSelf(cur, status);
        return ThreadZombie;
      }
      var e := Exit(cur, status);
      return ProcessExit(e);
    }

    /** The branch of kthread_exit taken while other threads are active:
        wake the threads sleeping on the caller, store the status, become
        ZOMBIE. */
    method ZombieSelf(cur: Cur, status: int)
      requires Valid() && InTable(cur) && procs[cur.p].state == ProcUsed
      modifies procs
      ensures Valid()
      ensures procs[..] == ThreadExitSpec(old(procs[..]), cur, status)
    {
      ghost var s0 := procs[..];
      var c := ThreadChan(cur.p, cur.k);
      WakeupInv(s0, nextpid, c, CurRef(cur));
      WakeupProps(s0, c, CurRef(cur));
      Wakeup(c, CurRef(cur));
      ghost var w := procs[..];
      var t := procs[cur.p].kthreads[cur.k];
      t := t.(texitStatus := status);
      t := t.(tstate := KtZombie);
      UpdThreadInv(w, nextpid, cur, t);
      procs[cur.p] := SetThread(procs[cur.p], cur.k, t);
    }
  }
}

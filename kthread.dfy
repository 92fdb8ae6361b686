/** The kernel-thread slots of one process: boot-time wiring, allocation of a
    slot and of a thread id, release of a slot, and trapframe placement. The
    operations act on the global process table `procs`, naming a process by
    its index. */
module KThreads {
  import opened ProcTypes

  /** get_kthread_trapframe: the address of the trapframe of thread slot
      `k` is the k-th record of the process's trapframe page. */
  function TrapframeAddr(base: int, k: nat): int
  {
    base + k * TRAPFRAME_SIZE
  }

  /** Distinct slots of one process get distinct trapframes, and all NKT of
      them fit in the single trapframe page. */
  lemma TrapframeAddrSeparated(base: int, k1: nat, k2: nat)
    requires k1 < k2 < NKT
    ensures TrapframeAddr(base, k2) - TrapframeAddr(base, k1) >= TRAPFRAME_SIZE
    ensures base <= TrapframeAddr(base, k1) && TrapframeAddr(base, k2) + TRAPFRAME_SIZE <= base + PGSIZE
  {
  }

  /** A thread slot as free_kthread leaves it: every field that identifies or
      schedules the thread is cleared and the state is UNUSED; the kernel
      stack and the saved context are kept. */
  function FreedThread(t: KThread): (r: KThread)
    ensures r.tstate == KtUnused && r.tid == 0 && r.channel == NoChan && !r.tkilled
    ensures r.texitStatus == 0 && r.trapframe == 0 && r.parentPcb == NoProc
    ensures r.kstack == t.kstack && r.context == t.context
  {
    t.(trapframe := 0, tid := 0, channel := NoChan, texitStatus := 0, tkilled := false,
       parentPcb := NoProc, tstate := KtUnused)
  }

  /** Thread slot `k` of process slot `pi` as kthreadinit leaves it. */
  function InitThread(t: KThread, pi: nat, k: nat): KThread
  {
    t.(tstate := KtUnused, parentPcb := ProcAt(pi), kstack := KStack(pi * NKT + k))
  }

  function KThreadInitProc(p: Proc, pi: nat): (r: Proc)
    requires Shaped(p)
    ensures Shaped(r)
  {
    p.(kthreads := seq(NKT, k requires 0 <= k < NKT => InitThread(p.kthreads[k], pi, k)))
  }

  /** After kthreadinit every thread slot of the process is UNUSED and has its
      own kernel stack: no two thread slots of the table share one. */
  lemma KThreadInitStacks(p1: Proc, pi1: nat, k1: nat, p2: Proc, pi2: nat, k2: nat)
    requires Shaped(p1) && Shaped(p2) && k1 < NKT && k2 < NKT
    requires pi1 != pi2 || k1 != k2
    ensures KThreadInitProc(p1, pi1).kthreads[k1].tstate == KtUnused
    ensures KThreadInitProc(p1, pi1).kthreads[k1].kstack != KThreadInitProc(p2, pi2).kthreads[k2].kstack
  {
    KStackInjective(pi1, k1, pi2, k2);
  }

  /** Lowest index of an UNUSED thread slot, or -1. */
  function FirstUnused(ks: seq<KThread>): (k: int)
    ensures -1 <= k < |ks|
    ensures k == -1 <==> forall j :: 0 <= j < |ks| ==> ks[j].tstate != KtUnused
    ensures k >= 0 ==> ks[k].tstate == KtUnused && forall j :: 0 <= j < k ==> ks[j].tstate != KtUnused
  {
    if ks == [] then -1
    else if ks[0].tstate == KtUnused then 0
    else var k := FirstUnused(ks[1..]); if k == -1 then -1 else k + 1
  }

  /** Lowest index of a thread slot whose tid is `tid`, or -1. */
  function FirstWithTid(ks: seq<KThread>, tid: int): (k: int)
    ensures -1 <= k < |ks|
    ensures k == -1 <==> forall j :: 0 <= j < |ks| ==> ks[j].tid != tid
    ensures k >= 0 ==> ks[k].tid == tid && forall j :: 0 <= j < k ==> ks[j].tid != tid
  {
    if ks == [] then -1
    else if ks[0].tid == tid then 0
    else var k := FirstWithTid(ks[1..], tid); if k == -1 then -1 else k + 1
  }

  /** Slot `k` after a successful allockthread: it holds the next thread id,
      belongs to process `pi`, is USED, uses the k-th trapframe and resumes in
      forkret on top of its own kernel stack. */
  function AllocatedProc(p: Proc, pi: nat, k: nat): (r: Proc)
    requires Shaped(p) && k < NKT
  {
    var t := p.kthreads[k];
    p.(threadIdCounter := p.threadIdCounter + 1,
       kthreads := p.kthreads[k := t.(trapframe := TrapframeAddr(p.baseTrapframes, k),
                                       tid := p.threadIdCounter,
                                       parentPcb := ProcAt(pi),
                                       tstate := KtUsed,
                                       context := Context(RaForkret, t.kstack + PGSIZE))])
  }

  /** allockthread on process slot `pi`: the new process record and the index
      of the slot handed out, or -1. */
  function AllocKThreadSpec(p: Proc, pi: nat): (r: (Proc, int))
    requires Shaped(p)
    ensures Shaped(r.0) && -1 <= r.1 < NKT
  {
    var k := FirstUnused(p.kthreads);
    if k < 0 then (p, -1)
    else if TrapframeAddr(p.baseTrapframes, k) == 0 then (SetThread(p, k, FreedThread(p.kthreads[k])), -1)
    else (AllocatedProc(p, pi, k), k)
  }

  /** allockthread hands out the lowest UNUSED slot with a fresh tid, or fails
      with every slot left as it was (a failed trapframe lookup resets the
      slot it found, which was UNUSED already); it keeps the tid invariant,
      and of the process record it changes only the thread slots and the
      counter. */
  lemma AllocKThreadSpecProps(p: Proc, pi: nat)
    requires Shaped(p) && TidsInv(p)
    ensures var (r, k) := AllocKThreadSpec(p, pi);
      && Shaped(r) && TidsInv(r)
      && r.(kthreads := p.kthreads, threadIdCounter := p.threadIdCounter) == p
      && (k == -1 <==> FirstUnused(p.kthreads) == -1 || TrapframeAddr(p.baseTrapframes, FirstUnused(p.kthreads)) == 0)
      && (k == -1 ==> && r.threadIdCounter == p.threadIdCounter
                      && (forall j :: 0 <= j < NKT ==> r.kthreads[j].tstate == p.kthreads[j].tstate)
                      && (forall j :: 0 <= j < NKT && j != FirstUnused(p.kthreads) ==> r.kthreads[j] == p.kthreads[j]))
      && (k >= 0 ==> && k == FirstUnused(p.kthreads)
                     && r.kthreads[k].tstate == KtUsed
                     && r.kthreads[k].tid == p.threadIdCounter
                     && r.threadIdCounter == p.threadIdCounter + 1
                     && r.kthreads[k].parentPcb == ProcAt(pi)
                     && r.kthreads[k].context == Context(RaForkret, p.kthreads[k].kstack + PGSIZE)
                     && r.kthreads[k].trapframe == TrapframeAddr(p.baseTrapframes, k)
                     && forall j :: 0 <= j < NKT && j != k ==> r.kthreads[j] == p.kthreads[j])
  {
    var k := FirstUnused(p.kthreads);
    if k >= 0 && TrapframeAddr(p.baseTrapframes, k) != 0 {
      var r := AllocatedProc(p, pi, k);
      forall k1, k2 | 0 <= k1 < NKT && 0 <= k2 < NKT && k1 != k2 && r.kthreads[k1].tid != 0
        ensures r.kthreads[k1].tid != r.kthreads[k2].tid
      {
        if k1 != k && k2 != k {
          assert r.kthreads[k1] == p.kthreads[k1] && r.kthreads[k2] == p.kthreads[k2];
        }
      }
    }
  }

  /** kthreadinit: every thread slot of process `pi` becomes UNUSED, points
      back to the process and gets its fixed kernel stack. */
  method KThreadInit(procs: array<Proc>, pi: nat)
    requires pi < procs.Length && Shaped(procs[pi])
    modifies procs
    ensures procs[..] == old(procs[..])[pi := KThreadInitProc(old(procs[pi]), pi)]
  {
    ghost var p0 := procs[pi];
    for k := 0 to NKT
      invariant forall j :: 0 <= j < procs.Length && j != pi ==> procs[j] == old(procs[j])
      invariant procs[pi] == p0.(kthreads := procs[pi].kthreads) && |procs[pi].kthreads| == NKT
      invariant forall j :: 0 <= j < k ==> procs[pi].kthreads[j] == InitThread(p0.kthreads[j], pi, j)
      invariant forall j :: k <= j < NKT ==> procs[pi].kthreads[j] == p0.kthreads[j]
    {
      var t := procs[pi].kthreads[k];
      procs[pi] := SetThread(procs[pi], k, t.(tstate := KtUnused, parentPcb := ProcAt(pi)));
      t := procs[pi].kthreads[k];
      procs[pi] := SetThread(procs[pi], k, t.(kstack := KStack(pi * NKT + k)));
    }
    assert procs[pi] == KThreadInitProc(p0, pi);
    assert procs[..] == old(procs[..])[pi := KThreadInitProc(p0, pi)];
  }

  /** allockthreadid: returns the process's thread-id counter and advances it
      by one, so ids handed out within one process lifetime never repeat. */
  method AllocKThreadId(procs: array<Proc>, pi: nat) returns (kthreadId: int)
    requires pi < procs.Length
    modifies procs
    ensures kthreadId == old(procs[pi].threadIdCounter)
    ensures procs[..] == old(procs[..])[pi := old(procs[pi]).(threadIdCounter := kthreadId + 1)]
  {
    kthreadId := procs[pi].threadIdCounter;
    procs[pi] := procs[pi].(threadIdCounter := procs[pi].threadIdCounter + 1);
  }

  /** allockthread: scans the thread slots of process `pi` for the first
      UNUSED one and sets it up; returns its index, or -1. */
  method AllocKThread(procs: array<Proc>, pi: nat) returns (k: int)
    requires pi < procs.Length && Shaped(procs[pi])
    modifies procs
    ensures var (r, kk) := AllocKThreadSpec(old(procs[pi]), pi);
      k == kk && procs[..] == old(procs[..])[pi := r]
  {
    ghost var p0 := procs[pi];
    k := 0;
    while k < NKT
      invariant 0 <= k <= NKT
      invariant forall j :: 0 <= j < k ==> p0.kthreads[j].tstate != KtUnused
      invariant procs[..] == old(procs[..])
    {
      if procs[pi].kthreads[k].tstate == KtUnused {
        break;
      }
      k := k + 1;
    }
    if k == NKT {
      return -1;
    }
    assert k == FirstUnused(p0.kthreads);
    var tf := TrapframeAddr(procs[pi].baseTrapframes, k);
    procs[pi] := SetThread(procs[pi], k, procs[pi].kthreads[k].(trapframe := tf));
    if tf == 0 {
      FreeKThread(procs, pi, k);
      assert procs[pi] == SetThread(p0, k, FreedThread(p0.kthreads[k]));
      return -1;
    }
    var tid := AllocKThreadId(procs, pi);
    var t := procs[pi].kthreads[k];
    procs[pi] := SetThread(procs[pi], k, t.(tid := tid, parentPcb := ProcAt(pi), tstate := KtUsed,
                                              context := Context(RaForkret, t.kstack + PGSIZE)));
    assert procs[pi] == AllocatedProc(p0, pi, k);
  }

  /** free_kthread: resets thread slot `k` of process `pi`. */
  method FreeKThread(procs: array<Proc>, pi: nat, k: nat)
    requires pi < procs.Length && k < |procs[pi].kthreads|
    modifies procs
    ensures procs[..] == old(procs[..])[pi := SetThread(old(procs[pi]), k, FreedThread(old(procs[pi].kthreads[k])))]
  {
    var t := procs[pi].kthreads[k];
    t := t.(trapframe := 0, tid := 0, channel := NoChan, texitStatus := 0, tkilled := false, parentPcb := NoProc);
    t := t.(tstate := KtUnused);
    procs[pi] := SetThread(procs[pi], k, t);
  }
}

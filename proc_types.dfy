/** The records of the kernel's process/thread table: one process slot per
    entry of the table, each with an embedded group of kernel-thread slots. */
module ProcTypes {

  /** Table capacities. */
  const NPROC: nat := 64
  const NKT: nat := 8

  /** Page size and the top of the kernel's virtual address space. */
  const PGSIZE: int := 4096
  const MAXVA: int := 0x40_0000_0000
  const TRAMPOLINE: int := MAXVA - PGSIZE

  /** Size in bytes of one saved user register set. */
  const TRAPFRAME_SIZE: nat := 288

  /** Virtual address of the kernel stack of stack slot `i`: stacks sit below
      the trampoline, each followed by an unmapped guard page. */
  function KStack(i: int): int
  {
    TRAMPOLINE - (i + 1) * 2 * PGSIZE
  }

  datatype ProcState = ProcUnused | ProcUsed | ProcZombie

  datatype KState = KtUnused | KtUsed | KtRunnable | KtRunning | KtSleeping | KtZombie

  /** A `struct proc *`: null, or the slot at an index of the table. */
  datatype PRef = NoProc | ProcAt(p: nat)

  /** A `struct kthread *`: null, or thread slot `k` of process slot `p`. */
  datatype TRef = NoThread | ThreadAt(p: nat, k: nat)

  /** A sleep channel, compared by value: the null channel, the address of a
      process slot, the address of a thread slot, or any other kernel address. */
  datatype Chan = NoChan | ProcChan(p: nat) | ThreadChan(p: nat, k: nat) | OtherChan(addr: nat)

  /** The channel a process pointer stands for when passed to sleep/wakeup. */
  function ProcChanOf(r: PRef): Chan
  {
    match r
    case NoProc => NoChan
    case ProcAt(p) => ProcChan(p)
  }

  /** Different process pointers name different channels, and no process
      pointer names a thread's channel: a sleeper in wait (on its process)
      and a sleeper in kthread_join (on a thread) are never confused. */
  lemma ProcChanOfDistinct(a: PRef, b: PRef)
    ensures ProcChanOf(a) == ProcChanOf(b) ==> a == b
    ensures !ProcChanOf(a).ThreadChan?
  {
  }

  /** Return addresses a saved kernel context can hold. */
  datatype RetAddr = RaZero | RaForkret

  /** The saved kernel-side context: return address and stack pointer (the
      other callee-saved registers are not modelled). */
  datatype Context = Context(ra: RetAddr, sp: int)

  /** The saved user registers that the core reads or writes. */
  datatype Trapframe = Trapframe(epc: int, sp: int, a0: int)

  /** A kernel-thread slot. `trapframe` is the address of its trapframe (0 for
      none); `parentPcb` the owning process. */
  datatype KThread = KThread(
    tstate: KState,
    tid: int,
    channel: Chan,
    tkilled: bool,
    texitStatus: int,
    trapframe: int,
    parentPcb: PRef,
    kstack: int,
    context: Context)

  /** A process slot. `baseTrapframes` is the address of the page holding the
      trapframes of all its threads (0 for none) and `trapframes` that page's
      contents, one entry per thread slot; `pagetable` is the address-space
      handle (0 for none). */
  datatype Proc = Proc(
    state: ProcState,
    pid: int,
    killed: bool,
    exitStatus: int,
    threadIdCounter: int,
    parent: PRef,
    sz: int,
    baseTrapframes: int,
    pagetable: int,
    name: string,
    kthreads: seq<KThread>,
    trapframes: seq<Trapframe>)

  /** Static storage starts zeroed. */
  const ZeroThread := KThread(KtUnused, 0, NoChan, false, 0, 0, NoProc, 0, Context(RaZero, 0))
  const ZeroTrapframe := Trapframe(0, 0, 0)
  const ZeroProc := Proc(ProcUnused, 0, false, 0, 0, NoProc, 0, 0, 0, "",
                         seq(NKT, _ => ZeroThread), seq(NKT, _ => ZeroTrapframe))

  /** The process slot `p` with thread slot `k` replaced by `t`. */
  function SetThread(p: Proc, k: nat, t: KThread): Proc
    requires k < |p.kthreads|
  {
    p.(kthreads := p.kthreads[k := t])
  }

  /** A process slot has exactly NKT thread slots and trapframes. */
  predicate Shaped(p: Proc)
  {
    |p.kthreads| == NKT && |p.trapframes| == NKT
  }

  /** Thread ids of one process: each is 0 (freed) or drawn from the counter,
      and the non-zero ones are pairwise distinct. */
  predicate TidsInv(p: Proc)
    requires Shaped(p)
  {
    && p.threadIdCounter >= 0
    && (forall k :: 0 <= k < NKT ==> p.kthreads[k].tid == 0 || 0 < p.kthreads[k].tid < p.threadIdCounter)
    && (forall k1, k2 :: 0 <= k1 < NKT && 0 <= k2 < NKT && k1 != k2 && p.kthreads[k1].tid != 0 ==>
          p.kthreads[k1].tid != p.kthreads[k2].tid)
  }

  /** An UNUSED process slot has pid 0 and every thread slot UNUSED with
      tid 0; its killed flags are left free, since kill(0) sets them. A slot
      in use has a positive pid, a thread-id counter past 0 and a trapframe
      page. */
  predicate SlotInv(p: Proc)
  {
    && Shaped(p)
    && TidsInv(p)
    && (p.state == ProcUnused <==> p.pid == 0)
    && (p.state != ProcUnused ==> p.pid > 0 && p.threadIdCounter >= 1 && p.baseTrapframes > 0)
    && (p.state == ProcUnused ==> forall k :: 0 <= k < NKT ==> p.kthreads[k].tstate == KtUnused && p.kthreads[k].tid == 0)
  }

  /** Every thread slot keeps the kernel stack kthreadinit gave it. */
  predicate StacksInv(ps: seq<Proc>)
  {
    forall i, k :: 0 <= i < |ps| && 0 <= k < |ps[i].kthreads| ==> ps[i].kthreads[k].kstack == KStack(i * NKT + k)
  }

  /** The table invariant: every slot keeps SlotInv, every pid was drawn from
      the counter, no two slots in use share a pid, and the kernel stacks are
      where kthreadinit put them. */
  predicate TableInv(ps: seq<Proc>, nextpid: int)
  {
    && |ps| == NPROC
    && nextpid >= 1
    && (forall i :: 0 <= i < NPROC ==> SlotInv(ps[i]) && ps[i].pid < nextpid)
    && (forall i, j :: 0 <= i < NPROC && 0 <= j < NPROC && i != j && ps[i].pid != 0 ==> ps[i].pid != ps[j].pid)
    && StacksInv(ps)
  }

  lemma ZeroProcInv()
    ensures SlotInv(ZeroProc) && TidsInv(ZeroProc)
  {
  }

  /** Distinct stack slots get stacks at least two pages apart, so the
      one-page stacks and their guard pages never overlap. */
  lemma KStackSeparated(i: int, j: int)
    requires i < j
    ensures KStack(i) - KStack(j) >= 2 * PGSIZE
  {
  }

  /** The stack slot of thread `k` of process `p` is `p * NKT + k`; with
      `k < NKT` this numbering is injective, so no two thread slots of the
      table share a kernel stack. */
  lemma {:induction false} KStackInjective(p1: nat, k1: nat, p2: nat, k2: nat)
    requires k1 < NKT && k2 < NKT
    ensures KStack(p1 * NKT + k1) == KStack(p2 * NKT + k2) ==> p1 == p2 && k1 == k2
  {
    if p1 < p2 {
      assert p1 * NKT + k1 < (p1 + 1) * NKT <= p2 * NKT + k2;
    } else if p2 < p1 {
      assert p2 * NKT + k2 < (p2 + 1) * NKT <= p1 * NKT + k1;
    }
  }
}

/** The user-level cooperative thread library: a fixed table of thread slots
    multiplexed on one kernel thread, with priority-based selection. */
module UThreads {

  /** Capacity of the thread table and the size of each thread's stack. */
  const MAX_UTHREADS: nat := 4
  const STACK_SIZE: nat := 4000

  datatype UState = Free | Runnable | Running

  /** The saved context: the return address the switch jumps to, and the stack
      pointer as an offset into the slot's own stack array. */
  datatype UContext = UContext(ra: int, spOffset: int)

  datatype UThread = UThread(state: UState, priority: nat, context: UContext)

  predicate IsLive(t: UThread) { t.state != Free }

  /** Number of slots that are not FREE. */
  function CountLive(s: seq<UThread>): nat
  {
    if s == [] then 0 else CountLive(s[..|s| - 1]) + (if IsLive(s[|s| - 1]) then 1 else 0)
  }

  lemma {:induction false} CountLiveUpdate(s: seq<UThread>, i: nat, t: UThread)
    requires i < |s|
    ensures CountLive(s[i := t]) + (if IsLive(s[i]) then 1 else 0)
         == CountLive(s) + (if IsLive(t) then 1 else 0)
    decreases |s|
  {
    var s' := s[i := t];
    assert s'[..|s'| - 1] == if i == |s| - 1 then s[..|s| - 1] else s[..|s| - 1][i := t];
    if i < |s| - 1 {
      CountLiveUpdate(s[..|s| - 1], i, t);
    }
  }

  lemma {:induction false} CountLiveZero(s: seq<UThread>)
    ensures CountLive(s) == 0 <==> forall j :: 0 <= j < |s| ==> !IsLive(s[j])
    decreases |s|
  {
    if s != [] {
      CountLiveZero(s[..|s| - 1]);
      assert forall j :: 0 <= j < |s| - 1 ==> s[..|s| - 1][j] == s[j];
    }
  }

  /** Lowest index of a FREE slot, or -1. */
  function FirstFree(s: seq<UThread>): (r: int)
    ensures -1 <= r < |s|
    ensures r == -1 <==> forall j :: 0 <= j < |s| ==> s[j].state != Free
    ensures r >= 0 ==> s[r].state == Free && forall j :: 0 <= j < r ==> s[j].state != Free
  {
    if s == [] then -1
    else if s[0].state == Free then 0
    else var r := FirstFree(s[1..]); if r == -1 then -1 else r + 1
  }

  predicate IsRunnable(t: UThread) { t.state == Runnable }

  /** The highest priority among RUNNABLE slots of `s[..n]`, or -1 if none. */
  function Highest(s: seq<UThread>, n: nat): int
    requires n <= |s|
  {
    if n == 0 then -1
    else if IsRunnable(s[n - 1]) && s[n - 1].priority > Highest(s, n - 1) then s[n - 1].priority
    else Highest(s, n - 1)
  }

  /** The index find_next_thread leaves in next_thread_index after examining
      `s[..n]`, starting from `dflt`: a later slot replaces the choice only if
      its priority is strictly higher. */
  function Pick(s: seq<UThread>, n: nat, dflt: int): int
    requires n <= |s|
  {
    if n == 0 then dflt
    else if IsRunnable(s[n - 1]) && s[n - 1].priority > Highest(s, n - 1) then n - 1
    else Pick(s, n - 1, dflt)
  }

  /** `r` is the lowest-index RUNNABLE slot among those of maximal priority. */
  predicate IsBestRunnable(s: seq<UThread>, n: nat, r: int)
    requires n <= |s|
  {
    && 0 <= r < n && IsRunnable(s[r])
    && (forall j :: 0 <= j < n && IsRunnable(s[j]) ==> s[j].priority <= s[r].priority)
    && (forall j :: 0 <= j < r && IsRunnable(s[j]) ==> s[j].priority < s[r].priority)
  }

  lemma {:induction false} PickIsBest(s: seq<UThread>, n: nat, dflt: int)
    requires n <= |s|
    ensures (exists j :: 0 <= j < n && IsRunnable(s[j])) ==>
              IsBestRunnable(s, n, Pick(s, n, dflt)) && Highest(s, n) == s[Pick(s, n, dflt)].priority
    ensures (forall j :: 0 <= j < n ==> !IsRunnable(s[j])) ==> Pick(s, n, dflt) == dflt && Highest(s, n) == -1
    decreases n
  {
    if n > 0 {
      PickIsBest(s, n - 1, dflt);
    }
  }

  /** The selection find_next_thread makes over the whole table. */
  function Select(s: seq<UThread>, dflt: int): int
    requires |s| == MAX_UTHREADS
  {
    Pick(s, MAX_UTHREADS, dflt)
  }

  lemma SelectSpec(s: seq<UThread>, dflt: int)
    requires |s| == MAX_UTHREADS
    ensures (exists j :: 0 <= j < |s| && IsRunnable(s[j])) ==> IsBestRunnable(s, |s|, Select(s, dflt))
    ensures (forall j :: 0 <= j < |s| ==> !IsRunnable(s[j])) ==> Select(s, dflt) == dflt
  {
    PickIsBest(s, MAX_UTHREADS, dflt);
  }

  /** Outcome of uthread_exit and uthread_start_all. */
  datatype SwitchOutcome =
    | Failed          // start_all refused: returned -1
    | SwitchedTo(i: nat)  // control passed to thread slot i
    | ProcessExit     // no thread left: the process called exit(0)
    | Returned        // exit returned to its caller without switching

  class UThreadLib {
    var threads: array<UThread>
    /** Index of curr_thread, -1 while it is the null pointer. */
    var currThread: int
    var nextThreadIndex: int
    var numOfThreads: int
    /** The static flag of uthread_start_all. */
    var started: bool

    /** The table's shape and the counting invariant: num_of_threads is the
        number of non-FREE slots. Until start_all has run, curr_thread is null
        and no slot is RUNNING. */
    ghost predicate Valid()
      reads this, threads
    {
      && threads.Length == MAX_UTHREADS
      && -1 <= currThread < MAX_UTHREADS
      && -1 <= nextThreadIndex < MAX_UTHREADS
      && numOfThreads == CountLive(threads[..])
      && (!started ==> currThread == -1 && forall j :: 0 <= j < MAX_UTHREADS ==> threads[j].state != Running)
    }

    /** While a thread runs: it is curr_thread, it is the slot last selected,
        and it is the only RUNNING slot. */
    ghost predicate Scheduled()
      reads this, threads
      requires Valid()
    {
      && 0 <= currThread
      && currThread == nextThreadIndex
      && threads[currThread].state == Running
      && forall j :: 0 <= j < MAX_UTHREADS && j != currThread ==> threads[j].state != Running
    }

    constructor ()
      ensures Valid() && fresh(threads)
      ensures currThread == -1 && nextThreadIndex == -1 && numOfThreads == 0 && !started
      ensures forall j :: 0 <= j < MAX_UTHREADS ==> threads[j].state == Free
    {
      threads := new UThread[MAX_UTHREADS](_ => UThread(Free, 0, UContext(0, 0)));
      currThread, nextThreadIndex, numOfThreads, started := -1, -1, 0, false;
      new;
      CountLiveZero(threads[..]);
    }

    /** uthread_create: the first FREE slot becomes RUNNABLE with the given
        priority, entry point and the top of its own stack. */
    method UthreadCreate(startFunc: int, priority: nat) returns (r: int)
      requires Valid()
      modifies this, threads
      ensures Valid() && threads == old(threads)
      ensures var i := FirstFree(old(threads[..]));
        if i == -1 then
          r == -1 && threads[..] == old(threads[..]) && numOfThreads == old(numOfThreads)
        else
          && r == 0
          && threads[..] == old(threads[..])[i := UThread(Runnable, priority, UContext(startFunc, STACK_SIZE - 1))]
          && numOfThreads == old(numOfThreads) + 1
      ensures currThread == old(currThread) && nextThreadIndex == old(nextThreadIndex) && started == old(started)
      ensures old(Scheduled()) ==> Scheduled()
    {
      ghost var s := threads[..];
      var i := 0;
      while i < MAX_UTHREADS
        invariant 0 <= i <= MAX_UTHREADS
        invariant forall j :: 0 <= j < i ==> s[j].state != Free
        invariant threads[..] == s && numOfThreads == old(numOfThreads)
      {
        if threads[i].state == Free {
          threads[i] := UThread(Runnable, priority, UContext(startFunc, STACK_SIZE - 1));
          numOfThreads := numOfThreads + 1;
          CountLiveUpdate(s, i, threads[i]);
          assert threads[..] == s[i := threads[i]];
          break;
        }
        i := i + 1;
      }
      if i == MAX_UTHREADS {
        return -1;
      }
      return 0;
    }

    /** find_next_thread: returns -1 when every slot is FREE; otherwise moves
        next_thread_index to the best RUNNABLE slot, if there is one, and
        returns next_thread_index (which is still -1 if no slot was ever
        selected and none is RUNNABLE). */
    method FindNextThread() returns (r: int)
      requires Valid()
      modifies this`nextThreadIndex
      ensures Valid()
      ensures nextThreadIndex == Select(threads[..], old(nextThreadIndex))
      ensures r == if forall j :: 0 <= j < MAX_UTHREADS ==> threads[j].state == Free then -1 else nextThreadIndex
      ensures (exists j :: 0 <= j < MAX_UTHREADS && IsRunnable(threads[j])) ==>
                IsBestRunnable(threads[..], MAX_UTHREADS, nextThreadIndex)
      ensures (forall j :: 0 <= j < MAX_UTHREADS ==> !IsRunnable(threads[j])) ==>
                nextThreadIndex == old(nextThreadIndex)
      ensures nextThreadIndex != old(nextThreadIndex) ==> 0 <= nextThreadIndex && IsRunnable(threads[nextThreadIndex])
    {
      var highestPriority: int := -1;
      var foundRunnable := false;
      for i := 0 to MAX_UTHREADS
        invariant -1 <= nextThreadIndex < MAX_UTHREADS
        invariant nextThreadIndex == Pick(threads[..], i, old(nextThreadIndex))
        invariant highestPriority == Highest(threads[..], i)
        invariant foundRunnable <==> exists j :: 0 <= j < i && threads[j].state != Free
      {
        if threads[i].state != Free {
          foundRunnable := true;
          if threads[i].state == Runnable && threads[i].priority > highestPriority {
            nextThreadIndex := i;
            highestPriority := threads[i].priority;
          }
        }
      }
      SelectSpec(threads[..], old(nextThreadIndex));
      if !foundRunnable {
        return -1;
      }
      return nextThreadIndex;
    }

    /** uthread_yield: switches only when the selection names a slot other than
        the previous one; the running thread becomes RUNNABLE and the selected
        one RUNNING. */
    method UthreadYield()
      requires Valid() && 0 <= currThread && threads[currThread].state != Free
      modifies this, threads
      ensures Valid() && threads == old(threads)
      ensures numOfThreads == old(numOfThreads) && started == old(started)
      ensures nextThreadIndex == Select(old(threads[..]), old(nextThreadIndex))
      ensures if nextThreadIndex == old(nextThreadIndex) then
                threads[..] == old(threads[..]) && currThread == old(currThread)
              else
                && 0 <= currThread == nextThreadIndex
                && threads[..] == old(threads[..])[old(currThread) := old(threads[currThread]).(state := Runnable)]
                                                  [currThread := old(threads[..])[currThread].(state := Running)]
      ensures old(Scheduled()) ==> Scheduled()
    {
      var prevThreadIndex := nextThreadIndex;
      var r := FindNextThread();
      if r != -1 && prevThreadIndex != nextThreadIndex {
        ghost var s := threads[..];
        threads[currThread] := threads[currThread].(state := Runnable);
        CountLiveUpdate(s, currThread, threads[currThread]);
        assert threads[..] == s[currThread := threads[currThread]];
        ghost var s1 := threads[..];
        currThread := nextThreadIndex;
        threads[currThread] := threads[currThread].(state := Running);
        CountLiveUpdate(s1, currThread, threads[currThread]);
        assert threads[..] == s1[currThread := threads[currThread]];
      } else if nextThreadIndex != prevThreadIndex {
        // A changed selection with r == -1 would need a RUNNABLE slot.
        assert false;
      }
    }

    /** uthread_exit: frees the running slot and passes control to the next
        selection; with no thread left the process exits. */
    method UthreadExit() returns (o: SwitchOutcome)
      requires Valid() && 0 <= currThread && threads[currThread].state != Free
      modifies this, threads
      ensures Valid() && threads == old(threads)
      ensures numOfThreads == old(numOfThreads) - 1 && started == old(started)
      ensures nextThreadIndex == Select(old(threads[..])[old(currThread) := old(threads[currThread]).(state := Free)], old(nextThreadIndex))
      ensures (forall j :: 0 <= j < MAX_UTHREADS ==> threads[j].state == Free) ==> o.ProcessExit?
      ensures o.ProcessExit? || o.Returned? ==>
                threads[..] == old(threads[..])[old(currThread) := old(threads[currThread]).(state := Free)]
                && currThread == old(currThread)
      ensures o.SwitchedTo? ==>
                && o.i == currThread == nextThreadIndex != old(nextThreadIndex)
                && threads[..] == old(threads[..])[old(currThread) := old(threads[currThread]).(state := Free)]
                                                  [currThread := old(threads[..])[currThread].(state := Running)]
      ensures !o.Failed?
      ensures old(Scheduled()) ==>
                && (o.ProcessExit? <==> forall j :: 0 <= j < MAX_UTHREADS ==> threads[j].state == Free)
                && !o.Returned? && (o.SwitchedTo? ==> Scheduled())
    {
      var prevThreadIndex := nextThreadIndex;
      ghost var s := threads[..];
      ghost var wasScheduled := Scheduled();
      threads[currThread] := threads[currThread].(state := Free);
      numOfThreads := numOfThreads - 1;
      CountLiveUpdate(s, currThread, threads[currThread]);
      ghost var s1 := threads[..];
      assert s1 == s[currThread := threads[currThread]];
      var funcReturn := FindNextThread();
      if wasScheduled && funcReturn != -1 {
        // Every live slot left is RUNNABLE, so the selection moves off the freed slot.
        var j :| 0 <= j < MAX_UTHREADS && threads[j].state != Free;
        assert IsRunnable(threads[j]);
      }
      if funcReturn != -1 && prevThreadIndex != nextThreadIndex {
        currThread := nextThreadIndex;
        threads[currThread] := threads[currThread].(state := Running);
        CountLiveUpdate(s1, currThread, threads[currThread]);
        assert threads[..] == s1[currThread := threads[currThread]];
        o := SwitchedTo(currThread);
      } else if funcReturn == -1 {
        o := ProcessExit;
      } else {
        o := Returned;
      }
    }

    /** uthread_set_priority: returns the running thread's previous priority. */
    method UthreadSetPriority(priority: nat) returns (previous: nat)
      requires Valid() && 0 <= currThread
      modifies threads
      ensures Valid()
      ensures previous == old(threads[currThread].priority)
      ensures threads[..] == old(threads[..])[currThread := old(threads[currThread]).(priority := priority)]
      ensures old(Scheduled()) ==> Scheduled()
    {
      previous := threads[currThread].priority;
      ghost var s := threads[..];
      threads[currThread] := threads[currThread].(priority := priority);
      CountLiveUpdate(s, currThread, threads[currThread]);
    }

    /** uthread_get_priority: the running thread's priority. */
    method UthreadGetPriority() returns (p: nat)
      requires Valid() && 0 <= currThread
      ensures p == threads[currThread].priority
    {
      p := threads[currThread].priority;
    }

    /** uthread_self: the running thread's slot index. */
    method UthreadSelf() returns (i: int)
      requires Valid()
      ensures i == currThread && -1 <= i < MAX_UTHREADS
    {
      i := currThread;
    }

    /** uthread_start_all: refuses when there is no thread or when it already
        ran; otherwise runs the best RUNNABLE thread, or exits the process. */
    method UthreadStartAll() returns (o: SwitchOutcome)
      requires Valid()
      modifies this, threads
      ensures Valid() && threads == old(threads)
      ensures old(numOfThreads) == 0 || old(started) ==>
                && o == Failed && threads[..] == old(threads[..]) && started == old(started)
                && currThread == old(currThread) && nextThreadIndex == old(nextThreadIndex)
      ensures old(numOfThreads) != 0 && !old(started) ==>
                && started && o.SwitchedTo? && Scheduled()
                && o.i == currThread == nextThreadIndex == Select(old(threads[..]), old(nextThreadIndex))
                && IsBestRunnable(old(threads[..]), MAX_UTHREADS, o.i)
                && threads[..] == old(threads[..])[o.i := old(threads[..])[o.i].(state := Running)]
    {
      if numOfThreads == 0 || started {
        return Failed;
      }
      ghost var s := threads[..];
      CountLiveZero(s);
      var j :| 0 <= j < MAX_UTHREADS && threads[j].state != Free;
      assert IsRunnable(threads[j]);
      started := true;
      var r := FindNextThread();
      if r != -1 {
        currThread := nextThreadIndex;
        threads[currThread] := threads[currThread].(state := Running);
        CountLiveUpdate(s, currThread, threads[currThread]);
        o := SwitchedTo(currThread);
        assert threads[..] == s[currThread := threads[currThread]];
      } else {
        o := ProcessExit;
      }
    }
  }
}

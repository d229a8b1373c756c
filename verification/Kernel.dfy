/**
 The parts together: the process table, memory and the terminal of one kernel.  A slot of the
 table is in use exactly when its process has an address space, every reap is one teardown, and
 the lines that readers wait for are the lines in the buffer.
 */
module Kernel {
  import opened Wrappers
  import opened PagePool
  import opened FlatCow
  import opened PageTree
  import opened MemorySpec
  import opened ProgramImage
  import opened Machine
  import EagerCopy
  import Conservation
  import opened Budget
  import opened MachineRuns
  import opened ProcessSpec
  import opened ProcessRuns
  import ProcessTable
  import Terminal

  // ----- slots and address spaces -----

  /** Init and idle run on the kernel's own tables; every other slot in use has a PML4. */
  ghost predicate Tied(s: Procs, roots: map<Pid, Frame>) {
    forall i: nat :: i in roots <==> 2 <= i < |s.q| && s.q[i].state != Ready
  }

  ghost predicate Possible(s: Procs, a: Action) {
    ProcessSpec.Shape(s) && Enabled(s, a)
  }

  ghost function Next(s: Procs, a: Action): Procs {
    if Possible(s, a) then Do(s, a) else s
  }

  /** The slot that a step frees. */
  ghost function Gone(s: Procs, a: Action): Option<nat> {
    if !Possible(s, a) then None
    else match a
    case CallWait => FindZombie(s.q, s.r, 0)
    case ResumeWait => FindZombie(s.q, s.r, 0)
    case CallWaitpid(c) => if IsZombieOf(s.q[c], s.r) then Some(c) else None
    case ResumeWaitpid =>
      var c := s.at[s.r].child;
      if c < |s.q| && IsZombieOf(s.q[c], s.r) then Some(c) else None
    case _ => None
  }

  /** The slot that a step takes. */
  ghost function Born(s: Procs, a: Action): Option<nat> {
    if a == Fork then FindReady(s.q, 0) else None
  }

  ghost predicate UsedAfter(s: Procs, s': Procs, gone: Option<nat>, born: Option<nat>) {
    && |s'.q| == |s.q|
    && forall i | 0 <= i < |s.q| ::
         s'.q[i].state != Ready <==> born == Some(i) || (s.q[i].state != Ready && gone != Some(i))
  }

  lemma BlockedUsed(s: Procs, st: Status, place: Place)
    requires ProcessSpec.Shape(s) && s.q[s.r].state == Running && st != Ready
    ensures UsedAfter(s, Blocked(s, st, place), None, None)
  {
    hide NextRunning;
  }

  lemma SleptUsed(s: Procs, n: nat)
    requires ProcessSpec.Shape(s) && s.q[s.r].state == Running
    ensures UsedAfter(s, Slept(s, n), None, None)
  {
    hide NextRunning;
  }

  lemma ReapedUsed(s: Procs, i: nat)
    requires ProcessSpec.Shape(s) && i < |s.q|
    ensures UsedAfter(s, Reaped(s, i), Some(i), None)
  {
  }

  lemma DieUsed(s: Procs, p: nat)
    requires ProcessSpec.Inv(s) && 2 <= p < |s.q| && s.q[p].state !in {Ready, Zombie}
    ensures UsedAfter(s, s.(q := Die(s.q, p)), None, None)
  {
    hide Die, Forest, Places, NoLostWakeup, SameLife, ReapedOnce;
    Parent(s, p);
    DieAt(s.q, p);
  }

  lemma ReadingUsed(s: Procs)
    requires ProcessSpec.Shape(s) && s.q[s.r].state == Running
    ensures UsedAfter(s, Reading(s), None, None)
  {
    hide NextRunning;
  }

  lemma WaitingUsed(s: Procs)
    requires ProcessSpec.Shape(s) && s.q[s.r].state == Running
    ensures UsedAfter(s, Waiting(s), FindZombie(s.q, s.r, 0), None)
  {
    hide Reaped, Blocked;
    var z := FindZombie(s.q, s.r, 0);
    if z.Some? { ReapedUsed(s, z.value); } else { BlockedUsed(s, Wait, InWait); }
  }

  lemma WaitpidUsed(s: Procs, a: Action)
    requires ProcessSpec.Shape(s) && s.q[s.r].state == Running && Enabled(s, a)
    requires a.CallWaitpid? || a == ResumeWaitpid
    ensures UsedAfter(s, Do(s, a), Gone(s, a), None)
  {
    hide Reaped, Blocked, NextRunning;
    if Gone(s, a).Some? {
      ReapedUsed(s, Gone(s, a).value);
    } else if a.CallWaitpid? {
      var c := a.child;
      BlockedUsed(s, Wait, InWaitpid(c, s.lives[c], s.q[c].ppid == s.r && s.q[c].state != Ready));
    }
  }

  /** The slots in use after a step: one more after a fork, one less after a reap. */
  lemma StepUsed(s: Procs, a: Action)
    requires ProcessSpec.Inv(s) && Enabled(s, a)
    ensures UsedAfter(s, Do(s, a), Gone(s, a), Born(s, a))
  {
    hide ProcessSpec.Inv, Die, Waiting, Reading, Blocked, Reaped, NextRunning, UsedAfter;
    InvShape(s);
    Runs(s);
    match a
    case Exit =>
      DieUsed(s, s.r);
      YieldedUsed(s, s.(q := Die(s.q, s.r)));
    case Kill(p) => DieUsed(s, p);
    case CallWait => WaitingUsed(s);
    case ResumeWait => WaitingUsed(s);
    case CallWaitpid(_) => WaitpidUsed(s, a);
    case ResumeWaitpid => WaitpidUsed(s, a);
    case CallSleep(n) => SleptUsed(s, n);
    case CallRead => ReadingUsed(s);
    case ResumeRead => ReadingUsed(s);
    case _ => RestUsed(s, a);
  }

  lemma YieldedUsed(s: Procs, t: Procs)
    requires UsedAfter(s, t, None, None) && t.r < |t.q|
    ensures UsedAfter(s, Yielded(t), None, None)
  {
    hide NextRunning;
  }

  lemma RestUsed(s: Procs, a: Action)
    requires ProcessSpec.Shape(s) && Enabled(s, a) && a in {Fork, ResumeSleep, MissLine, NewLine, Tick, Preempt}
    ensures UsedAfter(s, Do(s, a), Gone(s, a), Born(s, a))
  {
    hide NextRunning;
  }

  lemma StaysTied(s: Procs, a: Action, roots: map<Pid, Frame>, roots': map<Pid, Frame>)
    requires ProcessSpec.Inv(s) && Enabled(s, a) && Tied(s, roots)
    requires forall i: nat :: i in roots' <==>
               Born(s, a) == Some(i) || (i in roots && Gone(s, a) != Some(i))
    ensures Tied(Do(s, a), roots')
  {
    hide ProcessSpec.Inv, Do, Gone;
    InvShape(s);
    StepUsed(s, a);
    BornAbove(s, a);
  }

  /** Neither init's slot nor idle's is ever free, so a fork takes another. */
  lemma BornAbove(s: Procs, a: Action)
    requires ProcessSpec.Inv(s) && Enabled(s, a)
    ensures Born(s, a).Some? ==> 2 <= Born(s, a).value < |s.q| && s.q[Born(s, a).value].state == Ready
  {
    hide Forest, NoLostWakeup, SameLife, ReapedOnce;
  }

  lemma GoneAbove(s: Procs, a: Action)
    requires ProcessSpec.Inv(s) && Enabled(s, a)
    ensures Gone(s, a).Some? ==> 2 <= Gone(s, a).value < |s.q| && s.q[Gone(s, a).value].state != Ready
  {
    hide Forest, NoLostWakeup, SameLife, ReapedOnce;
  }

  lemma RootsAfter(v: VM, w: VM, p: Pid)
    requires Local(v, w, p)
    ensures forall i: nat | i != p :: i in w.roots <==> i in v.roots
  {
  }

  lemma GrownRoots(v: VM, w: VM, p: Pid)
    requires Local(v, w, p) && Settled(w) && p in v.roots && p in w.areas
    ensures forall i: nat :: i in w.roots <==> i in v.roots
  {
  }

  lemma SameTied(s: Procs, roots: map<Pid, Frame>, roots': map<Pid, Frame>)
    requires Tied(s, roots) && forall i: nat :: i in roots' <==> i in roots
    ensures Tied(s, roots')
  {
  }

  lemma NotYet(s: Procs, roots: map<Pid, Frame>, i: int)
    requires Tied(s, roots) && 0 <= i < |s.q| && s.q[i].state == Ready
    ensures i !in roots
  {
  }

  /** Only a reader and the Enter key change the number of lines. */
  lemma SameLines(s: Procs, a: Action)
    requires ProcessSpec.Shape(s) && Enabled(s, a) && a !in {CallRead, ResumeRead, NewLine}
    ensures Do(s, a).lines == s.lines
  {
    hide NextRunning, Die;
  }

  lemma NewLineCount(s: Procs)
    requires ProcessSpec.Shape(s)
    ensures Do(s, NewLine).lines == s.lines + 1
  {
  }

  /** A key counts a line exactly when it is Enter. */
  lemma KeyLines(b: Terminal.Buffer, c: nat)
    requires b.Valid()
    ensures Terminal.Play(b.codeMap, b.log + [Terminal.Code(c)]).lines == b.noLines + if c == 28 then 1 else 0
  {
    Terminal.PlayMore(b.codeMap, b.log, Terminal.Code(c));
  }

  /** What a reader does: the count may promise a line that the buffer does not hold. */
  ghost function ReadStep(t: Terminal.Typing, a: Action): Action
    requires Terminal.Sane(t)
  {
    if t.lines > 0 && Terminal.Result(t).None? then MissLine else a
  }

  /** Whatever the count is worth, the step that the reader makes takes from it what the buffer
      takes from its own. */
  lemma ReadLines(b: Terminal.Buffer, s: Procs, a: Action)
    requires b.Valid() && Possible(s, a) && (a == CallRead || a == ResumeRead) && s.lines == b.noLines
    requires ProcessSpec.Inv(s)
    ensures var t := Terminal.Play(b.codeMap, b.log);
            && Possible(s, ReadStep(t, a)) && Gone(s, ReadStep(t, a)).None? && Born(s, ReadStep(t, a)).None?
            && ReadStep(t, a) == (if b.noLines > 0 && Terminal.Result(t).None? then MissLine else a)
            && Do(s, ReadStep(t, a)).lines == Terminal.Play(b.codeMap, b.log + [Terminal.Read]).lines
  {
    hide Terminal.Play, Terminal.FirstLine, Terminal.Pending, NextRunning, ProcessSpec.Inv;
    Runs(s);
    Terminal.PlayMore(b.codeMap, b.log, Terminal.Read);
  }

  /** A process other than init and idle has a PML4 and a VMA list. */
  lemma HasMemory(s: Procs, v: VM, i: nat)
    requires Tied(s, v.roots) && Settled(v) && 2 <= i < |s.q| && s.q[i].state != Ready
    ensures i in v.roots && i in v.areas && v.areas[i] != []
  {
  }

  lemma StaysTiedTo(s: Procs, a: Action, roots: map<Pid, Frame>)
    requires ProcessSpec.Inv(s) && Enabled(s, a) && Tied(s, roots) && Gone(s, a).None? && Born(s, a).None?
    ensures Tied(Do(s, a), roots)
  {
    hide ProcessSpec.Inv, Do, Gone, Born, Tied;
    StaysTied(s, a, roots, roots);
  }

  lemma BootTied(roots: map<Pid, Frame>)
    requires roots.Keys == {2}
    ensures Tied(Boot(ProcessTable.MAX), roots) && Boot(ProcessTable.MAX).lines == 0
  {
  }

  class Kernel {
    const table: ProcessTable.Table
    const memory: Memory
    const terminal: Terminal.Buffer

    ghost predicate Valid()
      reads this, table, table.q, memory, memory.pool, memory.pool.list, terminal, terminal.buf
    {
      && table.Valid() && memory.Valid() && terminal.Valid()
      && Settled(memory.V())
      && Tied(table.S(), memory.roots)
      && table.lines == terminal.noLines
    }

    /** A table after boot and a memory in which only the first program, number 2, has been made. */
    constructor (memory: Memory, codeMap: Terminal.CodeMap)
      requires memory.Valid() && Settled(memory.V()) && memory.roots.Keys == {2}
      requires Terminal.GoodMap(codeMap)
      ensures Valid() && this.memory == memory && table.S() == Boot(ProcessTable.MAX) && fresh(table) && fresh(table.q)
      ensures fresh(terminal) && fresh(terminal.buf) && terminal.codeMap == codeMap && terminal.log == []
    {
      hide TreeInv, RefInv, LeavesOk, Pool.Valid, ProcessSpec.Inv, Boot, Tied, Terminal.Play;
      this.memory := memory;
      table := new ProcessTable.Table();
      terminal := new Terminal.Buffer(codeMap);
      BootTied(memory.roots);
      Terminal.NothingPlayed(codeMap);
    }

    /** One life, one address space: a process has its tables from its fork to its reaping. */
    lemma TornDownOnce(i: nat)
      requires Valid() && 2 <= i < ProcessTable.MAX
      ensures i in memory.roots <==> table.lives[i] == table.reaps[i] + 1
      ensures i !in memory.roots <==> table.lives[i] == table.reaps[i]
    {
      hide TreeInv, RefInv, LeavesOk, Forest, Places, NoLostWakeup, SameLife;
    }

    /** `fork`: a slot, and for it a copy of the caller's memory. */
    method Fork() returns (pid: int, halted: bool)
      requires Valid() && Possible(table.S(), ProcessSpec.Fork)
      modifies table, table.q, memory, memory.pool, memory.pool.list
      ensures 2 <= pid && Born(old(table.S()), ProcessSpec.Fork) == Some(pid)
      ensures Agreeable(old(memory.V()), EagerCopy.Fork(old(table.r), pid))
      ensures halted ==>
                && memory.pool.order == []
                && |old(memory.pool.order)| < Needed(old(memory.V()), EagerCopy.Fork(old(table.r), pid))
      ensures !halted ==>
                && Valid() && table.S() == Next(old(table.S()), ProcessSpec.Fork)
                && Agrees(old(memory.Now()), EagerCopy.Fork(old(table.r), pid), [], true, memory.Now())
                && Paid(old(memory.Now()), EagerCopy.Fork(old(table.r), pid), memory.Now())
    {
      hide TreeInv, RefInv, LeavesOk, Pool.Valid, ProcessSpec.Inv, Do, Local, Apply, Terminal.Play, Tied, Agrees, Fine,
        TablesOf, Paid, Needed;
      ghost var s, v := table.S(), memory.V();
      InvShape(s);
      Runs(s);
      HasMemory(s, v, s.r);
      BornAbove(s, ProcessSpec.Fork);
      pid := table.Fork();
      NotYet(s, v.roots, pid);
      halted := DoFork(memory, table.r, pid);
      if !halted {
        RootsAfter(v, memory.V(), pid);
        StaysTied(s, ProcessSpec.Fork, v.roots, memory.roots);
        SameLines(s, ProcessSpec.Fork);
      }
    }

    // Steps from here to `Tick` neither make nor reap a process, and leave memory alone.

    method Exit()
      requires Valid() && Possible(table.S(), ProcessSpec.Exit)
      modifies table, table.q
      ensures Valid() && table.S() == Next(old(table.S()), ProcessSpec.Exit)
    {
      hide TreeInv, RefInv, LeavesOk, Pool.Valid, ProcessSpec.Inv, Do, Terminal.Play, Tied;
      ghost var s := table.S();
      InvShape(s);
      StaysTiedTo(s, ProcessSpec.Exit, memory.roots);
      table.Exit();
      SameLines(s, ProcessSpec.Exit);
    }

    method Kill(pid: nat)
      requires Valid() && Possible(table.S(), ProcessSpec.Kill(pid))
      modifies table, table.q
      ensures Valid() && table.S() == Next(old(table.S()), ProcessSpec.Kill(pid))
    {
      hide TreeInv, RefInv, LeavesOk, Pool.Valid, ProcessSpec.Inv, Do, Terminal.Play, Tied;
      ghost var s := table.S();
      InvShape(s);
      StaysTiedTo(s, ProcessSpec.Kill(pid), memory.roots);
      table.Kill(pid);
      SameLines(s, ProcessSpec.Kill(pid));
    }

    method Sleep(seconds: nat)
      requires Valid() && Possible(table.S(), CallSleep(seconds))
      modifies table, table.q
      ensures Valid() && table.S() == Next(old(table.S()), CallSleep(seconds))
    {
      hide TreeInv, RefInv, LeavesOk, Pool.Valid, ProcessSpec.Inv, Do, Terminal.Play, Tied;
      ghost var s := table.S();
      StaysTiedTo(s, CallSleep(seconds), memory.roots);
      SameLines(s, CallSleep(seconds));
      table.Sleep(seconds);
    }

    method ResumeSleep()
      requires Valid() && Possible(table.S(), ProcessSpec.ResumeSleep)
      modifies table, table.q
      ensures Valid() && table.S() == Next(old(table.S()), ProcessSpec.ResumeSleep)
    {
      hide TreeInv, RefInv, LeavesOk, Pool.Valid, ProcessSpec.Inv, Do, Terminal.Play, Tied;
      ghost var s := table.S();
      StaysTiedTo(s, ProcessSpec.ResumeSleep, memory.roots);
      SameLines(s, ProcessSpec.ResumeSleep);
      table.ResumeSleep();
    }

    method Preempt()
      requires Valid() && Possible(table.S(), ProcessSpec.Preempt)
      modifies table, table.q
      ensures Valid() && table.S() == Next(old(table.S()), ProcessSpec.Preempt)
    {
      hide TreeInv, RefInv, LeavesOk, Pool.Valid, ProcessSpec.Inv, Do, Terminal.Play, Tied;
      ghost var s := table.S();
      StaysTiedTo(s, ProcessSpec.Preempt, memory.roots);
      SameLines(s, ProcessSpec.Preempt);
      table.Preempt();
    }

    method Tick()
      requires Valid() && Possible(table.S(), ProcessSpec.Tick)
      modifies table, table.q
      ensures Valid() && table.S() == Next(old(table.S()), ProcessSpec.Tick)
    {
      hide TreeInv, RefInv, LeavesOk, Pool.Valid, ProcessSpec.Inv, Do, Terminal.Play, Tied;
      ghost var s := table.S();
      StaysTiedTo(s, ProcessSpec.Tick, memory.roots);
      SameLines(s, ProcessSpec.Tick);
      table.Tick();
    }

    /** `removeProcess` for the slot that a step has freed: one teardown. */
    method TearDown(ghost s: Procs, ghost a: Action, i: nat)
      requires ProcessSpec.Inv(s) && Possible(s, a) && Gone(s, a) == Some(i) && Born(s, a).None?
      requires Tied(s, memory.roots)
      requires memory.Valid() && Settled(memory.V())
      modifies memory, memory.pool, memory.pool.list
      ensures memory.Valid() && Settled(memory.V()) && Tied(Next(s, a), memory.roots)
      ensures i !in memory.roots && Agrees(old(memory.Now()), EagerCopy.Reap(i), [], true, memory.Now())
      ensures Paid(old(memory.Now()), EagerCopy.Reap(i), memory.Now())
    {
      hide TreeInv, RefInv, LeavesOk, Pool.Valid, ProcessSpec.Inv, Do, Local, Apply, Gone, Born, Tied, Agrees, Fine,
        Paid;
      ghost var v := memory.V();
      GoneAbove(s, a);
      HasMemory(s, v, i);
      DoReap(memory, i);
      RootsAfter(v, memory.V(), i);
      StaysTied(s, a, v.roots, memory.roots);
    }

    /** One stretch of `wait`: a zombie child is reaped and its memory torn down, or the caller waits. */
    method Wait(ghost a: Action) returns (child: Option<nat>)
      requires Valid() && Possible(table.S(), a) && (a == CallWait || a == ResumeWait)
      modifies table, table.q, memory, memory.pool, memory.pool.list
      ensures Valid() && table.S() == Next(old(table.S()), a) && child == Gone(old(table.S()), a)
      ensures child.None? ==> memory.Now() == old(memory.Now())
      ensures child.Some? ==>
                && Agrees(old(memory.Now()), EagerCopy.Reap(child.value), [], true, memory.Now())
                && Paid(old(memory.Now()), EagerCopy.Reap(child.value), memory.Now())
    {
      hide TreeInv, RefInv, LeavesOk, Pool.Valid, ProcessSpec.Inv, Do, Terminal.Play, Tied, Agrees, Paid;
      ghost var s := table.S();
      InvShape(s);
      child := table.WaitScan(a);
      if child.Some? {
        TearDown(s, a, child.value);
      } else {
        StaysTiedTo(s, a, memory.roots);
      }
      SameLines(s, a);
    }

    /** A call of `waitpid`, up to the point where it waits. */
    method CallWaitpid(c: nat) returns (done: bool)
      requires c < ProcessTable.MAX && Valid() && Possible(table.S(), ProcessSpec.CallWaitpid(c))
      modifies table, table.q, memory, memory.pool, memory.pool.list
      ensures Valid() && table.S() == Next(old(table.S()), ProcessSpec.CallWaitpid(c))
      ensures done == Gone(old(table.S()), ProcessSpec.CallWaitpid(c)).Some?
      ensures !done ==> memory.Now() == old(memory.Now())
      ensures done ==>
                && Agrees(old(memory.Now()), EagerCopy.Reap(c), [], true, memory.Now())
                && Paid(old(memory.Now()), EagerCopy.Reap(c), memory.Now())
    {
      hide TreeInv, RefInv, LeavesOk, Pool.Valid, ProcessSpec.Inv, Do, Terminal.Play, Tied, Agrees, Paid;
      ghost var s := table.S();
      InvShape(s);
      done := table.CallWaitpid(c);
      if done {
        TearDown(s, ProcessSpec.CallWaitpid(c), c);
      } else {
        StaysTiedTo(s, ProcessSpec.CallWaitpid(c), memory.roots);
      }
      SameLines(s, ProcessSpec.CallWaitpid(c));
    }

    /** `waitpid`, scheduled again. */
    method ResumeWaitpid(c: nat) returns (done: bool)
      requires Valid() && Possible(table.S(), ProcessSpec.ResumeWaitpid)
      requires WaitsFor(table.S(), c) && c < ProcessTable.MAX
      modifies table, table.q, memory, memory.pool, memory.pool.list
      ensures Valid() && table.S() == Next(old(table.S()), ProcessSpec.ResumeWaitpid)
      ensures done == Gone(old(table.S()), ProcessSpec.ResumeWaitpid).Some?
      ensures !done ==> memory.Now() == old(memory.Now())
      ensures done ==>
                && Agrees(old(memory.Now()), EagerCopy.Reap(c), [], true, memory.Now())
                && Paid(old(memory.Now()), EagerCopy.Reap(c), memory.Now())
    {
      hide TreeInv, RefInv, LeavesOk, Pool.Valid, ProcessSpec.Inv, Do, Terminal.Play, Tied, Agrees, Paid;
      ghost var s := table.S();
      InvShape(s);
      done := table.ResumeWaitpid(c);
      if done {
        TearDown(s, ProcessSpec.ResumeWaitpid, c);
      } else {
        StaysTiedTo(s, ProcessSpec.ResumeWaitpid, memory.roots);
      }
      SameLines(s, ProcessSpec.ResumeWaitpid);
    }

    /** A store by the running program; a segmentation fault makes it exit. */
    method Store(a: nat, x: int) returns (o: Outcome, ghost fill: seq<Page>)
      requires Valid() && Possible(table.S(), ProcessSpec.Exit)
      requires CoveredIn(memory.V(), EagerCopy.Write(table.r, a, x))
      modifies table, table.q, memory, memory.pool, memory.pool.list
      ensures Judged(old(memory.V()), old(table.r), a, o)
      ensures o == OutOfMemory ==>
                && memory.pool.order == []
                && |old(memory.pool.order)| < Needed(old(memory.V()), EagerCopy.Write(old(table.r), a, x))
      ensures o == TooManySharers ==> Crowds(memory.V(), EagerCopy.Write(table.r, a, x))
      ensures o == SegFault || o == TooManySharers ==> memory.Now() == old(memory.Now())
      ensures o == SegFault ==> Valid() && table.S() == Next(old(table.S()), ProcessSpec.Exit)
      ensures o == Done || o == TooManySharers ==> Valid() && table.S() == old(table.S())
      ensures o == SegFault || o == Done ==>
                && (Agrees(old(memory.Now()), EagerCopy.Write(old(table.r), a, x), fill, o == Done, memory.Now()) <==>
                    !OnTheEdge(old(memory.V()), EagerCopy.Write(old(table.r), a, x)))
                && Fine(old(memory.Now())) && Paid(old(memory.Now()), EagerCopy.Write(old(table.r), a, x), memory.Now())
    {
      hide TreeInv, RefInv, LeavesOk, Pool.Valid, ProcessSpec.Inv, Do, Local, Run, StoreEvents, Terminal.Play, Tied,
        CoveredIn, NoAccess, Crowds, Agrees, Fine, OnTheEdge, Needed, Paid, Judged;
      ghost var s, v := table.S(), memory.V();
      InvShape(s);
      NowFine(memory);
      ghost var es: seq<Event>;
      o, fill, es := DoWrite(memory, table.r, a, x);
      if o == SegFault {
        Exit();
      }
    }

    /** The system call behind the allocator, for the running program. */
    method Grow(n: int) returns (halted: bool, ghost fill: seq<Page>)
      requires Valid() && Possible(table.S(), ProcessSpec.Exit)
      requires CoveredIn(memory.V(), EagerCopy.Grow(table.r, n))
      modifies memory, memory.pool, memory.pool.list
      ensures halted ==>
                && memory.pool.order == []
                && |old(memory.pool.order)| < Needed(old(memory.V()), EagerCopy.Grow(table.r, n))
      ensures !halted ==>
                && Valid() && Agrees(old(memory.Now()), EagerCopy.Grow(table.r, n), fill, true, memory.Now())
                && Paid(old(memory.Now()), EagerCopy.Grow(table.r, n), memory.Now())
    {
      hide TreeInv, RefInv, LeavesOk, Pool.Valid, ProcessSpec.Inv, Do, Local, Terminal.Play, Tied, Agrees, Fine, Clear,
        AtMost, Needed, Paid;
      ghost var s, v := table.S(), memory.V();
      InvShape(s);
      halted, fill := DoGrow(memory, table.r, n);
      if !halted {
        GrownRoots(v, memory.V(), s.r);
        SameTied(s, v.roots, memory.roots);
      }
    }

    /** A key: Enter makes a line, and wakes a reader. */
    method Key(c: nat)
      requires Valid() && (Terminal.Buffer.Types(c) ==> terminal.i < Terminal.SIZE)
      modifies table, table.q, terminal, terminal.buf
      ensures Valid() && terminal.log == old(terminal.log) + [Terminal.Code(c)]
      ensures table.S() == if c == 28 then Next(old(table.S()), ProcessSpec.NewLine) else old(table.S())
    {
      hide TreeInv, RefInv, LeavesOk, Pool.Valid, ProcessSpec.Inv, Do, Terminal.Play, Tied;
      ghost var s := table.S();
      InvShape(s);
      KeyLines(terminal, c);
      terminal.Press(c);
      if c == 28 {
        StaysTiedTo(s, ProcessSpec.NewLine, memory.roots);
        table.NewLine();
        NewLineCount(s);
      }
    }

    /** One stretch of `read_input`: the reader gets the first line of the buffer; it goes to sleep if
        no line is counted; and if one is counted but not there, it stays running. */
    method Read(ghost a: Action) returns (line: Option<seq<char>>)
      requires Valid() && Possible(table.S(), a) && (a == CallRead || a == ResumeRead)
      modifies table, table.q, terminal, terminal.buf
      ensures Valid()
      ensures table.S() == Next(old(table.S()), ReadStep(old(Terminal.Play(terminal.codeMap, terminal.log)), a))
      ensures line == old(terminal.Offer()) && terminal.log == old(terminal.log) + [Terminal.Read]
    {
      hide TreeInv, RefInv, LeavesOk, Pool.Valid, ProcessSpec.Inv, Do, Terminal.Play, Terminal.Result, Tied, Enabled,
        ReadStep;
      ghost var s, step := table.S(), ReadStep(Terminal.Play(terminal.codeMap, terminal.log), a);
      InvShape(s);
      ReadLines(terminal, s, a);
      StaysTiedTo(s, step, memory.roots);
      line := terminal.ReadInput();
      if line.None? && table.lines > 0 {
        table.MissLine();
      } else {
        var got := table.ReadLine(a);
      }
    }
  }

  /** Memory with the first program in it, `pages` pages having been free before. */
  ghost predicate OneProgram(t: Conservation.Snapshot, segs: seq<Segment>, fill: seq<Page>, pages: nat) {
    && Fine(t)
    && Shown(t) == EagerCopy.EagerOp(EagerCopy.Eager(map[], map[]), EagerCopy.Spawn(2, segs), fill).0
    && Capacity(t.vm) == pages && Within(t.vm, map[2 := SpawnPages(segs, 0) + 6])
  }

  lemma FirstProgram(s: Conservation.Snapshot, t: Conservation.Snapshot, segs: seq<Segment>, fill: seq<Page>)
    requires Fine(s) && Conservation.Good(s) && s.vm.roots == map[] && s.vm.areas == map[] && s.vm.leaves == map[]
    requires Agrees(s, EagerCopy.Spawn(2, segs), fill, true, t) && Paid(s, EagerCopy.Spawn(2, segs), t)
    ensures OneProgram(t, segs, fill, |s.vm.free|)
  {
    hide Fine, Shown, Conservation.Good, Capacity, Weight, EagerCopy.EagerOp, SpawnPages;
    NobodyYet(s);
    AllFree(s);
    assert Within(s.vm, map[]);
    assert map[][2 := SpawnPages(segs, 0) + 6] == map[2 := SpawnPages(segs, 0) + 6];
  }

  /** From memory after boot to the first program. */
  method Start(pool: Pool, kernelHalf: Frame, tables: seq<PageTree.Table>, bytes: seq<Page>, segs: seq<Segment>,
               codeMap: Terminal.CodeMap) returns (k: Option<Kernel>, ghost fill: seq<Page>)
    requires pool.Valid() && |tables| == |bytes| == pool.list.Length
    requires forall f | 0 <= f < |tables| && pool.list[f].free :: pool.Managed(f)
    requires forall f | 0 <= f < |tables| :: |tables[f]| == 512 && |bytes[f]| == 4096
    requires GoodImage(segs) && Terminal.GoodMap(codeMap)
    modifies pool, pool.list
    ensures k.None? ==> pool.order == [] && |old(pool.order)| < SpawnPages(segs, 0) + 6
    ensures k.Some? ==>
              && k.value.Valid() && k.value.table.S() == Boot(ProcessTable.MAX)
              && k.value.terminal.log == [] && k.value.terminal.codeMap == codeMap
              && OneProgram(k.value.memory.Now(), segs, fill, |old(pool.order)|)
    ensures k.Some? ==>
              && fresh(k.value) && fresh(k.value.table) && fresh(k.value.table.q) && fresh(k.value.memory)
              && fresh(k.value.terminal) && fresh(k.value.terminal.buf) && k.value.memory.pool == pool
  {
    hide TreeInv, RefInv, LeavesOk, Pool.Valid, Pool.Managed, Local, GoodImage, SpawnPages, AtMost, Fine, Boot, Agrees,
      Paid, OneProgram, Conservation.Good;
    var m := new Memory(pool, kernelHalf, tables, bytes);
    ghost var v, s := m.V(), m.Now();
    NowFine(m);
    m.GoodNow();
    var halted;
    halted, fill := DoSpawn(m, 2, segs);
    if halted {
      return None, fill;
    }
    RootsAfter(v, m.V(), 2);
    assert m.roots.Keys == {2};
    ghost var t := m.Now();
    FirstProgram(s, t, segs, fill);
    var kernel := new Kernel(m, codeMap);
    assert m.Now() == t;
    return Some(kernel), fill;
  }
}

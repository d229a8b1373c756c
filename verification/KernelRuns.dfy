/**
 Whole runs of the kernel.  The reference system next to it has the step system of the process
 table, memory in which every process owns its pages outright, and a log of what happened at the
 terminal.  Every sequence of system calls, user stores and keys takes the kernel and the
 reference system to the same place.
 */
module KernelRuns {
  import opened Wrappers
  import opened PagePool
  import opened FlatCow
  import opened PageTree
  import opened Conservation
  import opened ProgramImage
  import opened EagerCopy
  import opened Budget
  import opened Machine
  import opened MachineRuns
  import opened Kernel
  import ProcessSpec
  import ProcessTable
  import ProcessRuns
  import Terminal

  /** What happens next: a step of the running process (`child` is the slot that `waitpid` goes on
      waiting for), a store or heap growth by it, or a key. */
  datatype Call =
    | Step(action: ProcessSpec.Action, child: nat)
    | Store(address: nat, value: int)
    | More(size: int)
    | Key(code: nat)

  /** The reference system. */
  datatype System = System(procs: ProcessSpec.Procs, mem: Eager, log: seq<Terminal.Input>)

  ghost predicate IsRead(a: ProcessSpec.Action) { a == ProcessSpec.CallRead || a == ProcessSpec.ResumeRead }

  /** The step of the process table: what a reader does depends on the buffer too. */
  ghost function StepOf(m: Terminal.CodeMap, log: seq<Terminal.Input>, a: ProcessSpec.Action): ProcessSpec.Action
    requires Terminal.GoodMap(m)
  {
    if IsRead(a) then ReadStep(Terminal.Play(m, log), a) else a
  }

  /** What a call does to memory, if anything. */
  ghost function OpOf(s: ProcessSpec.Procs, call: Call): Option<Op> {
    match call
    case Step(a, _) =>
      if Born(s, a).Some? then Some(Fork(s.r, Born(s, a).value))
      else if Gone(s, a).Some? then Some(Reap(Gone(s, a).value))
      else None
    case Store(a, x) => Some(Write(s.r, a, x))
    case More(n) => Some(Grow(s.r, n))
    case Key(_) => None
  }

  ghost function MemAfter(y: System, call: Call, fill: seq<Page>): (Eager, bool) {
    match OpOf(y.procs, call)
    case None => (y.mem, true)
    case Some(op) => EagerOp(y.mem, op, fill)
  }

  /** A store that is refused ends the program. */
  ghost function ProcsAfter(m: Terminal.CodeMap, y: System, call: Call, made: bool): ProcessSpec.Procs
    requires Terminal.GoodMap(m)
  {
    match call
    case Step(a, _) => Next(y.procs, StepOf(m, y.log, a))
    case Store(_, _) => if made then y.procs else Next(y.procs, ProcessSpec.Exit)
    case More(_) => y.procs
    case Key(c) => if c == 28 then Next(y.procs, ProcessSpec.NewLine) else y.procs
  }

  ghost function LogAfter(log: seq<Terminal.Input>, call: Call): seq<Terminal.Input> {
    match call
    case Step(a, _) => if IsRead(a) then log + [Terminal.Read] else log
    case Key(c) => log + [Terminal.Code(c)]
    case _ => log
  }

  ghost function Reference(m: Terminal.CodeMap, y: System, call: Call, fill: seq<Page>): System
    requires Terminal.GoodMap(m)
  {
    System(ProcsAfter(m, y, call, MemAfter(y, call, fill).1), MemAfter(y, call, fill).0, LogAfter(y.log, call))
  }

  ghost function RunReference(m: Terminal.CodeMap, y: System, calls: seq<Call>, fills: seq<seq<Page>>): System
    requires Terminal.GoodMap(m) && |fills| == |calls|
  {
    if calls == [] then y
    else
      var n := |calls| - 1;
      Reference(m, RunReference(m, y, calls[..n], fills[..n]), calls[n], fills[n])
  }

  /** What may happen: a step that the process table allows, a store or growth by a program that is
      running, any key. */
  ghost predicate Legal(s: ProcessSpec.Procs, call: Call) {
    match call
    case Step(a, c) =>
      && Possible(s, a) && a != ProcessSpec.NewLine && a != ProcessSpec.MissLine
      && (a == ProcessSpec.ResumeWaitpid ==> ProcessSpec.WaitsFor(s, c) && c < |s.q|)
    case Store(_, _) => Possible(s, ProcessSpec.Exit)
    case More(_) => Possible(s, ProcessSpec.Exit)
    case Key(_) => true
  }

  /** Calls that may happen one after the other, whatever new pages hold. */
  ghost predicate Schedule(m: Terminal.CodeMap, y: System, calls: seq<Call>)
    requires Terminal.GoodMap(m)
    decreases |calls|
  {
    calls == [] ||
    (Legal(y.procs, calls[0]) && forall fill: seq<Page> :: Schedule(m, Reference(m, y, calls[0], fill), calls[1..]))
  }

  // ----- bookings -----

  ghost function BookCall(y: System, sz: Sizes, call: Call): Sizes {
    match OpOf(y.procs, call)
    case None => sz
    case Some(op) => Booked(y.mem, sz, op)
  }

  /** The pages booked for each process after a run of the reference system. */
  ghost function BookCalls(m: Terminal.CodeMap, y: System, sz: Sizes, calls: seq<Call>, fills: seq<seq<Page>>): Sizes
    requires Terminal.GoodMap(m) && |fills| == |calls|
  {
    if calls == [] then sz
    else
      var n := |calls| - 1;
      BookCall(RunReference(m, y, calls[..n], fills[..n]), BookCalls(m, y, sz, calls[..n], fills[..n]), calls[n])
  }

  lemma CallsMore(m: Terminal.CodeMap, y: System, sz: Sizes, calls: seq<Call>, fills: seq<seq<Page>>, call: Call,
                  fill: seq<Page>)
    requires Terminal.GoodMap(m) && |fills| == |calls|
    ensures RunReference(m, y, calls + [call], fills + [fill]) ==
            Reference(m, RunReference(m, y, calls, fills), call, fill)
    ensures BookCalls(m, y, sz, calls + [call], fills + [fill]) ==
            BookCall(RunReference(m, y, calls, fills), BookCalls(m, y, sz, calls, fills), call)
  {
    hide Reference, BookCall;
    assert (calls + [call])[..|calls|] == calls && (fills + [fill])[..|calls|] == fills;
  }

  // ----- one call on the kernel -----

  /** The kernel seen as the reference system. */
  ghost function Sys(k: Kernel): System
    reads k, k.table, k.table.q, k.memory, k.memory.pool, k.memory.pool.list, k.terminal, k.terminal.buf
    requires k.Valid()
  {
    NowFine(k.memory);
    System(k.table.S(), Shown(k.memory.Now()), k.terminal.log)
  }

  /** How a call ends: made; not one that both systems can make alike; no room for a character; or
      the kernel halts. */
  datatype Ending = Made | Outside | Full | Halted

  /** No page has leaked, and each process holds no more than is booked for it. */
  ghost predicate PaidCall(s: Snapshot, y: System, call: Call, t: Snapshot) {
    && Capacity(t.vm) == Capacity(s.vm)
    && forall sz | Within(s.vm, sz) :: Within(t.vm, BookCall(y, sz, call))
  }

  /** A call takes the kernel, with memory `s`, where it takes the reference system. */
  ghost predicate CallMade(m: Terminal.CodeMap, y: System, s: Snapshot, call: Call, fill: seq<Page>, y': System,
                           t: Snapshot)
    requires Terminal.GoodMap(m)
  {
    y' == Reference(m, y, call, fill) && PaidCall(s, y, call, t)
  }

  /** Why a call was not made, with memory at `s` before it and at `t` after it. */
  ghost predicate Stopped(s: Snapshot, p: ProcessSpec.Procs, call: Call, e: Ending, i: nat, t: Snapshot) {
    match e
    case Made => false
    case Outside => OpOf(p, call).Some? && !Agreeable(s.vm, OpOf(p, call).value)
    case Full => call.Key? && Terminal.Buffer.Types(call.code) && i == Terminal.SIZE
    case Halted =>
      && OpOf(p, call).Some? && Agreeable(s.vm, OpOf(p, call).value)
      && (|| (t == s && Crowds(s.vm, OpOf(p, call).value))
          || (t.vm.free == [] && |s.vm.free| < Needed(s.vm, OpOf(p, call).value)))
  }

  /** A call that is an operation on memory. */
  lemma OpMade(m: Terminal.CodeMap, y: System, s: Snapshot, call: Call, op: Op, fill: seq<Page>, made: bool,
               t: Snapshot)
    requires Terminal.GoodMap(m) && OpOf(y.procs, call) == Some(op) && Fine(s) && y.mem == Shown(s)
    requires Agrees(s, op, fill, made, t) && Paid(s, op, t)
    ensures CallMade(m, y, s, call, fill, System(ProcsAfter(m, y, call, made), Shown(t), LogAfter(y.log, call)), t)
  {
    hide Fine, Shown, EagerOp, OpOf, Booked, Within, Capacity, ProcsAfter, LogAfter;
  }

  /** A call that leaves memory alone. */
  lemma QuietMade(m: Terminal.CodeMap, y: System, s: Snapshot, call: Call)
    requires Terminal.GoodMap(m) && OpOf(y.procs, call) == None && Fine(s) && y.mem == Shown(s)
    ensures CallMade(m, y, s, call, [], System(ProcsAfter(m, y, call, true), Shown(s), LogAfter(y.log, call)), s)
  {
    hide Fine, Shown, OpOf, Within, Capacity, ProcsAfter, LogAfter;
  }

  /** A step that leaves memory and the terminal alone. */
  method MakeQuiet(k: Kernel, a: ProcessSpec.Action)
    requires k.Valid() && Possible(k.table.S(), a)
    requires a in {ProcessSpec.Exit, ProcessSpec.ResumeSleep, ProcessSpec.Tick, ProcessSpec.Preempt} ||
             a.Kill? || a.CallSleep?
    modifies k.table, k.table.q
    ensures k.Valid() && k.table.S() == Next(old(k.table.S()), a)
  {
    hide TreeInv, RefInv, LeavesOk, Pool.Valid, ProcessSpec.Inv, ProcessSpec.Do, Terminal.Play, Tied;
    if a.Exit? {
      k.Exit();
    } else if a.Kill? {
      k.Kill(a.pid);
    } else if a.CallSleep? {
      k.Sleep(a.seconds);
    } else if a.ResumeSleep? {
      k.ResumeSleep();
    } else if a.Tick? {
      k.Tick();
    } else {
      k.Preempt();
    }
  }

  /** A step that may reap a child. */
  method MakeWait(k: Kernel, a: ProcessSpec.Action, c: nat)
    requires k.Valid() && Possible(k.table.S(), a)
    requires a == ProcessSpec.CallWait || a == ProcessSpec.ResumeWait || a == ProcessSpec.CallWaitpid(c) ||
             (a == ProcessSpec.ResumeWaitpid && ProcessSpec.WaitsFor(k.table.S(), c) && c < ProcessTable.MAX)
    modifies k.table, k.table.q, k.memory, k.memory.pool, k.memory.pool.list
    ensures k.Valid()
    ensures CallMade(k.terminal.codeMap, old(Sys(k)), old(k.memory.Now()), Step(a, c), [], Sys(k), k.memory.Now())
  {
    hide TreeInv, RefInv, LeavesOk, Pool.Valid, ProcessSpec.Inv, ProcessSpec.Do, Terminal.Play, Tied, Agrees, Shown,
      Fine, Gone, Paid, CallMade;
    ghost var s, y := k.memory.Now(), Sys(k);
    NowFine(k.memory);
    var child: Option<nat> := None;
    if a.CallWait? || a.ResumeWait? {
      child := k.Wait(a);
    } else {
      var done;
      if a.CallWaitpid? {
        ChildSlot(y.procs, c);
        done := k.CallWaitpid(c);
      } else {
        done := k.ResumeWaitpid(c);
      }
      GoneWaitpid(y.procs, a, c);
      child := if done then Some(c) else None;
    }
    NowFine(k.memory);
    if child.Some? {
      OpMade(k.terminal.codeMap, y, s, Step(a, c), Reap(child.value), [], true, k.memory.Now());
    } else {
      QuietMade(k.terminal.codeMap, y, s, Step(a, c));
    }
  }

  lemma ChildSlot(q: ProcessSpec.Procs, c: nat)
    requires Possible(q, ProcessSpec.CallWaitpid(c))
    ensures c < |q.q|
  {
  }

  lemma GoneWaitpid(q: ProcessSpec.Procs, a: ProcessSpec.Action, c: nat)
    requires a == ProcessSpec.CallWaitpid(c) || (a == ProcessSpec.ResumeWaitpid && ProcessSpec.WaitsFor(q, c))
    ensures Gone(q, a) == None || Gone(q, a) == Some(c)
  {
  }

  method MakeFork(k: Kernel, ghost c: nat) returns (halted: bool)
    requires k.Valid() && Possible(k.table.S(), ProcessSpec.Fork)
    modifies k.table, k.table.q, k.memory, k.memory.pool, k.memory.pool.list
    ensures halted ==>
              Stopped(old(k.memory.Now()), old(k.table.S()), Step(ProcessSpec.Fork, c), Halted, 0, k.memory.Now())
    ensures !halted ==>
              && k.Valid()
              && CallMade(k.terminal.codeMap, old(Sys(k)), old(k.memory.Now()), Step(ProcessSpec.Fork, c), [], Sys(k),
                          k.memory.Now())
  {
    hide TreeInv, RefInv, LeavesOk, Pool.Valid, ProcessSpec.Inv, ProcessSpec.Do, Terminal.Play, Tied, Agrees, Shown,
      Fine, Paid, CallMade, Needed, Agreeable, Crowds;
    ghost var s, y := k.memory.Now(), Sys(k);
    NowFine(k.memory);
    var pid;
    pid, halted := k.Fork();
    if !halted {
      NowFine(k.memory);
      OpMade(k.terminal.codeMap, y, s, Step(ProcessSpec.Fork, c), Fork(y.procs.r, pid), [], true, k.memory.Now());
    }
  }

  method MakeRead(k: Kernel, a: ProcessSpec.Action, ghost c: nat)
    requires k.Valid() && Possible(k.table.S(), a) && IsRead(a)
    modifies k.table, k.table.q, k.terminal, k.terminal.buf
    ensures k.Valid()
    ensures CallMade(k.terminal.codeMap, old(Sys(k)), old(k.memory.Now()), Step(a, c), [], Sys(k), k.memory.Now())
  {
    hide TreeInv, RefInv, LeavesOk, Pool.Valid, ProcessSpec.Inv, ProcessSpec.Do, Terminal.Play, Tied, Shown, Fine,
      ReadStep, CallMade;
    NowFine(k.memory);
    QuietMade(k.terminal.codeMap, Sys(k), k.memory.Now(), Step(a, c));
    var line := k.Read(a);
  }

  /** A step of the running process. */
  method MakeStep(k: Kernel, a: ProcessSpec.Action, c: nat) returns (halted: bool)
    requires k.Valid() && Legal(k.table.S(), Step(a, c))
    modifies k.table, k.table.q, k.memory, k.memory.pool, k.memory.pool.list, k.terminal, k.terminal.buf
    ensures halted ==> Stopped(old(k.memory.Now()), old(k.table.S()), Step(a, c), Halted, 0, k.memory.Now())
    ensures !halted ==>
              && k.Valid()
              && CallMade(k.terminal.codeMap, old(Sys(k)), old(k.memory.Now()), Step(a, c), [], Sys(k), k.memory.Now())
  {
    hide TreeInv, RefInv, LeavesOk, Pool.Valid, ProcessSpec.Inv, ProcessSpec.Do, Terminal.Play, Tied, Shown, Fine,
      CallMade, Stopped;
    halted := false;
    if a.Fork? {
      halted := MakeFork(k, c);
    } else if a.CallWait? || a.ResumeWait? || a.ResumeWaitpid? {
      MakeWait(k, a, c);
    } else if a.CallWaitpid? {
      MakeWait(k, a, a.child);
      OtherChild(a, c);
    } else if a.CallRead? || a.ResumeRead? {
      MakeRead(k, a, c);
    } else {
      NowFine(k.memory);
      QuietMade(k.terminal.codeMap, Sys(k), k.memory.Now(), Step(a, c));
      MakeQuiet(k, a);
    }
  }

  /** `child` matters to `waitpid` alone when it goes on. */
  lemma OtherChild(a: ProcessSpec.Action, c: nat)
    requires a.CallWaitpid?
    ensures forall m, y, s, fill, y', t | Terminal.GoodMap(m) ::
              CallMade(m, y, s, Step(a, a.child), fill, y', t) == CallMade(m, y, s, Step(a, c), fill, y', t)
  {
  }

  /** A store by the running program: it lands as in private memory, or both systems refuse it and
      the program is over. */
  method MakeStore(k: Kernel, a: nat, x: int) returns (e: Ending, ghost fill: seq<Page>)
    requires k.Valid() && Possible(k.table.S(), ProcessSpec.Exit)
    modifies k.table, k.table.q, k.memory, k.memory.pool, k.memory.pool.list
    ensures e == Made || e == Outside || e == Halted
    ensures e != Made ==> Stopped(old(k.memory.Now()), old(k.table.S()), Store(a, x), e, 0, k.memory.Now())
    ensures e == Outside ==> k.Valid() && Sys(k) == old(Sys(k)) && k.memory.Now() == old(k.memory.Now())
    ensures e == Made ==>
              && k.Valid()
              && CallMade(k.terminal.codeMap, old(Sys(k)), old(k.memory.Now()), Store(a, x), fill, Sys(k),
                          k.memory.Now())
  {
    hide TreeInv, RefInv, LeavesOk, Pool.Valid, ProcessSpec.Inv, ProcessSpec.Do, Terminal.Play, Tied, Shown, Fine,
      Agrees, CoveredIn, OnTheEdge, Crowds, Paid, Needed, CallMade;
    ghost var s, y := k.memory.Now(), Sys(k);
    NowFine(k.memory);
    fill := [];
    var b := CanAgree(k.memory, Write(k.table.r, a, x));
    if !b {
      return Outside, fill;
    }
    var o;
    o, fill := k.Store(a, x);
    if o == OutOfMemory || o == TooManySharers {
      return Halted, fill;
    }
    NowFine(k.memory);
    OpMade(k.terminal.codeMap, y, s, Store(a, x), Write(y.procs.r, a, x), fill, o == Done, k.memory.Now());
    e := Made;
  }

  /** Heap growth by the running program. */
  method MakeGrow(k: Kernel, n: int) returns (e: Ending, ghost fill: seq<Page>)
    requires k.Valid() && Possible(k.table.S(), ProcessSpec.Exit)
    modifies k.memory, k.memory.pool, k.memory.pool.list
    ensures e == Made || e == Outside || e == Halted
    ensures e != Made ==> Stopped(old(k.memory.Now()), old(k.table.S()), More(n), e, 0, k.memory.Now())
    ensures e == Outside ==> k.Valid() && Sys(k) == old(Sys(k)) && k.memory.Now() == old(k.memory.Now())
    ensures e == Made ==>
              && k.Valid()
              && CallMade(k.terminal.codeMap, old(Sys(k)), old(k.memory.Now()), More(n), fill, Sys(k), k.memory.Now())
  {
    hide TreeInv, RefInv, LeavesOk, Pool.Valid, ProcessSpec.Inv, ProcessSpec.Do, Terminal.Play, Tied, Shown, Fine,
      Agrees, CoveredIn, OnTheEdge, Paid, Needed, CallMade;
    ghost var s, y := k.memory.Now(), Sys(k);
    NowFine(k.memory);
    fill := [];
    var b := CanAgree(k.memory, Grow(k.table.r, n));
    if !b {
      return Outside, fill;
    }
    var halted;
    halted, fill := k.Grow(n);
    if halted {
      return Halted, fill;
    }
    NowFine(k.memory);
    OpMade(k.terminal.codeMap, y, s, More(n), Grow(y.procs.r, n), fill, true, k.memory.Now());
    e := Made;
  }

  /** Any one call: the kernel ends where the reference system does, or the call is one of the
      exceptions. */
  method MakeCall(k: Kernel, call: Call) returns (e: Ending, ghost fill: seq<Page>)
    requires k.Valid() && Legal(k.table.S(), call)
    modifies k.table, k.table.q, k.memory, k.memory.pool, k.memory.pool.list, k.terminal, k.terminal.buf
    ensures e != Made ==>
              Stopped(old(k.memory.Now()), old(k.table.S()), call, e, k.terminal.i, k.memory.Now())
    ensures e == Made ==>
              && k.Valid()
              && CallMade(k.terminal.codeMap, old(Sys(k)), old(k.memory.Now()), call, fill, Sys(k), k.memory.Now())
    ensures e == Outside || e == Full ==> k.Valid() && Sys(k) == old(Sys(k)) && k.memory.Now() == old(k.memory.Now())
  {
    hide TreeInv, RefInv, LeavesOk, Pool.Valid, ProcessSpec.Inv, ProcessSpec.Do, Terminal.Play, Tied, Shown, Fine,
      CallMade, Agreeable, Crowds, Needed, OpOf;
    fill := [];
    match call
    case Step(a, c) =>
      var halted := MakeStep(k, a, c);
      e := if halted then Halted else Made;
    case Store(a, x) => e, fill := MakeStore(k, a, x);
    case More(n) => e, fill := MakeGrow(k, n);
    case Key(c) =>
      if Terminal.Buffer.Types(c) && k.terminal.i == Terminal.SIZE {
        e := Full;
      } else {
        NowFine(k.memory);
        NoOp(k.table.S(), c);
        QuietMade(k.terminal.codeMap, Sys(k), k.memory.Now(), call);
        k.Key(c);
        e := Made;
      }
  }

  lemma NoOp(s: ProcessSpec.Procs, c: nat)
    ensures OpOf(s, Key(c)) == None
  {
  }

  // ----- whole runs -----

  lemma ScheduleStep(m: Terminal.CodeMap, y: System, calls: seq<Call>)
    requires Terminal.GoodMap(m) && Schedule(m, y, calls) && calls != []
    ensures Legal(y.procs, calls[0])
    ensures forall fill: seq<Page> :: Schedule(m, Reference(m, y, calls[0], fill), calls[1..])
  {
  }

  /** The run so far: the kernel is where the reference system is, and its memory is `t`. */
  ghost predicate Follows(m: Terminal.CodeMap, start: System, sz: Sizes, capacity: int, calls: seq<Call>,
                          fills: seq<seq<Page>>, y: System, t: Snapshot)
    requires Terminal.GoodMap(m)
  {
    && |fills| == |calls| && y == RunReference(m, start, calls, fills)
    && Fine(t) && Shown(t) == y.mem
    && Capacity(t.vm) == capacity && Within(t.vm, BookCalls(m, start, sz, calls, fills))
  }

  lemma FollowsNothing(m: Terminal.CodeMap, y: System, sz: Sizes, t: Snapshot)
    requires Terminal.GoodMap(m) && Fine(t) && Shown(t) == y.mem && Within(t.vm, sz)
    ensures Follows(m, y, sz, Capacity(t.vm), [], [], y, t)
  {
  }

  lemma FollowsMore(m: Terminal.CodeMap, start: System, sz: Sizes, capacity: int, calls: seq<Call>,
                    fills: seq<seq<Page>>, y: System, t: Snapshot, call: Call, fill: seq<Page>, y': System,
                    t': Snapshot)
    requires Terminal.GoodMap(m) && Follows(m, start, sz, capacity, calls, fills, y, t)
    requires CallMade(m, y, t, call, fill, y', t') && Fine(t') && Shown(t') == y'.mem
    ensures Follows(m, start, sz, capacity, calls + [call], fills + [fill], y', t')
  {
    hide Fine, Shown, Reference, RunReference, BookCall, BookCalls, Within, Capacity;
    CallsMore(m, start, sz, calls, fills, call, fill);
  }

  /** The pages that there are do not cover the bookings with one call more. */
  ghost predicate TooMuchFor(capacity: int, y: System, sz: Sizes, call: Call) {
    capacity < Total(BookCall(y, sz, call))
  }

  /** Pages run out only where memory without sharing would not have had room either. */
  lemma HaltedTooMuch(m: Terminal.CodeMap, start: System, sz: Sizes, capacity: int, calls: seq<Call>,
                      fills: seq<seq<Page>>, y: System, t: Snapshot, call: Call, op: Op)
    requires Terminal.GoodMap(m) && Follows(m, start, sz, capacity, calls, fills, y, t)
    requires OpOf(y.procs, call) == Some(op) && Agreeable(t.vm, op) && |t.vm.free| < Needed(t.vm, op)
    requires Good(t) && Settled(t.vm)
    ensures TooMuchFor(capacity, y, BookCalls(m, start, sz, calls, fills), call)
  {
    hide Fine, Shown, RunReference, BookCalls, Within, Capacity, Good, Settled, CoveredIn, Needed, Booked, Total, OpOf;
    Overbooked(t, op, BookCalls(m, start, sz, calls, fills));
  }

  /** How a run ends: with all calls made; at a call on memory that is outside the model or on the edge
      of an area; at a full terminal; or because the kernel halts, on a frame with too many sharers
      or for want of pages where the bookings exceed what there is. */
  ghost predicate Ends(capacity: int, y: System, sz: Sizes, calls: seq<Call>, n: nat, e: Ending, i: nat, t: Snapshot,
                       last: Snapshot)
    requires n <= |calls|
  {
    if e == Made then n == |calls|
    else
      && n < |calls| && Stopped(t, y.procs, calls[n], e, i, last)
      && (e == Halted ==>
            (last == t && Crowds(t.vm, OpOf(y.procs, calls[n]).value)) || TooMuchFor(capacity, y, sz, calls[n]))
  }

  lemma EndsNow(m: Terminal.CodeMap, start: System, sz: Sizes, capacity: int, calls: seq<Call>, n: nat,
                fills: seq<seq<Page>>, y: System, t: Snapshot, e: Ending, i: nat, last: Snapshot)
    requires Terminal.GoodMap(m) && n < |calls| && Follows(m, start, sz, capacity, calls[..n], fills, y, t)
    requires e != Made && Stopped(t, y.procs, calls[n], e, i, last) && Good(t) && Settled(t.vm)
    ensures Ends(capacity, y, BookCalls(m, start, sz, calls[..n], fills), calls, n, e, i, t, last)
  {
    hide Follows, Good, Settled, Agreeable, Needed, Crowds, OpOf, BookCalls, TooMuchFor;
    SameFills(m, start, sz, capacity, calls[..n], fills, y, t);
    if e == Halted && !(last == t && Crowds(t.vm, OpOf(y.procs, calls[n]).value)) {
      HaltedTooMuch(m, start, sz, capacity, calls[..n], fills, y, t, calls[n], OpOf(y.procs, calls[n]).value);
    }
  }

  lemma SameFills(m: Terminal.CodeMap, start: System, sz: Sizes, capacity: int, calls: seq<Call>,
                  fills: seq<seq<Page>>, y: System, t: Snapshot)
    requires Terminal.GoodMap(m) && Follows(m, start, sz, capacity, calls, fills, y, t)
    ensures |fills| == |calls| && y == RunReference(m, start, calls, fills)
  {
  }

  lemma PrefixOfCalls(calls: seq<Call>, n: nat)
    requires n < |calls|
    ensures calls[..n + 1] == calls[..n] + [calls[n]] && calls[n..][1..] == calls[n + 1..] && calls[n..][0] == calls[n]
  {
  }

  /** Any calls that may happen one after the other: the first `n` of them take the kernel where they
      take the reference system, which has private memory, ends programs at the stores it refuses,
      and decides by itself what a reader gets.  The run ends early only at one of the exceptions.
      `sz` is what is booked for the processes at the start. */
  method RunCalls(k: Kernel, calls: seq<Call>, ghost sz: Sizes)
    returns (n: nat, e: Ending, ghost fills: seq<seq<Page>>, ghost y: System, ghost t: Snapshot)
    requires k.Valid() && Schedule(k.terminal.codeMap, Sys(k), calls) && Within(k.memory.V(), sz)
    modifies k.table, k.table.q, k.memory, k.memory.pool, k.memory.pool.list, k.terminal, k.terminal.buf
    ensures n <= |calls|
    ensures Follows(k.terminal.codeMap, old(Sys(k)), sz, old(Capacity(k.memory.V())), calls[..n], fills, y, t)
    ensures |fills| == n && y == RunReference(k.terminal.codeMap, old(Sys(k)), calls[..n], fills)
    ensures e != Halted ==> k.Valid() && Sys(k) == y && k.memory.Now() == t
    ensures Ends(old(Capacity(k.memory.V())), y, BookCalls(k.terminal.codeMap, old(Sys(k)), sz, calls[..n], fills),
                 calls, n, e, k.terminal.i, t, k.memory.Now())
  {
    hide TreeInv, RefInv, LeavesOk, Pool.Valid, ProcessSpec.Inv, ProcessSpec.Do, Terminal.Play, Tied, Shown, Fine,
      Reference, RunReference, Schedule, Legal, Stopped, Follows, BookCalls, Capacity, Within, Good;
    ghost var m, start, capacity := k.terminal.codeMap, Sys(k), Capacity(k.memory.V());
    n, e, fills, y, t := 0, Made, [], start, k.memory.Now();
    NowFine(k.memory);
    FollowsNothing(m, start, sz, t);
    SameFills(m, start, sz, capacity, [], [], y, t);
    while n < |calls|
      invariant n <= |calls| && |fills| == n && e == Made && k.Valid() && y == Sys(k) && t == k.memory.Now()
      invariant Follows(m, start, sz, capacity, calls[..n], fills, y, t)
      invariant Schedule(m, y, calls[n..])
    {
      ScheduleStep(m, y, calls[n..]);
      PrefixOfCalls(calls, n);
      k.memory.GoodNow();
      ghost var fill: seq<Page>;
      e, fill := MakeCall(k, calls[n]);
      if e != Made {
        EndsNow(m, start, sz, capacity, calls, n, fills, y, t, e, k.terminal.i, k.memory.Now());
        SameFills(m, start, sz, capacity, calls[..n], fills, y, t);
        return;
      }
      NowFine(k.memory);
      FollowsMore(m, start, sz, capacity, calls[..n], fills, y, t, calls[n], fill, Sys(k), k.memory.Now());
      fills, y, t := fills + [fill], Sys(k), k.memory.Now();
      n := n + 1;
    }
    SameFills(m, start, sz, capacity, calls[..n], fills, y, t);
  }

  /** The system after boot: the first program has been made, and nothing has been typed. */
  ghost function AfterBoot(segs: seq<Segment>, fill: seq<Page>): System {
    System(ProcessRuns.Boot(ProcessTable.MAX), EagerOp(Eager(map[], map[]), Spawn(2, segs), fill).0, [])
  }

  /** What is booked for the first program. */
  ghost function FirstSize(segs: seq<Segment>): Sizes { map[2 := SpawnPages(segs, 0) + 6] }

  /** The same from boot. */
  method RunFromStart(pool: Pool, kernelHalf: Frame, tables: seq<Table>, bytes: seq<Page>, segs: seq<Segment>,
                      codeMap: Terminal.CodeMap, calls: seq<Call>)
    returns (k: Option<Kernel>, n: nat, e: Ending, ghost fill: seq<Page>, ghost fills: seq<seq<Page>>, ghost y: System,
             ghost t: Snapshot)
    requires pool.Valid() && |tables| == |bytes| == pool.list.Length
    requires forall f | 0 <= f < |tables| && pool.list[f].free :: pool.Managed(f)
    requires forall f | 0 <= f < |tables| :: |tables[f]| == 512 && |bytes[f]| == 4096
    requires GoodImage(segs) && Terminal.GoodMap(codeMap)
    requires forall fill: seq<Page> :: Schedule(codeMap, AfterBoot(segs, fill), calls)
    modifies pool, pool.list
    ensures k.None? ==> pool.order == [] && |old(pool.order)| < Total(FirstSize(segs))
    ensures k.Some? ==>
              && n <= |calls| && |fills| == n && y == RunReference(codeMap, AfterBoot(segs, fill), calls[..n], fills)
              && Follows(codeMap, AfterBoot(segs, fill), FirstSize(segs), |old(pool.order)|, calls[..n], fills, y, t)
              && (e != Halted ==> k.value.Valid() && Sys(k.value) == y && k.value.memory.Now() == t)
              && Ends(|old(pool.order)|, y,
                      BookCalls(codeMap, AfterBoot(segs, fill), FirstSize(segs), calls[..n], fills), calls, n, e,
                      k.value.terminal.i, t, k.value.memory.Now())
  {
    hide TreeInv, RefInv, LeavesOk, Pool.Valid, Pool.Managed, ProcessSpec.Inv, Terminal.Play, Tied, Shown, Fine,
      RunReference, Schedule, Ends, GoodImage, SpawnPages, EagerOp, ProcessRuns.Boot, BookCalls, Capacity, Within,
      Total, Follows;
    n, e, fills := 0, Halted, [];
    k, fill := Start(pool, kernelHalf, tables, bytes, segs, codeMap);
    y, t := AfterBoot(segs, fill), *;
    if k.Some? {
      assert Sys(k.value) == AfterBoot(segs, fill);
      n, e, fills, y, t := RunCalls(k.value, calls, FirstSize(segs));
    } else {
      TotalFirst(segs);
    }
  }

  lemma TotalFirst(segs: seq<Segment>)
    ensures Total(FirstSize(segs)) == SpawnPages(segs, 0) + 6
  {
    assert FirstSize(segs) - {2} == map[];
    TotalLess(FirstSize(segs), 2);
  }
}

/**
 The life cycle of a slot: when each process starts, stops, wakes, dies and is reaped, who its
 parent is and who has the processor, read off the table alone.  Over whole runs: a process that
 has stopped stays so until the one event it waits for, a sleep lasts exactly as many seconds as
 were asked for, and a process that can run does run.
 */
module ProcessLife {
  import opened Wrappers
  import opened ProcessSpec
  import opened ProcessRuns

  // ----- what a step means for slot `i` -----

  ghost predicate Kills(s: Procs, a: Action, i: nat) {
    (a == Exit && i == s.r) || a == Kill(i)
  }

  ghost predicate ChildDies(s: Procs, a: Action, i: nat) {
    exists p | 0 <= p < |s.q| && Kills(s, a, p) :: s.q[p].ppid == i
  }

  /** The event that a stopped process waits for. */
  ghost predicate Wakes(s: Procs, a: Action, i: nat)
    requires i < |s.q|
  {
    match s.q[i].state
    case Wait => ChildDies(s, a, i)
    case Sleeping => a == NewLine && forall j | 0 <= j < i :: s.q[j].state != Sleeping
    case Suspended => a == Tick && s.q[i].time <= 1
    case _ => false
  }

  ghost predicate Takes(s: Procs, a: Action, i: nat)
    requires i < |s.q|
  {
    a == Fork && s.q[i].state == Ready && forall j | 0 <= j < i :: s.q[j].state != Ready
  }

  ghost predicate DeadChild(s: Procs, i: nat) {
    i < |s.q| && s.q[i].ppid == s.r && s.q[i].state == Zombie
  }

  ghost predicate ReapsSlot(s: Procs, a: Action, i: nat)
    requires Shape(s)
  {
    && DeadChild(s, i)
    && (|| ((a == CallWait || a == ResumeWait) && forall j | 0 <= j < i :: !DeadChild(s, j))
        || a == CallWaitpid(i)
        || (a == ResumeWaitpid && WaitsFor(s, i)))
  }

  /** The state in which the running process stops, if it does. */
  ghost function Stops(s: Procs, a: Action): Option<Status> {
    match a
    case CallSleep(n) => if n > 0 then Some(Suspended) else None
    case CallWait => if exists j | 0 <= j < |s.q| :: DeadChild(s, j) then None else Some(Wait)
    case ResumeWait => if exists j | 0 <= j < |s.q| :: DeadChild(s, j) then None else Some(Wait)
    case CallWaitpid(c) => if DeadChild(s, c) then None else Some(Wait)
    case CallRead => if s.lines == 0 then Some(Sleeping) else None
    case ResumeRead => if s.lines == 0 then Some(Sleeping) else None
    case _ => None
  }

  ghost function StateAfter(s: Procs, a: Action, i: nat): Status
    requires Shape(s) && i < |s.q|
  {
    if Takes(s, a, i) then Running
    else if ReapsSlot(s, a, i) then Ready
    else if Kills(s, a, i) then Zombie
    else if Wakes(s, a, i) then Running
    else if i == s.r && Stops(s, a).Some? then Stops(s, a).value
    else s.q[i].state
  }

  ghost function ParentAfter(s: Procs, a: Action, i: nat): nat
    requires Shape(s) && i < |s.q|
  {
    if Takes(s, a, i) then s.r else if Kills(s, a, s.q[i].ppid) then 0 else s.q[i].ppid
  }

  ghost function TimeAfter(s: Procs, a: Action, i: nat): nat
    requires Shape(s) && i < |s.q|
  {
    if a.CallSleep? && a.seconds > 0 && i == s.r then a.seconds
    else if a == Tick && s.q[i].state == Suspended && s.q[i].time > 0 then s.q[i].time - 1
    else s.q[i].time
  }

  ghost predicate AsTold(s: Procs, a: Action, s': Procs, i: nat)
    requires Shape(s) && i < |s.q|
  {
    && |s'.q| == |s.q| && s'.q[i].state == StateAfter(s, a, i) && s'.q[i].ppid == ParentAfter(s, a, i)
    && s'.q[i].time == TimeAfter(s, a, i)
  }

  lemma {:induction false} LowestReady(q: seq<Task>, k: nat, i: nat)
    requires k <= i < |q| && q[i].state == Ready && forall j | k <= j < i :: q[j].state != Ready
    ensures FindReady(q, k) == Some(i)
    decreases i - k
  {
    if k < i { LowestReady(q, k + 1, i); }
  }

  lemma DeathTold(s: Procs, a: Action, p: nat, i: nat)
    requires Inv(s) && Enabled(s, a) && 2 <= p < |s.q| && s.q[p].state !in {Ready, Zombie} && i < |s.q|
    requires (a == Exit && p == s.r) || a == Kill(p)
    ensures AsTold(s, a, s.(q := Die(s.q, p)), i)
  {
    hide Forest, NoLostWakeup, SameLife, ReapedOnce, Die;
    Parent(s, p);
    DieAt(s.q, p);
    assert Kills(s, a, p) && forall k | 0 <= k < |s.q| && Kills(s, a, k) :: k == p;
  }

  lemma ForkTold(s: Procs, i: nat)
    requires Inv(s) && Enabled(s, Fork) && i < |s.q|
    ensures AsTold(s, Fork, Do(s, Fork), i)
  {
    hide Forest, Places, NoLostWakeup, SameLife, ReapedOnce;
    if Takes(s, Fork, i) { LowestReady(s.q, 0, i); }
  }

  /** No zombie child is there exactly when the scan finds none, and it finds the lowest. */
  lemma ScanTold(s: Procs)
    requires Shape(s)
    ensures FindZombie(s.q, s.r, 0).None? <==> forall j | 0 <= j < |s.q| :: !DeadChild(s, j)
    ensures FindZombie(s.q, s.r, 0).Some? ==>
              var z := FindZombie(s.q, s.r, 0).value;
              DeadChild(s, z) && forall j | 0 <= j < z :: !DeadChild(s, j)
  {
    var z := FindZombie(s.q, s.r, 0);
    forall j | 0 <= j < |s.q| && (z.None? || j < z.value)
      ensures !DeadChild(s, j)
    {
      assert !IsZombieOf(s.q[j], s.r);
    }
    if z.Some? { assert IsZombieOf(s.q[z.value], s.r) && DeadChild(s, z.value); }
  }

  lemma ReapTold(s: Procs, a: Action, c: nat, i: nat)
    requires Shape(s) && s.q[s.r].state == Running && i < |s.q| && ReapsSlot(s, a, c) && Stops(s, a).None?
    requires a.CallWait? || a.ResumeWait? || a.CallWaitpid? || a.ResumeWaitpid?
    ensures AsTold(s, a, Reaped(s, c), i)
  {
  }

  lemma StopTold(s: Procs, a: Action, st: Status, place: Place, i: nat)
    requires Shape(s) && s.q[s.r].state == Running && i < |s.q| && Stops(s, a) == Some(st) && !a.CallSleep?
    requires forall c :: !ReapsSlot(s, a, c)
    ensures AsTold(s, a, Blocked(s, st, place), i)
  {
    hide NextRunning;
  }

  lemma WaitTold(s: Procs, a: Action, i: nat)
    requires Inv(s) && (a == CallWait || a == ResumeWait) && i < |s.q|
    ensures AsTold(s, a, Waiting(s), i)
  {
    hide Inv, Blocked, Reaped, AsTold;
    InvShape(s);
    Runs(s);
    ScanTold(s);
    var z := FindZombie(s.q, s.r, 0);
    if z.Some? { ReapTold(s, a, z.value, i); } else { StopTold(s, a, Wait, InWait, i); }
  }

  lemma WaitpidTold(s: Procs, a: Action, i: nat)
    requires Inv(s) && Enabled(s, a) && (a.CallWaitpid? || a == ResumeWaitpid) && i < |s.q|
    ensures AsTold(s, a, Do(s, a), i)
  {
    hide Inv, Blocked, Reaped, NextRunning;
    InvShape(s);
    Runs(s);
    var c := if a == ResumeWaitpid then s.at[s.r].child else a.child;
    if c < |s.q| && IsZombieOf(s.q[c], s.r) {
      ReapTold(s, a, c, i);
    } else if a.CallWaitpid? {
      StopTold(s, a, Wait, InWaitpid(c, s.lives[c], s.q[c].ppid == s.r && s.q[c].state != Ready), i);
    }
  }

  lemma ReadTold(s: Procs, a: Action, i: nat)
    requires Inv(s) && Enabled(s, a) && (a == CallRead || a == ResumeRead) && i < |s.q|
    ensures AsTold(s, a, Reading(s), i)
  {
    hide Inv, Blocked;
    InvShape(s);
    Runs(s);
    if s.lines == 0 { StopTold(s, a, Sleeping, InRead, i); } else { LineRead(s); }
  }

  lemma SleepTold(s: Procs, n: nat, i: nat)
    requires Inv(s) && i < |s.q|
    ensures AsTold(s, CallSleep(n), Slept(s, n), i)
  {
    hide Inv, NextRunning;
    InvShape(s);
    Runs(s);
  }

  lemma NewLineTold(s: Procs, i: nat)
    requires Inv(s) && Enabled(s, NewLine) && i < |s.q|
    ensures AsTold(s, NewLine, Do(s, NewLine), i)
  {
    hide Inv;
    InvShape(s);
    if Wakes(s, NewLine, i) { LowestSleeper(s.q, 0, i); }
  }

  lemma RestTold(s: Procs, a: Action, i: nat)
    requires Inv(s) && Enabled(s, a) && i < |s.q| && a in {ResumeSleep, MissLine, Tick, Preempt}
    ensures AsTold(s, a, Do(s, a), i)
  {
    hide Inv, NextRunning;
    InvShape(s);
  }

  lemma YieldTold(s: Procs, a: Action, t: Procs, i: nat)
    requires Shape(s) && i < |s.q| && AsTold(s, a, t, i) && t.r < |t.q|
    ensures AsTold(s, a, Yielded(t), i)
  {
    hide NextRunning, StateAfter, ParentAfter, TimeAfter;
  }

  /** The life cycle: every step of the system does to the state, the parent and the sleeping time of
      every slot exactly what the table above says. */
  lemma LifeCycle(s: Procs, a: Action, i: nat)
    requires Inv(s) && Enabled(s, a) && i < |s.q|
    ensures AsTold(s, a, Do(s, a), i)
  {
    hide Inv, NextRunning, Die, Waiting, Reading, Blocked, Reaped, Slept, Yielded, AsTold;
    InvShape(s);
    Runs(s);
    match a
    case Fork => ForkTold(s, i);
    case Exit =>
      DeathTold(s, a, s.r, i);
      YieldTold(s, a, s.(q := Die(s.q, s.r)), i);
    case Kill(p) => DeathTold(s, a, p, i);
    case CallWait => WaitTold(s, a, i);
    case ResumeWait => WaitTold(s, a, i);
    case CallWaitpid(_) => WaitpidTold(s, a, i);
    case ResumeWaitpid => WaitpidTold(s, a, i);
    case CallSleep(n) => SleepTold(s, n, i);
    case CallRead => ReadTold(s, a, i);
    case ResumeRead => ReadTold(s, a, i);
    case NewLine => NewLineTold(s, i);
    case _ => RestTold(s, a, i);
  }

  // ----- the processor -----

  /** The steps that call `yield`. */
  ghost predicate GivesAway(s: Procs, a: Action) {
    || a == Exit || a == Preempt || a == MissLine || Stops(s, a).Some?
    || (a == ResumeWaitpid && forall c | 0 <= c < |s.q| && WaitsFor(s, c) :: !DeadChild(s, c))
  }

  /** How far slot `k` is ahead of slot `r` in the circle; a slot is a whole lap ahead of itself. */
  function Ahead(n: nat, r: nat, k: nat): nat
    requires r < n && k < n
  {
    if k > r then k - r else n - r + k
  }

  /** The first running slot after `r` is `j`. */
  ghost predicate FirstAfter(q: seq<Task>, r: nat, j: nat) {
    && r < |q| && j < |q| && q[j].state == Running
    && forall k | 0 <= k < |q| && q[k].state == Running :: Ahead(|q|, r, j) <= Ahead(|q|, r, k)
  }

  lemma NextIsFirst(q: seq<Task>, r: nat, i: nat)
    requires r < |q| && i < |q| && q[i].state == Running
    ensures FirstAfter(q, r, NextRunning(q, r))
  {
    YieldCloser(q, r, i);
    assert forall k | 0 <= k < |q| && k != r :: Around(|q|, k, r) <= Around(|q|, Succ(|q|, r), r);
  }

  lemma IdleRuns(s: Procs)
    requires Inv(s)
    ensures s.q[1].state == Running && s.q[s.r].state == Running
  {
  }

  lemma YieldsNext(s: Procs, a: Action)
    requires Shape(s) && Enabled(s, a)
    ensures var s' := Do(s, a);
            && |s'.q| == |s.q| && s'.r == (if GivesAway(s, a) then NextRunning(s'.q, s.r) else s.r)
            && s'.lines == (if a == NewLine then s.lines + 1
                            else if (a == CallRead || a == ResumeRead) && s.lines > 0 then s.lines - 1
                            else s.lines)
  {
    hide NextRunning, Die;
    ScanTold(s);
    if a == ResumeWaitpid { assert WaitsFor(s, s.at[s.r].child); }
  }

  /** Who runs next: the same process unless the step gives the processor away, and then the first
      running slot after it.  Only Enter and readers change the number of lines. */
  lemma Processor(s: Procs, a: Action)
    requires Inv(s) && Enabled(s, a)
    ensures var s' := Do(s, a);
            && |s'.q| == |s.q|
            && (if GivesAway(s, a) then FirstAfter(s'.q, s.r, s'.r) else s'.r == s.r)
            && s'.lines == (if a == NewLine then s.lines + 1
                            else if (a == CallRead || a == ResumeRead) && s.lines > 0 then s.lines - 1
                            else s.lines)
  {
    hide Inv, Do, Enabled, NextRunning, FirstAfter, GivesAway;
    InvShape(s);
    StepOk(s, a);
    IdleRuns(Do(s, a));
    YieldsNext(s, a);
    NextIsFirst(Do(s, a).q, s.r, 1);
  }

  // ----- whole runs -----

  ghost predicate Stopped(st: Status) { st == Wait || st == Sleeping || st == Suspended }

  /** A stopped process stays as it is, and is not selected, until the one event that it waits for. */
  lemma StaysStopped(s: Procs, a: Action, i: nat)
    requires Inv(s) && Enabled(s, a) && i < |s.q| && Stopped(s.q[i].state) && !Wakes(s, a, i) && a != Kill(i)
    ensures var s' := Do(s, a); |s'.q| == |s.q| && s'.q[i].state == s.q[i].state && s.r != i
  {
    hide Inv, Do, Enabled, Wakes;
    InvShape(s);
    IdleRuns(s);
    LifeCycle(s, a, i);
  }

  lemma RunTail(ss: seq<Procs>, acts: seq<Action>)
    requires IsRun(ss, acts) && acts != []
    ensures IsRun(ss[1..], acts[1..])
  {
    hide Shape, Enabled, Do;
    assert forall k | 0 <= k < |acts[1..]| :: acts[1..][k] == acts[k + 1] && ss[1..][k] == ss[k + 1];
    assert forall k | 0 <= k < |ss[1..]| :: ss[1..][k] == ss[k + 1];
  }

  lemma RunHead(ss: seq<Procs>, acts: seq<Action>)
    requires IsRun(ss, acts) && acts != [] && Inv(ss[0])
    ensures Shape(ss[0]) && Enabled(ss[0], acts[0]) && ss[1] == Do(ss[0], acts[0]) && Inv(ss[1])
    ensures |ss| == |acts| + 1 && ss[1..][0] == ss[1]
  {
    hide Inv, Do;
    assert Enabled(ss[0], acts[0]) && ss[0 + 1] == Do(ss[0], acts[0]);
    StepOk(ss[0], acts[0]);
  }

  lemma {:induction false} RunStopped(ss: seq<Procs>, acts: seq<Action>, i: nat)
    requires IsRun(ss, acts) && Inv(ss[0]) && i < |ss[0].q| && Stopped(ss[0].q[i].state)
    requires forall k | 0 <= k < |acts| :: i < |ss[k].q| && !Wakes(ss[k], acts[k], i) && acts[k] != Kill(i)
    ensures forall k | 0 <= k < |ss| :: i < |ss[k].q| && ss[k].q[i].state == ss[0].q[i].state && ss[k].r != i
    decreases |acts|
  {
    hide Inv, Do, Enabled, Wakes, IsRun;
    RunIs(ss, acts);
    IdleRuns(ss[0]);
    if acts != [] {
      RunHead(ss, acts);
      StaysStopped(ss[0], acts[0], i);
      RunTail(ss, acts);
      assert forall k | 0 <= k < |acts[1..]| :: acts[1..][k] == acts[k + 1] && ss[1..][k] == ss[k + 1];
      RunStopped(ss[1..], acts[1..], i);
      forall k | 0 <= k < |ss|
        ensures i < |ss[k].q| && ss[k].q[i].state == ss[0].q[i].state && ss[k].r != i
      {
        if k > 0 { assert ss[1..][k - 1] == ss[k]; }
      }
    }
  }

  // ----- sleep -----

  function Ticks(acts: seq<Action>): nat {
    if acts == [] then 0 else (if acts[0] == Tick then 1 else 0) + Ticks(acts[1..])
  }

  lemma {:induction false} TicksConcat(a: seq<Action>, b: seq<Action>)
    ensures Ticks(a + b) == Ticks(a) + Ticks(b)
  {
    if a == [] {
      assert a + b == b;
    } else {
      TicksConcat(a[1..], b);
      assert (a + b)[1..] == a[1..] + b;
    }
  }

  ghost predicate Sleeps(s: Procs, i: nat, seconds: nat) {
    i < |s.q| && s.q[i].state == Suspended && s.q[i].time == seconds
  }

  /** One step of a sleeper's life. */
  lemma SleepStep(s: Procs, a: Action, i: nat, n: nat)
    requires Inv(s) && Enabled(s, a) && Sleeps(s, i, n) && n > 0 && a != Kill(i)
    ensures s.r != i
    ensures a != Tick ==> Sleeps(Do(s, a), i, n)
    ensures a == Tick && n > 1 ==> Sleeps(Do(s, a), i, n - 1)
    ensures a == Tick && n == 1 ==> |Do(s, a).q| == |s.q| && Do(s, a).q[i].state == Running
  {
    hide Inv, Do, Enabled;
    InvShape(s);
    IdleRuns(s);
    LifeCycle(s, a, i);
  }

  /** Less than `n` seconds later the process still sleeps and has not run. */
  lemma {:induction false} StillAsleep(ss: seq<Procs>, acts: seq<Action>, i: nat, n: nat)
    requires IsRun(ss, acts) && Inv(ss[0]) && Sleeps(ss[0], i, n) && Kill(i) !in acts && Ticks(acts) < n
    ensures |ss| == |acts| + 1 && Inv(ss[|acts|]) && Sleeps(ss[|acts|], i, n - Ticks(acts)) && ss[|acts|].r != i
    decreases |acts|
  {
    hide Inv, Do, Enabled, Sleeps, IsRun;
    RunIs(ss, acts);
    if acts == [] {
      Sleeper(ss[0], i, n);
    } else {
      RunHead(ss, acts);
      SleepStep(ss[0], acts[0], i, n);
      RunTail(ss, acts);
      StillAsleep(ss[1..], acts[1..], i, if acts[0] == Tick then n - 1 else n);
    }
  }

  lemma Sleeper(s: Procs, i: nat, n: nat)
    requires Inv(s) && Sleeps(s, i, n)
    ensures s.r != i
  {
    hide Inv;
    IdleRuns(s);
  }

  lemma RunPart(ss: seq<Procs>, acts: seq<Action>, a: nat, b: nat)
    requires IsRun(ss, acts) && a <= b <= |acts|
    ensures |ss| == |acts| + 1 && IsRun(ss[a..b + 1], acts[a..b])
  {
    hide Shape, Enabled, Do;
    var ts, bs := ss[a..b + 1], acts[a..b];
    forall k | 0 <= k < |ts|
      ensures Shape(ts[k])
    {
      assert ts[k] == ss[a + k];
    }
    forall k | 0 <= k < |bs|
      ensures Enabled(ts[k], bs[k]) && ts[k + 1] == Do(ts[k], bs[k])
    {
      assert ts[k] == ss[a + k] && bs[k] == acts[a + k] && ts[k + 1] == ss[a + k + 1];
    }
  }

  /** `sleep(n)` lasts exactly `n` seconds: over every run in which the process is not killed it stays
      suspended, and does not run, before the `n`-th second is over, and it can run when it is. */
  lemma SleepLasts(ss: seq<Procs>, acts: seq<Action>, i: nat, n: nat, k: nat)
    requires IsRun(ss, acts) && Inv(ss[0]) && ss[0].r == i && n > 0
    requires 1 <= k <= |acts| && acts[0] == CallSleep(n) && Kill(i) !in acts
    ensures |ss| == |acts| + 1 && i < |ss[k].q|
    ensures Ticks(acts[..k]) < n ==> ss[k].q[i].state == Suspended && ss[k].r != i
    ensures Ticks(acts[..k]) == n && acts[k - 1] == Tick ==> ss[k].q[i].state == Running
  {
    hide Inv, Do, Enabled, IsRun;
    RunIs(ss, acts);
    RunOk(ss, acts);
    RunHead(ss, acts);
    FallsAsleep(ss[0], n);
    SameSize(ss, acts, k);
    InvShape(ss[0]);
    if Ticks(acts[..k]) < n {
      RunPart(ss, acts, 1, k);
      TicksAfter(acts, k);
      StillAsleep(ss[1..k + 1], acts[1..k], i, n);
    } else if Ticks(acts[..k]) == n && acts[k - 1] == Tick {
      assert k > 1;
      RunPart(ss, acts, 1, k - 1);
      TicksAfter(acts, k - 1);
      assert acts[..k] == acts[..k - 1] + [Tick];
      TicksConcat(acts[..k - 1], [Tick]);
      assert Ticks([Tick]) == 1 by { assert [Tick][1..] == []; }
      StillAsleep(ss[1..k], acts[1..k - 1], i, n);
      RunPart(ss, acts, k - 1, k);
      RunHead(ss[k - 1..k + 1], acts[k - 1..k]);
      SleepStep(ss[k - 1], Tick, i, 1);
    }
  }

  lemma TicksAfter(acts: seq<Action>, k: nat)
    requires 1 <= k <= |acts| && acts[0] != Tick
    ensures Ticks(acts[1..k]) == Ticks(acts[..k])
  {
    assert acts[..k][1..] == acts[1..k];
  }

  lemma FallsAsleep(s: Procs, n: nat)
    requires Inv(s) && Enabled(s, CallSleep(n)) && n > 0
    ensures Sleeps(Do(s, CallSleep(n)), s.r, n)
  {
    hide Inv, Do;
    InvShape(s);
    IdleRuns(s);
    LifeCycle(s, CallSleep(n), s.r);
  }

  lemma {:induction false} SameSize(ss: seq<Procs>, acts: seq<Action>, k: nat)
    requires IsRun(ss, acts) && Inv(ss[0]) && k <= |acts|
    ensures |ss| == |acts| + 1 && |ss[k].q| == |ss[0].q|
    decreases k
  {
    hide Inv, Do, Enabled, IsRun;
    RunIs(ss, acts);
    if k > 0 {
      SameSize(ss, acts, k - 1);
      RunOk(ss, acts);
      RunPart(ss, acts, k - 1, k);
      RunHead(ss[k - 1..k + 1], acts[k - 1..k]);
      Processor(ss[k - 1], acts[k - 1]);
    }
  }

  // ----- fairness -----

  /** How often the processor is given away in a run. */
  ghost function Gifts(ss: seq<Procs>, acts: seq<Action>): nat
    requires |ss| > |acts|
  {
    if acts == [] then 0 else (if GivesAway(ss[0], acts[0]) then 1 else 0) + Gifts(ss[1..], acts[1..])
  }

  lemma Nearer(n: nat, r: nat, j: nat, i: nat)
    requires r < n && j < n && i < n && Ahead(n, r, j) <= Ahead(n, r, i) && j != i
    ensures Ahead(n, j, i) < Ahead(n, r, i)
  {
  }

  /** One step on the way of a process that can run to the processor. */
  lemma FairStep(s: Procs, a: Action, i: nat)
    requires Inv(s) && Enabled(s, a) && i < |s.q| && s.q[i].state == Running && s.r != i && a != Kill(i)
    ensures var s' := Do(s, a);
            && |s'.q| == |s.q| && s'.r < |s.q| && s'.q[i].state == Running
            && (s'.r == i || Ahead(|s.q|, s'.r, i) <= Ahead(|s.q|, s.r, i) - if GivesAway(s, a) then 1 else 0)
  {
    hide Inv, Do, Enabled, GivesAway;
    InvShape(s);
    LifeCycle(s, a, i);
    Processor(s, a);
    var s' := Do(s, a);
    if s'.r != i && GivesAway(s, a) { Nearer(|s.q|, s.r, s'.r, i); }
  }

  /** Over every run: a process that can run and is not killed has the processor before it has been
      given away as often as there are slots. */
  lemma {:induction false} RunFair(ss: seq<Procs>, acts: seq<Action>, i: nat) returns (k: nat)
    requires IsRun(ss, acts) && Inv(ss[0]) && i < |ss[0].q| && ss[0].q[i].state == Running && Kill(i) !in acts
    requires Gifts(ss, acts) >= if ss[0].r < |ss[0].q| then Ahead(|ss[0].q|, ss[0].r, i) else 0
    ensures k < |ss| && ss[k].r == i
    decreases |acts|
  {
    hide Inv, Do, Enabled, GivesAway, IsRun;
    RunIs(ss, acts);
    InvShape(ss[0]);
    if ss[0].r == i {
      k := 0;
    } else {
      RunHead(ss, acts);
      FairStep(ss[0], acts[0], i);
      RunTail(ss, acts);
      if ss[1].r == i {
        k := 1;
      } else {
        var m := RunFair(ss[1..], acts[1..], i);
        k := m + 1;
      }
    }
  }

  /** After `sleep(n)`, the `n`-th second and as many turns as there are slots, the sleeper has run. */
  lemma SleeperRuns(ss: seq<Procs>, acts: seq<Action>, i: nat, n: nat, m: nat) returns (k: nat)
    requires IsRun(ss, acts) && Inv(ss[0]) && ss[0].r == i && n > 0 && acts != [] && acts[0] == CallSleep(n)
    requires Kill(i) !in acts && 1 <= m <= |acts| && acts[m - 1] == Tick && Ticks(acts[..m]) == n
    requires Gifts(ss[m..], acts[m..]) >= |ss[0].q|
    ensures m <= k < |ss| && ss[k].r == i
  {
    hide Inv, Do, Enabled, IsRun, Gifts;
    RunIs(ss, acts);
    RunOk(ss, acts);
    SleepLasts(ss, acts, i, n, m);
    SameSize(ss, acts, m);
    RunPart(ss, acts, m, |acts|);
    assert ss[m..|acts| + 1] == ss[m..] && acts[m..|acts|] == acts[m..];
    InvShape(ss[m]);
    var d := RunFair(ss[m..], acts[m..], i);
    k := m + d;
  }
}

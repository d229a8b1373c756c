/**
 What the process table keeps over whole runs: the process forest, one teardown for each life,
 wakeups that are not lost, and readers that are not left asleep.
 */
module ProcessRuns {
  import opened Wrappers
  import opened ProcessSpec

  // ----- runs -----

  ghost predicate IsRun(ss: seq<Procs>, acts: seq<Action>) {
    && |ss| == |acts| + 1
    && (forall k | 0 <= k < |ss| :: Shape(ss[k]))
    && (forall k | 0 <= k < |acts| :: Enabled(ss[k], acts[k]) && ss[k + 1] == Do(ss[k], acts[k]))
  }

  /** After `init_proc`, `init_p` and `create_process`: init, idle and the shell, which runs. */
  function Boot(n: nat): Procs
    requires n >= 3
  {
    Procs(seq(n, (i: nat) => Task(if i < 3 then Running else Ready, if i < 3 then i else 0, 0, 0)),
          2, 0, seq(n, _ => InUser), seq(n, (i: nat) => if i < 3 then i else 0), 3,
          seq(n, (i: nat) => if i < 3 then 1 else 0), seq(n, _ => 0))
  }

  lemma BootOk(n: nat)
    requires n >= 3
    ensures Inv(Boot(n))
  {
  }

  /** Every reachable state satisfies the invariant. */
  lemma {:induction false} RunOk(ss: seq<Procs>, acts: seq<Action>)
    requires IsRun(ss, acts) && Inv(ss[0])
    ensures forall k | 0 <= k < |ss| :: Inv(ss[k])
    decreases |acts|
  {
    hide Inv, Do, Enabled;
    var n := |acts|;
    if n > 0 {
      assert IsRun(ss[..n], acts[..n - 1]);
      RunOk(ss[..n], acts[..n - 1]);
      forall k | 0 <= k < |ss|
        ensures Inv(ss[k])
      {
        if k < n {
          assert ss[..n][k] == ss[k];
        } else {
          assert ss[..n][n - 1] == ss[n - 1] && Inv(ss[n - 1]);
          StepOk(ss[n - 1], acts[n - 1]);
        }
      }
    }
  }

  // ----- the forest -----

  function Ancestor(q: seq<Task>, i: nat, k: nat): nat
    requires i < |q|
    decreases k
  {
    if k == 0 then i else if q[i].ppid < |q| then Ancestor(q, q[i].ppid, k - 1) else i
  }

  predicate Alive(q: seq<Task>, i: nat) {
    i < |q| && q[i].state != Ready && q[i].state != Zombie
  }

  /** The first `k` ancestors of `i` are alive. */
  ghost predicate LivingLine(q: seq<Task>, i: nat, k: nat)
    requires i < |q|
    decreases k
  {
    k == 0 || (Alive(q, q[i].ppid) && LivingLine(q, q[i].ppid, k - 1))
  }

  lemma ParentLives(s: Procs, i: nat)
    requires Shape(s) && Forest(s) && 0 < i < |s.q| && s.q[i].state != Ready
    ensures Alive(s.q, s.q[i].ppid) && s.born[s.q[i].ppid] < s.born[i]
  {
  }

  /** Parent links lead from every process to init through living processes. */
  lemma {:induction false} LeadsToInit(s: Procs, i: nat) returns (k: nat)
    requires Inv(s) && i < |s.q| && s.q[i].state != Ready
    ensures Ancestor(s.q, i, k) == 0 && LivingLine(s.q, i, k)
    decreases s.born[i]
  {
    hide Places, NoLostWakeup, SameLife, ReapedOnce, Forest;
    if i == 0 {
      k := 0;
    } else {
      ParentLives(s, i);
      var m := LeadsToInit(s, s.q[i].ppid);
      k := m + 1;
    }
  }

  /** No process other than init is its own ancestor. */
  lemma {:induction false} NoCycle(s: Procs, i: nat, k: nat)
    requires Inv(s) && 0 < i < |s.q| && s.q[i].state != Ready && k > 0
    ensures Ancestor(s.q, i, k) != i
  {
    Younger(s, i, k);
  }

  lemma {:induction false} Younger(s: Procs, i: nat, k: nat)
    requires Inv(s) && i < |s.q| && s.q[i].state != Ready && k > 0
    ensures var a := Ancestor(s.q, i, k);
            a < |s.q| && s.q[a].state != Ready && (a == 0 || s.born[a] < s.born[i])
    decreases k
  {
    hide Places, NoLostWakeup, SameLife, ReapedOnce;
    var p := s.q[i].ppid;
    assert Ancestor(s.q, i, k) == Ancestor(s.q, p, k - 1);
    if k > 1 {
      Younger(s, p, k - 1);
    }
  }

  // ----- zombies and teardown -----

  predicate Reaps(a: Action) { a in {CallWait, ResumeWait, ResumeWaitpid} || a.CallWaitpid? }

  /** What a step may do to slot `i` as far as zombies and teardowns go. */
  ghost predicate ZombieKept(s: Procs, a: Action, s': Procs, i: nat)
    requires Shape(s) && i < |s.q|
  {
    && Shape(s') && |s'.q| == |s.q|
    && (s.q[i].state == Zombie && s'.q[i].state != Zombie ==>
          && Reaps(a) && s.q[i].ppid == s.r && s'.q[i].state == Ready
          && s'.reaps[i] == s.reaps[i] + 1 && s'.at[s.r] == InUser)
    && (s'.reaps[i] != s.reaps[i] ==> s.q[i].state == Zombie && s'.q[i].state == Ready)
  }

  lemma DeathKeepsZombies(s: Procs, a: Action, p: nat, i: nat)
    requires Inv(s) && 2 <= p < |s.q| && s.q[p].state !in {Ready, Zombie} && i < |s.q|
    ensures ZombieKept(s, a, s.(q := Die(s.q, p)), i)
  {
    Parent(s, p);
    DieAt(s.q, p);
    hide Forest, Places, NoLostWakeup, SameLife, ReapedOnce, Die;
  }

  lemma WaitKeepsZombies(s: Procs, a: Action, i: nat)
    requires Inv(s) && (a == CallWait || a == ResumeWait) && i < |s.q| && Shape(Waiting(s))
    ensures ZombieKept(s, a, Waiting(s), i)
  {
    hide Inv, Blocked, Reaped, ZombieKept;
    InvShape(s);
    Runs(s);
    var z := FindZombie(s.q, s.r, 0);
    if z.Some? { ReapKeepsZombies(s, a, z.value, i); } else { BlockKeepsZombies(s, a, Wait, InWait, i); }
  }

  lemma ReadKeepsZombies(s: Procs, a: Action, i: nat)
    requires Inv(s) && i < |s.q| && Shape(Reading(s))
    ensures ZombieKept(s, a, Reading(s), i)
  {
    Runs(s);
    hide Forest, Places, NoLostWakeup, SameLife, ReapedOnce, NextRunning;
  }

  lemma BlockKeepsZombies(s: Procs, a: Action, st: Status, place: Place, i: nat)
    requires Shape(s) && s.q[s.r].state == Running && i < |s.q| && Shape(Blocked(s, st, place))
    ensures ZombieKept(s, a, Blocked(s, st, place), i)
  {
    hide NextRunning;
  }

  lemma SleepKeepsZombies(s: Procs, a: Action, n: nat, i: nat)
    requires Shape(s) && s.q[s.r].state == Running && i < |s.q| && Shape(Slept(s, n))
    ensures ZombieKept(s, a, Slept(s, n), i)
  {
    hide NextRunning;
  }

  lemma WaitpidKeepsZombies(s: Procs, a: Action, i: nat)
    requires Inv(s) && Enabled(s, a) && (a.CallWaitpid? || a == ResumeWaitpid) && i < |s.q| && Shape(Do(s, a))
    ensures ZombieKept(s, a, Do(s, a), i)
  {
    hide Inv, Blocked, Reaped, Yielded, ZombieKept;
    InvShape(s);
    Runs(s);
    var c := if a == ResumeWaitpid then s.at[s.r].child else a.child;
    if c < |s.q| && IsZombieOf(s.q[c], s.r) {
      ReapKeepsZombies(s, a, c, i);
    } else if a == ResumeWaitpid {
      YieldKeepsZombies(s, a, i);
    } else {
      BlockKeepsZombies(s, a, Wait, InWaitpid(c, s.lives[c], s.q[c].ppid == s.r && s.q[c].state != Ready), i);
    }
  }

  lemma YieldKeepsZombies(s: Procs, a: Action, i: nat)
    requires Shape(s) && i < |s.q| && Shape(Yielded(s))
    ensures ZombieKept(s, a, Yielded(s), i)
  {
    hide NextRunning;
    StillKept(s, a, Yielded(s), i);
  }

  lemma ReapKeepsZombies(s: Procs, a: Action, c: nat, i: nat)
    requires Shape(s) && Reaps(a) && c < |s.q| && IsZombieOf(s.q[c], s.r) && i < |s.q|
    ensures ZombieKept(s, a, Reaped(s, c), i)
  {
  }

  lemma StillKept(s: Procs, a: Action, s': Procs, i: nat)
    requires Shape(s) && Shape(s') && |s'.q| == |s.q| && s'.reaps == s.reaps && i < |s.q|
    requires s.q[i].state == Zombie ==> s'.q[i].state == Zombie
    ensures ZombieKept(s, a, s', i)
  {
  }

  /** A zombie leaves that state only when its current parent reaps it, which tears its address
      space down once; no other step tears anything down. */
  lemma ZombieLeavesByReap(s: Procs, a: Action, i: nat)
    requires Inv(s) && Enabled(s, a) && i < |s.q|
    ensures ZombieKept(s, a, Do(s, a), i)
  {
    hide Inv, NextRunning, Die, Waiting, Reading, Blocked, ZombieKept;
    InvShape(s);
    Runs(s);
    StepShape(s, a);
    match a
    case Exit =>
      DeathKeepsZombies(s, a, s.r, i);
      YieldKept(s, a, s.(q := Die(s.q, s.r)), i);
    case Kill(p) => DeathKeepsZombies(s, a, p, i);
    case CallWait => WaitKeepsZombies(s, a, i);
    case ResumeWait => WaitKeepsZombies(s, a, i);
    case CallRead => ReadKeepsZombies(s, a, i);
    case ResumeRead => ReadKeepsZombies(s, a, i);
    case CallWaitpid(_) => WaitpidKeepsZombies(s, a, i);
    case ResumeWaitpid => WaitpidKeepsZombies(s, a, i);
    case CallSleep(n) => SleepKeepsZombies(s, a, n, i);
    case _ => StillKept(s, a, Do(s, a), i);
  }

  lemma YieldKept(s: Procs, a: Action, t: Procs, i: nat)
    requires Shape(s) && i < |s.q| && ZombieKept(s, a, t, i) && t.at == s.at && Shape(Yielded(t)) && a == Exit
    ensures ZombieKept(s, a, Yielded(t), i)
  {
    hide NextRunning;
  }

  lemma StepShape(s: Procs, a: Action)
    requires Inv(s) && Enabled(s, a)
    ensures Shape(Do(s, a))
  {
    hide Do, Enabled;
    StepOk(s, a);
  }

  /** In every state of a run the lives begun in a slot exceed its teardowns by one exactly while
      the slot is in use: each life is torn down once, and none twice. */
  lemma OneTeardownPerLife(ss: seq<Procs>, acts: seq<Action>, k: nat, i: nat)
    requires IsRun(ss, acts) && Inv(ss[0]) && k < |ss| && Shape(ss[k]) && i < |ss[k].q|
    ensures ss[k].lives[i] == ss[k].reaps[i] + if ss[k].q[i].state == Ready then 0 else 1
  {
    RunOk(ss, acts);
  }

  /** `waitpid` for an own child returns exactly when that child, in the life it had at the call,
      is a zombie. */
  lemma WaitpidReturnsSameLife(s: Procs)
    requires Inv(s) && Enabled(s, ResumeWaitpid) && s.at[s.r].own
    ensures var c := s.at[s.r].child;
            && c < |s.q| && s.lives[c] == s.at[s.r].life && s.q[c].ppid == s.r
            && (Do(s, ResumeWaitpid).at[s.r] == InUser <==> s.q[c].state == Zombie)
            && (s.q[c].state == Zombie ==> Do(s, ResumeWaitpid).reaps[c] == s.reaps[c] + 1)
  {
  }

  // ----- init, which may miss a wakeup -----

  ghost predicate InitFine(s: Procs)
    requires Shape(s)
  {
    s.q[0].state == Wait ==> forall j | 0 <= j < |s.q| :: !IsZombieOf(s.q[j], 0)
  }

  /** A process dies that is not a child of init and leaves a zombie child to it. */
  ghost predicate LeavesZombie(s: Procs, p: nat)
    requires Shape(s) && p < |s.q|
  {
    s.q[0].state == Wait && s.q[p].ppid != 0 && exists j | 0 <= j < |s.q| :: IsZombieOf(s.q[j], p)
  }

  /** Init alone can be left waiting for a zombie that is already there, and this happens exactly
      when a process that is not its child dies and leaves it a zombie. */
  lemma InitMissesOnly(s: Procs, p: nat)
    requires Inv(s) && InitFine(s) && 2 <= p < |s.q| && s.q[p].state !in {Ready, Zombie}
    ensures Shape(s.(q := Die(s.q, p)))
    ensures !InitFine(s.(q := Die(s.q, p))) <==> LeavesZombie(s, p)
  {
    hide Inv, Die;
    InvShape(s);
    Parent(s, p);
    DieAt(s.q, p);
    var s' := s.(q := Die(s.q, p));
    if LeavesZombie(s, p) {
      var j :| 0 <= j < |s.q| && IsZombieOf(s.q[j], p);
      assert IsZombieOf(s'.q[j], 0);
    }
  }

  /** The step is a death that leaves init a zombie it is not woken for. */
  ghost predicate Abandons(s: Procs, a: Action)
    requires Shape(s)
  {
    (a == Exit && LeavesZombie(s, s.r)) || (a.Kill? && a.pid < |s.q| && LeavesZombie(s, a.pid))
  }

  /** Steps after which init has no zombie child that it did not have, and did not begin to wait. */
  lemma QuietInit(s: Procs, s': Procs)
    requires Shape(s) && Shape(s') && |s'.q| == |s.q| && InitFine(s)
    requires s'.q[0].state == Wait ==> s.q[0].state == Wait
    requires forall j | 0 <= j < |s.q| :: IsZombieOf(s'.q[j], 0) ==> IsZombieOf(s.q[j], 0)
    ensures InitFine(s')
  {
  }

  lemma BlockInit(s: Procs, st: Status, place: Place)
    requires Shape(s) && InitFine(s) && s.r >= 2 && st != Zombie && Shape(Blocked(s, st, place))
    ensures InitFine(Blocked(s, st, place))
  {
    hide NextRunning;
    QuietInit(s, Blocked(s, st, place));
  }

  lemma SleepInit(s: Procs, n: nat)
    requires Shape(s) && InitFine(s) && s.r >= 2 && Shape(Slept(s, n))
    ensures InitFine(Slept(s, n))
  {
    hide Blocked;
    if n > 0 {
      QuietInit(s, Timed(s, n));
      BlockInit(Timed(s, n), Suspended, InSleep);
    }
  }

  lemma ReapInit(s: Procs, i: nat)
    requires Shape(s) && InitFine(s) && i < |s.q| && Shape(Reaped(s, i))
    ensures InitFine(Reaped(s, i))
  {
    QuietInit(s, Reaped(s, i));
  }

  lemma WaitInit(s: Procs)
    requires Shape(s) && InitFine(s) && Shape(Waiting(s))
    ensures InitFine(Waiting(s))
  {
    hide NextRunning, Reaped;
    var z := FindZombie(s.q, s.r, 0);
    if z.Some? {
      ReapInit(s, z.value);
    } else if s.r != 0 {
      QuietInit(s, Blocked(s, Wait, InWait));
    }
  }

  lemma ReadInit(s: Procs)
    requires Shape(s) && InitFine(s) && s.r >= 2 && Shape(Reading(s))
    ensures InitFine(Reading(s))
  {
    hide Blocked;
    if s.lines > 0 {
      QuietInit(s, Reading(s));
    } else {
      BlockInit(s, Sleeping, InRead);
    }
  }

  lemma DeathInit(s: Procs, a: Action, p: nat)
    requires Inv(s) && InitFine(s) && 2 <= p < |s.q| && s.q[p].state !in {Ready, Zombie}
    requires (a == Exit && p == s.r) || a == Kill(p)
    ensures Shape(s.(q := Die(s.q, p)))
    ensures !InitFine(s.(q := Die(s.q, p))) <==> Abandons(s, a)
  {
    hide Die, InitFine, LeavesZombie;
    InitMissesOnly(s, p);
  }

  lemma YieldInit(s: Procs)
    requires Shape(s) && Shape(Yielded(s))
    ensures InitFine(Yielded(s)) <==> InitFine(s)
  {
    hide NextRunning;
  }

  lemma RestInit(s: Procs, a: Action)
    requires Inv(s) && InitFine(s) && Enabled(s, a) && Shape(Do(s, a))
    requires a in {Fork, ResumeSleep, MissLine, NewLine, Tick, Preempt}
    ensures InitFine(Do(s, a))
  {
    hide Inv, NextRunning, InitFine;
    InvShape(s);
    QuietInit(s, Do(s, a));
  }

  lemma WaitpidInit(s: Procs, a: Action)
    requires Inv(s) && InitFine(s) && Enabled(s, a) && Shape(Do(s, a)) && (a.CallWaitpid? || a == ResumeWaitpid)
    ensures InitFine(Do(s, a))
  {
    hide Inv, Blocked, Reaped, Yielded, InitFine;
    InvShape(s);
    Runs(s);
    var c := if a == ResumeWaitpid then s.at[s.r].child else a.child;
    if c < |s.q| && IsZombieOf(s.q[c], s.r) {
      ReapInit(s, c);
    } else if a == ResumeWaitpid {
      YieldInit(s);
    } else {
      BlockInit(s, Wait, InWaitpid(c, s.lives[c], s.q[c].ppid == s.r && s.q[c].state != Ready));
    }
  }

  /** Of all steps of the system, exactly those deaths make init wait for a zombie that is there. */
  lemma StepInit(s: Procs, a: Action)
    requires Inv(s) && InitFine(s) && Enabled(s, a)
    ensures Shape(Do(s, a)) && (!InitFine(Do(s, a)) <==> Abandons(s, a))
  {
    hide Inv, NextRunning, Die, Waiting, Reading, Blocked, Reaped, Yielded, InitFine, LeavesZombie;
    InvShape(s);
    Runs(s);
    StepShape(s, a);
    match a
    case Exit =>
      DeathInit(s, a, s.r);
      YieldInit(s.(q := Die(s.q, s.r)));
    case Kill(p) => DeathInit(s, a, p);
    case CallWait => WaitInit(s);
    case ResumeWait => WaitInit(s);
    case CallWaitpid(_) => WaitpidInit(s, a);
    case ResumeWaitpid => WaitpidInit(s, a);
    case CallSleep(n) => SleepInit(s, n);
    case CallRead => ReadInit(s);
    case ResumeRead => ReadInit(s);
    case _ => RestInit(s, a);
  }

  ghost predicate AllFine(ss: seq<Procs>, n: nat)
    requires n <= |ss| && forall k | 0 <= k < |ss| :: Shape(ss[k])
  {
    forall k | 0 <= k < n :: InitFine(ss[k])
  }

  ghost predicate NoneAbandons(ss: seq<Procs>, acts: seq<Action>, n: nat)
    requires n <= |acts| <= |ss| && forall k | 0 <= k < |ss| :: Shape(ss[k])
  {
    forall k | 0 <= k < n :: !Abandons(ss[k], acts[k])
  }

  /** Over every run, and up to every point of it, init misses no wakeup if and only if no step has
      abandoned a zombie to it. */
  lemma {:induction false} RunInit(ss: seq<Procs>, acts: seq<Action>, n: nat)
    requires IsRun(ss, acts) && Inv(ss[0]) && InitFine(ss[0]) && n <= |acts|
    ensures AllFine(ss, n + 1) <==> NoneAbandons(ss, acts, n)
    decreases n
  {
    hide Inv, InitFine, Abandons, Do, Enabled;
    if n > 0 {
      RunOk(ss, acts);
      RunInit(ss, acts, n - 1);
      assert AllFine(ss, n + 1) <==> AllFine(ss, n) && InitFine(ss[n]);
      assert NoneAbandons(ss, acts, n) <==> NoneAbandons(ss, acts, n - 1) && !Abandons(ss[n - 1], acts[n - 1]);
      if AllFine(ss, n) {
        StepInit(ss[n - 1], acts[n - 1]);
      }
    }
  }

  // ----- readers -----

  ghost function Woken(s: Procs): set<nat>
    requires Shape(s)
  {
    set i | 0 <= i < |s.q| && s.q[i].state == Running && s.at[i] == InRead
  }

  ghost predicate Asleep(s: Procs) {
    exists i | 0 <= i < |s.q| :: s.q[i].state == Sleeping
  }

  /** A reader stays asleep only if the pending lines do not exceed the readers already woken. */
  ghost predicate ReadersOk(s: Procs)
    requires Shape(s)
  {
    Asleep(s) ==> s.lines <= |Woken(s)|
  }

  /** Steps that do not read: the readers are where they were. */
  lemma SameReaders(s: Procs, s': Procs)
    requires Shape(s) && Shape(s') && |s'.q| == |s.q| && ReadersOk(s) && s'.lines == s.lines
    requires forall i | 0 <= i < |s.q| ::
               && (s'.q[i].state == Sleeping ==> s.q[i].state == Sleeping)
               && ((s'.q[i].state == Running && s'.at[i] == InRead) <==> (s.q[i].state == Running && s.at[i] == InRead))
    ensures ReadersOk(s')
  {
    assert Woken(s') == Woken(s);
  }

  lemma NewLineReaders(s: Procs)
    requires Inv(s) && Enabled(s, NewLine) && ReadersOk(s)
    ensures Shape(Do(s, NewLine)) && ReadersOk(Do(s, NewLine))
  {
    hide Forest, NoLostWakeup, SameLife, ReapedOnce;
    var s' := Do(s, NewLine);
    var z := FindSleeper(s.q, 0);
    if z.Some? {
      assert Woken(s') == Woken(s) + {z.value};
      assert s.q[z.value].state == Sleeping && Asleep(s);
    }
  }

  lemma LineTaken(s: Procs)
    requires Inv(s) && ReadersOk(s) && s.lines > 0
    ensures Shape(Reading(s)) && ReadersOk(Reading(s))
  {
    hide Inv, Places, Reading;
    InvShape(s);
    Runs(s);
    LineRead(s);
    var s' := s.(lines := s.lines - 1, at := s.at[s.r := InUser]);
    assert Woken(s') == Woken(s) - {s.r};
  }

  lemma ReadReaders(s: Procs)
    requires Inv(s) && ReadersOk(s) && s.r >= 2 && (s.at[s.r] == InUser || s.at[s.r] == InRead)
    requires Shape(Reading(s))
    ensures ReadersOk(Reading(s))
  {
    if s.lines > 0 {
      LineTaken(s);
    }
  }

  lemma MissingParts(s: Procs)
    requires Shape(s) && Enabled(s, MissLine)
    ensures var s' := Do(s, MissLine); s'.q == s.q && s'.lines == s.lines && s'.at == s.at[s.r := InRead]
  {
    hide NextRunning;
  }

  lemma OneElementMore(a: set<nat>, x: nat)
    ensures |a + {x}| >= |a|
  {
    assert a + {x} == a + ({x} - a);
  }

  /** A reader that finds no line counts as woken. */
  lemma MissReaders(s: Procs)
    requires Inv(s) && ReadersOk(s) && Enabled(s, MissLine) && Shape(Do(s, MissLine))
    ensures ReadersOk(Do(s, MissLine))
  {
    hide Inv, Do, Places, Enabled;
    InvShape(s);
    Runs(s);
    MissingParts(s);
    OneElementMore(Woken(s), s.r);
    assert Woken(Do(s, MissLine)) == Woken(s) + {s.r};
  }

  /** The step kills a reader that was woken for a line, the last one for a line that is pending,
      while another reader sleeps. */
  ghost predicate Strands(s: Procs, a: Action)
    requires Shape(s)
  {
    a.Kill? && a.pid < |s.q| && s.q[a.pid].state == Running && s.at[a.pid] == InRead &&
    s.lines >= |Woken(s)| && Asleep(s)
  }

  /** What a death does to the readers. */
  lemma ReaderDies(s: Procs, p: nat)
    requires Inv(s) && 2 <= p < |s.q| && s.q[p].state !in {Ready, Zombie}
    ensures var s' := s.(q := Die(s.q, p));
            && Shape(s') && Woken(s') == Woken(s) - {p} && (Asleep(s') ==> Asleep(s))
            && (Asleep(s) && s.q[p].state != Sleeping ==> Asleep(s'))
  {
    hide Forest, NoLostWakeup, SameLife, ReapedOnce, Die;
    Parent(s, p);
    DieAt(s.q, p);
    var s' := s.(q := Die(s.q, p));
    if Asleep(s) && s.q[p].state != Sleeping {
      var i :| 0 <= i < |s.q| && s.q[i].state == Sleeping;
      assert s'.q[i].state == Sleeping;
    }
  }

  lemma KillReaders(s: Procs, p: nat)
    requires Inv(s) && Enabled(s, Kill(p)) && ReadersOk(s)
    ensures Shape(Do(s, Kill(p))) && (!ReadersOk(Do(s, Kill(p))) <==> Strands(s, Kill(p)))
  {
    hide Inv, Die, Woken, Asleep;
    InvShape(s);
    ReaderDies(s, p);
    WokenHas(s, p);
  }

  lemma WokenHas(s: Procs, p: nat)
    requires Shape(s) && p < |s.q|
    ensures p in Woken(s) <==> s.q[p].state == Running && s.at[p] == InRead
    ensures |Woken(s) - {p}| == |Woken(s)| - if p in Woken(s) then 1 else 0
  {
  }

  /** Of all steps exactly those killings leave a reader asleep with a line for it. */
  lemma StepReaders(s: Procs, a: Action)
    requires Inv(s) && Enabled(s, a) && ReadersOk(s)
    ensures Shape(Do(s, a)) && (!ReadersOk(Do(s, a)) <==> Strands(s, a))
  {
    hide Inv, Do, ReadersOk, Woken, Asleep;
    InvShape(s);
    Runs(s);
    StepShape(s, a);
    match a
    case NewLine => NewLineReaders(s);
    case CallRead => ReadReaders(s); DoReads(s, a);
    case ResumeRead => ReadReaders(s); DoReads(s, a);
    case MissLine => MissReaders(s);
    case Kill(p) => KillReaders(s, p);
    case _ => OtherReaders(s, a);
  }

  lemma DoReads(s: Procs, a: Action)
    requires Shape(s) && Enabled(s, a) && (a == CallRead || a == ResumeRead)
    ensures Do(s, a) == Reading(s)
  {
  }

  ghost predicate AllServed(ss: seq<Procs>, n: nat)
    requires n <= |ss| && forall k | 0 <= k < |ss| :: Shape(ss[k])
  {
    forall k | 0 <= k < n :: ReadersOk(ss[k])
  }

  ghost predicate NoneStrands(ss: seq<Procs>, acts: seq<Action>, n: nat)
    requires n <= |acts| <= |ss| && forall k | 0 <= k < |ss| :: Shape(ss[k])
  {
    forall k | 0 <= k < n :: !Strands(ss[k], acts[k])
  }

  /** Over every run, and up to every point of it, no reader has slept while a line was left for it
      if and only if no step has killed the reader that the line was for. */
  lemma {:induction false} RunReaders(ss: seq<Procs>, acts: seq<Action>, n: nat)
    requires IsRun(ss, acts) && Inv(ss[0]) && ReadersOk(ss[0]) && n <= |acts|
    ensures AllServed(ss, n + 1) <==> NoneStrands(ss, acts, n)
    decreases n
  {
    hide Inv, ReadersOk, Strands, Do, Enabled;
    if n > 0 {
      RunOk(ss, acts);
      RunReaders(ss, acts, n - 1);
      assert AllServed(ss, n + 1) <==> AllServed(ss, n) && ReadersOk(ss[n]);
      assert NoneStrands(ss, acts, n) <==> NoneStrands(ss, acts, n - 1) && !Strands(ss[n - 1], acts[n - 1]);
      if AllServed(ss, n) {
        StepReaders(ss[n - 1], acts[n - 1]);
      }
    }
  }

  lemma DeathReaders(s: Procs, p: nat)
    requires Inv(s) && ReadersOk(s) && 2 <= p < |s.q| && s.q[p].state !in {Ready, Zombie} && s.at[p] != InRead
    ensures Shape(s.(q := Die(s.q, p))) && ReadersOk(s.(q := Die(s.q, p)))
  {
    Parent(s, p);
    DieAt(s.q, p);
    hide Forest, NoLostWakeup, SameLife, ReapedOnce, Die;
    SameReaders(s, s.(q := Die(s.q, p)));
  }

  lemma ReapReaders(s: Procs, i: nat)
    requires Inv(s) && ReadersOk(s) && i < |s.q| && s.q[i].state == Zombie && s.at[s.r] != InRead
    ensures Shape(Reaped(s, i)) && ReadersOk(Reaped(s, i))
  {
    hide Forest, Places, NoLostWakeup, SameLife, ReapedOnce;
    SameReaders(s, Reaped(s, i));
  }

  lemma BlockReaders(s: Procs, st: Status, place: Place)
    requires Inv(s) && ReadersOk(s) && st !in {Sleeping, Running} && s.at[s.r] != InRead && place != InRead
    requires Shape(Blocked(s, st, place))
    ensures ReadersOk(Blocked(s, st, place))
  {
    hide Forest, Places, NoLostWakeup, SameLife, ReapedOnce, NextRunning;
    SameReaders(s, Blocked(s, st, place));
  }

  lemma WaitReaders(s: Procs)
    requires Inv(s) && ReadersOk(s) && s.at[s.r] != InRead && Shape(Waiting(s))
    ensures ReadersOk(Waiting(s))
  {
    hide Inv, ReadersOk, Blocked, Reaped;
    InvShape(s);
    var z := FindZombie(s.q, s.r, 0);
    if z.Some? { ReapReaders(s, z.value); } else { BlockReaders(s, Wait, InWait); }
  }

  lemma OtherReaders(s: Procs, a: Action)
    requires Inv(s) && Enabled(s, a) && ReadersOk(s)
    requires a !in {NewLine, CallRead, ResumeRead, MissLine} && !a.Kill? && Shape(Do(s, a))
    ensures ReadersOk(Do(s, a))
  {
    hide Inv, ReadersOk, NextRunning, Die, Blocked, Reaped, Waiting, Slept, Ticked;
    InvShape(s);
    Runs(s);
    match a
    case Exit => DeathReaders(s, s.r); SameReaders(s.(q := Die(s.q, s.r)), Do(s, a));
    case CallWait => WaitReaders(s);
    case ResumeWait => WaitReaders(s);
    case CallWaitpid(c) =>
      if IsZombieOf(s.q[c], s.r) { ReapReaders(s, c); }
      else { BlockReaders(s, Wait, InWaitpid(c, s.lives[c], s.q[c].ppid == s.r && s.q[c].state != Ready)); }
    case ResumeWaitpid =>
      var c := s.at[s.r].child;
      if c < |s.q| && IsZombieOf(s.q[c], s.r) { ReapReaders(s, c); } else { SameReaders(s, Do(s, a)); }
    case CallSleep(n) => SleepReaders(s, n);
    case Tick => TickReaders(s);
    case Fork => SameReaders(s, Do(s, a));
    case ResumeSleep => SameReaders(s, Do(s, a));
    case Preempt => SameReaders(s, Do(s, a));
    case _ =>
  }

  lemma TickReaders(s: Procs)
    requires Inv(s) && Enabled(s, Tick) && ReadersOk(s)
    ensures Shape(Do(s, Tick)) && ReadersOk(Do(s, Tick))
  {
    hide Forest, NoLostWakeup, SameLife, ReapedOnce;
    SameReaders(s, Do(s, Tick));
  }

  lemma SleepReaders(s: Procs, n: nat)
    requires Inv(s) && ReadersOk(s) && s.at[s.r] != InRead && Shape(Slept(s, n))
    ensures ReadersOk(Slept(s, n))
  {
    hide Forest, Places, NoLostWakeup, SameLife, ReapedOnce, NextRunning;
    SameReaders(s, Slept(s, n));
  }

  // ----- runs that reach the exceptions -----

  /** The used slots are those of `t`, at the places `at`; the other slots are free. */
  ghost predicate Looks(s: Procs, t: seq<Task>, at: seq<Place>, r: nat, lines: nat) {
    && Shape(s) && 3 <= |t| == |at| <= |s.q| && s.r == r < |t| && s.lines == lines
    && s.q[..|t|] == t && s.at[..|t|] == at
    && (forall i | |t| <= i < |s.q| :: s.q[i].state == Ready && s.q[i].time == 0)
    && (forall i | 0 <= i < |t| :: t[i].state != Ready)
  }

  lemma SlotsOf(s: Procs, t: seq<Task>, at: seq<Place>, r: nat, lines: nat)
    requires Looks(s, t, at, r, lines)
    ensures forall i | 0 <= i < |t| :: s.q[i] == t[i] && s.at[i] == at[i]
  {
    assert forall i | 0 <= i < |t| :: s.q[..|t|][i] == s.q[i] && s.at[..|t|][i] == s.at[i];
  }

  lemma NextIs(q: seq<Task>, r: nat, j: nat)
    requires r < |q| && j < |q| && j != r && q[j].state == Running
    requires forall k | 0 <= k < |q| && k != r && Around(|q|, k, r) > Around(|q|, j, r) :: q[k].state != Running
    ensures NextRunning(q, r) == j
  {
    YieldCloser(q, r, j);
    assert Around(|q|, j, r) <= Around(|q|, NextRunning(q, r), r);
  }

  /** The next slot is running, or the last used one gives way to init. */
  ghost predicate Neighbour(t: seq<Task>, r: nat, j: nat) {
    r < |t| && j < |t| && t[j].state == Running && j != r && (j == r + 1 || (r == |t| - 1 && j == 0))
  }

  lemma NextInTable(q: seq<Task>, t: seq<Task>, r: nat, j: nat)
    requires |t| <= |q| && q[..|t|] == t && Neighbour(t, r, j)
    requires forall i | |t| <= i < |q| :: q[i].state == Ready
    ensures NextRunning(q, r) == j
  {
    assert q[..|t|][j] == q[j];
    NextIs(q, r, j);
  }

  lemma ForkLooks(s: Procs, t: seq<Task>, at: seq<Place>, r: nat, lines: nat)
    requires Looks(s, t, at, r, lines) && r >= 2 && |t| < |s.q| && at[r] == InUser
    ensures Enabled(s, Fork) && |Do(s, Fork).q| == |s.q|
    ensures Looks(Do(s, Fork), t + [Task(Running, |t|, r, 0)], at + [InUser], r, lines)
  {
    SlotsOf(s, t, at, r, lines);
    assert s.q[|t|].state == Ready;
    assert FindReady(s.q, 0) == Some(|t|);
  }

  lemma PreemptLooks(s: Procs, t: seq<Task>, at: seq<Place>, r: nat, lines: nat, j: nat)
    requires Looks(s, t, at, r, lines) && at[r] == InUser && Neighbour(t, r, j)
    ensures Enabled(s, Preempt) && Looks(Do(s, Preempt), t, at, j, lines) && |Do(s, Preempt).q| == |s.q|
  {
    SlotsOf(s, t, at, r, lines);
    NextInTable(s.q, t, r, j);
  }

  /** A process that blocks. */
  lemma BlockLooks(s: Procs, t: seq<Task>, at: seq<Place>, r: nat, lines: nat, st: Status, place: Place, j: nat)
    requires Looks(s, t, at, r, lines) && st != Ready && Neighbour(t, r, j)
    ensures Looks(Blocked(s, st, place), t[r := t[r].(state := st)], at[r := place], j, lines)
    ensures |Blocked(s, st, place).q| == |s.q|
  {
    SlotsOf(s, t, at, r, lines);
    var q, t' := Set(s.q, r, st), t[r := t[r].(state := st)];
    assert q[..|t|] == t';
    assert Neighbour(t', r, j);
    NextInTable(q, t', r, j);
  }

  /** A reader that finds no line. */
  lemma ReadLooks(s: Procs, t: seq<Task>, at: seq<Place>, r: nat, j: nat)
    requires Looks(s, t, at, r, 0) && r >= 2 && at[r] == InUser && Neighbour(t, r, j)
    ensures Enabled(s, CallRead) && |Do(s, CallRead).q| == |s.q|
    ensures Looks(Do(s, CallRead), t[r := t[r].(state := Sleeping)], at[r := InRead], j, 0)
  {
    SlotsOf(s, t, at, r, 0);
    BlockLooks(s, t, at, r, 0, Sleeping, InRead, j);
  }

  /** Init finds no zombie child and waits. */
  lemma WaitLooks(s: Procs, t: seq<Task>, at: seq<Place>, lines: nat)
    requires Looks(s, t, at, 0, lines) && at[0] == InUser && t[1].state == Running
    requires forall i | 0 <= i < |t| :: !IsZombieOf(t[i], 0)
    ensures Enabled(s, CallWait) && |Do(s, CallWait).q| == |s.q|
    ensures Looks(Do(s, CallWait), t[0 := t[0].(state := Wait)], at[0 := InWait], 1, lines)
  {
    SlotsOf(s, t, at, 0, lines);
    assert FindZombie(s.q, 0, 0).None?;
    BlockLooks(s, t, at, 0, lines, Wait, InWait, 1);
  }

  /** The last process exits while its parent is running: the scan comes round to init. */
  lemma ExitLooks(s: Procs, t: seq<Task>, at: seq<Place>, lines: nat)
    requires Looks(s, t, at, 4, lines) && |t| == 5 && t[4] == Task(Running, 4, 3, 0) && at[4] == InUser
    requires t[0].state == Running && t[3].state == Running && forall i | 0 <= i < 4 :: t[i].ppid != 4
    ensures Enabled(s, Exit) && |Do(s, Exit).q| == |s.q|
    ensures Looks(Do(s, Exit), t[4 := Task(Zombie, 4, 3, 0)], at, 0, lines)
  {
    hide Die;
    SlotsOf(s, t, at, 4, lines);
    DieAt(s.q, 4);
    var d, t' := Die(s.q, 4), t[4 := Task(Zombie, 4, 3, 0)];
    assert d[..5] == t';
    NextInTable(d, t', 4, 0);
  }

  /** Enter: the lowest sleeper is woken. */
  lemma NewLineLooks(s: Procs, t: seq<Task>, at: seq<Place>, r: nat, lines: nat, i: nat)
    requires Looks(s, t, at, r, lines) && i < |t| && t[i].state == Sleeping
    requires forall k | 0 <= k < i :: t[k].state != Sleeping
    ensures |Do(s, NewLine).q| == |s.q|
    ensures Looks(Do(s, NewLine), t[i := t[i].(state := Running)], at, r, lines + 1)
  {
    SlotsOf(s, t, at, r, lines);
    LowestSleeper(s.q, 0, i);
    assert Set(s.q, i, Running)[..|t|] == t[i := t[i].(state := Running)];
  }

  lemma {:induction false} LowestSleeper(q: seq<Task>, k: nat, i: nat)
    requires k <= i < |q| && q[i].state == Sleeping && forall j | k <= j < i :: q[j].state != Sleeping
    ensures FindSleeper(q, k) == Some(i)
    decreases i - k
  {
    if k < i { LowestSleeper(q, k + 1, i); }
  }

  lemma LooksShape(s: Procs, t: seq<Task>, at: seq<Place>, r: nat, lines: nat)
    requires Looks(s, t, at, r, lines)
    ensures Shape(s) && |t| <= |s.q|
  {
  }

  lemma RunIs(ss: seq<Procs>, acts: seq<Action>)
    requires IsRun(ss, acts)
    ensures |ss| == |acts| + 1 && forall k | 0 <= k < |ss| :: Shape(ss[k])
  {
  }

  /** One step more. */
  lemma StepMore(ss0: seq<Procs>, acts0: seq<Action>, a: Action) returns (ss: seq<Procs>, acts: seq<Action>)
    requires IsRun(ss0, acts0) && Enabled(ss0[|acts0|], a) && Shape(Do(ss0[|acts0|], a))
    ensures IsRun(ss, acts) && |ss| == |acts| + 1 && ss[0] == ss0[0] && ss[|acts|] == Do(ss0[|acts0|], a)
  {
    hide Do, Enabled;
    ss, acts := ss0 + [Do(ss0[|acts0|], a)], acts0 + [a];
  }

  lemma BootLooks(n: nat)
    requires n >= 3
    ensures IsRun([Boot(n)], []) && |Boot(n).q| == n
    ensures Looks(Boot(n), [Task(Running, 0, 0, 0), Task(Running, 1, 0, 0), Task(Running, 2, 0, 0)],
                  [InUser, InUser, InUser], 2, 0)
  {
  }

  /** Init can be left waiting for a zombie, in every table with room for five processes: 2 forks 3,
      which forks 4; 4 exits while init is not waiting yet; init waits; 3 exits. */
  lemma InitMisses(n: nat) returns (ss: seq<Procs>, acts: seq<Action>)
    requires n >= 5
    ensures IsRun(ss, acts) && ss[0] == Boot(n) && Inv(Boot(n)) && !InitFine(ss[|acts|])
  {
    hide Do, Enabled, Inv, Looks, IsRun, Shape, Neighbour;
    BootOk(n);
    ss, acts := InitWaits(n);
    var t := [Task(Wait, 0, 0, 0), Task(Running, 1, 0, 0), Task(Running, 2, 0, 0), Task(Running, 3, 2, 0),
              Task(Zombie, 4, 3, 0)];
    var at := [InWait, InUser, InUser, InUser, InUser];
    ss, acts := PreemptRun(ss, acts, t, at, 1, 0);
    ss, acts := PreemptRun(ss, acts, t, at, 2, 0);
    RunIs(ss, acts);
    RunOk(ss, acts);
    AbandonLooks(ss[|acts|], t, at);
    ss, acts := StepMore(ss, acts, Exit);
    RunIs(ss, acts);
  }

  lemma AbandonLooks(s: Procs, t: seq<Task>, at: seq<Place>)
    requires Inv(s) && Looks(s, t, at, 3, 0) && |t| == 5 && t[0].state == Wait && t[3].ppid == 2 && at[3] == InUser
    requires t[4] == Task(Zombie, 4, 3, 0) && forall i | 0 <= i < 4 :: t[i].state != Zombie
    ensures Enabled(s, Exit) && Shape(Do(s, Exit)) && !InitFine(Do(s, Exit))
  {
    hide Inv;
    SlotsOf(s, t, at, 3, 0);
    assert IsZombieOf(s.q[4], 3);
    StepInit(s, Exit);
  }

  lemma PreemptRun(ss0: seq<Procs>, acts0: seq<Action>, t: seq<Task>, at: seq<Place>, r: nat, lines: nat)
    returns (ss: seq<Procs>, acts: seq<Action>)
    requires IsRun(ss0, acts0) && |ss0| == |acts0| + 1 && Looks(ss0[|acts0|], t, at, r, lines)
    requires r + 1 < |t| == |at| && t[r + 1].state == Running && at[r] == InUser
    ensures IsRun(ss, acts) && |ss| == |acts| + 1 && ss[0] == ss0[0]
    ensures Looks(ss[|acts|], t, at, r + 1, lines) && |ss[|acts|].q| == |ss0[|acts0|].q|
  {
    hide Do, Enabled, Looks, IsRun;
    RunIs(ss0, acts0);
    PreemptLooks(ss0[|acts0|], t, at, r, lines, r + 1);
    LooksShape(Do(ss0[|acts0|], Preempt), t, at, r + 1, lines);
    ss, acts := StepMore(ss0, acts0, Preempt);
  }

  lemma ForkRun(ss0: seq<Procs>, acts0: seq<Action>, t: seq<Task>, at: seq<Place>, r: nat)
    returns (ss: seq<Procs>, acts: seq<Action>)
    requires IsRun(ss0, acts0) && |ss0| == |acts0| + 1 && Looks(ss0[|acts0|], t, at, r, 0)
    requires 2 <= r < |at| && at[r] == InUser && |t| < |ss0[|acts0|].q|
    ensures IsRun(ss, acts) && |ss| == |acts| + 1 && ss[0] == ss0[0]
    ensures Looks(ss[|acts|], t + [Task(Running, |t|, r, 0)], at + [InUser], r, 0)
    ensures |ss[|acts|].q| == |ss0[|acts0|].q|
  {
    hide Do, Enabled, Looks, IsRun;
    RunIs(ss0, acts0);
    ForkLooks(ss0[|acts0|], t, at, r, 0);
    LooksShape(Do(ss0[|acts0|], Fork), t + [Task(Running, |t|, r, 0)], at + [InUser], r, 0);
    ss, acts := StepMore(ss0, acts0, Fork);
  }

  lemma ReadRun(ss0: seq<Procs>, acts0: seq<Action>, t: seq<Task>, at: seq<Place>, r: nat, j: nat)
    returns (ss: seq<Procs>, acts: seq<Action>)
    requires IsRun(ss0, acts0) && |ss0| == |acts0| + 1 && Looks(ss0[|acts0|], t, at, r, 0)
    requires 2 <= r < |t| == |at| && at[r] == InUser && Neighbour(t, r, j)
    ensures IsRun(ss, acts) && |ss| == |acts| + 1 && ss[0] == ss0[0]
    ensures Looks(ss[|acts|], t[r := t[r].(state := Sleeping)], at[r := InRead], j, 0)
  {
    hide Do, Enabled, Looks, IsRun;
    RunIs(ss0, acts0);
    ReadLooks(ss0[|acts0|], t, at, r, j);
    LooksShape(Do(ss0[|acts0|], CallRead), t[r := t[r].(state := Sleeping)], at[r := InRead], j, 0);
    ss, acts := StepMore(ss0, acts0, CallRead);
  }

  /** The first six steps: init waits, its grandchild being a zombie already. */
  lemma InitWaits(n: nat) returns (ss: seq<Procs>, acts: seq<Action>)
    requires n >= 5
    ensures IsRun(ss, acts) && |ss| == |acts| + 1 && ss[0] == Boot(n)
    ensures Looks(ss[|acts|], [Task(Wait, 0, 0, 0), Task(Running, 1, 0, 0), Task(Running, 2, 0, 0),
                               Task(Running, 3, 2, 0), Task(Zombie, 4, 3, 0)],
                  [InWait, InUser, InUser, InUser, InUser], 1, 0)
  {
    hide Do, Enabled, Looks, IsRun;
    var t3, a3 := [Task(Running, 0, 0, 0), Task(Running, 1, 0, 0), Task(Running, 2, 0, 0)], [InUser, InUser, InUser];
    BootLooks(n);
    ss, acts := ForkRun([Boot(n)], [], t3, a3, 2);
    var t4, a4 := t3 + [Task(Running, 3, 2, 0)], a3 + [InUser];
    ss, acts := PreemptRun(ss, acts, t4, a4, 2, 0);
    ss, acts := ForkRun(ss, acts, t4, a4, 3);
    var t5, a5 := t4 + [Task(Running, 4, 3, 0)], a4 + [InUser];
    ss, acts := PreemptRun(ss, acts, t5, a5, 3, 0);
    RunIs(ss, acts);
    ExitLooks(ss[|acts|], t5, a5, 0);
    var t := t5[4 := Task(Zombie, 4, 3, 0)];
    LooksShape(Do(ss[|acts|], Exit), t, a5, 0, 0);
    ss, acts := StepMore(ss, acts, Exit);
    RunIs(ss, acts);
    WaitLooks(ss[|acts|], t, a5, 0);
    LooksShape(Do(ss[|acts|], CallWait), t[0 := t[0].(state := Wait)], a5[0 := InWait], 1, 0);
    ss, acts := StepMore(ss, acts, CallWait);
    assert t[0 := t[0].(state := Wait)] ==
           [Task(Wait, 0, 0, 0), Task(Running, 1, 0, 0), Task(Running, 2, 0, 0), Task(Running, 3, 2, 0),
            Task(Zombie, 4, 3, 0)];
    assert a5[0 := InWait] == [InWait, InUser, InUser, InUser, InUser];
  }

  /** Two children of 2 sleep in `read_input`, and 2 runs. */
  lemma TwoSleep(n: nat) returns (ss: seq<Procs>, acts: seq<Action>)
    requires n >= 5
    ensures IsRun(ss, acts) && |ss| == |acts| + 1 && ss[0] == Boot(n)
    ensures Looks(ss[|acts|], [Task(Running, 0, 0, 0), Task(Running, 1, 0, 0), Task(Running, 2, 0, 0),
                               Task(Sleeping, 3, 2, 0), Task(Sleeping, 4, 2, 0)],
                  [InUser, InUser, InUser, InRead, InRead], 2, 0)
  {
    hide Do, Enabled, Looks, IsRun;
    var t3, a3 := [Task(Running, 0, 0, 0), Task(Running, 1, 0, 0), Task(Running, 2, 0, 0)], [InUser, InUser, InUser];
    BootLooks(n);
    ss, acts := ForkRun([Boot(n)], [], t3, a3, 2);
    var t4, a4 := t3 + [Task(Running, 3, 2, 0)], a3 + [InUser];
    ss, acts := ForkRun(ss, acts, t4, a4, 2);
    var t5, a5 := t4 + [Task(Running, 4, 2, 0)], a4 + [InUser];
    ss, acts := PreemptRun(ss, acts, t5, a5, 2, 0);
    ss, acts := ReadRun(ss, acts, t5, a5, 3, 4);
    var t6, a6 := t5[3 := Task(Sleeping, 3, 2, 0)], a5[3 := InRead];
    ss, acts := ReadRun(ss, acts, t6, a6, 4, 0);
    var t7, a7 := t6[4 := Task(Sleeping, 4, 2, 0)], a6[4 := InRead];
    ss, acts := PreemptRun(ss, acts, t7, a7, 0, 0);
    ss, acts := PreemptRun(ss, acts, t7, a7, 1, 0);
    assert t7 == [Task(Running, 0, 0, 0), Task(Running, 1, 0, 0), Task(Running, 2, 0, 0), Task(Sleeping, 3, 2, 0),
                  Task(Sleeping, 4, 2, 0)];
    assert a7 == [InUser, InUser, InUser, InRead, InRead];
  }

  /** A reader can be left asleep with a line for it, in every table with room for five processes: 3 and
      4 sleep, Enter wakes 3, and 2 kills 3 before it has read. */
  lemma ReaderStranded(n: nat) returns (ss: seq<Procs>, acts: seq<Action>)
    requires n >= 5
    ensures IsRun(ss, acts) && ss[0] == Boot(n) && Inv(Boot(n)) && !ReadersOk(ss[|acts|])
  {
    hide Do, Enabled, Inv, Looks, IsRun, Shape, ReadersOk;
    BootOk(n);
    ss, acts := TwoSleep(n);
    var t := [Task(Running, 0, 0, 0), Task(Running, 1, 0, 0), Task(Running, 2, 0, 0), Task(Sleeping, 3, 2, 0),
              Task(Sleeping, 4, 2, 0)];
    var at := [InUser, InUser, InUser, InRead, InRead];
    RunIs(ss, acts);
    NewLineEnabled(ss[|acts|]);
    NewLineLooks(ss[|acts|], t, at, 2, 0, 3);
    var t' := t[3 := Task(Running, 3, 2, 0)];
    LooksShape(Do(ss[|acts|], NewLine), t', at, 2, 1);
    ss, acts := StepMore(ss, acts, NewLine);
    RunIs(ss, acts);
    RunOk(ss, acts);
    StrandLooks(ss[|acts|], t', at);
    ss, acts := StepMore(ss, acts, Kill(3));
    RunIs(ss, acts);
  }

  lemma NewLineEnabled(s: Procs)
    requires Shape(s)
    ensures Enabled(s, NewLine)
  {
  }

  lemma StrandLooks(s: Procs, t: seq<Task>, at: seq<Place>)
    requires Inv(s) && Looks(s, t, at, 2, 1) && at == [InUser, InUser, InUser, InRead, InRead]
    requires t == [Task(Running, 0, 0, 0), Task(Running, 1, 0, 0), Task(Running, 2, 0, 0), Task(Running, 3, 2, 0),
                   Task(Sleeping, 4, 2, 0)]
    ensures Enabled(s, Kill(3)) && Shape(Do(s, Kill(3))) && !ReadersOk(Do(s, Kill(3)))
  {
    hide Inv;
    SlotsOf(s, t, at, 2, 1);
    assert Woken(s) == {3};
    assert s.q[4].state == Sleeping;
    StepReaders(s, Kill(3));
  }
}

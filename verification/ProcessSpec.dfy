/**
 The process table of sys/process.c and the scheduler of sys/proc_man.c as a step system.

 A step is one stretch of kernel code between two points where another process can run: a
 system call up to its `yield`, what it does when it is scheduled again, or an interrupt.
 */
module ProcessSpec {
  import opened Wrappers

  datatype Status = Running | Sleeping | Zombie | Idle | Ready | Wait | Suspended

  /** A slot of the table; `time` is the number of seconds that a sleep still lasts. */
  datatype Task = Task(state: Status, pid: nat, ppid: nat, time: nat)

  /** Where a process is in the kernel.  `InWaitpid` remembers which life of slot `child` is
      waited for and whether it was a child of the caller. */
  datatype Place = InUser | InWait | InWaitpid(child: nat, life: nat, own: bool) | InRead | InSleep

  datatype Procs = Procs(
    q: seq<Task>,
    r: nat,
    lines: nat,          // complete lines in the terminal buffer
    at: seq<Place>,      // where each process is
    born: seq<nat>,      // when the current life of a slot began
    clock: nat,
    lives: seq<nat>,     // lives begun in a slot
    reaps: seq<nat>)     // address spaces of a slot torn down

  // ----- the scheduler -----

  /** The scan of `yield`: the first running process from `i` on, or `last` itself. */
  function Scan(q: seq<Task>, last: nat, i: nat): (j: nat)
    requires last < |q| && i < |q|
    ensures j < |q| && (j == last || q[j].state == Running)
    ensures forall k | 0 <= k < |q| && q[k].state == Running && k != last &&
                       Around(|q|, k, last) <= Around(|q|, i, last) ::
              Around(|q|, k, last) <= Around(|q|, j, last)
    ensures Around(|q|, j, last) <= Around(|q|, i, last)
    decreases Around(|q|, i, last)
  {
    if i == last || q[i].state == Running then i else Scan(q, last, Succ(|q|, i))
  }

  function NextRunning(q: seq<Task>, last: nat): nat
    requires last < |q|
  {
    Scan(q, last, Succ(|q|, last))
  }

  /** Yields until slot `i` has its turn, if it is running and others may be. */
  function Turns(n: nat, r: nat, i: nat): nat
    requires r < n && i < n
  {
    if r == i then n else Around(n, r, i)
  }

  /** A running process is chosen, or comes strictly nearer in the circle. */
  lemma YieldCloser(q: seq<Task>, r: nat, i: nat)
    requires r < |q| && i < |q| && q[i].state == Running
    ensures var j := NextRunning(q, r); j < |q| && q[j].state == Running
    ensures NextRunning(q, r) == i || Turns(|q|, NextRunning(q, r), i) < Turns(|q|, r, i)
  {
    var j := NextRunning(q, r);
    if i == r {
      assert j == r || q[j].state == Running;
    } else {
      assert Around(|q|, i, r) <= Around(|q|, Succ(|q|, r), r);
    }
  }

  /** Bounded round robin: whatever the others do, a process that stays running is chosen within
      as many consecutive yields as there are slots. */
  lemma {:induction false} BoundedRoundRobin(qs: seq<seq<Task>>, rs: seq<nat>, n: nat, i: nat)
    requires |rs| == |qs| + 1 && i < n
    requires forall k | 0 <= k < |qs| :: |qs[k]| == n && qs[k][i].state == Running
    requires forall k | 0 <= k < |rs| :: rs[k] < n
    requires forall k | 0 <= k < |qs| :: rs[k + 1] == NextRunning(qs[k], rs[k])
    requires |qs| >= Turns(n, rs[0], i)
    ensures exists k | 0 < k <= Turns(n, rs[0], i) :: k < |rs| && rs[k] == i
    ensures Turns(n, rs[0], i) <= n
    decreases |qs|
  {
    YieldCloser(qs[0], rs[0], i);
    assert rs[1] == NextRunning(qs[0], rs[0]);
    if rs[1] != i {
      assert forall k | 0 <= k < |qs| - 1 :: qs[1..][k] == qs[k + 1] && rs[1..][k] == rs[k + 1];
      assert forall k | 0 <= k < |rs| - 1 :: rs[1..][k] == rs[k + 1];
      BoundedRoundRobin(qs[1..], rs[1..], n, i);
      var k :| 0 < k <= Turns(n, rs[1], i) && k < |rs[1..]| && rs[1..][k] == i;
      assert rs[k + 1] == i;
    }
  }

  // ----- pieces of the system calls -----

  function Set(q: seq<Task>, i: nat, st: Status): seq<Task>
    requires i < |q|
  {
    q[i := q[i].(state := st)]
  }

  /** Every child of `p` becomes a child of init. */
  function Reparent(q: seq<Task>, p: nat): (s: seq<Task>)
    ensures |s| == |q|
  {
    seq(|q|, i requires 0 <= i < |q| => if q[i].ppid == p then q[i].(ppid := 0) else q[i])
  }

  /** A waiting process is made runnable. */
  function Wake(q: seq<Task>, p: nat): (s: seq<Task>)
    ensures |s| == |q|
  {
    if p < |q| && q[p].state == Wait then Set(q, p, Running) else q
  }

  /** `exit` and `kill`: process `p` becomes a zombie, its children go to init, its parent wakes. */
  function Die(q: seq<Task>, p: nat): (s: seq<Task>)
    requires p < |q|
    ensures |s| == |q|
  {
    var orphaned := Reparent(Set(q, p, Zombie), p);
    Wake(orphaned, orphaned[p].ppid)
  }

  predicate IsZombieOf(t: Task, p: nat) { t.ppid == p && t.state == Zombie }

  /** The scan of `wait`: the lowest zombie child of `p` from slot `i` on. */
  function FindZombie(q: seq<Task>, p: nat, i: nat): (z: Option<nat>)
    requires i <= |q|
    ensures z.Some? ==> i <= z.value < |q| && IsZombieOf(q[z.value], p)
    ensures forall k | i <= k < |q| && (z.None? || k < z.value) :: !IsZombieOf(q[k], p)
    decreases |q| - i
  {
    if i == |q| then None
    else if IsZombieOf(q[i], p) then Some(i)
    else FindZombie(q, p, i + 1)
  }

  /** The scan of `newPID`: the lowest free slot from `i` on. */
  function FindReady(q: seq<Task>, i: nat): (z: Option<nat>)
    requires i <= |q|
    ensures z.Some? ==> i <= z.value < |q| && q[z.value].state == Ready
    ensures forall k | i <= k < |q| && (z.None? || k < z.value) :: q[k].state != Ready
    decreases |q| - i
  {
    if i == |q| then None else if q[i].state == Ready then Some(i) else FindReady(q, i + 1)
  }

  /** The scan of `wake_process`: the lowest sleeping process from `i` on. */
  function FindSleeper(q: seq<Task>, i: nat): (z: Option<nat>)
    requires i <= |q|
    ensures z.Some? ==> i <= z.value < |q| && q[z.value].state == Sleeping
    ensures forall k | i <= k < |q| && (z.None? || k < z.value) :: q[k].state != Sleeping
    decreases |q| - i
  {
    if i == |q| then None else if q[i].state == Sleeping then Some(i) else FindSleeper(q, i + 1)
  }

  // ----- the steps -----

  datatype Action =
    | Fork | Exit | Kill(pid: nat)
    | CallWait | ResumeWait
    | CallWaitpid(child: nat) | ResumeWaitpid
    | CallSleep(seconds: nat) | ResumeSleep
    | CallRead | ResumeRead
    | MissLine                    // a reader finds a line counted but none in the buffer
    | NewLine                     // the keyboard interrupt for Enter
    | Tick                        // the timer, once a second
    | Preempt                     // the timer, or idle, gives the processor away

  ghost predicate Shape(s: Procs) {
    && |s.q| == |s.at| == |s.born| == |s.lives| == |s.reaps| >= 3
    && s.r < |s.q|
  }

  /** Init is slot 0, idle slot 1; idle only yields and init only waits. */
  ghost predicate Enabled(s: Procs, a: Action)
    requires Shape(s)
  {
    var here := s.at[s.r];
    match a
    case Fork => here == InUser && s.r >= 2 && FindReady(s.q, 0).Some?
    case Exit => here == InUser && s.r >= 2
    case Kill(p) => here == InUser && s.r >= 2 && 2 <= p < |s.q| && p != s.r && s.q[p].state !in {Ready, Zombie}
    case CallWait => here == InUser && s.r != 1
    case ResumeWait => here == InWait
    case CallWaitpid(c) => here == InUser && s.r >= 2 && c < |s.q|
    case ResumeWaitpid => here.InWaitpid?
    case CallSleep(_) => here == InUser && s.r >= 2
    case ResumeSleep => here == InSleep
    case CallRead => here == InUser && s.r >= 2
    case ResumeRead => here == InRead
    case MissLine => (here == InUser || here == InRead) && s.r >= 2 && s.lines > 0
    case NewLine => true
    case Tick => true
    case Preempt => here == InUser
  }

  /** The running process is in `waitpid` for slot `c`. */
  ghost predicate WaitsFor(s: Procs, c: nat) {
    s.r < |s.at| && s.at[s.r].InWaitpid? && s.at[s.r].child == c
  }

  function Yielded(s: Procs): Procs
    requires s.r < |s.q|
  {
    s.(r := NextRunning(s.q, s.r))
  }

  /** `removeProcess` and the slot is free again. */
  function Reaped(s: Procs, i: nat): Procs
    requires i < |s.q| && i < |s.reaps| && s.r < |s.at|
  {
    s.(q := Set(s.q, i, Ready), reaps := s.reaps[i := s.reaps[i] + 1], at := s.at[s.r := InUser])
  }

  /** Goes to state `st` at `place` and gives the processor away. */
  function Blocked(s: Procs, st: Status, place: Place): Procs
    requires s.r < |s.q| && s.r < |s.at|
  {
    Yielded(s.(q := Set(s.q, s.r, st), at := s.at[s.r := place]))
  }

  function Forked(s: Procs, c: nat): Procs
    requires c < |s.q| && c < |s.at| && c < |s.born| && c < |s.lives|
  {
    s.(q := s.q[c := Task(Running, c, s.r, s.q[c].time)],
       at := s.at[c := InUser],
       born := s.born[c := s.clock],
       clock := s.clock + 1,
       lives := s.lives[c := s.lives[c] + 1])
  }

  function Waiting(s: Procs): Procs
    requires s.r < |s.q| && s.r < |s.at| && |s.reaps| == |s.q|
  {
    var z := FindZombie(s.q, s.r, 0);
    if z.Some? then Reaped(s, z.value) else Blocked(s, Wait, InWait)
  }

  function Reading(s: Procs): Procs
    requires s.r < |s.q| && s.r < |s.at|
  {
    if s.lines > 0
    then s.(lines := s.lines - 1, q := Set(s.q, s.r, Running), at := s.at[s.r := InUser])
    else Blocked(s, Sleeping, InRead)
  }

  /** A reader that has been misled by the count stays running and tries again later. */
  function Missing(s: Procs): Procs
    requires s.r < |s.q| && s.r < |s.at|
  {
    Yielded(s.(at := s.at[s.r := InRead]))
  }

  /** `sleep`: for no seconds it returns at once. */
  function Slept(s: Procs, seconds: nat): Procs
    requires s.r < |s.q| && s.r < |s.at|
  {
    if seconds == 0 then s else Blocked(Timed(s, seconds), Suspended, InSleep)
  }

  function Timed(s: Procs, seconds: nat): Procs
    requires s.r < |s.q|
  {
    s.(q := s.q[s.r := s.q[s.r].(time := seconds)])
  }

  /** One second less to sleep, and awake when none is left. */
  function Aged(t: Task): Task {
    if t.state != Suspended then t
    else if t.time <= 1 then t.(state := Running, time := 0)
    else t.(time := t.time - 1)
  }

  function Ticked(q: seq<Task>): (s: seq<Task>)
    ensures |s| == |q|
  {
    seq(|q|, i requires 0 <= i < |q| => Aged(q[i]))
  }

  ghost function Do(s: Procs, a: Action): Procs
    requires Shape(s) && Enabled(s, a)
  {
    match a
    case Fork => Forked(s, FindReady(s.q, 0).value)
    case Exit => Yielded(s.(q := Die(s.q, s.r)))
    case Kill(p) => s.(q := Die(s.q, p))
    case CallWait => Waiting(s)
    case ResumeWait => Waiting(s)
    case CallWaitpid(c) =>
      if IsZombieOf(s.q[c], s.r) then Reaped(s, c)
      else Blocked(s, Wait, InWaitpid(c, s.lives[c], s.q[c].ppid == s.r && s.q[c].state != Ready))
    case ResumeWaitpid =>
      var c := s.at[s.r].child;
      if c < |s.q| && IsZombieOf(s.q[c], s.r) then Reaped(s, c) else Yielded(s)
    case CallSleep(n) => Slept(s, n)
    case ResumeSleep => s.(at := s.at[s.r := InUser])
    case CallRead => Reading(s)
    case ResumeRead => Reading(s)
    case MissLine => Missing(s)
    case NewLine =>
      var z := FindSleeper(s.q, 0);
      s.(lines := s.lines + 1, q := if z.Some? then Set(s.q, z.value, Running) else s.q)
    case Tick => s.(q := Ticked(s.q))
    case Preempt => Yielded(s)
  }

  // ----- the invariant -----

  /** No process has a free slot or a zombie for parent, and parents are older. */
  ghost predicate Forest(s: Procs)
    requires Shape(s)
  {
    && s.q[0].ppid == 0 && s.born[0] == 0 && s.clock > 0
    && (forall i | 0 <= i < |s.q| :: s.born[i] < s.clock)
    && (forall i | 0 <= i < |s.q| && s.q[i].state != Ready ::
          && s.q[i].pid == i && s.q[i].ppid < |s.q|
          && s.q[s.q[i].ppid].state !in {Ready, Zombie}
          && (i != 0 ==> s.born[s.q[i].ppid] < s.born[i]))
  }

  /** States agree with where processes are; init and idle are alive. */
  ghost predicate Places(s: Procs)
    requires Shape(s)
  {
    && s.q[s.r].state == Running
    && s.q[1].state == Running && s.at[1] == InUser
    && s.q[0].state in {Running, Wait} && s.at[0] in {InUser, InWait}
    && (forall i | 0 <= i < |s.q| ::
          && (s.q[i].state == Wait ==> s.at[i] == InWait || s.at[i].InWaitpid?)
          && (s.q[i].state == Sleeping ==> s.at[i] == InRead)
          && (s.q[i].state == Suspended ==> s.at[i] == InSleep)
          && s.q[i].state != Idle)
  }

  /** No lost wakeup: nobody but init waits for a child that is already a zombie. */
  ghost predicate NoLostWakeup(s: Procs)
    requires Shape(s)
  {
    && (forall i, j | 0 < i < |s.q| && 0 <= j < |s.q| && s.q[i].state == Wait && s.at[i] == InWait ::
          !IsZombieOf(s.q[j], i))
    && (forall i | 0 < i < |s.q| && s.q[i].state == Wait && s.at[i].InWaitpid? && s.at[i].child < |s.q| ::
          !IsZombieOf(s.q[s.at[i].child], i))
  }

  /** While a process is in `waitpid` for its own child, that child is in the same life. */
  ghost predicate SameLife(s: Procs)
    requires Shape(s)
  {
    forall i | 0 <= i < |s.q| && s.q[i].state !in {Ready, Zombie} && s.at[i].InWaitpid? && s.at[i].own ::
      var c := s.at[i].child;
      c < |s.q| && s.q[c].ppid == i && s.q[c].state != Ready && s.lives[c] == s.at[i].life
  }

  /** Every life of a slot is torn down exactly once, when it is over. */
  ghost predicate ReapedOnce(s: Procs)
    requires Shape(s)
  {
    forall i | 0 <= i < |s.q| :: s.lives[i] == s.reaps[i] + if s.q[i].state == Ready then 0 else 1
  }

  ghost predicate Inv(s: Procs) {
    Shape(s) && Forest(s) && Places(s) && NoLostWakeup(s) && SameLife(s) && ReapedOnce(s)
  }

  // ----- every step keeps it -----

  lemma YieldedOk(s: Procs)
    requires Shape(s) && Forest(s) && NoLostWakeup(s) && SameLife(s) && ReapedOnce(s)
    requires Places(s.(r := 1))
    ensures Inv(Yielded(s))
  {
    YieldCloser(s.q, s.r, 1);
  }

  lemma ForkedForest(s: Procs, c: nat)
    requires Shape(s) && Forest(s) && c < |s.q| && s.q[c].state == Ready && s.q[s.r].state == Running && c >= 2
    ensures Shape(Forked(s, c)) && Forest(Forked(s, c))
  {
  }

  lemma ForkedPlaces(s: Procs, c: nat)
    requires Shape(s) && Places(s) && c < |s.q| && s.q[c].state == Ready
    ensures c >= 2 && Shape(Forked(s, c)) && Places(Forked(s, c))
  {
  }

  lemma ForkedWakeup(s: Procs, c: nat)
    requires Shape(s) && NoLostWakeup(s) && c < |s.q| && s.q[c].state == Ready
    ensures Shape(Forked(s, c)) && NoLostWakeup(Forked(s, c))
  {
  }

  lemma ForkedLife(s: Procs, c: nat)
    requires Shape(s) && SameLife(s) && ReapedOnce(s) && c < |s.q| && s.q[c].state == Ready
    ensures Shape(Forked(s, c)) && SameLife(Forked(s, c)) && ReapedOnce(Forked(s, c))
  {
  }

  lemma ForkedOk(s: Procs, c: nat)
    requires Inv(s) && c < |s.q| && s.q[c].state == Ready
    ensures Inv(Forked(s, c))
  {
    Runs(s);
    hide Forest, Places, NoLostWakeup, SameLife, ReapedOnce;
    ForkedPlaces(s, c);
    ForkedForest(s, c);
    ForkedWakeup(s, c);
    ForkedLife(s, c);
  }

  /** What dying does to each slot. */
  lemma DieAt(q: seq<Task>, p: nat)
    requires p < |q| && q[p].ppid != p
    ensures forall i | 0 <= i < |q| ::
              Die(q, p)[i] == Task(if i == p then Zombie
                                   else if i == q[p].ppid && q[i].state == Wait then Running
                                   else q[i].state,
                                   q[i].pid,
                                   if q[i].ppid == p then 0 else q[i].ppid,
                                   q[i].time)
  {
  }

  ghost predicate CanDie(s: Procs, p: nat)
    requires Shape(s)
  {
    2 <= p < |s.q| && s.q[p].state !in {Ready, Zombie} && s.q[p].ppid != p && s.q[p].ppid < |s.q|
  }

  lemma DieForest(s: Procs, p: nat)
    requires Shape(s) && CanDie(s, p) && Forest(s) && s.q[0].state in {Running, Wait}
    ensures var s' := s.(q := Die(s.q, p)); Shape(s') && Forest(s')
  {
    hide Die;
    DieAt(s.q, p);
  }

  lemma DiePlaces(s: Procs, p: nat)
    requires Shape(s) && CanDie(s, p) && Places(s)
    ensures var s' := s.(q := Die(s.q, p)); Shape(s') && Places(s'.(r := 1)) && (p != s.r ==> Places(s'))
  {
    hide Die;
    DieAt(s.q, p);
  }

  lemma DieWakeup(s: Procs, p: nat)
    requires Shape(s) && CanDie(s, p) && NoLostWakeup(s)
    ensures var s' := s.(q := Die(s.q, p)); Shape(s') && NoLostWakeup(s')
  {
    hide Die;
    DieAt(s.q, p);
  }

  lemma DieLife(s: Procs, p: nat)
    requires Shape(s) && CanDie(s, p) && SameLife(s) && ReapedOnce(s)
    ensures var s' := s.(q := Die(s.q, p)); Shape(s') && SameLife(s') && ReapedOnce(s')
  {
    hide Die;
    DieAt(s.q, p);
  }

  lemma Parent(s: Procs, i: nat)
    requires Inv(s) && 0 < i < |s.q| && s.q[i].state != Ready
    ensures s.q[i].ppid != i && s.q[i].ppid < |s.q| && s.q[0].state in {Running, Wait}
  {
  }

  lemma DieOk(s: Procs, p: nat)
    requires Inv(s) && 2 <= p < |s.q| && s.q[p].state !in {Ready, Zombie}
    ensures var s' := s.(q := Die(s.q, p));
            && Shape(s') && Forest(s') && NoLostWakeup(s') && SameLife(s') && ReapedOnce(s')
            && Places(s'.(r := 1)) && (p != s.r ==> Places(s'))
  {
    Parent(s, p);
    hide Forest, Places, NoLostWakeup, SameLife, ReapedOnce, Die;
    DieForest(s, p);
    DiePlaces(s, p);
    DieWakeup(s, p);
    DieLife(s, p);
  }

  lemma ReapedForest(s: Procs, i: nat)
    requires Shape(s) && Forest(s) && i < |s.q| && s.q[i].state == Zombie
    ensures Shape(Reaped(s, i)) && Forest(Reaped(s, i))
  {
  }

  lemma ReapedWakeup(s: Procs, i: nat)
    requires Shape(s) && NoLostWakeup(s) && i < |s.q| && s.q[s.r].state == Running && s.q[i].state == Zombie
    ensures Shape(Reaped(s, i)) && NoLostWakeup(Reaped(s, i))
  {
  }

  lemma ReapedLife(s: Procs, i: nat)
    requires Shape(s) && SameLife(s) && ReapedOnce(s) && i < |s.q| && IsZombieOf(s.q[i], s.r)
    requires s.q[s.r].state == Running
    ensures Shape(Reaped(s, i)) && SameLife(Reaped(s, i)) && ReapedOnce(Reaped(s, i))
  {
  }

  lemma ReapedPlaces(s: Procs, i: nat)
    requires Shape(s) && Places(s) && i < |s.q| && s.q[i].state == Zombie
    ensures Shape(Reaped(s, i)) && Places(Reaped(s, i))
  {
  }

  lemma ReapedOk(s: Procs, i: nat)
    requires Inv(s) && i < |s.q| && IsZombieOf(s.q[i], s.r)
    ensures Inv(Reaped(s, i))
  {
    Runs(s);
    hide Forest, Places, NoLostWakeup, SameLife, ReapedOnce;
    ReapedForest(s, i);
    ReapedWakeup(s, i);
    ReapedLife(s, i);
    ReapedPlaces(s, i);
  }

  // Steps in which nobody is born, dies or is reaped.

  ghost predicate SameFamilies(s: Procs, s': Procs)
    requires Shape(s)
  {
    && Shape(s') && |s'.q| == |s.q|
    && s'.born == s.born && s'.clock == s.clock && s'.lives == s.lives && s'.reaps == s.reaps
    && (forall i | 0 <= i < |s.q| ::
          && s'.q[i].pid == s.q[i].pid && s'.q[i].ppid == s.q[i].ppid
          && (s'.q[i].state == Ready <==> s.q[i].state == Ready)
          && (s'.q[i].state == Zombie <==> s.q[i].state == Zombie))
  }

  lemma SameForest(s: Procs, s': Procs)
    requires Shape(s) && Forest(s) && SameFamilies(s, s')
    ensures Forest(s')
  {
  }

  /** What holds when a process is at `place` because it blocked there, with nothing missed. */
  ghost predicate NothingMissed(s: Procs, i: nat, place: Place)
    requires Shape(s)
  {
    match place
    case InWait => forall k | 0 <= k < |s.q| :: !IsZombieOf(s.q[k], i)
    case InWaitpid(c, life, own) =>
      && c < |s.q| && !IsZombieOf(s.q[c], i)
      && (own ==> s.q[c].ppid == i && s.q[c].state != Ready && s.lives[c] == life)
    case _ => true
  }

  lemma SameWakeup(s: Procs, s': Procs)
    requires Shape(s) && NoLostWakeup(s) && SameFamilies(s, s')
    requires forall i | 0 <= i < |s.q| ::
               || (s'.at[i] == s.at[i] && (s'.q[i].state == Wait ==> s.q[i].state == Wait))
               || NothingMissed(s, i, s'.at[i])
    requires forall i | 0 <= i < |s.q| && s'.q[i].state == Wait :: s'.at[i] == InWait || s'.at[i].InWaitpid?
    ensures NoLostWakeup(s')
  {
  }

  lemma SameLives(s: Procs, s': Procs)
    requires Shape(s) && SameLife(s) && ReapedOnce(s) && SameFamilies(s, s')
    requires forall i | 0 <= i < |s.q| :: s'.at[i] == s.at[i] || NothingMissed(s, i, s'.at[i])
    ensures SameLife(s') && ReapedOnce(s')
  {
  }

  /** The running process stops in state `st` at `place`. */
  ghost predicate MayBlock(s: Procs, st: Status, place: Place)
    requires Shape(s)
  {
    && NothingMissed(s, s.r, place)
    && match place
       case InRead => st == Sleeping
       case InSleep => st == Suspended
       case InUser => false
       case _ => st == Wait
  }

  lemma BlockedPlaces(s: Procs, st: Status, place: Place)
    requires Shape(s) && Places(s) && MayBlock(s, st, place) && s.r != 1 && (s.r == 0 ==> place == InWait)
    ensures var s' := s.(q := Set(s.q, s.r, st), at := s.at[s.r := place]);
            SameFamilies(s, s') && Places(s'.(r := 1))
  {
  }

  lemma BlockedOk(s: Procs, st: Status, place: Place)
    requires Inv(s) && s.r != 1 && (s.r == 0 ==> place == InWait) && MayBlock(s, st, place)
    ensures Inv(Blocked(s, st, place))
  {
    Runs(s);
    var s' := s.(q := Set(s.q, s.r, st), at := s.at[s.r := place]);
    WaitPlaces(s'.(r := 1), s, st, place);
    hide Forest, Places, NoLostWakeup, SameLife, ReapedOnce, SameFamilies, NothingMissed;
    BlockedPlaces(s, st, place);
    SameForest(s, s');
    SameWakeup(s, s');
    SameLives(s, s');
    YieldedOk(s');
  }

  lemma WaitPlaces(t: Procs, s: Procs, st: Status, place: Place)
    requires Shape(s) && Places(s) && MayBlock(s, st, place)
    requires t == s.(q := Set(s.q, s.r, st), at := s.at[s.r := place], r := 1)
    ensures forall i | 0 <= i < |t.q| && t.q[i].state == Wait :: t.at[i] == InWait || t.at[i].InWaitpid?
  {
  }

  /** Made running again: a woken reader or a sleep that is over. */
  ghost predicate Resumed(s: Procs, s': Procs)
    requires Shape(s)
  {
    && |s'.q| == |s.q| && s' == s.(q := s'.q, lines := s'.lines)
    && forall i | 0 <= i < |s.q| ::
         && s'.q[i] == s.q[i].(state := s'.q[i].state, time := s'.q[i].time)
         && (s'.q[i].state == s.q[i].state || (s.q[i].state in {Sleeping, Suspended} && s'.q[i].state == Running))
  }

  lemma ResumedPlaces(s: Procs, s': Procs)
    requires Shape(s) && Places(s) && Resumed(s, s')
    ensures SameFamilies(s, s') && Places(s')
  {
  }

  lemma ResumedOk(s: Procs, s': Procs)
    requires Inv(s) && Resumed(s, s')
    ensures Inv(s')
  {
    ResumedPlaces(s, s');
    ResumedWaits(s, s');
    hide Forest, Places, NoLostWakeup, SameLife, ReapedOnce, SameFamilies, NothingMissed, Resumed;
    SameForest(s, s');
    SameWakeup(s, s');
    SameLives(s, s');
  }

  lemma ResumedWaits(s: Procs, s': Procs)
    requires Shape(s) && Places(s) && Resumed(s, s')
    ensures s'.at == s.at && s'.r == s.r && Shape(s')
    ensures forall i | 0 <= i < |s.q| && s'.q[i].state == Wait ::
              s.q[i].state == Wait && (s'.at[i] == InWait || s'.at[i].InWaitpid?)
  {
  }

  lemma ReturnedPlaces(s: Procs, place: Place)
    requires Shape(s) && Places(s) && (place == InUser || (place == InRead && s.r >= 2))
    ensures var s' := s.(at := s.at[s.r := place]); SameFamilies(s, s') && Places(s')
    ensures forall i | 0 <= i < |s.q| && s.q[i].state == Wait :: i != s.r && (s.at[i] == InWait || s.at[i].InWaitpid?)
  {
  }

  /** A running process goes back to its program, or on reading. */
  lemma ReturnedOk(s: Procs, place: Place)
    requires Inv(s) && (place == InUser || (place == InRead && s.r >= 2))
    ensures Inv(s.(at := s.at[s.r := place]))
  {
    var s' := s.(at := s.at[s.r := place]);
    ReturnedPlaces(s, place);
    hide Forest, Places, NoLostWakeup, SameLife, ReapedOnce, SameFamilies;
    SameForest(s, s');
    SameWakeup(s, s');
    SameLives(s, s');
  }

  lemma WaitingOk(s: Procs)
    requires Inv(s) && s.r != 1
    ensures Inv(Waiting(s))
  {
    hide Forest, Places, NoLostWakeup, SameLife, ReapedOnce;
    var z := FindZombie(s.q, s.r, 0);
    if z.Some? { ReapedOk(s, z.value); } else { BlockedOk(s, Wait, InWait); }
  }

  lemma LinesOk(s: Procs, lines: nat)
    requires Inv(s)
    ensures Inv(s.(lines := lines))
  {
    ResumedOk(s, s.(lines := lines));
  }

  /** A line is there: the reader takes it and goes on. */
  lemma LineRead(s: Procs)
    requires Shape(s) && s.lines > 0 && s.q[s.r].state == Running
    ensures Reading(s) == s.(lines := s.lines - 1, at := s.at[s.r := InUser])
  {
    assert Set(s.q, s.r, Running) == s.q;
  }

  lemma ReadingOk(s: Procs)
    requires Inv(s) && s.r >= 2
    ensures Inv(Reading(s))
  {
    hide Inv, Shape, Places, Blocked, Set;
    InvShape(s);
    Runs(s);
    if s.lines == 0 {
      BlockedOk(s, Sleeping, InRead);
    } else {
      LineRead(s);
      LinesOk(s, s.lines - 1);
      ReturnedOk(s.(lines := s.lines - 1), InUser);
    }
  }

  lemma MissingOk(s: Procs)
    requires Inv(s) && s.r >= 2
    ensures Inv(Missing(s))
  {
    hide Forest, Places, NoLostWakeup, SameLife, ReapedOnce;
    ReturnedOk(s, InRead);
    PreemptOk(s.(at := s.at[s.r := InRead]));
  }

  lemma InvShape(s: Procs)
    requires Inv(s)
    ensures Shape(s) && s.r < |s.q| && s.r < |s.at|
  {
  }

  lemma NewLineOk(s: Procs)
    requires Inv(s)
    ensures Inv(Do(s, NewLine))
  {
    hide Forest, Places, NoLostWakeup, SameLife, ReapedOnce;
    ResumedOk(s, Do(s, NewLine));
  }

  lemma TickOk(s: Procs)
    requires Inv(s)
    ensures Inv(Do(s, Tick))
  {
    hide Forest, Places, NoLostWakeup, SameLife, ReapedOnce;
    ResumedOk(s, Do(s, Tick));
  }

  lemma SleptOk(s: Procs, seconds: nat)
    requires Inv(s) && s.r >= 2
    ensures Inv(Slept(s, seconds))
  {
    hide Forest, Places, NoLostWakeup, SameLife, ReapedOnce, Blocked;
    if seconds > 0 {
      ResumedOk(s, Timed(s, seconds));
      BlockedOk(Timed(s, seconds), Suspended, InSleep);
    }
  }

  lemma WaitpidOk(s: Procs, c: nat)
    requires Inv(s) && Enabled(s, CallWaitpid(c))
    ensures Inv(Do(s, CallWaitpid(c)))
  {
    hide Forest, Places, NoLostWakeup, SameLife, ReapedOnce;
    if IsZombieOf(s.q[c], s.r) { ReapedOk(s, c); }
    else { BlockedOk(s, Wait, InWaitpid(c, s.lives[c], s.q[c].ppid == s.r && s.q[c].state != Ready)); }
  }

  lemma WaitpidAgainOk(s: Procs)
    requires Inv(s) && Enabled(s, ResumeWaitpid)
    ensures Inv(Do(s, ResumeWaitpid))
  {
    hide Inv, Reaped, Yielded;
    InvShape(s);
    var c := s.at[s.r].child;
    if c < |s.q| && IsZombieOf(s.q[c], s.r) { ReapedOk(s, c); } else { PreemptOk(s); }
  }

  /** The process that runs is running, and only idle and init have places of their own. */
  lemma Runs(s: Procs)
    requires Inv(s)
    ensures s.q[s.r].state == Running
    ensures s.at[s.r] == InWait ==> s.r != 1
    ensures s.at[s.r] == InRead || s.at[s.r] == InSleep || s.at[s.r].InWaitpid? ==> s.r >= 2
    ensures Places(s.(r := 1))
  {
  }

  /** Every step keeps the invariant. */
  lemma StepOk(s: Procs, a: Action)
    requires Inv(s) && Enabled(s, a)
    ensures Inv(Do(s, a))
  {
    hide Inv, Places, Die, Yielded, Waiting, Reading, Missing, Blocked, Reaped, Forked, Slept, Ticked, NextRunning;
    InvShape(s);
    Runs(s);
    match a
    case Fork => ForkedOk(s, FindReady(s.q, 0).value);
    case Exit => ExitOk(s);
    case Kill(p) => KillOk(s, p);
    case CallWait => WaitingOk(s);
    case ResumeWait => WaitingOk(s);
    case CallWaitpid(c) => WaitpidOk(s, c);
    case ResumeWaitpid => WaitpidAgainOk(s);
    case CallSleep(n) => SleptOk(s, n);
    case ResumeSleep => ReturnedOk(s, InUser);
    case CallRead => ReadingOk(s);
    case ResumeRead => ReadingOk(s);
    case MissLine => MissingOk(s);
    case NewLine => NewLineOk(s);
    case Tick => TickOk(s);
    case Preempt => PreemptOk(s);
  }

  lemma ExitOk(s: Procs)
    requires Inv(s) && s.r >= 2
    ensures Inv(Yielded(s.(q := Die(s.q, s.r))))
  {
    hide Forest, Places, NoLostWakeup, SameLife, ReapedOnce, Die, Yielded;
    Runs(s);
    DieOk(s, s.r);
    YieldedOk(s.(q := Die(s.q, s.r)));
  }

  lemma KillOk(s: Procs, p: nat)
    requires Inv(s) && 2 <= p < |s.q| && p != s.r && s.q[p].state !in {Ready, Zombie}
    ensures Inv(s.(q := Die(s.q, p)))
  {
    hide Forest, Places, NoLostWakeup, SameLife, ReapedOnce, Die;
    DieOk(s, p);
  }

  lemma PreemptOk(s: Procs)
    requires Inv(s)
    ensures Inv(Yielded(s))
  {
    Runs(s);
    hide Forest, Places, NoLostWakeup, SameLife, ReapedOnce;
    YieldedOk(s);
  }
}

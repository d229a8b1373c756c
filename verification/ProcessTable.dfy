/**
 The process table `q` and the current process `r` as the kernel keeps them: an array updated
 slot by slot.  Each method is one step of the system in ProcessSpec.
 */
module ProcessTable {
  import opened Wrappers
  import opened ProcessSpec
  import opened ProcessRuns

  const MAX: nat := 1100

  lemma TickDone(s: Procs)
    requires Shape(s) && Enabled(s, ProcessSpec.Tick)
    ensures Do(s, ProcessSpec.Tick) == s.(q := Ticked(s.q))
  {
  }

  class Table {
    const q: array<Task>
    var r: nat
    var lines: nat
    /** Where each process is, and the history of each slot. */
    ghost var at: seq<Place>
    ghost var born: seq<nat>
    ghost var clock: nat
    ghost var lives: seq<nat>
    ghost var reaps: seq<nat>

    ghost function S(): Procs
      reads this, q
    {
      Procs(q[..], r, lines, at, born, clock, lives, reaps)
    }

    ghost predicate Valid()
      reads this, q
    {
      q.Length == MAX && Inv(S())
    }

    /** `init_proc`, then init, idle and the first user process. */
    constructor ()
      ensures Valid() && S() == Boot(MAX) && fresh(q)
    {
      q := new Task[MAX](_ => Task(Running, 0, 0, 0));
      r, lines, clock := 2, 0, 3;
      at, reaps := seq(MAX, _ => InUser), seq(MAX, _ => 0);
      born := seq(MAX, (i: nat) => if i < 3 then i else 0);
      lives := seq(MAX, (i: nat) => if i < 3 then 1 else 0);
      new;
      for i := 0 to MAX
        invariant forall k | 0 <= k < MAX :: q[k] == Task(if k < i then Ready else Running, 0, 0, 0)
        invariant r == 2 && lines == 0 && clock == 3
        invariant at == seq(MAX, _ => InUser) && reaps == seq(MAX, _ => 0)
        invariant born == seq(MAX, (i: nat) => if i < 3 then i else 0)
        invariant lives == seq(MAX, (i: nat) => if i < 3 then 1 else 0)
      {
        q[i] := q[i].(state := Ready);
      }
      for k := 0 to 3
        invariant forall j | 0 <= j < MAX ::
                    q[j] == if j < k then Task(Running, j, 0, 0) else Task(Ready, 0, 0, 0)
        invariant r == 2 && lines == 0 && clock == 3
        invariant at == seq(MAX, _ => InUser) && reaps == seq(MAX, _ => 0)
        invariant born == seq(MAX, (i: nat) => if i < 3 then i else 0)
        invariant lives == seq(MAX, (i: nat) => if i < 3 then 1 else 0)
      {
        assert q[..][k].state == Ready && forall j | 0 <= j < k :: q[..][j].state == Running;
        var pid := NewPid();
        q[pid] := Task(Running, pid, 0, 0);
      }
      assert q[..] == Boot(MAX).q;
      BootOk(MAX);
    }

    /** `newPID`: the lowest free slot, or -1. */
    method NewPid() returns (pid: int)
      ensures pid == -1 <==> FindReady(q[..], 0).None?
      ensures pid != -1 ==> 0 <= pid < q.Length && FindReady(q[..], 0) == Some(pid)
    {
      var i := 0;
      while i < q.Length
        invariant 0 <= i <= q.Length
        invariant FindReady(q[..], 0) == FindReady(q[..], i)
      {
        if q[i].state == Ready {
          return i;
        }
        i := i + 1;
      }
      return -1;
    }

    /** `yield`: round the table to the next running process. */
    method Yield()
      requires r < q.Length
      modifies this`r
      ensures r < q.Length && r == NextRunning(q[..], old(r))
    {
      var last := r;
      var i := (last + 1) % q.Length;
      assert i == Succ(q.Length, last);
      while i != last
        invariant 0 <= i < q.Length && Scan(q[..], last, i) == NextRunning(q[..], last)
        decreases Around(q.Length, i, last)
      {
        if q[i].state == Running {
          break;
        }
        assert Succ(q.Length, i) == (i + 1) % q.Length;
        i := (i + 1) % q.Length;
      }
      r := i;
    }

    /** The system calls and interrupts below are steps of the system. */
    method Fork() returns (pid: int)
      requires Valid() && Enabled(S(), ProcessSpec.Fork)
      modifies this, q
      ensures Valid() && S() == Do(old(S()), ProcessSpec.Fork)
      ensures 0 <= pid < MAX && old(q[pid].state) == Ready && q[pid] == Task(Running, pid, old(r), old(q[pid].time))
      ensures FindReady(old(q[..]), 0) == Some(pid) && r == old(r)
    {
      hide Inv;
      ghost var s := S();
      StepOk(s, ProcessSpec.Fork);
      InvShape(s);
      pid := NewPid();
      q[pid] := q[pid].(pid := pid);
      q[pid] := q[pid].(ppid := r);
      q[pid] := q[pid].(state := Running);
      at, born, lives := at[pid := InUser], born[pid := clock], lives[pid := lives[pid] + 1];
      clock := clock + 1;
      assert q[..] == s.q[pid := Task(Running, pid, r, s.q[pid].time)];
    }

    /** The body shared by `exit` and `kill`. */
    method MakeZombie(p: nat)
      requires p < q.Length
      modifies q
      ensures q[..] == Die(old(q[..]), p)
    {
      ghost var q0 := q[..];
      q[p] := q[p].(state := Zombie);
      ghost var q1 := q[..];
      assert q1 == Set(q0, p, Zombie);
      var i := 0;
      while i < q.Length
        invariant 0 <= i <= q.Length
        invariant forall k | 0 <= k < q.Length :: q[k] == if k < i then Reparent(q1, p)[k] else q1[k]
      {
        if q[i].ppid == p {
          q[i] := q[i].(ppid := 0);
        }
        i := i + 1;
      }
      ghost var q2 := q[..];
      assert q2 == Reparent(q1, p);
      if q[p].ppid < q.Length && q[q[p].ppid].state == Wait {
        q[q[p].ppid] := q[q[p].ppid].(state := Running);
        assert q[..] == Set(q2, q2[p].ppid, Running);
      }
    }

    method Exit()
      requires Valid() && Enabled(S(), ProcessSpec.Exit)
      modifies this`r, q
      ensures Valid() && S() == Do(old(S()), ProcessSpec.Exit)
    {
      hide Inv, Die;
      StepOk(S(), ProcessSpec.Exit);
      InvShape(S());
      MakeZombie(r);
      Yield();
    }

    method Kill(pid: nat)
      requires Valid() && Enabled(S(), ProcessSpec.Kill(pid))
      modifies q
      ensures Valid() && S() == Do(old(S()), ProcessSpec.Kill(pid))
    {
      hide Inv, Die;
      StepOk(S(), ProcessSpec.Kill(pid));
      InvShape(S());
      MakeZombie(pid);
    }

    /** `removeProcess` and the state change that follow a successful scan. */
    method Reap(i: nat)
      requires i < q.Length == |reaps| && r < |at|
      modifies this`at, this`reaps, q
      ensures S() == Reaped(old(S()), i)
    {
      ghost var q0 := q[..];
      q[i] := q[i].(state := Ready);
      reaps := reaps[i := reaps[i] + 1];
      at := at[r := InUser];
      assert q[..] == Set(q0, i, Ready);
    }

    /** One stretch of `wait`: a scan for a zombie child, which is reaped, or else the caller waits.
        Scheduled again, it does the same. */
    method WaitScan(ghost a: Action) returns (child: Option<nat>)
      requires Valid() && Enabled(S(), a) && (a == CallWait || a == ResumeWait)
      modifies this, q
      ensures Valid() && S() == Do(old(S()), a)
      ensures child == FindZombie(old(q[..]), old(r), 0)
    {
      hide Inv;
      ghost var s := S();
      StepOk(s, a);
      InvShape(s);
      var i := 0;
      while i < q.Length
        invariant 0 <= i <= q.Length && S() == s
        invariant FindZombie(q[..], r, 0) == FindZombie(q[..], r, i)
      {
        if q[i].ppid == r && q[i].state == Zombie {
          Reap(i);
          return Some(i);
        }
        i := i + 1;
      }
      Block(Wait, InWait);
      return None;
    }

    /** The running process stops in state `st`. */
    method Block(st: Status, ghost place: Place)
      requires r < q.Length && r < |at|
      modifies this`r, this`at, q
      ensures S() == Blocked(old(S()), st, place)
    {
      ghost var q0 := q[..];
      q[r] := q[r].(state := st);
      at := at[r := place];
      assert q[..] == Set(q0, r, st);
      Yield();
    }

    method CallWaitpid(c: nat) returns (done: bool)
      requires c < q.Length && Valid() && Enabled(S(), ProcessSpec.CallWaitpid(c))
      modifies this, q
      ensures done == IsZombieOf(old(q[c]), old(r))
      ensures Valid() && S() == Do(old(S()), ProcessSpec.CallWaitpid(c))
    {
      hide Inv;
      ghost var s := S();
      StepOk(s, ProcessSpec.CallWaitpid(c));
      InvShape(s);
      if q[c].ppid == r && q[c].state == Zombie {
        Reap(c);
        return true;
      }
      Block(Wait, InWaitpid(c, lives[c], q[c].ppid == r && q[c].state != Ready));
      return false;
    }

    method ResumeWaitpid(c: nat) returns (done: bool)
      requires Valid() && Enabled(S(), ProcessSpec.ResumeWaitpid) && WaitsFor(S(), c) && c < MAX
      modifies this, q
      ensures Valid() && S() == Do(old(S()), ProcessSpec.ResumeWaitpid)
      ensures done == IsZombieOf(old(q[c]), old(r))
    {
      hide Inv;
      ghost var s := S();
      StepOk(s, ProcessSpec.ResumeWaitpid);
      InvShape(s);
      if q[c].ppid == r && q[c].state == Zombie {
        Reap(c);
        return true;
      }
      Yield();
      return false;
    }

    /** `sleep`: nothing for no seconds; otherwise the time is noted and another process selected. */
    method Sleep(seconds: nat)
      requires Valid() && Enabled(S(), CallSleep(seconds))
      modifies this, q
      ensures Valid() && S() == Do(old(S()), CallSleep(seconds))
      ensures seconds > 0 ==>
                && q[old(r)] == old(q[r]).(state := Suspended, time := seconds) && r != old(r)
                && forall k | 0 <= k < q.Length && k != old(r) :: q[k] == old(q[k])
    {
      hide Inv;
      ghost var s := S();
      StepOk(s, CallSleep(seconds));
      InvShape(s);
      if seconds == 0 {
        return;
      }
      q[r] := q[r].(time := seconds);
      assert q[..] == Timed(s, seconds).q;
      Block(Suspended, InSleep);
      Runs(S());
      assert q[..] == Set(Timed(s, seconds).q, s.r, Suspended);
    }

    /** `sleep` returns when its process is scheduled again. */
    method ResumeSleep()
      requires Valid() && Enabled(S(), ProcessSpec.ResumeSleep)
      modifies this`at
      ensures Valid() && S() == Do(old(S()), ProcessSpec.ResumeSleep)
    {
      hide Inv;
      StepOk(S(), ProcessSpec.ResumeSleep);
      InvShape(S());
      at := at[r := InUser];
    }

    /** The timer takes the processor from a user program, or idle gives it away. */
    method Preempt()
      requires Valid() && Enabled(S(), ProcessSpec.Preempt)
      modifies this`r
      ensures Valid() && S() == Do(old(S()), ProcessSpec.Preempt)
    {
      hide Inv;
      StepOk(S(), ProcessSpec.Preempt);
      InvShape(S());
      Yield();
    }

    /** One stretch of `read_input`, as far as the process table is concerned. */
    method ReadLine(ghost a: Action) returns (got: bool)
      requires Valid() && Enabled(S(), a) && (a == CallRead || a == ResumeRead)
      modifies this, q
      ensures Valid() && S() == Do(old(S()), a) && got == (old(lines) > 0)
    {
      hide Inv;
      ghost var q0 := q[..];
      StepOk(S(), a);
      InvShape(S());
      if lines > 0 {
        lines := lines - 1;
        q[r] := q[r].(state := Running);
        at := at[r := InUser];
        assert q[..] == Set(q0, r, Running);
        return true;
      }
      Block(Sleeping, InRead);
      return false;
    }

    /** The same, when a line is counted and the buffer holds none. */
    method MissLine()
      requires Valid() && Enabled(S(), ProcessSpec.MissLine)
      modifies this`r, this`at
      ensures Valid() && S() == Do(old(S()), ProcessSpec.MissLine)
    {
      hide Inv;
      StepOk(S(), ProcessSpec.MissLine);
      InvShape(S());
      at := at[r := InRead];
      Yield();
    }

    /** Enter is pressed: one more line, and `wake_process` wakes the lowest sleeper. */
    method NewLine()
      requires Valid() && Enabled(S(), ProcessSpec.NewLine)
      modifies this`lines, q
      ensures Valid() && S() == Do(old(S()), ProcessSpec.NewLine)
    {
      hide Inv;
      ghost var s := S();
      StepOk(s, ProcessSpec.NewLine);
      InvShape(s);
      lines := lines + 1;
      var i := 0;
      while i < q.Length
        invariant 0 <= i <= q.Length && q[..] == s.q
        invariant FindSleeper(q[..], 0) == FindSleeper(q[..], i)
      {
        if q[i].state == Sleeping {
          q[i] := q[i].(state := Running);
          assert q[..] == Set(s.q, i, Running);
          return;
        }
        i := i + 1;
      }
    }

    /** The loop over the table in the timer interrupt: one second less for each sleeper, who wakes
        when none is left. */
    method WakeDue()
      modifies q
      ensures q[..] == Ticked(old(q[..]))
      ensures forall k | 0 <= k < q.Length ::
                && q[k] == old(q[k]).(state := q[k].state, time := q[k].time)
                && (q[k].state != old(q[k].state) <==> old(q[k].state) == Suspended && old(q[k].time) <= 1)
                && (q[k].state != old(q[k].state) ==> q[k].state == Running)
                && (old(q[k].state) == Suspended && old(q[k].time) > 0 ==> q[k].time == old(q[k].time) - 1)
    {
      ghost var q0 := q[..];
      var i := 0;
      while i < q.Length
        invariant 0 <= i <= q.Length
        invariant forall k | 0 <= k < q.Length :: q[k] == if k < i then Aged(q0[k]) else q0[k]
      {
        if q[i].state == Suspended && q[i].time > 0 {
          q[i] := q[i].(time := q[i].time - 1);
        }
        if q[i].time == 0 && q[i].state == Suspended {
          q[i] := q[i].(state := Running);
        }
        i := i + 1;
      }
      assert q[..] == Ticked(q0);
    }

    /** The timer, once a second. */
    method Tick()
      requires Valid() && Enabled(S(), ProcessSpec.Tick)
      modifies q
      ensures Valid() && S() == Do(old(S()), ProcessSpec.Tick)
    {
      hide Inv, Do, Enabled;
      ghost var s := S();
      InvShape(s);
      StepOk(s, ProcessSpec.Tick);
      TickDone(s);
      WakeDue();
    }
  }
}

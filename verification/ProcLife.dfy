/** The life of a process (xv6/proc.c): which step moves it from which state to which, over every step of
    the table, and yield, sleep, wakeup, kill and the scheduler's scan on the table in place. */
module ProcLife {
  import opened ProcTable

  /** The step is taken by process p. */
  predicate Takes(t: Table, a: Action, p: nat) {
    && (a.ForkAlloc? || a.ForkFail? || a.ForkLink? || a.ForkDone? || a.Exit? || a.Reap? || a.WaitSleep? || a.Yield?
        || a.Sleep?)
    && Busy(t, a.c) && Cur(t, a.c) == p
  }

  /** Slot p is the one the fork of the step's process is filling. */
  predicate Fills(t: Table, a: Action, p: nat) {
    (a.ForkFail? || a.ForkLink? || a.ForkDone?) && Forking(t, a.c) && t.procs[Cur(t, a.c)].child == At(p)
  }

  /** p sleeps and the step wakes it. */
  predicate Wakes(t: Table, a: Action, p: nat)
    requires p < |t.procs|
  {
    t.procs[p].state == SLEEPING &&
    ((a.Wakeup? && t.procs[p].chan == Other(a.n)) || (a.Kill? && a.p == p)
     || (a.Exit? && Busy(t, a.c) && Roused(t, Cur(t, a.c), p)))
  }

  /** The arrows between states. */
  predicate Arrow(x: Life, y: Life) {
    match x
    case UNUSED => y == EMBRYO
    case EMBRYO => y == RUNNABLE || y == UNUSED
    case RUNNABLE => y == RUNNING
    case RUNNING => y == RUNNABLE || y == SLEEPING || y == ZOMBIE
    case SLEEPING => y == RUNNABLE
    case ZOMBIE => y == UNUSED
  }

  /** p moves from x to y along an arrow, and each arrow has its one cause. */
  ghost predicate Moved(t: Table, a: Action, p: nat, x: Life, y: Life)
    requires p < |t.procs|
  {
    && (x != y ==> Arrow(x, y))
    && (x == UNUSED && y == EMBRYO <==> a.ForkAlloc? && a.q == p)
    && (x == EMBRYO && y == RUNNABLE <==> a.ForkDone? && Fills(t, a, p))
    && (x == EMBRYO && y == UNUSED <==> a.ForkFail? && Fills(t, a, p))
    && (x == RUNNABLE && y == RUNNING <==> a.Dispatch? && a.p == p)
    && (x == RUNNING && y == RUNNABLE <==> a.Yield? && Takes(t, a, p))
    && (x == RUNNING && y == SLEEPING <==> (a.Sleep? || a.WaitSleep?) && Takes(t, a, p))
    && (x == RUNNING && y == ZOMBIE <==> a.Exit? && Takes(t, a, p))
    && (x == SLEEPING && y == RUNNABLE <==> Wakes(t, a, p))
    && (x == ZOMBIE && y == UNUSED <==> a.Reap? && a.q == p)
  }

  lemma Runs(t: Table, c: nat)
    requires Inv(t) && Busy(t, c)
    ensures t.procs[Cur(t, c)].state == RUNNING && t.procs[Cur(t, c)].parent != At(Cur(t, c))
  {
    assert ParentOk(t, Cur(t, c));
  }

  /** The slots a part of fork, or a reaping, changes. */
  lemma ForkSlots(t: Table, a: Action)
    requires Inv(t) && Enabled(t, a) && Forks(a)
    ensures |Next(t, a).procs| == |t.procs| && Next(t, a).cpus == t.cpus && Next(t, a).init == t.init
    ensures a.ForkFail? || a.ForkLink? || a.ForkDone? ==>
              var q := t.procs[Cur(t, a.c)].child.p; q != Cur(t, a.c) && t.procs[q].state == EMBRYO
    ensures a.ForkAlloc? ==>
              var x := t.procs[a.q];
              TwoSlots(t, Next(t, a), Cur(t, a.c), a.q, x.(state := EMBRYO, pid := t.nextpid), At(a.q))
    ensures a.ForkFail? ==>
              var p := Cur(t, a.c);
              var q := t.procs[p].child.p;
              TwoSlots(t, Next(t, a), p, q, t.procs[q].(state := UNUSED), No)
    ensures a.ForkLink? ==>
              var p := Cur(t, a.c);
              var q := t.procs[p].child.p;
              TwoSlots(t, Next(t, a), p, q, t.procs[q].(parent := At(p)), At(q))
    ensures a.ForkDone? ==>
              var p := Cur(t, a.c);
              var q := t.procs[p].child.p;
              TwoSlots(t, Next(t, a), p, q, t.procs[q].(state := RUNNABLE), No)
    ensures a.Reap? ==>
              var x := t.procs[a.q].(state := UNUSED, pid := 0, parent := No, killed := false);
              TwoSlots(t, Next(t, a), Cur(t, a.c), a.q, x, t.procs[Cur(t, a.c)].child)
  {
    hide CpusOk, ForksOk, PidsOk, ParentsOk, WaitsOk, ReapedOk;
    if a.ForkFail? || a.ForkLink? || a.ForkDone? {
      ChildIs(t, a.c);
    }
    IsTwoSlots(t, a);
  }

  lemma MovedExit(t: Table, a: Action, p: nat)
    requires Inv(t) && Enabled(t, a) && a.Exit? && p < |t.procs|
    ensures |Next(t, a).procs| == |t.procs| && Moved(t, a, p, t.procs[p].state, Next(t, a).procs[p].state)
  {
    hide Inv, Next;
    Runs(t, a.c);
    ExitIs(t, a.c);
  }

  lemma MovedFork(t: Table, a: Action, p: nat)
    requires Inv(t) && Enabled(t, a) && Forks(a) && p < |t.procs|
    ensures |Next(t, a).procs| == |t.procs| && Moved(t, a, p, t.procs[p].state, Next(t, a).procs[p].state)
  {
    hide Inv, Next;
    Runs(t, a.c);
    ForkSlots(t, a);
    match a {
      case ForkAlloc(_, _) =>
      case ForkFail(_) =>
      case ForkLink(_) =>
      case ForkDone(_) =>
      case Reap(_, _) =>
    }
  }

  lemma MovedShuffle(t: Table, a: Action, p: nat)
    requires Inv(t) && Enabled(t, a) && Shuffles(a) && p < |t.procs|
    ensures |Next(t, a).procs| == |t.procs| && Moved(t, a, p, t.procs[p].state, Next(t, a).procs[p].state)
  {
    hide Inv;
    if a.WaitSleep? || a.Yield? || a.Sleep? {
      Runs(t, a.c);
    }
  }

  /** Every step moves every process along an arrow whose cause the step is. */
  lemma LifeCycle(t: Table, a: Action, p: nat)
    requires Inv(t) && Enabled(t, a) && p < |t.procs|
    ensures |Next(t, a).procs| == |t.procs| && Moved(t, a, p, t.procs[p].state, Next(t, a).procs[p].state)
  {
    hide Inv, Next, Enabled, Moved;
    if a.Exit? {
      MovedExit(t, a, p);
    } else if Forks(a) {
      MovedFork(t, a, p);
    } else {
      MovedShuffle(t, a, p);
    }
  }

  // ------------------------------------------------------------------------------------
  // The other fields
  // ------------------------------------------------------------------------------------

  /** What the step makes of p's pid, parent and killed flag. */
  ghost predicate Relabelled(t: Table, a: Action, p: nat, y: Proc)
    requires p < |t.procs|
  {
    var x := t.procs[p];
    && y.pid == (if a.ForkAlloc? && a.q == p then t.nextpid else if a.Reap? && a.q == p then 0 else x.pid)
    && y.parent == (if a.ForkLink? && Fills(t, a, p) then t.cpus[a.c]
                    else if a.Exit? && Busy(t, a.c) && x.parent == At(Cur(t, a.c)) then At(t.init)
                    else if a.Reap? && a.q == p then No else x.parent)
    && y.killed == (if a.Kill? && a.p == p then true else if a.Reap? && a.q == p then false else x.killed)
    && (y.chan != x.chan ==>
          Takes(t, a, p) && ((a.Sleep? && y.chan == Other(a.n)) || (a.WaitSleep? && y.chan == OfProc(p))))
    && (a.Sleep? && Takes(t, a, p) ==> y.chan == Other(a.n)) && (a.WaitSleep? && Takes(t, a, p) ==> y.chan == OfProc(p))
  }

  /** CPU c's process after the step. */
  ghost predicate Switched(t: Table, a: Action, r: Table) {
    && |r.cpus| == |t.cpus| && r.init == t.init
    && forall c :: 0 <= c < |t.cpus| ==>
         r.cpus[c] == if a.Dispatch? && a.c == c then At(a.p)
                      else if (a.Exit? || a.Yield? || a.Sleep? || a.WaitSleep?) && a.c == c then No
                      else t.cpus[c]
  }

  lemma FieldsExit(t: Table, a: Action, p: nat)
    requires Inv(t) && Enabled(t, a) && a.Exit? && p < |t.procs|
    ensures |Next(t, a).procs| == |t.procs| && Relabelled(t, a, p, Next(t, a).procs[p])
    ensures Switched(t, a, Next(t, a)) && Next(t, a).reaped == t.reaped
  {
    hide Inv, Next;
    Runs(t, a.c);
    ExitIs(t, a.c);
  }

  lemma FieldsFork(t: Table, a: Action, p: nat)
    requires Inv(t) && Enabled(t, a) && Forks(a) && p < |t.procs|
    ensures |Next(t, a).procs| == |t.procs| && Relabelled(t, a, p, Next(t, a).procs[p])
    ensures Switched(t, a, Next(t, a))
  {
    hide Inv, Next;
    ForkSlots(t, a);
  }

  lemma FieldsShuffle(t: Table, a: Action, p: nat)
    requires Inv(t) && Enabled(t, a) && Shuffles(a) && p < |t.procs|
    ensures |Next(t, a).procs| == |t.procs| && Relabelled(t, a, p, Next(t, a).procs[p])
    ensures Switched(t, a, Next(t, a)) && Next(t, a).reaped == t.reaped
  {
    hide Inv;
  }

  lemma ForkReaped(t: Table, a: Action)
    requires Enabled(t, a) && Forks(a)
    ensures Next(t, a).reaped == if a.Reap? then t.reaped + [t.procs[a.q].pid] else t.reaped
  {
  }

  /** No step changes a field but for its own reason. */
  lemma FieldsKept(t: Table, a: Action, p: nat)
    requires Inv(t) && Enabled(t, a) && p < |t.procs|
    ensures |Next(t, a).procs| == |t.procs| && Relabelled(t, a, p, Next(t, a).procs[p])
    ensures Switched(t, a, Next(t, a))
    ensures Next(t, a).reaped == if a.Reap? then t.reaped + [t.procs[a.q].pid] else t.reaped
  {
    hide Inv, Next, Relabelled, Switched;
    if a.Exit? {
      FieldsExit(t, a, p);
    } else if Forks(a) {
      FieldsFork(t, a, p);
      ForkReaped(t, a);
    } else {
      FieldsShuffle(t, a, p);
    }
  }

  // ------------------------------------------------------------------------------------
  // The table in place
  // ------------------------------------------------------------------------------------

  /** Slot p is now y, CPU c runs s, and nothing else has changed. */
  ghost predicate OneSlot(t: Table, r: Table, p: nat, y: Proc, c: nat, s: Slot) {
    p < |t.procs| && c < |t.cpus| && r == t.(procs := t.procs[p := y], cpus := t.cpus[c := s])
  }

  /** yield: the caller is ready again and off its CPU. */
  method Yield(pt: Ptable, c: nat)
    requires Inv(pt.t) && Busy(pt.t, c)
    modifies pt
    ensures pt.t == Next(old(pt.t), Action.Yield(c)) && Inv(pt.t)
    ensures var p := Cur(old(pt.t), c);
            OneSlot(old(pt.t), pt.t, p, old(pt.t).procs[p].(state := RUNNABLE), c, No)
  {
    StepKeeps(pt.t, Action.Yield(c));
    hide Inv;
    var p := Cur(pt.t, c);
    pt.t := pt.t.(procs := pt.t.procs[p := pt.t.procs[p].(state := RUNNABLE)]);
    pt.t := pt.t.(cpus := pt.t.cpus[c := No]);
  }

  /** The part of sleep up to sched: the caller sleeps on channel n and is off its CPU. */
  method Sleep(pt: Ptable, c: nat, n: nat)
    requires Inv(pt.t) && Busy(pt.t, c)
    modifies pt
    ensures pt.t == Next(old(pt.t), Action.Sleep(c, n)) && Inv(pt.t)
    ensures var p := Cur(old(pt.t), c);
            OneSlot(old(pt.t), pt.t, p, old(pt.t).procs[p].(state := SLEEPING, chan := Other(n)), c, No)
  {
    StepKeeps(pt.t, Action.Sleep(c, n));
    hide Inv;
    var p := Cur(pt.t, c);
    pt.t := pt.t.(procs := pt.t.procs[p := pt.t.procs[p].(chan := Other(n))]);
    pt.t := pt.t.(procs := pt.t.procs[p := pt.t.procs[p].(state := SLEEPING)]);
    pt.t := pt.t.(cpus := pt.t.cpus[c := No]);
  }

  /** wakeup: exactly the sleepers on channel n are ready. */
  method Wakeup(pt: Ptable, n: nat)
    requires Inv(pt.t)
    modifies pt
    ensures pt.t == Next(old(pt.t), Action.Wakeup(n)) && Inv(pt.t)
    ensures pt.t == old(pt.t).(procs := pt.t.procs) && |pt.t.procs| == |old(pt.t).procs|
    ensures forall p :: 0 <= p < |pt.t.procs| ==>
              var x := old(pt.t).procs[p];
              pt.t.procs[p] == if x.state == SLEEPING && x.chan == Other(n) then x.(state := RUNNABLE) else x
  {
    StepKeeps(pt.t, Action.Wakeup(n));
    hide Inv;
    var procs := Wakeup1(pt.t.procs, Other(n));
    pt.t := pt.t.(procs := procs);
  }

  /** kill: the first slot with the pid is marked, and ready if it slept; -1 without one. */
  method Kill(pt: Ptable, pid: nat) returns (r: int, p: nat)
    requires Inv(pt.t)
    modifies pt
    ensures Inv(pt.t)
    ensures r == if exists i :: 0 <= i < |old(pt.t).procs| && old(pt.t).procs[i].pid == pid then 0 else -1
    ensures r == -1 ==> pt.t == old(pt.t)
    ensures r == 0 ==> p < |old(pt.t).procs| && pt.t == Next(old(pt.t), Action.Kill(p))
    ensures r == 0 ==> old(pt.t).procs[p].pid == pid && forall i :: 0 <= i < p ==> old(pt.t).procs[i].pid != pid
    ensures r == 0 ==> Marked(old(pt.t), pt.t, p)
  {
    hide Inv, Next, Marked;
    p := 0;
    while p < |pt.t.procs| && pt.t.procs[p].pid != pid
      invariant 0 <= p <= |pt.t.procs|
      invariant forall i :: 0 <= i < p ==> pt.t.procs[i].pid != pid
    {
      p := p + 1;
    }
    if p == |pt.t.procs| {
      return -1, 0;
    }
    StepKeeps(pt.t, Action.Kill(p));
    KillIs(pt.t, p);
    var x := pt.t.procs[p].(killed := true);
    if x.state == SLEEPING {
      x := x.(state := RUNNABLE);
    }
    pt.t := pt.t.(procs := pt.t.procs[p := x]);
    return 0, p;
  }

  /** Slot p is marked as killed and does not sleep; nothing else has changed. */
  ghost predicate Marked(t: Table, r: Table, p: nat) {
    && p < |t.procs| && |r.procs| == |t.procs| && r == t.(procs := t.procs[p := r.procs[p]])
    && r.procs[p] == t.procs[p].(killed := true, state := r.procs[p].state)
    && r.procs[p].state == if t.procs[p].state == SLEEPING then RUNNABLE else t.procs[p].state
  }

  lemma KillIs(t: Table, p: nat)
    requires p < |t.procs|
    ensures Marked(t, Next(t, Action.Kill(p)), p)
    ensures forall r :: Marked(t, r, p) ==> r == Next(t, Action.Kill(p))
    ensures var x := t.procs[p].(killed := true);
            Next(t, Action.Kill(p)) ==
            t.(procs := t.procs[p := if x.state == SLEEPING then x.(state := RUNNABLE) else x])
  {
  }

  /** The scheduler's scan from slot i on: the first ready process runs on the idle CPU c. */
  method Schedule(pt: Ptable, c: nat, i: nat) returns (found: bool, p: nat)
    requires Inv(pt.t) && c < |pt.t.cpus| && pt.t.cpus[c] == No
    modifies pt
    ensures Inv(pt.t)
    ensures found <==> exists q :: i <= q < |old(pt.t).procs| && old(pt.t).procs[q].state == RUNNABLE
    ensures !found ==> pt.t == old(pt.t)
    ensures found ==> Enabled(old(pt.t), Dispatch(c, p)) && pt.t == Next(old(pt.t), Dispatch(c, p)) && i <= p
    ensures found ==> forall q :: i <= q < p ==> old(pt.t).procs[q].state != RUNNABLE
    ensures found ==> OneSlot(old(pt.t), pt.t, p, old(pt.t).procs[p].(state := RUNNING), c, At(p))
  {
    p := i;
    while p < |pt.t.procs|
      invariant i <= p && pt.t == old(pt.t)
      invariant forall q :: i <= q < p && q < |pt.t.procs| ==> pt.t.procs[q].state != RUNNABLE
    {
      if pt.t.procs[p].state == RUNNABLE {
        StepKeeps(pt.t, Dispatch(c, p));
        hide Inv;
        pt.t := pt.t.(cpus := pt.t.cpus[c := At(p)]);
        pt.t := pt.t.(procs := pt.t.procs[p := pt.t.procs[p].(state := RUNNING)]);
        return true, p;
      }
      p := p + 1;
    }
    return false, 0;
  }
}

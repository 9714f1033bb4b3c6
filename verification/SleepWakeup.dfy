/** sleep, wakeup and sleep locks (xv6/proc.c, xv6/sleeplock.c) as a step system: every acquire,
    release and store is a step of its own, and steps of all processes interleave freely. */
module SleepWakeup {

  /** A spinlock: the one inside sleep lock m, ptable.lock, or another. */
  datatype Lock = Inner(m: nat) | TableLock | Plain(n: nat)

  /** A channel: the address of sleep lock m, or another. */
  datatype Chan = OfLock(m: nat) | Other(n: nat)

  datatype Run = Running | Runnable | Sleeping

  /** Where a process is. Sl1 to Sl7 run sleep(c, l), Wk1 to Wk3 run wakeup(c). back is the
      sleep lock whose acquiresleep or releasesleep made the call, if one did. */
  datatype Pc =
    | Idle
    | Table                                        // other code that holds ptable.lock
    | Acq(m: nat)                                  // acquire(&lk->lk)
    | Test(m: nat)                                 // while (lk->locked)
    | Rel(m: nat)                                  // release(&lk->lk)
    | Sl1(c: Chan, l: Lock, back: bool)            // acquire(&ptable.lock)
    | Sl2(c: Chan, l: Lock, back: bool)            // release(lk)
    | Sl3(c: Chan, l: Lock, back: bool)            // p->chan = chan; p->state = SLEEPING
    | Sl4(c: Chan, l: Lock, back: bool)            // sched()
    | Off(c: Chan, l: Lock, back: bool)            // switched out
    | Sl5(c: Chan, l: Lock, back: bool)            // p->chan = 0
    | Sl6(c: Chan, l: Lock, back: bool)            // release(&ptable.lock)
    | Sl7(c: Chan, l: Lock, back: bool)            // acquire(lk)
    | Ex1(m: nat)                                  // releasesleep: acquire(&lk->lk)
    | Ex2(m: nat)                                  // lk->locked = 0
    | Wk1(c: Chan, back: bool)                     // acquire(&ptable.lock)
    | Wk2(c: Chan, back: bool)                     // wakeup1(chan)
    | Wk3(c: Chan, back: bool)                     // release(&ptable.lock)
    | Ex3(m: nat)                                  // release(&lk->lk)

  datatype Chans = NoChan | On(c: Chan)

  /** A process; held are the sleep locks it has taken and not given back. */
  datatype Proc = Proc(run: Run, chan: Chans, pc: Pc, held: set<nat>)

  /** Who holds ptable.lock: nobody, a process, or a CPU's scheduler. */
  datatype Holder = Nobody | By(p: nat) | Scheduler

  /** spin maps a held spinlock to its holder; locked is the set of sleep locks with the flag set. */
  datatype State = State(procs: seq<Proc>, ptable: Holder, spin: map<Lock, nat>, locked: set<nat>)

  // ------------------------------------------------------------------------------------
  // Steps
  // ------------------------------------------------------------------------------------

  datatype Action =
    | Go(p: nat)                        // the next step of what p is doing
    | Take(p: nat, l: Lock)             // acquire a plain spinlock
    | Drop(p: nat, l: Lock)
    | CallSleep(p: nat, c: Chan, l: Lock)
    | CallWakeup(p: nat, c: Chan)
    | TakeTable(p: nat)                 // acquire and release ptable.lock
    | DropTable(p: nat)
    | SleepTable(p: nat, c: Chan)       // sleep with ptable.lock
    | WakeTable(p: nat, c: Chan)        // wakeup1 under ptable.lock
    | CallAcquire(p: nat, m: nat)       // acquiresleep
    | CallRelease(p: nat, m: nat)       // releasesleep
    | SchedTake | SchedDrop             // the scheduler takes and drops ptable.lock
    | SchedRun(p: nat)
    | Kill(p: nat)

  function SetPc(s: State, p: nat, pc: Pc): State
    requires p < |s.procs|
  {
    s.(procs := s.procs[p := s.procs[p].(pc := pc)])
  }

  /** wakeup1. */
  function Woken(x: Proc, c: Chan): Proc {
    if x.run == Sleeping && x.chan == On(c) then x.(run := Runnable) else x
  }

  function WakeAll(procs: seq<Proc>, c: Chan): (r: seq<Proc>)
    ensures |r| == |procs|
  {
    seq(|procs|, i requires 0 <= i < |procs| => Woken(procs[i], c))
  }

  predicate CanGo(s: State, p: nat)
    requires p < |s.procs|
  {
    match s.procs[p].pc
    case Idle => false
    case Table => false
    case Acq(m) => Inner(m) !in s.spin
    case Sl1(_, _, _) => s.ptable == Nobody
    case Off(_, _, _) => false
    case Sl7(_, l, _) => l !in s.spin
    case Ex1(m) => Inner(m) !in s.spin
    case Wk1(_, _) => s.ptable == Nobody
    case _ => true
  }

  function Advance(s: State, p: nat): (r: State)
    requires p < |s.procs| && CanGo(s, p)
    ensures |r.procs| == |s.procs|
  {
    match s.procs[p].pc
    case Idle => s
    case Table => s
    case Acq(m) => SetPc(s.(spin := s.spin[Inner(m) := p]), p, Test(m))
    case Test(m) =>
      if m in s.locked then SetPc(s, p, Sl1(OfLock(m), Inner(m), true))
      else s.(locked := s.locked + {m}, procs := s.procs[p := s.procs[p].(pc := Rel(m), held := s.procs[p].held + {m})])
    case Rel(m) => SetPc(s.(spin := s.spin - {Inner(m)}), p, Idle)
    case Sl1(c, l, b) => SetPc(s.(ptable := By(p)), p, Sl2(c, l, b))
    case Sl2(c, l, b) => SetPc(s.(spin := s.spin - {l}), p, Sl3(c, l, b))
    case Sl3(c, l, b) => s.(procs := s.procs[p := s.procs[p].(pc := Sl4(c, l, b), chan := On(c), run := Sleeping)])
    case Sl4(c, l, b) => SetPc(s.(ptable := Scheduler), p, Off(c, l, b))
    case Off(_, _, _) => s
    case Sl5(c, l, b) =>
      s.(procs := s.procs[p := s.procs[p].(pc := if l.TableLock? then Table else Sl6(c, l, b), chan := NoChan)])
    case Sl6(c, l, b) => SetPc(s.(ptable := Nobody), p, Sl7(c, l, b))
    case Sl7(c, l, b) => SetPc(s.(spin := s.spin[l := p]), p, if b && l.Inner? then Test(l.m) else Idle)
    case Ex1(m) => SetPc(s.(spin := s.spin[Inner(m) := p]), p, Ex2(m))
    case Ex2(m) =>
      var x := s.procs[p].(pc := Wk1(OfLock(m), true), held := s.procs[p].held - {m});
      s.(locked := s.locked - {m}, procs := s.procs[p := x])
    case Wk1(c, b) => SetPc(s.(ptable := By(p)), p, Wk2(c, b))
    case Wk2(c, b) => SetPc(s.(procs := WakeAll(s.procs, c)), p, Wk3(c, b))
    case Wk3(c, b) => SetPc(s.(ptable := Nobody), p, if b && c.OfLock? then Ex3(c.m) else Idle)
    case Ex3(m) => SetPc(s.(spin := s.spin - {Inner(m)}), p, Idle)
  }

  /** Plain code neither sleeps on a sleep lock's channel nor takes its inner lock. A spinlock is
      slept with and dropped by its holder, and a sleep lock released by a process that took it. */
  predicate Enabled(s: State, a: Action) {
    match a
    case Go(p) => p < |s.procs| && CanGo(s, p)
    case Take(p, l) => p < |s.procs| && s.procs[p].pc == Idle && l.Plain? && l !in s.spin
    case Drop(p, l) => p < |s.procs| && s.procs[p].pc == Idle && l.Plain? && l in s.spin && s.spin[l] == p
    case CallSleep(p, c, l) =>
      p < |s.procs| && s.procs[p].pc == Idle && c.Other? && l.Plain? && l in s.spin && s.spin[l] == p
    case CallWakeup(p, c) => p < |s.procs| && s.procs[p].pc == Idle
    case TakeTable(p) => p < |s.procs| && s.procs[p].pc == Idle && s.ptable == Nobody
    case DropTable(p) => p < |s.procs| && s.procs[p].pc == Table
    case SleepTable(p, c) => p < |s.procs| && s.procs[p].pc == Table && c.Other?
    case WakeTable(p, c) => p < |s.procs| && s.procs[p].pc == Table
    case CallAcquire(p, m) => p < |s.procs| && s.procs[p].pc == Idle
    case CallRelease(p, m) => p < |s.procs| && s.procs[p].pc == Idle && m in s.procs[p].held
    case SchedTake => s.ptable == Nobody
    case SchedDrop => s.ptable == Scheduler
    case SchedRun(p) => p < |s.procs| && s.ptable == Scheduler && s.procs[p].pc.Off? && s.procs[p].run == Runnable
    case Kill(p) => p < |s.procs| && s.ptable == Nobody
  }

  function Next(s: State, a: Action): (r: State)
    requires Enabled(s, a)
    ensures |r.procs| == |s.procs|
  {
    match a
    case Go(p) => Advance(s, p)
    case Take(p, l) => s.(spin := s.spin[l := p])
    case Drop(p, l) => s.(spin := s.spin - {l})
    case CallSleep(p, c, l) => SetPc(s, p, Sl1(c, l, false))
    case CallWakeup(p, c) => SetPc(s, p, Wk1(c, false))
    case TakeTable(p) => SetPc(s.(ptable := By(p)), p, Table)
    case DropTable(p) => SetPc(s.(ptable := Nobody), p, Idle)
    case SleepTable(p, c) => SetPc(s, p, Sl3(c, TableLock, false))
    case WakeTable(p, c) => s.(procs := WakeAll(s.procs, c))
    case CallAcquire(p, m) => SetPc(s, p, Acq(m))
    case CallRelease(p, m) => SetPc(s, p, Ex1(m))
    case SchedTake => s.(ptable := Scheduler)
    case SchedDrop => s.(ptable := Nobody)
    case SchedRun(p) =>
      var x := s.procs[p];
      s.(ptable := By(p), procs := s.procs[p := x.(run := Running, pc := Sl5(x.pc.c, x.pc.l, x.pc.back))])
    case Kill(p) =>
      var x := s.procs[p];
      s.(procs := s.procs[p := if x.run == Sleeping then x.(run := Runnable) else x])
  }

  /** The state after a run; a run may stop at any point. */
  predicate AllEnabled(s: State, run: seq<Action>)
    decreases run
  {
    run == [] || (Enabled(s, run[0]) && AllEnabled(Next(s, run[0]), run[1..]))
  }

  function After(s: State, run: seq<Action>): State
    requires AllEnabled(s, run)
    decreases run
  {
    if run == [] then s else After(Next(s, run[0]), run[1..])
  }

  function Start(n: nat): State {
    State(seq(n, _ => Proc(Running, NoChan, Idle, {})), Nobody, map[], {})
  }

  // ------------------------------------------------------------------------------------
  // What every step keeps
  // ------------------------------------------------------------------------------------

  /** The code between acquire(&ptable.lock) and its release. */
  predicate InTable(pc: Pc) {
    pc.Table? || pc.Sl2? || pc.Sl3? || pc.Sl4? || pc.Sl5? || pc.Sl6? || pc.Wk2? || pc.Wk3?
  }

  /** The code that holds the inner lock of sleep lock m. */
  predicate InLock(pc: Pc, m: nat) {
    || pc == Test(m) || pc == Rel(m) || pc == Ex2(m) || pc == Ex3(m)
    || ((pc.Sl1? || pc.Sl2?) && pc.l == Inner(m))
    || ((pc.Wk1? || pc.Wk2? || pc.Wk3?) && pc.back && pc.c == OfLock(m))
  }

  /** Calls made by acquiresleep and releasesleep use the lock's own channel and inner lock. */
  predicate PcOk(pc: Pc) {
    match pc
    case Sl1(c, l, b) => SleepArgs(c, l, b) && !l.TableLock?
    case Sl2(c, l, b) => SleepArgs(c, l, b) && !l.TableLock?
    case Sl3(c, l, b) => SleepArgs(c, l, b)
    case Sl4(c, l, b) => SleepArgs(c, l, b)
    case Off(c, l, b) => SleepArgs(c, l, b)
    case Sl5(c, l, b) => SleepArgs(c, l, b)
    case Sl6(c, l, b) => SleepArgs(c, l, b) && !l.TableLock?
    case Sl7(c, l, b) => SleepArgs(c, l, b) && !l.TableLock?
    case Wk1(c, b) => b ==> c.OfLock?
    case Wk2(c, b) => b ==> c.OfLock?
    case Wk3(c, b) => b ==> c.OfLock?
    case _ => true
  }

  predicate SleepArgs(c: Chan, l: Lock, b: bool) {
    if b then c.OfLock? && l == Inner(c.m) else c.Other? && !l.Inner?
  }

  /** state and chan are what sleep, wakeup1 and the scheduler leave in them. */
  predicate RunOk(x: Proc) {
    match x.pc
    case Sl4(c, _, _) => x.run == Sleeping && x.chan == On(c)
    case Off(c, _, _) => x.run != Running && x.chan == On(c)
    case Sl5(c, _, _) => x.run == Running && x.chan == On(c)
    case _ => x.run == Running && x.chan == NoChan
  }

  ghost predicate TableHeld(s: State) {
    forall p :: 0 <= p < |s.procs| ==> (s.ptable == By(p) <==> InTable(s.procs[p].pc))
  }

  ghost predicate SpinHeld(s: State) {
    && (forall p, m :: 0 <= p < |s.procs| ==>
          (Inner(m) in s.spin && s.spin[Inner(m)] == p <==> InLock(s.procs[p].pc, m)))
    && (forall l :: l in s.spin ==> s.spin[l] < |s.procs|)
    && (forall p :: 0 <= p < |s.procs| && (s.procs[p].pc.Sl1? || s.procs[p].pc.Sl2?) ==>
          s.procs[p].pc.l in s.spin && s.spin[s.procs[p].pc.l] == p)
  }

  ghost predicate ProcsOk(s: State) {
    forall p :: 0 <= p < |s.procs| ==> PcOk(s.procs[p].pc) && RunOk(s.procs[p])
  }

  /** A sleep lock's flag is set exactly while one process has the lock. */
  ghost predicate HeldOnce(s: State) {
    && (forall p, m :: 0 <= p < |s.procs| && m in s.procs[p].held ==> m in s.locked)
    && (forall p, q, m :: 0 <= p < |s.procs| && 0 <= q < |s.procs| && m in s.procs[p].held && m in s.procs[q].held ==>
          p == q)
    && (forall m :: m in s.locked ==> exists p :: 0 <= p < |s.procs| && m in s.procs[p].held)
    && (forall p :: 0 <= p < |s.procs| && (s.procs[p].pc.Ex1? || s.procs[p].pc.Ex2?) ==>
          s.procs[p].pc.m in s.procs[p].held)
  }

  /** p is in sleep on lock m's channel and nobody has woken it. */
  predicate Waits(x: Proc, m: nat) {
    (x.pc.Sl1? || x.pc.Sl2? || x.pc.Sl3? || x.pc.Sl4? || (x.pc.Off? && x.run == Sleeping)) && x.pc.c == OfLock(m)
  }

  /** Whoever holds m's inner lock is about to wake its sleepers. */
  ghost predicate Waking(s: State, m: nat) {
    && Inner(m) in s.spin && s.spin[Inner(m)] < |s.procs|
    && var pc := s.procs[s.spin[Inner(m)]].pc; (pc.Wk1? || pc.Wk2?) && pc.back && pc.c == OfLock(m)
  }

  ghost predicate NoneLost(s: State) {
    forall p, m :: 0 <= p < |s.procs| && Waits(s.procs[p], m) ==> m in s.locked || Waking(s, m)
  }

  ghost predicate Inv(s: State) {
    TableHeld(s) && SpinHeld(s) && ProcsOk(s) && HeldOnce(s) && NoneLost(s)
  }

  lemma StartInv(n: nat)
    ensures Inv(Start(n))
  {
  }

  lemma GoTable(s: State, p: nat)
    requires TableHeld(s) && p < |s.procs| && CanGo(s, p)
    ensures TableHeld(Advance(s, p))
  {
  }

  /** Steps that touch no spinlock. */
  predicate Quiet(pc: Pc) {
    !pc.Acq? && !pc.Rel? && !pc.Sl2? && !pc.Sl7? && !pc.Ex1? && !pc.Ex3?
  }

  lemma SpinSame(s: State, r: State, p: nat)
    requires SpinHeld(s) && r.spin == s.spin && |r.procs| == |s.procs| && p < |s.procs|
    requires forall q :: 0 <= q < |s.procs| && q != p ==> r.procs[q].pc == s.procs[q].pc
    requires forall m :: InLock(r.procs[p].pc, m) == InLock(s.procs[p].pc, m)
    requires r.procs[p].pc.Sl1? || r.procs[p].pc.Sl2? ==> r.procs[p].pc.l in s.spin && s.spin[r.procs[p].pc.l] == p
    ensures SpinHeld(r)
  {
    hide InLock;
  }

  lemma GoSpinQuiet(s: State, p: nat)
    requires SpinHeld(s) && ProcsOk(s) && p < |s.procs| && CanGo(s, p) && Quiet(s.procs[p].pc) && !s.procs[p].pc.Wk2?
    ensures SpinHeld(Advance(s, p))
  {
    hide RunOk, WakeAll;
    var pc := s.procs[p].pc;
    assert PcOk(pc);
    assert pc.Test? ==> InLock(pc, pc.m);
    SpinSame(s, Advance(s, p), p);
  }

  lemma GoSpinWake(s: State, p: nat)
    requires SpinHeld(s) && ProcsOk(s) && p < |s.procs| && s.procs[p].pc.Wk2?
    ensures SpinHeld(Advance(s, p))
  {
    hide RunOk;
  }

  lemma GoSpinTake(s: State, p: nat)
    requires SpinHeld(s) && ProcsOk(s) && p < |s.procs| && CanGo(s, p)
    requires s.procs[p].pc.Acq? || s.procs[p].pc.Sl7? || s.procs[p].pc.Ex1?
    ensures SpinHeld(Advance(s, p))
  {
    hide RunOk, WakeAll;
  }

  lemma GoSpinDrop(s: State, p: nat)
    requires SpinHeld(s) && ProcsOk(s) && p < |s.procs|
    requires (s.procs[p].pc.Rel? || s.procs[p].pc.Sl2? || s.procs[p].pc.Ex3?)
    ensures SpinHeld(Advance(s, p))
  {
    hide RunOk, WakeAll;
  }

  lemma GoProcs(s: State, p: nat)
    requires TableHeld(s) && ProcsOk(s) && p < |s.procs| && CanGo(s, p)
    ensures ProcsOk(Advance(s, p))
  {
  }

  /** Steps that change neither the flags nor who has the locks. */
  lemma HeldSame(s: State, r: State)
    requires HeldOnce(s) && r.locked == s.locked && |r.procs| == |s.procs|
    requires forall q :: 0 <= q < |s.procs| ==> r.procs[q].held == s.procs[q].held
    requires forall q :: 0 <= q < |s.procs| && (r.procs[q].pc.Ex1? || r.procs[q].pc.Ex2?) ==>
               r.procs[q].pc.m in r.procs[q].held
    ensures HeldOnce(r)
  {
    forall m | m in r.locked
      ensures exists q :: 0 <= q < |r.procs| && m in r.procs[q].held
    {
      var q :| 0 <= q < |s.procs| && m in s.procs[q].held;
      assert m in r.procs[q].held;
    }
  }

  lemma GoHeldQuiet(s: State, p: nat)
    requires HeldOnce(s) && p < |s.procs| && CanGo(s, p) && !s.procs[p].pc.Test? && !s.procs[p].pc.Ex2?
    ensures HeldOnce(Advance(s, p))
  {
    var r := Advance(s, p);
    assert forall q :: 0 <= q < |s.procs| && q != p ==> r.procs[q].pc == s.procs[q].pc;
    HeldSame(s, r);
  }

  lemma GoHeldTest(s: State, p: nat)
    requires SpinHeld(s) && HeldOnce(s) && p < |s.procs| && s.procs[p].pc.Test?
    ensures HeldOnce(Advance(s, p))
  {
    var r := Advance(s, p);
    forall m | m in r.locked
      ensures exists q :: 0 <= q < |r.procs| && m in r.procs[q].held
    {
      if m in s.locked {
        var q :| 0 <= q < |s.procs| && m in s.procs[q].held;
        assert m in r.procs[q].held;
      } else {
        assert m in r.procs[p].held;
      }
    }
  }

  lemma GoHeldClear(s: State, p: nat)
    requires SpinHeld(s) && HeldOnce(s) && p < |s.procs| && s.procs[p].pc.Ex2?
    ensures HeldOnce(Advance(s, p))
  {
    var r := Advance(s, p);
    forall m | m in r.locked
      ensures exists q :: 0 <= q < |r.procs| && m in r.procs[q].held
    {
      var q :| 0 <= q < |s.procs| && m in s.procs[q].held;
      assert m in r.procs[q].held;
    }
  }

  /** Steps of a process that leave every other process, and the flags, alone. */
  lemma GoNoneLostQuiet(s: State, p: nat)
    requires SpinHeld(s) && ProcsOk(s) && NoneLost(s) && p < |s.procs| && CanGo(s, p)
    requires !s.procs[p].pc.Wk2? && !s.procs[p].pc.Test? && !s.procs[p].pc.Ex2? && Quiet(s.procs[p].pc)
    ensures NoneLost(Advance(s, p))
  {
    hide WakeAll;
  }

  lemma GoNoneLostLoud(s: State, p: nat)
    requires SpinHeld(s) && ProcsOk(s) && NoneLost(s) && p < |s.procs| && CanGo(s, p) && !Quiet(s.procs[p].pc)
    ensures NoneLost(Advance(s, p))
  {
    hide WakeAll;
  }

  lemma GoNoneLostFlag(s: State, p: nat)
    requires SpinHeld(s) && ProcsOk(s) && NoneLost(s) && p < |s.procs| && (s.procs[p].pc.Test? || s.procs[p].pc.Ex2?)
    ensures NoneLost(Advance(s, p))
  {
    hide WakeAll;
  }

  lemma GoWakes(s: State, p: nat)
    requires TableHeld(s) && SpinHeld(s) && ProcsOk(s) && NoneLost(s) && p < |s.procs| && s.procs[p].pc.Wk2?
    ensures NoneLost(Advance(s, p))
  {
  }

  lemma OtherTable(s: State, a: Action)
    requires TableHeld(s) && ProcsOk(s) && Enabled(s, a) && !a.Go?
    ensures TableHeld(Next(s, a))
  {
  }

  lemma OtherSpin(s: State, a: Action)
    requires SpinHeld(s) && ProcsOk(s) && Enabled(s, a) && !a.Go?
    ensures SpinHeld(Next(s, a))
  {
    hide RunOk, Advance, CanGo, SpinHeld;
    if a.Take? || a.Drop? {
      PlainSpin(s, a);
    } else if a.SchedTake? || a.SchedDrop? {
      TableSpin(s, Next(s, a).ptable);
    } else {
      assert PcOk(s.procs[a.p].pc);
      SpinCall(s, a);
      SpinSame(s, Next(s, a), a.p);
    }
  }

  lemma TableSpin(s: State, h: Holder)
    requires SpinHeld(s)
    ensures SpinHeld(s.(ptable := h))
  {
  }

  /** A step of the scheduler, a call or a kill does not move p in or out of a locked region. */
  lemma SpinCall(s: State, a: Action)
    requires SpinHeld(s) && Enabled(s, a) && !a.Go? && !a.SchedTake? && !a.SchedDrop? && PcOk(s.procs[a.p].pc)
    ensures var pc, pc' := s.procs[a.p].pc, Next(s, a).procs[a.p].pc;
            && (forall m :: InLock(pc', m) == InLock(pc, m))
            && (pc'.Sl1? || pc'.Sl2? ==> pc'.l in s.spin && s.spin[pc'.l] == a.p)
  {
    hide RunOk, Advance, CanGo;
  }

  lemma PlainSpin(s: State, a: Action)
    requires SpinHeld(s) && ProcsOk(s) && Enabled(s, a) && (a.Take? || a.Drop?)
    ensures SpinHeld(Next(s, a))
  {
    hide RunOk, Advance, CanGo, InLock;
  }

  lemma OtherProcs(s: State, a: Action)
    requires TableHeld(s) && ProcsOk(s) && Enabled(s, a) && !a.Go?
    ensures ProcsOk(Next(s, a))
  {
  }

  lemma OtherHeld(s: State, a: Action)
    requires HeldOnce(s) && Enabled(s, a) && !a.Go?
    ensures HeldOnce(Next(s, a))
  {
    HeldSame(s, Next(s, a));
  }

  lemma OtherNoneLost(s: State, a: Action)
    requires SpinHeld(s) && ProcsOk(s) && NoneLost(s) && Enabled(s, a) && !a.Go?
    ensures NoneLost(Next(s, a))
  {
    hide Advance, CanGo;
  }

  lemma GoKeeps(s: State, p: nat)
    requires Inv(s) && p < |s.procs| && CanGo(s, p)
    ensures Inv(Advance(s, p))
  {
    hide TableHeld, SpinHeld, ProcsOk, HeldOnce, NoneLost, Advance, CanGo;
    GoTable(s, p);
    GoProcs(s, p);
    var pc := s.procs[p].pc;
    if pc.Wk2? {
      GoSpinWake(s, p);
    } else if Quiet(pc) {
      GoSpinQuiet(s, p);
    } else if pc.Acq? || pc.Sl7? || pc.Ex1? {
      GoSpinTake(s, p);
    } else {
      GoSpinDrop(s, p);
    }
    if pc.Test? {
      GoHeldTest(s, p);
    } else if pc.Ex2? {
      GoHeldClear(s, p);
    } else {
      GoHeldQuiet(s, p);
    }
    if pc.Wk2? {
      GoWakes(s, p);
    } else if pc.Test? || pc.Ex2? {
      GoNoneLostFlag(s, p);
    } else if Quiet(pc) {
      GoNoneLostQuiet(s, p);
    } else {
      GoNoneLostLoud(s, p);
    }
  }

  lemma StepKeeps(s: State, a: Action)
    requires Inv(s) && Enabled(s, a)
    ensures Inv(Next(s, a))
  {
    hide TableHeld, SpinHeld, ProcsOk, HeldOnce, NoneLost, Advance, CanGo;
    if a.Go? {
      GoKeeps(s, a.p);
    } else {
      OtherTable(s, a);
      OtherSpin(s, a);
      OtherProcs(s, a);
      OtherHeld(s, a);
      OtherNoneLost(s, a);
    }
  }

  lemma {:induction false} RunKeeps(s: State, run: seq<Action>)
    requires Inv(s) && AllEnabled(s, run)
    ensures Inv(After(s, run))
    decreases run
  {
    hide Inv, Next, Enabled;
    if run != [] {
      StepKeeps(s, run[0]);
      RunKeeps(Next(s, run[0]), run[1..]);
    }
  }

  // ------------------------------------------------------------------------------------
  // Over every run
  // ------------------------------------------------------------------------------------

  /** The step is a wakeup1 of channel c, by wakeup or by other code that holds ptable.lock. */
  predicate Wakes(s: State, a: Action, c: Chan) {
    && Enabled(s, a)
    && ((a.Go? && s.procs[a.p].pc.Wk2? && s.procs[a.p].pc.c == c) || (a.WakeTable? && a.c == c))
  }

  /** A sleeper becomes runnable exactly by a wakeup1 of its channel or by kill, a runnable process runs
      exactly when the scheduler picks it, and a process sleeps exactly by its own step in sleep. */
  lemma RunChanges(s: State, a: Action, p: nat)
    requires Enabled(s, a) && p < |s.procs| && RunOk(s.procs[p])
    ensures var x, y := s.procs[p], Next(s, a).procs[p];
            && (x.run == Sleeping && y.run != Sleeping <==>
                  x.run == Sleeping && (a == Kill(p) || (x.chan.On? && Wakes(s, a, x.chan.c))))
            && (x.run == Sleeping && y.run != Sleeping ==> y.run == Runnable)
            && (x.run == Runnable && y.run != Runnable <==> a == SchedRun(p))
            && (x.run == Running && y.run != Running <==> a == Go(p) && x.pc.Sl3?)
            && (a == Go(p) && x.pc.Sl3? ==> y.run == Sleeping && y.chan == On(x.pc.c))
  {
  }

  /** The process is in sleep and nobody has woken it. */
  predicate InSleep(x: Proc) {
    x.pc.Sl1? || x.pc.Sl2? || x.pc.Sl3? || x.pc.Sl4? || (x.pc.Off? && x.run == Sleeping)
  }

  /** When wakeup1 runs, a process in sleep on its channel that has not been woken either still
      holds the lock it called sleep with, or is asleep on the channel and becomes runnable. One that sleeps
      with ptable.lock is always asleep by then. */
  lemma NoLostWakeup(n: nat, run: seq<Action>, a: Action, p: nat)
    requires AllEnabled(Start(n), run) && p < |After(Start(n), run).procs|
    requires var s := After(Start(n), run); InSleep(s.procs[p]) && Wakes(s, a, s.procs[p].pc.c)
    ensures var s := After(Start(n), run);
            var x := s.procs[p];
            if x.pc.Sl1? then x.pc.l in s.spin && s.spin[x.pc.l] == p && !x.pc.l.TableLock?
            else x.run == Sleeping && x.chan == On(x.pc.c) && Next(s, a).procs[p].run == Runnable
  {
    StartInv(n);
    RunKeeps(Start(n), run);
    var s := After(Start(n), run);
    assert PcOk(s.procs[p].pc) && RunOk(s.procs[p]);
    assert s.ptable == By(a.p);
  }

  /** The flag of sleep lock m tells whether a process has it, at most one has, and with the flag clear
      and the inner lock free nobody sleeps on it. */
  ghost predicate LockSafe(s: State, m: nat) {
    && (forall p, q :: 0 <= p < |s.procs| && 0 <= q < |s.procs| && m in s.procs[p].held && m in s.procs[q].held ==>
          p == q)
    && (m in s.locked <==> exists p :: 0 <= p < |s.procs| && m in s.procs[p].held)
    && (Inner(m) !in s.spin && m !in s.locked ==>
          forall p :: 0 <= p < |s.procs| ==> !(s.procs[p].run == Sleeping && s.procs[p].chan == On(OfLock(m))))
  }

  lemma InvSafe(s: State, m: nat)
    requires Inv(s)
    ensures LockSafe(s, m)
  {
    hide TableHeld, SpinHeld;
    forall p | 0 <= p < |s.procs| && s.procs[p].run == Sleeping && s.procs[p].chan == On(OfLock(m))
      ensures Waits(s.procs[p], m)
    {
      assert RunOk(s.procs[p]);
    }
  }

  /** In every run sleep locks are safe and strand no sleeper. */
  lemma SleepLockSafe(n: nat, run: seq<Action>, m: nat)
    requires AllEnabled(Start(n), run)
    ensures LockSafe(After(Start(n), run), m)
  {
    hide Inv, LockSafe, Next, Enabled;
    StartInv(n);
    RunKeeps(Start(n), run);
    InvSafe(After(Start(n), run), m);
  }

  // ------------------------------------------------------------------------------------
  // What a call returns with
  // ------------------------------------------------------------------------------------

  /** The process is in acquiresleep(m). */
  predicate InAcquire(pc: Pc, m: nat) {
    || pc == Acq(m) || pc == Test(m) || pc == Rel(m)
    || ((pc.Sl1? || pc.Sl2? || pc.Sl3? || pc.Sl4? || pc.Off? || pc.Sl5? || pc.Sl6? || pc.Sl7?)
        && pc.back && pc.c == OfLock(m))
  }

  /** The process is in releasesleep(m). */
  predicate InRelease(pc: Pc, m: nat) {
    || pc == Ex1(m) || pc == Ex2(m) || pc == Ex3(m)
    || ((pc.Wk1? || pc.Wk2? || pc.Wk3?) && pc.back && pc.c == OfLock(m))
  }

  /** The process is in sleep with lock l, called by plain code. */
  predicate InPlainSleep(pc: Pc, l: Lock) {
    && (pc.Sl1? || pc.Sl2? || pc.Sl3? || pc.Sl4? || pc.Off? || pc.Sl5? || pc.Sl6? || pc.Sl7?)
    && !pc.back && pc.l == l
  }

  /** On the way out of acquiresleep the process has the lock, and once releasesleep has cleared the flag it
      has not. */
  predicate ReturnOk(x: Proc) {
    && (x.pc.Rel? ==> x.pc.m in x.held)
    && (x.pc.Ex3? ==> x.pc.m !in x.held)
    && ((x.pc.Wk1? || x.pc.Wk2? || x.pc.Wk3?) && x.pc.back && x.pc.c.OfLock? ==> x.pc.c.m !in x.held)
  }

  ghost predicate Returning(s: State) {
    forall p :: 0 <= p < |s.procs| ==> ReturnOk(s.procs[p])
  }

  /** The sleep locks a process has change only where acquiresleep finds the flag clear and where
      releasesleep clears it. */
  lemma HeldChanges(s: State, a: Action, p: nat)
    requires Enabled(s, a) && p < |s.procs|
    ensures var x, y := s.procs[p], Next(s, a).procs[p];
            && (x.pc.Test? && a == Go(p) && x.pc.m !in s.locked ==> y.held == x.held + {x.pc.m} && y.pc == Rel(x.pc.m))
            && (x.pc.Ex2? && a == Go(p) ==> y.held == x.held - {x.pc.m})
            && (y.held != x.held ==> a == Go(p) && ((x.pc.Test? && x.pc.m !in s.locked) || x.pc.Ex2?))
  {
  }

  lemma StepReturning(s: State, a: Action)
    requires ProcsOk(s) && Returning(s) && Enabled(s, a)
    ensures Returning(Next(s, a))
  {
    forall p | 0 <= p < |s.procs|
      ensures ReturnOk(Next(s, a).procs[p])
    {
      assert PcOk(s.procs[p].pc) && ReturnOk(s.procs[p]);
    }
  }

  lemma {:induction false} RunReturning(s: State, run: seq<Action>)
    requires Inv(s) && Returning(s) && AllEnabled(s, run)
    ensures Inv(After(s, run)) && Returning(After(s, run))
    decreases run
  {
    hide Next, Enabled, Returning, TableHeld, SpinHeld, ProcsOk, HeldOnce, NoneLost;
    if run != [] {
      StepKeeps(s, run[0]);
      StepReturning(s, run[0]);
      RunReturning(Next(s, run[0]), run[1..]);
    }
  }

  /** A step of p itself out of acquiresleep(m). */
  lemma GoOutAcquire(s: State, p: nat, m: nat)
    requires p < |s.procs| && PcOk(s.procs[p].pc) && ReturnOk(s.procs[p]) && CanGo(s, p) && InAcquire(s.procs[p].pc, m)
    ensures var r := Advance(s, p);
            !InAcquire(r.procs[p].pc, m) ==> r.procs[p].pc == Idle && m in r.procs[p].held && Inner(m) !in r.spin
  {
    hide WakeAll;
  }

  lemma GoOutRelease(s: State, p: nat, m: nat)
    requires p < |s.procs| && PcOk(s.procs[p].pc) && ReturnOk(s.procs[p]) && CanGo(s, p) && InRelease(s.procs[p].pc, m)
    ensures var r := Advance(s, p);
            !InRelease(r.procs[p].pc, m) ==> r.procs[p].pc == Idle && m !in r.procs[p].held && Inner(m) !in r.spin
  {
    hide WakeAll;
  }

  lemma GoOutSleep(s: State, p: nat, l: Lock)
    requires p < |s.procs| && PcOk(s.procs[p].pc) && CanGo(s, p) && InPlainSleep(s.procs[p].pc, l) && TableHeld(s)
    ensures var r := Advance(s, p);
            !InPlainSleep(r.procs[p].pc, l) ==>
              if l.TableLock? then r.procs[p].pc == Table && r.ptable == By(p)
              else r.procs[p].pc == Idle && l in r.spin && r.spin[l] == p
  {
    hide WakeAll;
  }

  /** No other step takes p out of a call. */
  lemma OthersStay(s: State, a: Action, p: nat, m: nat, l: Lock)
    requires p < |s.procs| && Enabled(s, a) && a != Go(p)
    ensures var x, y := s.procs[p].pc, Next(s, a).procs[p].pc;
            (InAcquire(x, m) ==> InAcquire(y, m)) && (InRelease(x, m) ==> InRelease(y, m))
            && (InPlainSleep(x, l) ==> InPlainSleep(y, l))
  {
    var x, y := s.procs[p].pc, Next(s, a).procs[p].pc;
    assert x != y ==> x == Idle || x == Table || (x.Off? && y == Sl5(x.c, x.l, x.back));
    hide Next, Enabled;
  }

  /** What p has when it leaves acquiresleep(m), releasesleep(m) or sleep with lock l. */
  ghost predicate Leaves(s: State, r: State, p: nat, m: nat, l: Lock)
    requires p < |s.procs| == |r.procs|
  {
    var x, y := s.procs[p], r.procs[p];
    && (InAcquire(x.pc, m) && !InAcquire(y.pc, m) ==> y.pc == Idle && m in y.held && Inner(m) !in r.spin)
    && (InRelease(x.pc, m) && !InRelease(y.pc, m) ==> y.pc == Idle && m !in y.held && Inner(m) !in r.spin)
    && (InPlainSleep(x.pc, l) && !InPlainSleep(y.pc, l) ==>
          if l.TableLock? then y.pc == Table && r.ptable == By(p)
          else y.pc == Idle && l in r.spin && r.spin[l] == p)
  }

  lemma StepOut(s: State, a: Action, p: nat, m: nat, l: Lock)
    requires p < |s.procs| && PcOk(s.procs[p].pc) && ReturnOk(s.procs[p]) && Enabled(s, a) && TableHeld(s)
    ensures Leaves(s, Next(s, a), p, m, l)
  {
    hide InAcquire, InRelease, InPlainSleep, PcOk, ReturnOk, TableHeld, Advance, CanGo;
    if a != Go(p) {
      hide Next;
      OthersStay(s, a, p, m, l);
    } else {
      if InAcquire(s.procs[p].pc, m) {
        GoOutAcquire(s, p, m);
      }
      if InRelease(s.procs[p].pc, m) {
        GoOutRelease(s, p, m);
      }
      if InPlainSleep(s.procs[p].pc, l) {
        GoOutSleep(s, p, l);
      }
    }
  }

  /** In every run: acquiresleep(m) returns only with the lock, and nobody else has it. */
  lemma AcquireReturns(n: nat, run: seq<Action>, a: Action, p: nat, m: nat)
    requires AllEnabled(Start(n), run) && p < |After(Start(n), run).procs| && Enabled(After(Start(n), run), a)
    requires var s := After(Start(n), run); InAcquire(s.procs[p].pc, m) && !InAcquire(Next(s, a).procs[p].pc, m)
    ensures var r := Next(After(Start(n), run), a);
            && r.procs[p].pc == Idle && m in r.procs[p].held && m in r.locked && Inner(m) !in r.spin
            && forall q :: 0 <= q < |r.procs| && m in r.procs[q].held ==> q == p
  {
    ReturnFacts(n, run, a, p, m, TableLock);
  }

  /** In every run: releasesleep(m) returns only without the lock. */
  lemma ReleaseReturns(n: nat, run: seq<Action>, a: Action, p: nat, m: nat)
    requires AllEnabled(Start(n), run) && p < |After(Start(n), run).procs| && Enabled(After(Start(n), run), a)
    requires var s := After(Start(n), run); InRelease(s.procs[p].pc, m) && !InRelease(Next(s, a).procs[p].pc, m)
    ensures var r := Next(After(Start(n), run), a);
            r.procs[p].pc == Idle && m !in r.procs[p].held && Inner(m) !in r.spin
  {
    ReturnFacts(n, run, a, p, m, TableLock);
  }

  /** In every run: sleep returns only with the lock it was called with. */
  lemma SleepReturns(n: nat, run: seq<Action>, a: Action, p: nat, l: Lock)
    requires AllEnabled(Start(n), run) && p < |After(Start(n), run).procs| && Enabled(After(Start(n), run), a)
    requires var s := After(Start(n), run); InPlainSleep(s.procs[p].pc, l) && !InPlainSleep(Next(s, a).procs[p].pc, l)
    ensures var r := Next(After(Start(n), run), a);
            if l.TableLock? then r.procs[p].pc == Table && r.ptable == By(p)
            else r.procs[p].pc == Idle && l in r.spin && r.spin[l] == p
  {
    ReturnFacts(n, run, a, p, 0, l);
  }

  lemma ReturnFacts(n: nat, run: seq<Action>, a: Action, p: nat, m: nat, l: Lock)
    requires AllEnabled(Start(n), run) && p < |After(Start(n), run).procs| && Enabled(After(Start(n), run), a)
    ensures var s := After(Start(n), run);
            var r := Next(s, a);
            && Leaves(s, r, p, m, l) && (m in r.procs[p].held ==> m in r.locked)
            && forall q :: 0 <= q < |r.procs| && m in r.procs[p].held && m in r.procs[q].held ==> q == p
  {
    var s := After(Start(n), run);
    hide Next, Enabled, Leaves, TableHeld, SpinHeld, HeldOnce, NoneLost, PcOk, RunOk, ReturnOk;
    StartInv(n);
    StartReturning(n);
    RunReturning(Start(n), run);
    assert PcOk(s.procs[p].pc) && ReturnOk(s.procs[p]);
    StepOut(s, a, p, m, l);
    StepKeeps(s, a);
    OneHolder(Next(s, a), p, m);
  }

  lemma StartReturning(n: nat)
    ensures Returning(Start(n))
  {
  }

  lemma OneHolder(s: State, p: nat, m: nat)
    requires HeldOnce(s) && p < |s.procs|
    ensures m in s.procs[p].held ==> m in s.locked
    ensures forall q :: 0 <= q < |s.procs| && m in s.procs[p].held && m in s.procs[q].held ==> q == p
  {
  }

  // ------------------------------------------------------------------------------------
  // Nobody waits for itself
  // ------------------------------------------------------------------------------------

  /** After it has let go of the lock it sleeps with, a process does not hold it; ptable.lock is no plain
      spinlock. */
  predicate LetGo(s: State, p: nat)
    requires p < |s.procs|
  {
    var pc := s.procs[p].pc;
    pc.Sl3? || pc.Sl4? || pc.Off? || pc.Sl5? || pc.Sl6? || pc.Sl7? ==> !(pc.l in s.spin && s.spin[pc.l] == p)
  }

  ghost predicate AllLetGo(s: State) {
    TableLock !in s.spin && forall p :: 0 <= p < |s.procs| ==> LetGo(s, p)
  }

  lemma GoLetGo(s: State, p: nat)
    requires ProcsOk(s) && AllLetGo(s) && p < |s.procs| && CanGo(s, p)
    ensures LetGo(Advance(s, p), p)
  {
    hide RunOk, WakeAll;
    assert PcOk(s.procs[p].pc) && LetGo(s, p);
  }

  /** p takes no lock in another's name. */
  lemma GoOthers(s: State, p: nat, q: nat)
    requires p < |s.procs| && q < |s.procs| && p != q && CanGo(s, p) && LetGo(s, q)
    ensures LetGo(Advance(s, p), q)
  {
    var r := Advance(s, p);
    assert r.procs[q].pc == s.procs[q].pc;
    assert forall l :: l in r.spin && r.spin[l] == q ==> l in s.spin && s.spin[l] == q;
    hide Advance, CanGo;
  }

  lemma OtherLetGo(s: State, a: Action, q: nat)
    requires ProcsOk(s) && AllLetGo(s) && Enabled(s, a) && !a.Go? && q < |s.procs|
    ensures LetGo(Next(s, a), q)
  {
    hide RunOk, Advance, CanGo;
    assert LetGo(s, q);
  }

  lemma NoTableLock(s: State, a: Action)
    requires ProcsOk(s) && TableLock !in s.spin && Enabled(s, a)
    ensures TableLock !in Next(s, a).spin
  {
    hide RunOk, WakeAll;
    if a.Go? {
      assert PcOk(s.procs[a.p].pc);
    }
  }

  lemma StepLetGo(s: State, a: Action)
    requires ProcsOk(s) && AllLetGo(s) && Enabled(s, a)
    ensures AllLetGo(Next(s, a))
  {
    hide LetGo, Advance, CanGo, ProcsOk;
    NoTableLock(s, a);
    forall q | 0 <= q < |s.procs|
      ensures LetGo(Next(s, a), q)
    {
      if !a.Go? {
        OtherLetGo(s, a, q);
      } else if a.p == q {
        GoLetGo(s, q);
      } else {
        GoOthers(s, a.p, q);
      }
    }
  }

  lemma {:induction false} RunLetGo(s: State, run: seq<Action>)
    requires Inv(s) && AllLetGo(s) && AllEnabled(s, run)
    ensures Inv(After(s, run)) && AllLetGo(After(s, run))
    decreases run
  {
    hide Next, Enabled, AllLetGo, TableHeld, SpinHeld, ProcsOk, HeldOnce, NoneLost;
    if run != [] {
      StepKeeps(s, run[0]);
      StepLetGo(s, run[0]);
      RunLetGo(Next(s, run[0]), run[1..]);
    }
  }

  /** The spinlock a process is about to take. */
  function Target(pc: Pc): Lock
    requires pc.Acq? || pc.Ex1? || pc.Sl7? || pc.Sl1? || pc.Wk1?
  {
    match pc
    case Acq(m) => Inner(m)
    case Ex1(m) => Inner(m)
    case Sl7(_, l, _) => l
    case _ => TableLock
  }

  /** Somebody other than p holds lock l. */
  predicate HeldByOther(s: State, l: Lock, p: nat) {
    if l == TableLock then s.ptable != Nobody && s.ptable != By(p) else l in s.spin && s.spin[l] != p
  }

  /** In every run: inside acquiresleep, releasesleep, sleep and wakeup a process can take its next step,
      unless it is switched out or the spinlock it is about to take is held by another. */
  lemma WaitsForOther(n: nat, run: seq<Action>, p: nat)
    requires AllEnabled(Start(n), run) && p < |After(Start(n), run).procs|
    ensures var s := After(Start(n), run);
            var pc := s.procs[p].pc;
            CanGo(s, p) || pc == Idle || pc == Table || pc.Off?
            || ((pc.Acq? || pc.Ex1? || pc.Sl7? || pc.Sl1? || pc.Wk1?) && HeldByOther(s, Target(pc), p))
  {
    var s := After(Start(n), run);
    StartInv(n);
    assert AllLetGo(Start(n));
    RunLetGo(Start(n), run);
    WaitingFor(s, p);
  }

  lemma WaitingFor(s: State, p: nat)
    requires TableHeld(s) && SpinHeld(s) && ProcsOk(s) && AllLetGo(s) && p < |s.procs|
    ensures var pc := s.procs[p].pc;
            CanGo(s, p) || pc == Idle || pc == Table || pc.Off?
            || ((pc.Acq? || pc.Ex1? || pc.Sl7? || pc.Sl1? || pc.Wk1?) && HeldByOther(s, Target(pc), p))
  {
    var pc := s.procs[p].pc;
    assert PcOk(pc) && LetGo(s, p);
    if pc.Acq? || pc.Ex1? {
      assert !InLock(pc, pc.m);
    }
  }

  /** In every run: whoever holds ptable.lock inside these calls can go on, and whoever holds a sleep lock's
      inner lock can go on or waits for ptable.lock: no circle of waiting processes can form. */
  lemma HoldersMove(n: nat, run: seq<Action>, p: nat, m: nat)
    requires AllEnabled(Start(n), run) && p < |After(Start(n), run).procs|
    ensures var s := After(Start(n), run);
            && (s.ptable == By(p) ==> CanGo(s, p) || s.procs[p].pc == Table)
            && (Inner(m) in s.spin && s.spin[Inner(m)] == p ==>
                  CanGo(s, p) || ((s.procs[p].pc.Sl1? || s.procs[p].pc.Wk1?) && s.ptable != Nobody))
  {
    StartInv(n);
    RunKeeps(Start(n), run);
    HolderMoves(After(Start(n), run), p, m);
  }

  lemma HolderMoves(s: State, p: nat, m: nat)
    requires TableHeld(s) && SpinHeld(s) && p < |s.procs|
    ensures s.ptable == By(p) ==> CanGo(s, p) || s.procs[p].pc == Table
    ensures Inner(m) in s.spin && s.spin[Inner(m)] == p ==>
              CanGo(s, p) || ((s.procs[p].pc.Sl1? || s.procs[p].pc.Wk1?) && s.ptable != Nobody)
  {
  }
}

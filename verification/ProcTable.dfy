/** The process table (xv6/proc.c): allocproc, fork, exit, wait, the scheduler, yield, sleep, wakeup
    and kill between points at which ptable.lock is free. */
module ProcTable {

  datatype Life = UNUSED | EMBRYO | SLEEPING | RUNNABLE | RUNNING | ZOMBIE

  /** A pointer to a table slot. */
  datatype Slot = No | At(p: nat)

  /** A channel: a process's own address, as wait uses, or another. */
  datatype Chan = NoChan | OfProc(p: nat) | Other(n: nat)

  /** child is the slot a fork in progress is filling. */
  datatype Proc = Proc(state: Life, pid: nat, parent: Slot, chan: Chan, killed: bool, child: Slot)

  /** cpus holds each CPU's current process; reaped lists the pids wait has returned. */
  datatype Table = Table(procs: seq<Proc>, cpus: seq<Slot>, nextpid: nat, init: nat, reaped: seq<nat>)

  predicate Alive(x: Proc) {
    x.state == SLEEPING || x.state == RUNNABLE || x.state == RUNNING
  }

  /** CPU c is running a process. */
  predicate Busy(t: Table, c: nat) {
    c < |t.cpus| && t.cpus[c].At? && t.cpus[c].p < |t.procs|
  }

  function Cur(t: Table, c: nat): nat
    requires Busy(t, c)
  {
    t.cpus[c].p
  }

  function Put(t: Table, p: nat, x: Proc): Table
    requires p < |t.procs|
  {
    t.(procs := t.procs[p := x])
  }

  // ------------------------------------------------------------------------------------
  // Loops over the table
  // ------------------------------------------------------------------------------------

  function Woken(x: Proc, c: Chan): Proc {
    if x.state == SLEEPING && x.chan == c then x.(state := RUNNABLE) else x
  }

  function WakeAll(procs: seq<Proc>, c: Chan): (r: seq<Proc>)
    ensures |r| == |procs|
  {
    seq(|procs|, i requires 0 <= i < |procs| => Woken(procs[i], c))
  }

  /** wakeup1. */
  method Wakeup1(procs: seq<Proc>, c: Chan) returns (r: seq<Proc>)
    ensures r == WakeAll(procs, c)
  {
    r := procs;
    var i := 0;
    while i < |r|
      invariant 0 <= i <= |r| == |procs|
      invariant forall j :: 0 <= j < |r| ==> r[j] == if j < i then Woken(procs[j], c) else procs[j]
    {
      if r[i].state == SLEEPING && r[i].chan == c {
        r := r[i := r[i].(state := RUNNABLE)];
      }
      i := i + 1;
    }
  }

  function Adopted(x: Proc, cur: nat, init: nat): Proc {
    if x.parent == At(cur) then x.(parent := At(init)) else x
  }

  function AdoptAll(procs: seq<Proc>, cur: nat, init: nat): (r: seq<Proc>)
    ensures |r| == |procs|
  {
    seq(|procs|, i requires 0 <= i < |procs| => Adopted(procs[i], cur, init))
  }

  predicate ZombieChild(x: Proc, cur: nat) {
    x.parent == At(cur) && x.state == ZOMBIE
  }

  predicate HasChild(procs: seq<Proc>, cur: nat) {
    exists i :: 0 <= i < |procs| && procs[i].parent == At(cur)
  }

  predicate HasZombie(procs: seq<Proc>, cur: nat, n: nat)
    requires n <= |procs|
  {
    exists i :: 0 <= i < n && ZombieChild(procs[i], cur)
  }

  /** Children pass to init, which is woken if one of them is a zombie. */
  function PassOn(procs: seq<Proc>, cur: nat, init: nat): (r: seq<Proc>)
    ensures |r| == |procs|
  {
    var a := AdoptAll(procs, cur, init);
    if HasZombie(procs, cur, |procs|) then WakeAll(a, OfProc(init)) else a
  }

  /** The loop of exit. */
  method Abandon(procs: seq<Proc>, cur: nat, init: nat) returns (r: seq<Proc>)
    requires cur != init
    ensures r == PassOn(procs, cur, init)
  {
    r := procs;
    var i := 0;
    ghost var woken := false;
    while i < |r|
      invariant 0 <= i <= |r| == |procs| && (woken <==> HasZombie(procs, cur, i))
      invariant forall j :: 0 <= j < |r| ==>
                  r[j] ==
                    var x := if j < i then Adopted(procs[j], cur, init) else procs[j];
                    if woken then Woken(x, OfProc(init)) else x
    {
      assert r[i].parent == procs[i].parent && (r[i].state == ZOMBIE <==> procs[i].state == ZOMBIE);
      if r[i].parent == At(cur) {
        r := r[i := r[i].(parent := At(init))];
        if r[i].state == ZOMBIE {
          r := Wakeup1(r, OfProc(init));
          woken := true;
          assert ZombieChild(procs[i], cur);
        }
      }
      i := i + 1;
    }
  }

  /** The scan of allocproc: the first unused slot. */
  method FindUnused(procs: seq<Proc>) returns (found: bool, q: nat)
    ensures found <==> exists i :: 0 <= i < |procs| && procs[i].state == UNUSED
    ensures found ==> q < |procs| && procs[q].state == UNUSED && forall i :: 0 <= i < q ==> procs[i].state != UNUSED
  {
    q := 0;
    while q < |procs|
      invariant 0 <= q <= |procs| && forall i :: 0 <= i < q ==> procs[i].state != UNUSED
    {
      if procs[q].state == UNUSED {
        return true, q;
      }
      q := q + 1;
    }
    return false, 0;
  }

  /** The scan of wait: the first zombie child, or whether there are children at all. */
  method FindZombie(procs: seq<Proc>, cur: nat) returns (found: bool, q: nat, havekids: bool)
    ensures found <==> HasZombie(procs, cur, |procs|)
    ensures found ==> q < |procs| && ZombieChild(procs[q], cur) && !HasZombie(procs, cur, q)
    ensures !found ==> (havekids <==> HasChild(procs, cur))
  {
    q, havekids := 0, false;
    while q < |procs|
      invariant 0 <= q <= |procs| && !HasZombie(procs, cur, q)
      invariant havekids <==> exists i :: 0 <= i < q && procs[i].parent == At(cur)
    {
      if procs[q].parent == At(cur) {
        havekids := true;
        if procs[q].state == ZOMBIE {
          return true, q, true;
        }
      }
      q := q + 1;
    }
    return false, 0, havekids;
  }

  // ------------------------------------------------------------------------------------
  // Steps
  // ------------------------------------------------------------------------------------

  datatype Action =
    | ForkAlloc(c: nat, q: nat)   // allocproc takes slot q
    | ForkFail(c: nat)            // kalloc or copyuvm fails
    | ForkLink(c: nat)            // np->parent = curproc
    | ForkDone(c: nat)            // np->state = RUNNABLE
    | Exit(c: nat)
    | Reap(c: nat, q: nat)        // wait finds zombie child q
    | WaitSleep(c: nat)           // wait has children, none of them a zombie
    | Yield(c: nat)
    | Sleep(c: nat, n: nat)
    | Wakeup(n: nat)
    | Dispatch(c: nat, p: nat)    // the scheduler of CPU c picks p
    | Kill(p: nat)

  predicate Enabled(t: Table, a: Action) {
    match a
    case ForkAlloc(c, q) => Busy(t, c) && t.procs[Cur(t, c)].child == No && q < |t.procs| && t.procs[q].state == UNUSED
    case ForkFail(c) => Forking(t, c) && t.procs[t.procs[Cur(t, c)].child.p].parent == No
    case ForkLink(c) => Forking(t, c)
    case ForkDone(c) => Forking(t, c) && t.procs[t.procs[Cur(t, c)].child.p].parent == At(Cur(t, c))
    case Exit(c) => Busy(t, c) && Cur(t, c) != t.init && t.procs[Cur(t, c)].child == No
    case Reap(c, q) =>
      Busy(t, c) && t.procs[Cur(t, c)].child == No && q < |t.procs| && ZombieChild(t.procs[q], Cur(t, c))
    case WaitSleep(c) => Busy(t, c) && t.procs[Cur(t, c)].child == No && !HasZombie(t.procs, Cur(t, c), |t.procs|)
    case Yield(c) => Busy(t, c)
    case Sleep(c, n) => Busy(t, c)
    case Wakeup(n) => true
    case Dispatch(c, p) => c < |t.cpus| && t.cpus[c] == No && p < |t.procs| && t.procs[p].state == RUNNABLE
    case Kill(p) => p < |t.procs|
  }

  predicate Forking(t: Table, c: nat) {
    Busy(t, c) && t.procs[Cur(t, c)].child.At? && t.procs[Cur(t, c)].child.p < |t.procs|
  }

  /** The current process gives up CPU c in state st. */
  function Leave(t: Table, c: nat, st: Life, chan: Chan): Table
    requires Busy(t, c)
  {
    var p := Cur(t, c);
    Put(t, p, t.procs[p].(state := st, chan := chan)).(cpus := t.cpus[c := No])
  }

  function Next(t: Table, a: Action): Table
    requires Enabled(t, a)
  {
    match a
    case ForkAlloc(c, q) =>
      var p := Cur(t, c);
      var u := Put(t, q, t.procs[q].(state := EMBRYO, pid := t.nextpid)).(nextpid := t.nextpid + 1);
      Put(u, p, u.procs[p].(child := At(q)))
    case ForkFail(c) =>
      var p := Cur(t, c);
      var q := t.procs[p].child.p;
      var u := Put(t, q, t.procs[q].(state := UNUSED));
      Put(u, p, u.procs[p].(child := No))
    case ForkLink(c) =>
      var q := t.procs[Cur(t, c)].child.p;
      Put(t, q, t.procs[q].(parent := At(Cur(t, c))))
    case ForkDone(c) =>
      var p := Cur(t, c);
      var q := t.procs[p].child.p;
      var u := Put(t, q, t.procs[q].(state := RUNNABLE));
      Put(u, p, u.procs[p].(child := No))
    case Exit(c) =>
      var p := Cur(t, c);
      var parent := if t.procs[p].parent.At? then OfProc(t.procs[p].parent.p) else NoChan;
      var woken := WakeAll(t.procs, parent);
      Leave(t.(procs := PassOn(woken, p, t.init)), c, ZOMBIE, t.procs[p].chan)
    case Reap(c, q) =>
      Put(t, q, t.procs[q].(state := UNUSED, pid := 0, parent := No, killed := false))
        .(reaped := t.reaped + [t.procs[q].pid])
    case WaitSleep(c) => Leave(t, c, SLEEPING, OfProc(Cur(t, c)))
    case Yield(c) => Leave(t, c, RUNNABLE, t.procs[Cur(t, c)].chan)
    case Sleep(c, n) => Leave(t, c, SLEEPING, Other(n))
    case Wakeup(n) => t.(procs := WakeAll(t.procs, Other(n)))
    case Dispatch(c, p) => Put(t, p, t.procs[p].(state := RUNNING)).(cpus := t.cpus[c := At(p)])
    case Kill(p) =>
      var x := t.procs[p];
      Put(t, p, x.(killed := true, state := if x.state == SLEEPING then RUNNABLE else x.state))
  }

  // ------------------------------------------------------------------------------------
  // What every step keeps
  // ------------------------------------------------------------------------------------

  /** A CPU's process is RUNNING, and no process is on two CPUs. */
  ghost predicate CpusOk(t: Table) {
    && (forall c :: 0 <= c < |t.cpus| && t.cpus[c].At? ==>
          t.cpus[c].p < |t.procs| && t.procs[t.cpus[c].p].state == RUNNING)
    && (forall c, d :: 0 <= c < d < |t.cpus| && t.cpus[c].At? ==> t.cpus[d] != t.cpus[c])
  }

  /** Live pids are distinct and below nextpid. */
  ghost predicate PidsOk(t: Table) {
    && (forall p :: 0 <= p < |t.procs| && t.procs[p].state != UNUSED ==> 0 < t.procs[p].pid < t.nextpid)
    && (forall p, q :: 0 <= p < q < |t.procs| && t.procs[p].state != UNUSED && t.procs[q].state != UNUSED ==>
          t.procs[p].pid != t.procs[q].pid)
    && 0 < t.nextpid
  }

  /** A parent is alive, and every process but init has one once fork is done. */
  ghost predicate ParentsOk(t: Table) {
    && t.init < |t.procs| && Alive(t.procs[t.init]) && t.procs[t.init].parent == No
    && (forall p :: 0 <= p < |t.procs| ==> ParentOk(t, p))
  }

  ghost predicate ParentOk(t: Table, p: nat)
    requires p < |t.procs|
  {
    var x := t.procs[p];
    && (x.parent.At? ==> x.parent.p < |t.procs| && Alive(t.procs[x.parent.p]) && x.parent.p != p)
    && (x.state == UNUSED ==> x.parent == No)
    && ((Alive(x) || x.state == ZOMBIE) && p != t.init ==> x.parent.At?)
  }

  /** A fork in progress fills a slot of its own. */
  ghost predicate ForksOk(t: Table) {
    && (forall p :: 0 <= p < |t.procs| ==> ForkOk(t, p))
    && (forall p, q :: 0 <= p < q < |t.procs| && t.procs[p].child.At? ==> t.procs[q].child != t.procs[p].child)
  }

  ghost predicate ForkOk(t: Table, p: nat)
    requires p < |t.procs|
  {
    var x := t.procs[p];
    x.child.At? ==>
      && Alive(x) && x.child.p < |t.procs| && t.procs[x.child.p].state == EMBRYO
      && (t.procs[x.child.p].parent == No || t.procs[x.child.p].parent == At(p))
  }

  /** A process asleep in wait has no zombie child. */
  ghost predicate WaitsOk(t: Table) {
    && (forall p :: 0 <= p < |t.procs| && t.procs[p].state == SLEEPING && t.procs[p].chan.OfProc? ==>
          t.procs[p].chan == OfProc(p))
    && (forall p, q ::
          0 <= p < |t.procs| && 0 <= q < |t.procs| && t.procs[p].state == SLEEPING && t.procs[p].chan.OfProc? ==>
          !ZombieChild(t.procs[q], p))
  }

  /** No pid is returned by wait twice, and none that is still live. */
  ghost predicate ReapedOk(t: Table) {
    && (forall k :: 0 <= k < |t.reaped| ==> t.reaped[k] < t.nextpid)
    && (forall k, l :: 0 <= k < l < |t.reaped| ==> t.reaped[k] != t.reaped[l])
    && (forall k, p :: 0 <= k < |t.reaped| && 0 <= p < |t.procs| && t.procs[p].state != UNUSED ==>
          t.procs[p].pid != t.reaped[k])
  }

  ghost predicate Inv(t: Table) {
    CpusOk(t) && PidsOk(t) && ParentsOk(t) && ForksOk(t) && WaitsOk(t) && ReapedOk(t)
  }

  /** The slot a fork is filling. */
  lemma ChildIs(t: Table, c: nat)
    requires CpusOk(t) && ForksOk(t) && Forking(t, c)
    ensures var p := Cur(t, c); var q := t.procs[p].child.p;
            && p != q && t.procs[p].state == RUNNING && t.procs[q].state == EMBRYO
            && (t.procs[q].parent == No || t.procs[q].parent == At(p))
  {
    assert ForkOk(t, Cur(t, c));
  }

  /** Some live processes have changed state, channel or killed flag, and stayed alive. */
  ghost predicate Shuffled(t: Table, r: Table) {
    && |r.procs| == |t.procs| && r.init == t.init && r.nextpid == t.nextpid && r.reaped == t.reaped
    && forall p :: 0 <= p < |t.procs| ==> ShuffledAt(t.procs[p], r.procs[p])
  }

  predicate ShuffledAt(x: Proc, y: Proc) {
    y == x.(state := y.state, chan := y.chan, killed := y.killed) && (y.state == x.state || (Alive(x) && Alive(y)))
  }

  lemma ShuffledPids(t: Table, r: Table)
    requires Shuffled(t, r) && PidsOk(t) && ReapedOk(t)
    ensures PidsOk(r) && ReapedOk(r)
  {
  }

  lemma ShuffledParents(t: Table, r: Table)
    requires Shuffled(t, r) && ParentsOk(t)
    ensures ParentsOk(r)
  {
    forall p | 0 <= p < |r.procs|
      ensures ParentOk(r, p)
    {
      assert ParentOk(t, p);
    }
  }

  lemma ShuffledForks(t: Table, r: Table)
    requires Shuffled(t, r) && ForksOk(t)
    ensures ForksOk(r)
  {
    forall p | 0 <= p < |r.procs|
      ensures ForkOk(r, p)
    {
      assert ForkOk(t, p);
    }
  }

  /** Steps that only shuffle live processes. */
  predicate Shuffles(a: Action) {
    a.WaitSleep? || a.Yield? || a.Sleep? || a.Wakeup? || a.Dispatch? || a.Kill?
  }

  lemma IsShuffled(t: Table, a: Action)
    requires CpusOk(t) && Enabled(t, a) && Shuffles(a)
    ensures Shuffled(t, Next(t, a))
  {
  }

  lemma ShuffleCpus(t: Table, a: Action)
    requires CpusOk(t) && Enabled(t, a) && Shuffles(a)
    ensures CpusOk(Next(t, a))
  {
  }

  lemma ShuffleWaits(t: Table, a: Action)
    requires CpusOk(t) && WaitsOk(t) && Enabled(t, a) && Shuffles(a)
    ensures WaitsOk(Next(t, a))
  {
  }

  lemma ShuffleKeeps(t: Table, a: Action)
    requires Inv(t) && Enabled(t, a) && Shuffles(a)
    ensures Inv(Next(t, a))
  {
    hide CpusOk, PidsOk, ParentsOk, ForksOk, WaitsOk, ReapedOk, Shuffled, Next, Enabled;
    IsShuffled(t, a);
    ShuffledPids(t, Next(t, a));
    ShuffledParents(t, Next(t, a));
    ShuffledForks(t, Next(t, a));
    ShuffleCpus(t, a);
    ShuffleWaits(t, a);
  }

  // ------------------------------------------------------------------------------------
  // fork and wait
  // ------------------------------------------------------------------------------------

  /** Slot q changes to y, slot p's child to k, and the log and counter may grow. */
  ghost predicate TwoSlots(t: Table, r: Table, p: nat, q: nat, y: Proc, k: Slot) {
    && p < |t.procs| && q < |t.procs| && |r.procs| == |t.procs| && r.init == t.init && r.cpus == t.cpus
    && forall i :: 0 <= i < |t.procs| ==>
         r.procs[i] == if i == q then y else if i == p then t.procs[p].(child := k) else t.procs[i]
  }

  lemma IsTwoSlots(t: Table, a: Action)
    requires CpusOk(t) && ForksOk(t) && Enabled(t, a)
    ensures a.ForkAlloc? ==>
              var x := t.procs[a.q];
              TwoSlots(t, Next(t, a), Cur(t, a.c), a.q, x.(state := EMBRYO, pid := t.nextpid), At(a.q))
    ensures a.ForkFail? ==>
              var p := Cur(t, a.c);
              var q := t.procs[p].child.p;
              TwoSlots(t, Next(t, a), p, q, t.procs[q].(state := UNUSED), No)
    ensures a.ForkLink? ==>
              var p := Cur(t, a.c);
              var q := t.procs[p].child.p;
              TwoSlots(t, Next(t, a), p, q, t.procs[q].(parent := At(p)), At(q))
    ensures a.ForkDone? ==>
              var p := Cur(t, a.c);
              var q := t.procs[p].child.p;
              TwoSlots(t, Next(t, a), p, q, t.procs[q].(state := RUNNABLE), No)
    ensures a.Reap? ==>
              var x := t.procs[a.q].(state := UNUSED, pid := 0, parent := No, killed := false);
              TwoSlots(t, Next(t, a), Cur(t, a.c), a.q, x, t.procs[Cur(t, a.c)].child)
  {
    if a.ForkFail? || a.ForkLink? || a.ForkDone? {
      ChildIs(t, a.c);
    }
  }

  predicate Forks(a: Action) {
    a.ForkAlloc? || a.ForkFail? || a.ForkLink? || a.ForkDone? || a.Reap?
  }

  lemma TwoCpus(t: Table, r: Table, p: nat, q: nat, y: Proc, k: Slot)
    requires CpusOk(t) && TwoSlots(t, r, p, q, y, k) && t.procs[q].state != RUNNING
    ensures CpusOk(r)
  {
  }

  lemma TwoWaits(t: Table, r: Table, p: nat, q: nat, y: Proc, k: Slot)
    requires WaitsOk(t) && TwoSlots(t, r, p, q, y, k) && p != q && y.state != SLEEPING && y.state != ZOMBIE
    ensures WaitsOk(r)
  {
  }

  lemma TwoParents(t: Table, r: Table, p: nat, q: nat, y: Proc, k: Slot)
    requires ParentsOk(t) && TwoSlots(t, r, p, q, y, k) && p != q && !Alive(t.procs[q])
    requires y.parent.At? ==> y.parent.p < |t.procs| && Alive(t.procs[y.parent.p]) && y.parent.p != q
    requires (y.state == UNUSED ==> y.parent == No) && (Alive(y) || y.state == ZOMBIE ==> y.parent.At?)
    ensures ParentsOk(r)
  {
    forall i | 0 <= i < |r.procs|
      ensures ParentOk(r, i)
    {
      assert ParentOk(t, i);
    }
  }

  lemma TwoForks(t: Table, r: Table, p: nat, q: nat, y: Proc, k: Slot)
    requires ForksOk(t) && TwoSlots(t, r, p, q, y, k) && p != q && y.child == No
    requires forall i :: 0 <= i < |t.procs| && i != p ==> t.procs[i].child != At(q)
    requires k == No || (k == At(q) && Alive(t.procs[p]) && y.state == EMBRYO && (y.parent == No || y.parent == At(p)))
    ensures ForksOk(r)
  {
    forall i | 0 <= i < |r.procs|
      ensures ForkOk(r, i)
    {
      assert ForkOk(t, i);
    }
  }

  lemma TwoPids(t: Table, r: Table, p: nat, q: nat, y: Proc, k: Slot)
    requires PidsOk(t) && TwoSlots(t, r, p, q, y, k) && p != q && t.nextpid <= r.nextpid
    requires
      || y.state == UNUSED
      || (y.pid == t.procs[q].pid && t.procs[q].state != UNUSED)
      || (y.pid == t.nextpid < r.nextpid)
    ensures PidsOk(r)
  {
  }

  lemma TwoReaped(t: Table, r: Table, p: nat, q: nat, y: Proc, k: Slot)
    requires PidsOk(t) && ReapedOk(t) && TwoSlots(t, r, p, q, y, k) && p != q && t.nextpid <= r.nextpid
    requires
      || y.state == UNUSED
      || (y.pid == t.procs[q].pid && t.procs[q].state != UNUSED)
      || (y.pid == t.nextpid < r.nextpid)
    requires
      || r.reaped == t.reaped
      || (r.reaped == t.reaped + [t.procs[q].pid] && t.procs[q].state != UNUSED && y.state == UNUSED)
    ensures ReapedOk(r)
  {
  }

  /** Only one process fills slot q. */
  lemma OneFiller(t: Table, p: nat, q: nat)
    requires ForksOk(t) && p < |t.procs| && q < |t.procs| && (t.procs[p].child == At(q) || t.procs[q].state != EMBRYO)
    ensures forall i :: 0 <= i < |t.procs| && i != p ==> t.procs[i].child != At(q)
    ensures !Alive(t.procs[q]) ==> t.procs[q].child == No
  {
    forall i | 0 <= i < |t.procs| && i != p
      ensures t.procs[i].child != At(q)
    {
      assert ForkOk(t, i);
    }
    assert ForkOk(t, q);
  }

  lemma ForkKeeps(t: Table, a: Action)
    requires Inv(t) && Enabled(t, a) && Forks(a)
    ensures Inv(Next(t, a))
  {
    IsTwoSlots(t, a);
    var r, p := Next(t, a), Cur(t, a.c);
    if a.ForkFail? || a.ForkLink? || a.ForkDone? {
      ChildIs(t, a.c);
    }
    var q := if a.ForkAlloc? || a.Reap? then a.q else t.procs[p].child.p;
    var y, k := r.procs[q], r.procs[p].child;
    assert t.procs[p].state == RUNNING && p != q && !Alive(t.procs[q]);
    assert ParentOk(t, q);
    hide CpusOk, PidsOk, ParentsOk, ForksOk, WaitsOk, ReapedOk, ParentOk;
    OneFiller(t, p, q);
    TwoCpus(t, r, p, q, y, k);
    TwoWaits(t, r, p, q, y, k);
    TwoParents(t, r, p, q, y, k);
    TwoForks(t, r, p, q, y, k);
    TwoPids(t, r, p, q, y, k);
    TwoReaped(t, r, p, q, y, k);
  }

  // ------------------------------------------------------------------------------------
  // exit
  // ------------------------------------------------------------------------------------

  lemma WakeShuffles(t: Table, c: Chan)
    ensures Shuffled(t, t.(procs := WakeAll(t.procs, c)))
  {
  }

  lemma WakeCpus(t: Table, c: Chan)
    requires CpusOk(t)
    ensures CpusOk(t.(procs := WakeAll(t.procs, c)))
  {
  }

  /** Waking keeps the waits in order and leaves nobody asleep on the channel. */
  lemma WakeWaits(t: Table, c: Chan)
    requires WaitsOk(t)
    ensures var r := t.(procs := WakeAll(t.procs, c));
            WaitsOk(r) && forall p :: 0 <= p < |r.procs| && r.procs[p].state == SLEEPING ==> r.procs[p].chan != c
  {
  }

  lemma WakeKeeps(t: Table, c: Chan)
    requires Inv(t)
    ensures Inv(t.(procs := WakeAll(t.procs, c)))
  {
    hide CpusOk, PidsOk, ParentsOk, ForksOk, WaitsOk, ReapedOk, Shuffled, WakeAll;
    var r := t.(procs := WakeAll(t.procs, c));
    WakeShuffles(t, c);
    WakeCpus(t, c);
    WakeWaits(t, c);
    ShuffledPids(t, r);
    ShuffledParents(t, r);
    ShuffledForks(t, r);
  }

  /** Nobody but init is asleep in wait with a zombie child. */
  ghost predicate WaitsBut(t: Table, init: nat) {
    && (forall p :: 0 <= p < |t.procs| && t.procs[p].state == SLEEPING && t.procs[p].chan.OfProc? ==>
          t.procs[p].chan == OfProc(p))
    && (forall p, q ::
          && 0 <= p < |t.procs| && 0 <= q < |t.procs|
          && p != init && t.procs[p].state == SLEEPING && t.procs[p].chan.OfProc? ==>
          !ZombieChild(t.procs[q], p))
  }

  ghost predicate NoChild(t: Table, cur: nat) {
    forall p :: 0 <= p < |t.procs| ==> t.procs[p].parent != At(cur)
  }

  ghost predicate NoneOn(t: Table, c: Chan) {
    forall p :: 0 <= p < |t.procs| && t.procs[p].state == SLEEPING ==> t.procs[p].chan != c
  }

  function Adopt(t: Table, cur: nat): Table {
    t.(procs := AdoptAll(t.procs, cur, t.init))
  }

  lemma AdoptRest(t: Table, cur: nat)
    requires CpusOk(t) && PidsOk(t) && ReapedOk(t) && cur != t.init
    ensures var r := Adopt(t, cur); CpusOk(r) && PidsOk(r) && ReapedOk(r) && NoChild(r, cur)
  {
  }

  lemma AdoptBut(t: Table, cur: nat)
    requires WaitsOk(t)
    ensures WaitsBut(Adopt(t, cur), t.init)
  {
  }

  lemma AdoptWaits(t: Table, cur: nat)
    requires WaitsOk(t) && !HasZombie(t.procs, cur, |t.procs|)
    ensures WaitsOk(Adopt(t, cur))
  {
    var r := Adopt(t, cur);
    forall p, q | 0 <= p < |r.procs| && 0 <= q < |r.procs| && r.procs[p].state == SLEEPING && r.procs[p].chan.OfProc?
      ensures !ZombieChild(r.procs[q], p)
    {
      assert !ZombieChild(t.procs[q], cur) && !ZombieChild(t.procs[q], p);
    }
  }

  lemma AdoptParents(t: Table, cur: nat)
    requires ParentsOk(t) && cur != t.init
    ensures ParentsOk(Adopt(t, cur))
  {
    var r := Adopt(t, cur);
    forall p | 0 <= p < |r.procs|
      ensures ParentOk(r, p)
    {
      assert ParentOk(t, p);
    }
  }

  lemma AdoptForks(t: Table, cur: nat)
    requires ForksOk(t) && cur < |t.procs| && t.procs[cur].child == No
    ensures ForksOk(Adopt(t, cur))
  {
    var r := Adopt(t, cur);
    forall p | 0 <= p < |r.procs|
      ensures ForkOk(r, p)
    {
      assert ForkOk(t, p);
    }
  }

  /** Waking init puts the waits in order again. */
  lemma WakeInit(t: Table)
    requires WaitsBut(t, t.init)
    ensures WaitsOk(t.(procs := WakeAll(t.procs, OfProc(t.init))))
  {
  }

  /** The state exit leaves behind before it becomes a zombie. */
  ghost predicate Orphaned(t: Table, cur: nat) {
    Inv(t) && NoChild(t, cur)
  }

  lemma PassOnKeeps(t: Table, cur: nat)
    requires Inv(t) && cur < |t.procs| && cur != t.init && t.procs[cur].child == No
    ensures Orphaned(t.(procs := PassOn(t.procs, cur, t.init)), cur)
  {
    hide CpusOk, PidsOk, ParentsOk, ForksOk, WaitsOk, ReapedOk, WaitsBut, NoChild, HasZombie, WakeAll, AdoptAll;
    hide Shuffled;
    AdoptRest(t, cur);
    AdoptParents(t, cur);
    AdoptForks(t, cur);
    AdoptBut(t, cur);
    if !HasZombie(t.procs, cur, |t.procs|) {
      AdoptWaits(t, cur);
    } else {
      var u := Adopt(t, cur);
      var r := u.(procs := WakeAll(u.procs, OfProc(u.init)));
      WakeShuffles(u, OfProc(u.init));
      WakeCpus(u, OfProc(u.init));
      WakeInit(u);
      ShuffledPids(u, r);
      ShuffledParents(u, r);
      ShuffledForks(u, r);
      WakeChild(u, OfProc(u.init), cur);
    }
  }

  lemma WakeChild(t: Table, c: Chan, cur: nat)
    requires NoChild(t, cur)
    ensures NoChild(t.(procs := WakeAll(t.procs, c)), cur)
  {
  }

  /** Waking and adopting move neither the exiting process nor its parent to sleep. */
  lemma ExitSlot(t: Table, cur: nat, c: Chan)
    requires cur < |t.procs| && t.procs[cur].state == RUNNING && t.procs[cur].parent != At(cur)
    ensures var u := t.(procs := WakeAll(t.procs, c));
            var r := u.(procs := PassOn(u.procs, cur, t.init));
            r.procs[cur] == t.procs[cur] && u.procs[cur] == t.procs[cur] && NoneOn(r, c)
  {
  }

  lemma DieCpus(t: Table, c: nat)
    requires CpusOk(t) && Busy(t, c)
    ensures CpusOk(Leave(t, c, ZOMBIE, t.procs[Cur(t, c)].chan))
  {
  }

  lemma DiePids(t: Table, c: nat)
    requires PidsOk(t) && ReapedOk(t) && Busy(t, c) && t.procs[Cur(t, c)].state == RUNNING
    ensures var r := Leave(t, c, ZOMBIE, t.procs[Cur(t, c)].chan); PidsOk(r) && ReapedOk(r)
  {
  }

  lemma DieParents(t: Table, c: nat)
    requires ParentsOk(t) && Busy(t, c) && Cur(t, c) != t.init && NoChild(t, Cur(t, c))
    requires t.procs[Cur(t, c)].state == RUNNING
    ensures ParentsOk(Leave(t, c, ZOMBIE, t.procs[Cur(t, c)].chan))
  {
    var r := Leave(t, c, ZOMBIE, t.procs[Cur(t, c)].chan);
    forall p | 0 <= p < |r.procs|
      ensures ParentOk(r, p)
    {
      assert ParentOk(t, p);
    }
  }

  lemma DieForks(t: Table, c: nat)
    requires ForksOk(t) && Busy(t, c) && t.procs[Cur(t, c)].child == No && t.procs[Cur(t, c)].state == RUNNING
    ensures ForksOk(Leave(t, c, ZOMBIE, t.procs[Cur(t, c)].chan))
  {
    var r := Leave(t, c, ZOMBIE, t.procs[Cur(t, c)].chan);
    forall p | 0 <= p < |r.procs|
      ensures ForkOk(r, p)
    {
      assert ForkOk(t, p);
    }
  }

  lemma DieWaits(t: Table, c: nat)
    requires WaitsOk(t) && Busy(t, c) && t.procs[Cur(t, c)].parent.At? && NoneOn(t, OfProc(t.procs[Cur(t, c)].parent.p))
    ensures WaitsOk(Leave(t, c, ZOMBIE, t.procs[Cur(t, c)].chan))
  {
  }

  lemma ExitKeeps(t: Table, a: Action)
    requires Inv(t) && Enabled(t, a) && a.Exit?
    ensures Inv(Next(t, a))
  {
    var p := Cur(t, a.c);
    assert ParentOk(t, p) && t.procs[p].state == RUNNING;
    hide CpusOk, PidsOk, ParentsOk, ForksOk, WaitsOk, ReapedOk, NoChild, NoneOn, PassOn, WakeAll, Leave, ParentOk;
    var ch := OfProc(t.procs[p].parent.p);
    var u := t.(procs := WakeAll(t.procs, ch));
    var r := u.(procs := PassOn(u.procs, p, t.init));
    WakeKeeps(t, ch);
    ExitSlot(t, p, ch);
    PassOnKeeps(u, p);
    DieCpus(r, a.c);
    DiePids(r, a.c);
    DieParents(r, a.c);
    DieForks(r, a.c);
    DieWaits(r, a.c);
  }

  // ------------------------------------------------------------------------------------
  // Over every run
  // ------------------------------------------------------------------------------------

  lemma StepKeeps(t: Table, a: Action)
    requires Inv(t) && Enabled(t, a)
    ensures Inv(Next(t, a))
  {
    hide Inv, Next, Enabled;
    if a.Exit? {
      ExitKeeps(t, a);
    } else if Forks(a) {
      ForkKeeps(t, a);
    } else {
      ShuffleKeeps(t, a);
    }
  }

  predicate AllEnabled(t: Table, run: seq<Action>)
    decreases run
  {
    run == [] || (Enabled(t, run[0]) && AllEnabled(Next(t, run[0]), run[1..]))
  }

  function After(t: Table, run: seq<Action>): Table
    requires AllEnabled(t, run)
    decreases run
  {
    if run == [] then t else After(Next(t, run[0]), run[1..])
  }

  /** After userinit: one runnable process, init, in a table of n slots on a machine of k CPUs. */
  function Start(n: nat, k: nat): Table
    requires n > 0
  {
    Table([Proc(RUNNABLE, 1, No, NoChan, false, No)] + seq(n - 1, _ => Proc(UNUSED, 0, No, NoChan, false, No)),
          seq(k, _ => No), 2, 0, [])
  }

  lemma StartInv(n: nat, k: nat)
    requires n > 0
    ensures Inv(Start(n, k))
  {
    var t := Start(n, k);
    assert forall p :: 0 <= p < |t.procs| ==> ParentOk(t, p) && ForkOk(t, p);
  }

  lemma {:induction false} RunKeeps(t: Table, run: seq<Action>)
    requires Inv(t) && AllEnabled(t, run)
    ensures Inv(After(t, run))
    decreases run
  {
    hide Inv, Next, Enabled;
    if run != [] {
      StepKeeps(t, run[0]);
      RunKeeps(Next(t, run[0]), run[1..]);
    }
  }

  /** Every state a run of any length reaches satisfies the table's invariant. */
  lemma Reachable(n: nat, k: nat, run: seq<Action>)
    requires n > 0 && AllEnabled(Start(n, k), run)
    ensures Inv(After(Start(n, k), run))
  {
    hide Inv;
    StartInv(n, k);
    RunKeeps(Start(n, k), run);
  }

  // ------------------------------------------------------------------------------------
  // What exit does
  // ------------------------------------------------------------------------------------

  /** q sleeps in wait and the exit of p wakes it: it is p's parent, or init, which inherits a zombie. */
  predicate Roused(t: Table, p: nat, q: nat)
    requires p < |t.procs| && q < |t.procs|
  {
    && t.procs[q].state == SLEEPING && t.procs[q].chan == OfProc(q)
    && (t.procs[p].parent == At(q) || (q == t.init && HasZombie(t.procs, p, |t.procs|)))
  }

  /** p is a zombie and off its CPU c, its children are init's, whoever must know is awake, and nothing else
      has changed. */
  ghost predicate Exited(t: Table, r: Table, p: nat, c: nat)
    requires p < |t.procs| && c < |t.cpus|
  {
    && |r.procs| == |t.procs| && r == t.(procs := r.procs, cpus := t.cpus[c := No])
    && r.procs[p] == t.procs[p].(state := ZOMBIE)
    && forall q :: 0 <= q < |t.procs| && q != p ==>
         r.procs[q] == t.procs[q].(parent := if t.procs[q].parent == At(p) then At(t.init) else t.procs[q].parent,
                                   state := if Roused(t, p, q) then RUNNABLE else t.procs[q].state)
  }

  lemma ExitIs(t: Table, c: nat)
    requires Inv(t) && Enabled(t, Action.Exit(c))
    ensures Exited(t, Next(t, Action.Exit(c)), Cur(t, c), c)
  {
    var p := Cur(t, c);
    assert ParentOk(t, p);
    var parent := OfProc(t.procs[p].parent.p);
    var woken := WakeAll(t.procs, parent);
    ExitSlot(t, p, parent);
    assert HasZombie(woken, p, |woken|) <==> HasZombie(t.procs, p, |t.procs|) by { SameZombies(t.procs, parent, p); }
    var r := Next(t, Action.Exit(c));
    forall q | 0 <= q < |t.procs| && q != p
      ensures r.procs[q] == t.procs[q].(parent := if t.procs[q].parent == At(p) then At(t.init) else t.procs[q].parent,
                                        state := if Roused(t, p, q) then RUNNABLE else t.procs[q].state)
    {
      assert t.procs[q].state == SLEEPING && t.procs[q].chan.OfProc? ==> t.procs[q].chan == OfProc(q);
    }
  }

  lemma SameZombies(procs: seq<Proc>, c: Chan, p: nat)
    ensures var woken := WakeAll(procs, c); HasZombie(woken, p, |woken|) <==> HasZombie(procs, p, |procs|)
  {
    var woken := WakeAll(procs, c);
    forall i | 0 <= i < |procs|
      ensures ZombieChild(woken[i], p) <==> ZombieChild(procs[i], p)
    {
    }
  }

  /** Nobody is left as p's child, and its parent does not sleep in wait, nor init if it has a zombie now. */
  lemma ExitLeaves(t: Table, r: Table, p: nat, c: nat)
    requires Inv(t) && Inv(r) && p < |t.procs| && c < |t.cpus| && p != t.init && Exited(t, r, p, c)
    ensures forall q :: 0 <= q < |r.procs| ==> r.procs[q].parent != At(p)
    ensures forall q :: 0 <= q < |r.procs| && r.procs[p].parent == At(q) ==>
              !(r.procs[q].state == SLEEPING && r.procs[q].chan.OfProc?)
    ensures HasZombie(t.procs, p, |t.procs|) ==>
              !(r.procs[t.init].state == SLEEPING && r.procs[t.init].chan.OfProc?)
  {
    assert ParentOk(r, p);
    forall q | 0 <= q < |r.procs| && r.procs[p].parent == At(q)
      ensures !(r.procs[q].state == SLEEPING && r.procs[q].chan.OfProc?)
    {
      assert ZombieChild(r.procs[p], q);
    }
    if HasZombie(t.procs, p, |t.procs|) {
      var i :| 0 <= i < |t.procs| && ZombieChild(t.procs[i], p);
      assert i != p by { assert ParentOk(t, p); }
      assert ZombieChild(r.procs[i], r.init);
    }
  }

  // ------------------------------------------------------------------------------------
  // The table in place
  // ------------------------------------------------------------------------------------

  class Ptable {
    var t: Table

    /** The locked part of exit. */
    method Exit(c: nat)
      requires Inv(t) && Enabled(t, Action.Exit(c))
      modifies this
      ensures t == Next(old(t), Action.Exit(c)) && Inv(t)
      ensures Exited(old(t), t, Cur(old(t), c), c)
      ensures forall q :: 0 <= q < |t.procs| ==> t.procs[q].parent != At(Cur(old(t), c))
      ensures forall q :: 0 <= q < |t.procs| && t.procs[Cur(old(t), c)].parent == At(q) ==>
                !(t.procs[q].state == SLEEPING && t.procs[q].chan.OfProc?)
      ensures HasZombie(old(t).procs, Cur(old(t), c), |old(t).procs|) ==>
                !(t.procs[t.init].state == SLEEPING && t.procs[t.init].chan.OfProc?)
    {
      StepKeeps(t, Action.Exit(c));
      ExitIs(t, c);
      ExitLeaves(t, Next(t, Action.Exit(c)), Cur(t, c), c);
      hide Exited;
      var p := Cur(t, c);
      assert ParentOk(t, p);
      ExitSlot(t, p, OfProc(t.procs[p].parent.p));
      hide WakeAll, PassOn, Inv;
      var procs := Wakeup1(t.procs, OfProc(t.procs[p].parent.p));
      procs := Abandon(procs, p, t.init);
      t := t.(procs := procs);
      t := t.(procs := t.procs[p := t.procs[p].(state := ZOMBIE)], cpus := t.cpus[c := No]);
    }

    /** One round of wait: a zombie child's pid, -1 without children, or 0 when it goes to sleep. */
    method Wait(c: nat) returns (r: int, ghost z: nat)
      requires Inv(t) && Busy(t, c) && t.procs[Cur(t, c)].child == No
      modifies this
      ensures Inv(t)
      ensures r > 0 ==> Enabled(old(t), Reap(c, z)) && r == old(t).procs[z].pid && r !in old(t).reaped
      ensures r > 0 ==> t == Next(old(t), Reap(c, z))
      ensures r == 0 ==> Enabled(old(t), WaitSleep(c)) && t == Next(old(t), WaitSleep(c))
      ensures r == -1 ==> t == old(t)
      ensures r >= -1 && (r > 0 <==> HasZombie(old(t).procs, Cur(old(t), c), |old(t).procs|))
      ensures r == -1 <==>
                && !HasZombie(old(t).procs, Cur(old(t), c), |old(t).procs|)
                && (old(t).procs[Cur(old(t), c)].killed || !HasChild(old(t).procs, Cur(old(t), c)))
    {
      hide WakeAll, PassOn;
      var p := Cur(t, c);
      var found, q, havekids := FindZombie(t.procs, p);
      z := q;
      if found {
        StepKeeps(t, Reap(c, q));
        r := t.procs[q].pid;
        t := t.(procs := t.procs[q := t.procs[q].(state := UNUSED, pid := 0, parent := No, killed := false)],
                reaped := t.reaped + [r]);
      } else if !havekids || t.procs[p].killed {
        r := -1;
      } else {
        StepKeeps(t, WaitSleep(c));
        t := t.(procs := t.procs[p := t.procs[p].(state := SLEEPING, chan := OfProc(p))], cpus := t.cpus[c := No]);
        r := 0;
      }
    }

    /** The locked part of allocproc, for a fork on CPU c. */
    method Allocproc(c: nat) returns (found: bool, q: nat)
      requires Inv(t) && Busy(t, c) && t.procs[Cur(t, c)].child == No
      modifies this
      ensures Inv(t)
      ensures found ==> Enabled(old(t), ForkAlloc(c, q)) && t == Next(old(t), ForkAlloc(c, q))
      ensures !found ==> t == old(t) && forall i :: 0 <= i < |t.procs| ==> t.procs[i].state != UNUSED
    {
      var p := Cur(t, c);
      found, q := FindUnused(t.procs);
      if found {
        StepKeeps(t, ForkAlloc(c, q));
        hide Inv;
        t := t.(procs := t.procs[q := t.procs[q].(state := EMBRYO, pid := t.nextpid)], nextpid := t.nextpid + 1);
        t := t.(procs := t.procs[p := t.procs[p].(child := At(q))]);
      }
    }
  }
}

/** kalloc, kfree, walkpgdir, mappages, deallocuvm and freevm (xv6/kalloc.c, xv6/vm.c) on the frames. Addresses
    are page numbers; panics are preconditions. */
module VmKernel {
  import opened Numbers
  import opened VmModel

  const PGSIZE := 4096
  const KERNBASE := 0x80000000
  const PTE_PWU := 7
  const PTE_PW := 3
  const PTE_P := 1

  function Zeros(): Frame {
    Data(seq(PGSIZE, _ => 0))
  }

  // ------------------------------------------------------------------------------------
  // walkpgdir
  // ------------------------------------------------------------------------------------

  /** The state after a new table has been added at entry i of directory d. */
  function WithTable(s: Vm, d: nat, i: nat): Vm
    requires s.free != [] && s.free[0] < |s.mem| && d < |s.mem| && d != s.free[0] && s.mem[d].Table? && i < NENTRY
  {
    PutE(Fill(Taken(s), s.free[0], Table(NoEntries())), d, i, To(s.free[0], PTE_PWU))
  }

  lemma DirFrame(s: Vm, own: Owners, d: nat)
    requires VmOk(s, own) && d in own && own[d] == Dir
    ensures s.lo <= d < |s.mem| && s.mem[d].Table? && d !in s.free
    ensures s.free != [] ==> s.free[0] != d && s.free[0] < |s.mem| && s.free[0] !in own
  {
    assert s.free != [] ==> s.free[0] in s.free;
  }

  lemma TableViews(s: Vm, own: Owners, d: nat, i: nat)
    requires VmOk(s, own) && d in own && own[d] == Dir && i < NENTRY && E(s.mem, d, i) == Empty && s.free != []
    requires s.free[0] < |s.mem| && d < |s.mem| && d != s.free[0] && s.mem[d].Table? && s.free[0] !in own
    ensures SameViews(s, WithTable(s, d, i), own)
  {
    var b, own1 := s.free[0], own[s.free[0] := Held];
    var s2 := Fill(Taken(s), b, Table(NoEntries()));
    OwnedOf(s, own);
    FillOthers(Taken(s), b, Table(NoEntries()));
    assert forall j :: E(s2.mem, b, j) == Empty;
    PutOne(s2, d, i, To(b, PTE_PWU));
    TakeKeeps(s, own);
    FillKeeps(Taken(s), own1, b, Table(NoEntries()));
    OwnedOf(s2, own1);
    hide VmOk, OneEntry, SameViews, E;
    OtherView(s, s2, own, b);
    DirView(s2, WithTable(s, d, i), own1, d, i, b, PTE_PWU);
    ViewsTrans(s, s2, WithTable(s, d, i), own, own1, b);
  }

  lemma FillOthers(s: Vm, b: nat, f: Frame)
    requires b < |s.mem|
    ensures forall t, j :: t != b ==> E(Fill(s, b, f).mem, t, j) == E(s.mem, t, j)
  {
  }

  lemma TableOk(s: Vm, own: Owners, d: nat, i: nat)
    requires VmOk(s, own) && d in own && own[d] == Dir && i < NENTRY && E(s.mem, d, i) == Empty && s.free != []
    ensures s.free[0] < |s.mem| && d < |s.mem| && d != s.free[0] && s.mem[d].Table? && s.free[0] !in own
    ensures VmOk(WithTable(s, d, i), own[s.free[0] := Tab(d, i)])
  {
    hide VmOk, E;
    DirFrame(s, own, d);
    var b, own1 := s.free[0], own[s.free[0] := Held];
    TakeKeeps(s, own);
    FillKeeps(Taken(s), own1, b, Table(NoEntries()));
    var s2 := Fill(Taken(s), b, Table(NoEntries()));
    DirEntry(s2, own1, d, i, b, PTE_PWU);
    assert own1[b := Tab(d, i)] == own[b := Tab(d, i)];
  }

  lemma TableAdded(s: Vm, own: Owners, d: nat, i: nat)
    requires VmOk(s, own) && d in own && own[d] == Dir && i < NENTRY && E(s.mem, d, i) == Empty && s.free != []
    ensures s.free[0] < |s.mem| && d < |s.mem| && d != s.free[0] && s.mem[d].Table? && s.free[0] !in own
    ensures var s', b := WithTable(s, d, i), s.free[0];
            && VmOk(s', own[b := Tab(d, i)]) && SameViews(s, s', own) && SamePages(s, s', own)
            && E(s'.mem, d, i) == To(b, PTE_PWU) && s'.lo == s.lo
  {
    hide VmOk, SameViews;
    DirFrame(s, own, d);
    TableOk(s, own, d, i);
    TableViews(s, own, d, i);
    PagesApart(s, own, d, s.free[0]);
  }

  lemma OwnedOf(s: Vm, own: Owners)
    requires VmOk(s, own)
    ensures Owned(s, own) && Pointed(s, own)
  {
  }

  lemma PagesApart(s: Vm, own: Owners, d: nat, b: nat)
    requires VmOk(s, own) && d in own && own[d] == Dir && b !in own
    ensures forall x :: x in own && (own[x].Page? || own[x].Held?) ==> x != d && x != b
  {
  }

  lemma ViewsTrans(s: Vm, s2: Vm, s3: Vm, own: Owners, own1: Owners, b: nat)
    requires b !in own && own1 == own[b := Held] && SameViews(s, s2, own) && SameViews(s2, s3, own1)
    ensures SameViews(s, s3, own)
  {
    hide View;
    forall x, v | x in own && own[x] == Dir && 0 <= v < NPAGE
      ensures View(s3.mem, x, v) == View(s.mem, x, v)
    {
      assert x in own1 && own1[x] == Dir;
      assert View(s3.mem, x, v) == View(s2.mem, x, v);
    }
  }

  // ------------------------------------------------------------------------------------
  // mappages
  // ------------------------------------------------------------------------------------

  /** Owners after page v of d is mapped to frame b: a user page becomes the directory's. */
  ghost function Owning(own: Owners, d: nat, v: nat, b: nat): Owners {
    if v < KPAGE then own[b := Page(d, v / NENTRY, v % NENTRY)] else own
  }

  lemma EntryAdded(s: Vm, own: Owners, d: nat, v: nat, t: nat, b: nat, flags: nat)
    requires VmOk(s, own) && v < NPAGE && t in own && own[t] == Tab(d, v / NENTRY) && E(s.mem, t, v % NENTRY) == Empty
    requires v < KPAGE ==> b in own && own[b] == Held && b < |s.mem| && s.mem[b].Data?
    ensures t < |s.mem| && s.mem[t].Table?
    ensures var s' := PutE(s, t, v % NENTRY, To(b, flags));
            && VmOk(s', Owning(own, d, v, b)) && OneView(s, s', own, d, v, To(b, flags)) && SamePages(s, s', own)
  {
    assert t < |s.mem| && s.mem[t].Table?;
    var s' := PutE(s, t, v % NENTRY, To(b, flags));
    assert SamePages(s, s', own);
    OwnedOf(s, own);
    PutOne(s, t, v % NENTRY, To(b, flags));
    hide VmOk, OneEntry, OneView, SamePages, E;
    PutView(s, s', own, d, v / NENTRY, v % NENTRY, t, To(b, flags));
    if v < KPAGE {
      PageEntry(s, own, d, v / NENTRY, v % NENTRY, t, b, flags);
    } else {
      KernelEntry(s, own, d, v / NENTRY, v % NENTRY, t, To(b, flags));
    }
  }

  /** Directory d has gained n pages from first on, mapped to the frames from f on. */
  ghost predicate Mapped(s: Vm, s': Vm, own: Owners, d: nat, first: nat, n: nat, f: nat, flags: nat) {
    forall x, u :: x in own && own[x] == Dir && 0 <= u < NPAGE ==>
      View(s'.mem, x, u) == if x == d && first <= u < first + n then To(f + (u - first), flags) else View(s.mem, x, u)
  }

  /** Owners of own keep their frames, except those of x, and new frames belong to d. */
  ghost predicate Kept(own: Owners, own': Owners, d: nat, x: set<nat>) {
    && (forall b :: b in own ==> b in own' && (b !in x ==> own'[b] == own[b]))
    && (forall b :: b in own' && b !in own ==> b != d && Of(b, own'[b], d))
  }

  /** Directories stay directories. */
  ghost predicate DirsKept(own: Owners, own': Owners) {
    forall x :: x in own && own[x] == Dir ==> x in own' && own'[x] == Dir
  }

  /** Pages and held frames stay pages or held. */
  ghost predicate RolesKept(own: Owners, own': Owners) {
    forall b :: b in own && (own[b].Page? || own[b].Held?) ==> b in own' && (own'[b].Page? || own'[b].Held?)
  }

  lemma KeptRoles(own: Owners, own': Owners, d: nat)
    requires Kept(own, own', d, {})
    ensures DirsKept(own, own') && RolesKept(own, own')
  {
  }

  lemma MappedTable(s: Vm, s1: Vm, s2: Vm, own: Owners, own1: Owners, d: nat, first: nat, n: nat, f: nat, flags: nat)
    requires Mapped(s, s1, own, d, first, n, f, flags) && SameViews(s1, s2, own1) && DirsKept(own, own1)
    ensures Mapped(s, s2, own, d, first, n, f, flags)
  {
    hide View;
  }

  lemma MappedMore(s: Vm, s1: Vm, s2: Vm, own: Owners, own1: Owners, d: nat, first: nat, n: nat, f: nat, flags: nat)
    requires Mapped(s, s1, own, d, first, n, f, flags) && DirsKept(own, own1)
    requires OneView(s1, s2, own1, d, first + n, To(f + n, flags))
    ensures Mapped(s, s2, own, d, first, n + 1, f, flags)
  {
    hide View;
  }

  lemma PagesTrans(s: Vm, s1: Vm, s2: Vm, own: Owners, own1: Owners)
    requires SamePages(s, s1, own) && SamePages(s1, s2, own1) && RolesKept(own, own1)
    ensures SamePages(s, s2, own)
  {
  }

  // A stretch of pages first, first + 1, ... goes to the frames f, f + 1, ...

  /** The frames of the user pages among the first n of a stretch. */
  ghost function Frames(first: nat, n: nat, f: nat): (r: set<nat>)
    ensures forall b: nat :: b in r <==> f <= b < f + n && first + (b - f) < KPAGE
  {
    if n == 0 then {} else Frames(first, n - 1, f) + if first + n - 1 < KPAGE then {f + n - 1} else {}
  }

  /** The frames for the user pages of a stretch of n are held and hold data. */
  ghost predicate Ready(s: Vm, own: Owners, first: nat, n: nat, f: nat) {
    forall b :: f <= b < f + n && first + (b - f) < KPAGE ==>
      b in own && own[b] == Held && b < |s.mem| && s.mem[b].Data?
  }

  /** They belong to directory d. */
  ghost predicate HandedOver(own: Owners, d: nat, first: nat, n: nat, f: nat) {
    forall b :: f <= b < f + n && first + (b - f) < KPAGE ==>
      b in own && own[b] == Page(d, (first + (b - f)) / NENTRY, (first + (b - f)) % NENTRY)
  }

  /** What mappages has done after n pages. */
  ghost predicate Stretch(s: Vm, s': Vm, own: Owners, own': Owners, d: nat, first: nat, n: nat, f: nat, flags: nat) {
    && VmOk(s', own') && SamePages(s, s', own) && |s'.mem| == |s.mem| && s'.lo == s.lo
    && Mapped(s, s', own, d, first, n, f, flags) && Kept(own, own', d, Frames(first, n, f))
    && HandedOver(own', d, first, n, f)
    && DirsKept(own, own') && RolesKept(own, own')
  }

  lemma StretchNone(s: Vm, own: Owners, d: nat, first: nat, f: nat, flags: nat)
    requires VmOk(s, own)
    ensures Stretch(s, s, own, own, d, first, 0, f, flags)
  {
    hide VmOk, View;
  }

  /** walkpgdir for the next page. */
  lemma StretchWalk(s: Vm, s1: Vm, s2: Vm, own: Owners, own1: Owners, own2: Owners, d: nat, first: nat, n: nat, f: nat,
                    flags: nat)
    requires Stretch(s, s1, own, own1, d, first, n, f, flags)
    requires VmOk(s2, own2) && SameViews(s1, s2, own1) && SamePages(s1, s2, own1) && Kept(own1, own2, d, {})
    requires |s2.mem| == |s1.mem| && s2.lo == s1.lo
    ensures Stretch(s, s2, own, own2, d, first, n, f, flags)
  {
    hide VmOk, View, SameViews, SamePages, Mapped;
    KeptRoles(own1, own2, d);
    MappedTable(s, s1, s2, own, own1, d, first, n, f, flags);
    PagesTrans(s, s1, s2, own, own1);
  }

  lemma ReadyWalk(s1: Vm, s2: Vm, own1: Owners, own2: Owners, d: nat, first: nat, n: nat, f: nat)
    requires Ready(s1, own1, first, n, f) && SamePages(s1, s2, own1) && Kept(own1, own2, d, {})
    ensures Ready(s2, own2, first, n, f)
  {
  }

  /** The entry of the next page. */
  lemma StretchMore(s: Vm, s2: Vm, s3: Vm, own: Owners, own2: Owners, d: nat, first: nat, n: nat, f: nat, flags: nat)
    requires Stretch(s, s2, own, own2, d, first, n, f, flags)
    requires first + n < KPAGE ==> f + n in own && own[f + n] == Held && f + n in own2 && own2[f + n] == Held
    requires VmOk(s3, Owning(own2, d, first + n, f + n)) && OneView(s2, s3, own2, d, first + n, To(f + n, flags))
    requires SamePages(s2, s3, own2) && |s3.mem| == |s2.mem| && s3.lo == s2.lo
    ensures Stretch(s, s3, own, Owning(own2, d, first + n, f + n), d, first, n + 1, f, flags)
  {
    hide VmOk, View, SamePages, Mapped;
    MappedMore(s, s2, s3, own, own2, d, first, n, f, flags);
    PagesTrans(s, s2, s3, own, own2);
  }

  lemma ReadyMore(s2: Vm, s3: Vm, own2: Owners, d: nat, first: nat, n: nat, f: nat)
    requires n > 0 && Ready(s2, own2, first, n, f) && SamePages(s2, s3, own2)
    ensures Ready(s3, Owning(own2, d, first, f), first + 1, n - 1, f + 1)
  {
  }

  // ------------------------------------------------------------------------------------
  // The frames a stretch of pages costs
  // ------------------------------------------------------------------------------------

  predicate HasTable(s: Vm, d: nat, i: nat) {
    E(s.mem, d, i).To?
  }

  /** The tables that directory d lacks for the n pages from first on. */
  ghost function Missing(s: Vm, d: nat, first: nat, n: nat): set<nat> {
    if n == 0 then {} else set i | first / NENTRY <= i <= (first + n - 1) / NENTRY && !HasTable(s, d, i)
  }

  /** Frames needed for them, and for the pages themselves if those are new. */
  ghost function Price(s: Vm, d: nat, first: nat, n: nat, paged: bool): nat {
    |Missing(s, d, first, n)| + if paged then n else 0
  }

  /** Page v has been reached: its table is there, no other is new, and one frame more is gone if the page
      itself is new. */
  ghost predicate PaidOne(s: Vm, s': Vm, d: nat, v: nat, paged: bool) {
    && (forall i: nat :: HasTable(s', d, i) <==> HasTable(s, d, i) || i == v / NENTRY)
    && |s.free| == |s'.free| + (if HasTable(s, d, v / NENTRY) then 0 else 1) + if paged then 1 else 0
  }

  /** n pages have been reached. */
  ghost predicate Paid(s: Vm, s': Vm, d: nat, first: nat, n: nat, paged: bool) {
    && |s.free| == |s'.free| + Price(s, d, first, n, paged)
    && forall i: nat :: HasTable(s', d, i) <==>
                        HasTable(s, d, i) || (n > 0 && first / NENTRY <= i <= (first + n - 1) / NENTRY)
  }

  lemma MissingMore(s: Vm, s1: Vm, d: nat, first: nat, n: nat)
    requires forall i: nat :: HasTable(s1, d, i) <==>
                              HasTable(s, d, i) || (n > 0 && first / NENTRY <= i <= (first + n - 1) / NENTRY)
    ensures var i := (first + n) / NENTRY;
            Missing(s, d, first, n + 1) == Missing(s, d, first, n) + if HasTable(s1, d, i) then {} else {i}
    ensures HasTable(s1, d, (first + n) / NENTRY) || (first + n) / NENTRY !in Missing(s, d, first, n)
  {
    hide HasTable;
    var i := (first + n) / NENTRY;
    assert n > 0 ==> i - 1 <= (first + n - 1) / NENTRY <= i && first / NENTRY <= i;
    forall j
      ensures j in Missing(s, d, first, n + 1) <==>
              j in Missing(s, d, first, n) || (!HasTable(s1, d, i) && j == i)
    {
    }
  }

  lemma PaidMore(s: Vm, s1: Vm, s2: Vm, d: nat, first: nat, n: nat, paged: bool)
    requires Paid(s, s1, d, first, n, paged) && PaidOne(s1, s2, d, first + n, paged)
    ensures Paid(s, s2, d, first, n + 1, paged)
  {
    hide HasTable, Missing;
    MissingMore(s, s1, d, first, n);
    var at := (first + n) / NENTRY;
    assert |Missing(s, d, first, n + 1)| == |Missing(s, d, first, n)| + if HasTable(s1, d, at) then 0 else 1;
    forall i: nat
      ensures HasTable(s2, d, i) <==> HasTable(s, d, i) || first / NENTRY <= i <= at
    {
      assert n > 0 ==> at - 1 <= (first + n - 1) / NENTRY <= at && first / NENTRY <= at;
    }
  }

  lemma PaidNone(s: Vm, d: nat, first: nat, paged: bool)
    ensures Paid(s, s, d, first, 0, paged)
  {
  }

  lemma {:induction false} SetSize(a: set<nat>, b: set<nat>)
    requires a <= b
    ensures |a| <= |b|
  {
    if a != {} {
      var x :| x in a;
      SetSize(a - {x}, b - {x});
    }
  }

  /** The next page cannot be paid for, so the stretch cannot. */
  lemma PaidShort(s: Vm, s1: Vm, d: nat, first: nat, n: nat, total: nat, paged: bool)
    requires Paid(s, s1, d, first, n, paged) && n < total
    requires |s1.free| < (if HasTable(s1, d, (first + n) / NENTRY) then 0 else 1) + if paged then 1 else 0
    ensures |s.free| < Price(s, d, first, total, paged)
  {
    hide HasTable;
    MissingMore(s, s1, d, first, n);
    assert (first + n) / NENTRY <= (first + total - 1) / NENTRY;
    SetSize(Missing(s, d, first, n + 1), Missing(s, d, first, total));
  }

  lemma PaidEnough(s: Vm, s': Vm, d: nat, first: nat, n: nat, paged: bool)
    requires Paid(s, s', d, first, n, paged)
    ensures |s.free| >= Price(s, d, first, n, paged)
  {
  }

  lemma TakenTables(s: Vm, d: nat, t: nat, i: nat)
    requires s.free != [] && t == s.free[0] && t < |s.mem| && d < |s.mem| && t != d && s.mem[d].Table? && i < NENTRY
    requires !HasTable(s, d, i)
    ensures forall j :: HasTable(WithTable(s, d, i), d, j) <==> HasTable(s, d, j) || j == i
  {
  }

  lemma PutTables(s: Vm, d: nat, t: nat, j: nat, e: Entry)
    requires t < |s.mem| && s.mem[t].Table? && j < NENTRY && t != d
    ensures forall i :: HasTable(PutE(s, t, j, e), d, i) == HasTable(s, d, i)
    ensures PutE(s, t, j, e).free == s.free
  {
  }

  lemma OneTrans(s: Vm, s1: Vm, s2: Vm, d: nat, v: nat)
    requires PaidOne(s, s1, d, v, false) && s2.free == s1.free && forall i :: HasTable(s2, d, i) == HasTable(s1, d, i)
    ensures PaidOne(s, s2, d, v, false)
  {
    hide HasTable;
  }

  class Kernel {
    var s: Vm

    method Kalloc(ghost own: Owners) returns (ok: bool, b: nat, ghost own': Owners)
      requires VmOk(s, own)
      modifies this
      ensures ok <==> old(s).free != []
      ensures !ok ==> s == old(s) && own' == own
      ensures ok ==> b == old(s).free[0] && b !in own && s == Taken(old(s)) && own' == own[b := Held] && VmOk(s, own')
      ensures ok ==> b < |s.mem|
    {
      hide VmOk;
      if s.free == [] {
        return false, 0, own;
      }
      TakeKeeps(s, own);
      b := s.free[0];
      s := s.(free := s.free[1..]);
      return true, b, own[b := Held];
    }

    /** kfree; its panic outside the allocator's frames is the precondition. */
    method Kfree(b: nat)
      requires s.lo <= b < |s.mem|
      modifies this
      ensures s == Given(old(s), b)
    {
      s := s.(mem := s.mem[b := Data(seq(4096, _ => 1))]);
      s := s.(free := [b] + s.free);
    }

    /** walkpgdir with alloc set: the table of page v, allocated if there is none. */
    method Walk(d: nat, v: nat, ghost own: Owners) returns (ok: bool, t: nat, ghost own': Owners)
      requires VmOk(s, own) && d in own && own[d] == Dir && v < NPAGE
      modifies this
      ensures !ok ==> s == old(s) && own' == own && s.free == []
      ensures VmOk(s, own') && SameViews(old(s), s, own) && SamePages(old(s), s, own) && Kept(own, own', d, {})
      ensures ok ==> t in own' && own'[t] == Tab(d, v / NENTRY) && E(s.mem, d, v / NENTRY).To?
      ensures ok ==> E(s.mem, d, v / NENTRY).frame == t
      ensures |s.mem| == |old(s).mem| && s.lo == old(s).lo
      ensures ok <==> HasTable(old(s), d, v / NENTRY) || old(s).free != []
      ensures ok ==> PaidOne(old(s), s, d, v, false)
    {
      hide VmOk, SameViews, SamePages;
      own' := own;
      SameRefl(s, own);
      DirFrame(s, own, d);
      var i := v / NENTRY;
      assert E(s.mem, d, i) == s.mem[d].e[i];
      if s.mem[d].e[i].To? {
        TableOf(s, own, d, i);
        return true, s.mem[d].e[i].frame, own;
      }
      if s.free == [] {
        return false, 0, own;
      }
      TableAdded(s, own, d, i);
      t := s.free[0];
      TakenTables(s, d, t, i);
      s := s.(free := s.free[1..]);
      s := s.(mem := s.mem[t := Table(NoEntries())]);
      s := s.(mem := s.mem[d := Table(s.mem[d].e[i := To(t, PTE_PWU)])]);
      own' := own[t := Tab(d, i)];
      return true, t, own';
    }

    /** mappages for pages first to last. User pages take over the frames they are mapped to. done is how
        many pages are mapped when memory for a table runs out. */
    method Mappages(d: nat, first: nat, last: nat, frame: nat, flags: nat, ghost own: Owners)
      returns (ok: bool, ghost done: nat, ghost own': Owners)
      requires VmOk(s, own) && d in own && own[d] == Dir && first <= last < NPAGE
      requires Ready(s, own, first, last - first + 1, frame)
      requires forall v :: first <= v <= last ==> View(s.mem, d, v) == Empty
      modifies this
      ensures Stretch(old(s), s, own, own', d, first, done, frame, flags)
      ensures if ok then done == last - first + 1 else done <= last - first && s.free == []
      ensures done == 0 ==> s == old(s) && own' == own
      ensures ok <==> |old(s).free| >= Price(old(s), d, first, last - first + 1, false)
      ensures Paid(old(s), s, d, first, done, false)
    {
      hide VmOk, SameViews, SamePages, View, E, Mapped, Kept, Ready, Stretch, HandedOver, Frames;
      hide HasTable, Paid, PaidOne, Price;
      ghost var s0 := s;
      own' := own;
      StretchNone(s, own, d, first, frame, flags);
      PaidNone(s, d, first, false);
      var a, pa := first, frame;
      while true
        invariant first <= a <= last && pa == frame + (a - first)
        invariant Stretch(s0, s, own, own', d, first, a - first, frame, flags) && VmOk(s, own')
        invariant Ready(s, own', a, last - a + 1, pa)
        invariant a == first ==> s == s0 && own' == own
        invariant Paid(s0, s, d, first, a - first, false)
        decreases last - a
      {
        ghost var s1, own1 := s, own';
        StretchEmpty(s0, s1, own, own1, d, first, a, frame, flags);
        var t;
        ok, t, own' := Walk(d, a, own1);
        if !ok {
          PaidShort(s0, s1, d, first, a - first, last - first + 1, false);
          return false, a - first, own1;
        }
        ghost var s2, own2 := s, own';
        StretchWalk(s0, s1, s2, own, own1, own2, d, first, a - first, frame, flags);
        ReadyWalk(s1, s2, own1, own2, d, a, last - a + 1, pa);
        WalkedEntry(s1, s2, own1, d, a);
        ReadyNow(s0, s2, own, own2, first, last, a, frame, pa);
        EntryAdded(s2, own2, d, a, t, pa, flags);
        NotDir(s0, s2, own, own2, d, t, first, a - first, frame, flags, a);
        PutTables(s2, d, t, a % NENTRY, To(pa, flags));
        s := PutE(s, t, a % NENTRY, To(pa, flags));
        OneTrans(s1, s2, s, d, a);
        PaidMore(s0, s1, s, d, first, a - first, false);
        own' := Owning(own2, d, a, pa);
        StretchMore(s0, s2, s, own, own2, d, first, a - first, frame, flags);
        ReadyMore(s2, s, own2, d, a, last - a + 1, pa);
        if a == last {
          PaidEnough(s0, s, d, first, a - first + 1, false);
          return true, a - first + 1, own';
        }
        a, pa := a + 1, pa + 1;
        StretchOk(s0, s, own, own', d, first, a - first, frame, flags);
      }
    }

    /** deallocuvm: pages from newsz up to oldsz are unmapped and their frames freed. */
    method Deallocuvm(d: nat, oldsz: nat, newsz: nat, ghost own: Owners) returns (r: nat, ghost own': Owners)
      requires VmOk(s, own) && d in own && own[d] == Dir && oldsz <= KERNBASE
      modifies this
      ensures r == if newsz >= oldsz then oldsz else newsz
      ensures VmOk(s, own') && SamePages(old(s), s, own') && |s.mem| == |old(s).mem| && s.lo == old(s).lo
      ensures Gone(old(s), s, own, d, Pages(newsz), Pages(oldsz)) && Lost(own, own', d, Pages(newsz), Pages(oldsz))
    {
      hide VmOk, SamePages, Gone, Lost, View, E;
      ghost var s0 := s;
      own' := own;
      SameRefl(s, own);
      if newsz >= oldsz {
        GoneNone(s0, own, d, Pages(newsz), Pages(oldsz));
        return oldsz, own;
      }
      GoneNone(s0, own, d, Pages(newsz), Pages(newsz));
      var v := Pages(newsz);
      while v * PGSIZE < oldsz
        invariant Pages(newsz) <= v && |s.mem| == |s0.mem| && s.lo == s0.lo
        invariant VmOk(s, own') && SamePages(s0, s, own') && d in own' && own'[d] == Dir
        invariant Gone(s0, s, own, d, Pages(newsz), Min(v, Pages(oldsz)))
        invariant Lost(own, own', d, Pages(newsz), Min(v, Pages(oldsz)))
        decreases oldsz - v * PGSIZE
      {
        DirFrame(s, own', d);
        DirIs(s, d, v / NENTRY);
        if s.mem[d].e[v / NENTRY] == Empty {
          Skipped(s0, s, own, own', d, Pages(newsz), v, Min((v / NENTRY + 1) * NENTRY, Pages(oldsz)));
          v := (v / NENTRY + 1) * NENTRY;
        } else {
          var t := s.mem[d].e[v / NENTRY].frame;
          TableOf(s, own', d, v / NENTRY);
          DirIs(s, t, v % NENTRY);
          ViewIs(s, d, v);
          ghost var s1, own1 := s, own';
          if s.mem[t].e[v % NENTRY].To? {
            var b := s.mem[t].e[v % NENTRY].frame;
            PageFreed(s1, own1, d, v, t, b);
            Kfree(b);
            s := PutE(s, t, v % NENTRY, Empty);
            own' := own1 - {b};
            GoneMore(s0, s1, s, own, own1, own', d, Pages(newsz), v, b);
            LostMore(s1, own, own1, d, Pages(newsz), v, b);
            PagesLess(s0, s1, s, own1, own');
          } else {
            Skipped(s0, s, own, own', d, Pages(newsz), v, v + 1);
          }
          v := v + 1;
        }
      }
      return newsz, own';
    }

    /** freevm: every frame of d's tree is freed, and nothing else. */
    method Freevm(d: nat, ghost own: Owners) returns (ghost own': Owners)
      requires VmOk(s, own) && d in own && own[d] == Dir
      modifies this
      ensures own' == Without(own, d)
      ensures VmOk(s, own') && SameViews(old(s), s, own') && SamePages(old(s), s, own') && |s.mem| == |old(s).mem|
      ensures s.lo == old(s).lo
    {
      hide VmOk, SamePages, SameViews, Gone, Lost, View, E, Dissolved, Without;
      ghost var s0 := s;
      var r;
      ghost var own1;
      r, own1 := Deallocuvm(d, KERNBASE, 0, own);
      ghost var s1 := s;
      NoPages(s0, s1, own, own1, d);
      DissolveKeeps(s1, own1, d);
      DirFrame(s1, own1, d);
      own' := Dissolved(own1, d);
      TearStart(s1, own1, d);
      var i := 0;
      while i < NENTRY
        invariant 0 <= i <= NENTRY && |s.mem| == |s1.mem| && s.lo == s1.lo && d < |s.mem| && s.mem[d] == s1.mem[d]
        invariant VmOk(s, own') && SameViews(s1, s, own') && SamePages(s1, s, own')
        invariant Torn(own1, own', d, i)
      {
        TearEntry(s1, own1, own', d, i);
        if s.mem[d].e[i].To? {
          var b := s.mem[d].e[i].frame;
          ghost var s2, own2 := s, own';
          HeldFreed(s2, own2, b);
          Kfree(b);
          own' := own2 - {b};
          SameLess(s1, s2, s, own2, own', b);
        }
        i := i + 1;
      }
      ghost var s3, own3 := s, own';
      TearEnd(s0, s1, own, own1, own3, d);
      HeldFreed(s3, own3, d);
      Kfree(d);
      own' := own3 - {d};
      SameLess(s1, s3, s, own3, own', d);
      SameFrom(s0, s1, s, own, own1, own', d);
    }
  }

  // ------------------------------------------------------------------------------------
  // Steps of freevm
  // ------------------------------------------------------------------------------------

  ghost function Without(own: Owners, d: nat): Owners {
    map b | b in own && !Of(b, own[b], d) :: own[b]
  }

  lemma NoPages(s: Vm, s': Vm, own: Owners, own': Owners, d: nat)
    requires VmOk(s, own) && VmOk(s', own') && Lost(own, own', d, 0, KPAGE) && d in own && own[d] == Dir
    ensures d in own' && own'[d] == Dir && forall b :: b in own' && own'[b].Page? ==> own'[b].d != d
  {
    hide E, Partition, Kinds, Owned;
    forall b | b in own' && own'[b].Page?
      ensures own'[b].d != d
    {
      assert RoleOk(s', own', b, own'[b]);
      assert b in own && !PageIn(own[b], d, 0, KPAGE);
    }
  }

  /** The first i tables of the dissolved directory d have been freed. */
  ghost predicate Torn(own: Owners, own': Owners, d: nat, i: nat) {
    && (forall b :: b in own' <==> b in own && !(own[b].Tab? && own[b].d == d && own[b].i < i))
    && (forall b :: b in own' ==> own'[b] == if Of(b, own[b], d) then Held else own[b])
  }

  lemma TearStart(s: Vm, own: Owners, d: nat)
    ensures Torn(own, Dissolved(own, d), d, 0) && SameViews(s, s, Dissolved(own, d))
    ensures SamePages(s, s, Dissolved(own, d))
  {
  }

  /** Entry i of the directory names the one table with index i. */
  lemma TearEntry(s: Vm, own: Owners, own': Owners, d: nat, i: nat)
    requires VmOk(s, own) && d in own && own[d] == Dir && i < NENTRY && Torn(own, own', d, i) && d < |s.mem|
    requires s.mem[d].Table?
    ensures s.mem[d].e[i] == Empty ==> Torn(own, own', d, i + 1)
    ensures s.mem[d].e[i].To? ==>
              var b := s.mem[d].e[i].frame;
              b in own' && own'[b] == Held && b != d && s.lo <= b < |s.mem| && Torn(own, own' - {b}, d, i + 1)
  {
    DirIs(s, d, i);
    forall x | x in own && own[x].Tab? && own[x].d == d && own[x].i == i
      ensures s.mem[d].e[i].To? && s.mem[d].e[i].frame == x
    {
      assert RoleOk(s, own, x, own[x]);
    }
    if s.mem[d].e[i].To? {
      TableOf(s, own, d, i);
    }
    hide VmOk, E;
  }

  lemma HeldFreed(s: Vm, own: Owners, b: nat)
    requires VmOk(s, own) && b in own && own[b] == Held
    ensures s.lo <= b < |s.mem| && VmOk(Given(s, b), own - {b})
    ensures SameViews(s, Given(s, b), own) && SamePages(s, Given(s, b), own - {b})
  {
    GiveKeeps(s, own, b);
    OwnedOf(s, own);
    assert s.lo <= b;
    GivenOthers(s, b);
    hide VmOk, E;
    OtherView(s, Given(s, b), own, b);
  }

  lemma SameLess(s: Vm, s1: Vm, s2: Vm, own1: Owners, own2: Owners, b: nat)
    requires SameViews(s, s1, own1) && SamePages(s, s1, own1) && own2 == own1 - {b}
    requires SameViews(s1, s2, own1) && SamePages(s1, s2, own2)
    ensures SameViews(s, s2, own2) && SamePages(s, s2, own2)
  {
    hide View;
  }

  lemma TearEnd(s: Vm, s1: Vm, own: Owners, own1: Owners, own3: Owners, d: nat)
    requires VmOk(s1, own1) && d in own1 && own1[d] == Dir && Lost(own, own1, d, 0, KPAGE)
    requires Torn(own1, own3, d, NENTRY)
    requires forall b :: b in own1 && own1[b].Page? ==> own1[b].d != d
    requires VmOk(s, own)
    ensures d in own3 && own3[d] == Held && own3 - {d} == Without(own, d)
  {
    hide E, Partition, Kinds, Owned;
    forall b | b in own1 && own1[b].Tab? && own1[b].d == d
      ensures own1[b].i < NENTRY
    {
      assert RoleOk(s1, own1, b, own1[b]);
    }
    hide VmOk;
    assert forall b :: b in own3 && b != d <==> b in Without(own, d);
  }

  lemma SameFrom(s: Vm, s1: Vm, s2: Vm, own: Owners, own1: Owners, own2: Owners, d: nat)
    requires Gone(s, s1, own, d, 0, KPAGE) && Lost(own, own1, d, 0, KPAGE) && SamePages(s, s1, own1)
    requires SameViews(s1, s2, own2) && SamePages(s1, s2, own2) && own2 == Without(own, d)
    ensures SameViews(s, s2, own2) && SamePages(s, s2, own2)
  {
    hide View;
    assert forall b :: b in own2 ==> b in own && own2[b] == own[b] && b != d;
  }

  // ------------------------------------------------------------------------------------
  // Steps of deallocuvm
  // ------------------------------------------------------------------------------------

  /** PGROUNDUP, as a page number. */
  function Pages(sz: nat): nat {
    (sz + PGSIZE - 1) / PGSIZE
  }

  /** Directory d has lost pages [lo, hi) and no view has changed otherwise. */
  ghost predicate Gone(s: Vm, s': Vm, own: Owners, d: nat, lo: nat, hi: nat) {
    forall x, u :: x in own && own[x] == Dir && 0 <= u < NPAGE ==>
      View(s'.mem, x, u) == if x == d && lo <= u < hi then Empty else View(s.mem, x, u)
  }

  predicate PageIn(r: Role, d: nat, lo: nat, hi: nat) {
    r.Page? && r.d == d && lo <= r.i * NENTRY + r.j < hi
  }

  /** Exactly the frames of d's pages [lo, hi) are given up. */
  ghost predicate Lost(own: Owners, own': Owners, d: nat, lo: nat, hi: nat) {
    && (forall b :: b in own' ==> b in own && own'[b] == own[b])
    && (forall b :: b in own ==> (b !in own' <==> PageIn(own[b], d, lo, hi)))
  }

  lemma GoneNone(s: Vm, own: Owners, d: nat, lo: nat, hi: nat)
    requires hi <= lo
    ensures Gone(s, s, own, d, lo, hi) && Lost(own, own, d, lo, hi)
  {
  }

  lemma DirIs(s: Vm, d: nat, i: nat)
    requires d < |s.mem| && s.mem[d].Table? && i < NENTRY
    ensures E(s.mem, d, i) == s.mem[d].e[i]
  {
  }

  lemma ViewIs(s: Vm, d: nat, v: nat)
    requires E(s.mem, d, v / NENTRY).To?
    ensures View(s.mem, d, v) == E(s.mem, E(s.mem, d, v / NENTRY).frame, v % NENTRY)
  {
  }

  /** Pages [v, w) were not mapped. */
  lemma Skipped(s: Vm, s': Vm, own: Owners, own': Owners, d: nat, lo: nat, v: nat, w: nat)
    requires VmOk(s', own') && d in own && own[d] == Dir && d in own' && own'[d] == Dir && v <= w <= KPAGE
    requires Gone(s, s', own, d, lo, v) && Lost(own, own', d, lo, v)
    requires
      || (w == v + 1 && View(s'.mem, d, v) == Empty)
      || (E(s'.mem, d, v / NENTRY) == Empty && w <= (v / NENTRY + 1) * NENTRY)
    ensures Gone(s, s', own, d, lo, w) && Lost(own, own', d, lo, w)
  {
    hide E, Partition, Kinds, Owned;
    assert forall u :: v <= u < w ==> View(s'.mem, d, u) == Empty;
    forall b | b in own'
      ensures !PageIn(own'[b], d, v, w)
    {
      assert RoleOk(s', own', b, own'[b]);
    }
    hide View, VmOk;
  }

  lemma FreedState(s: Vm, t: nat, j: nat, b: nat)
    requires t < |s.mem| && s.mem[t].Table? && j < NENTRY && b < |s.mem| && b != t
    ensures Given(PutE(s, t, j, Empty), b) == PutE(Given(s, b), t, j, Empty)
  {
  }

  lemma PageFreed(s: Vm, own: Owners, d: nat, v: nat, t: nat, b: nat)
    requires VmOk(s, own) && v < KPAGE && t in own && own[t] == Tab(d, v / NENTRY) && E(s.mem, t, v % NENTRY).To?
    requires b == E(s.mem, t, v % NENTRY).frame
    ensures t < |s.mem| && s.mem[t].Table? && s.lo <= b < |s.mem| && b != t
    ensures b in own && own[b] == Page(d, v / NENTRY, v % NENTRY)
    ensures var s' := PutE(Given(s, b), t, v % NENTRY, Empty);
            VmOk(s', own - {b}) && OneView(s, s', own, d, v, Empty) && SamePages(s, s', own - {b})
  {
    hide View, Pointed, Owned;
    var j := v % NENTRY;
    ClearEntry(s, own, d, v / NENTRY, j, t);
    FreedState(s, t, j, b);
    PutOne(s, t, j, Empty);
    OwnedOf(s, own);
    hide VmOk, OneEntry;
    PutView(s, PutE(s, t, j, Empty), own, d, v / NENTRY, j, t, Empty);
    var s1, own1 := PutE(s, t, j, Empty), own[b := Held];
    GiveKeeps(s1, own1, b);
    OwnedOf(s1, own1);
    assert own1 - {b} == own - {b};
    GivenOthers(s1, b);
    hide E;
    OtherView(s1, Given(s1, b), own1, b);
    ViewThen(s, s1, Given(s1, b), own, own1, d, v);
  }

  lemma GivenOthers(s: Vm, b: nat)
    requires b < |s.mem|
    ensures forall t, j :: t != b ==> E(Given(s, b).mem, t, j) == E(s.mem, t, j)
  {
  }

  lemma ViewThen(s: Vm, s1: Vm, s2: Vm, own: Owners, own1: Owners, d: nat, v: nat)
    requires OneView(s, s1, own, d, v, Empty) && SameViews(s1, s2, own1)
    requires forall x :: x in own && own[x] == Dir ==> x in own1 && own1[x] == Dir
    ensures OneView(s, s2, own, d, v, Empty)
  {
    hide View;
  }

  lemma GoneMore(s: Vm, s1: Vm, s2: Vm, own: Owners, own1: Owners, own2: Owners, d: nat, lo: nat, v: nat, b: nat)
    requires Gone(s, s1, own, d, lo, v) && OneView(s1, s2, own1, d, v, Empty) && Lost(own, own1, d, lo, v) && lo <= v
    ensures Gone(s, s2, own, d, lo, v + 1)
  {
    hide View;
  }

  lemma LostMore(s1: Vm, own: Owners, own1: Owners, d: nat, lo: nat, v: nat, b: nat)
    requires VmOk(s1, own1) && Lost(own, own1, d, lo, v) && lo <= v
    requires b in own1 && own1[b] == Page(d, v / NENTRY, v % NENTRY)
    ensures Lost(own, own1 - {b}, d, lo, v + 1)
  {
    hide E, Partition, Kinds, Owned;
    forall x | x in own1 && PageIn(own1[x], d, v, v + 1)
      ensures x == b
    {
      assert RoleOk(s1, own1, x, own1[x]) && RoleOk(s1, own1, b, own1[b]);
      assert own1[x].i == v / NENTRY && own1[x].j == v % NENTRY;
    }
    hide VmOk;
  }

  lemma PagesLess(s: Vm, s1: Vm, s2: Vm, own1: Owners, own2: Owners)
    requires SamePages(s, s1, own1) && SamePages(s1, s2, own2)
    requires forall b :: b in own2 ==> b in own1 && own2[b] == own1[b]
    ensures SamePages(s, s2, own2)
  {
  }

  // ------------------------------------------------------------------------------------
  // Steps of mappages
  // ------------------------------------------------------------------------------------

  lemma SameRefl(s: Vm, own: Owners)
    ensures SameViews(s, s, own) && SamePages(s, s, own)
  {
  }

  lemma StretchOk(s: Vm, s': Vm, own: Owners, own': Owners, d: nat, first: nat, n: nat, f: nat, flags: nat)
    requires Stretch(s, s', own, own', d, first, n, f, flags)
    ensures VmOk(s', own')
  {
  }

  /** Pages not reached yet are still empty. */
  lemma StretchEmpty(s: Vm, s': Vm, own: Owners, own': Owners, d: nat, first: nat, a: nat, f: nat, flags: nat)
    requires d in own && own[d] == Dir && first <= a < NPAGE && View(s.mem, d, a) == Empty
    requires Stretch(s, s', own, own', d, first, a - first, f, flags)
    ensures View(s'.mem, d, a) == Empty && d in own' && own'[d] == Dir
  {
    hide View, VmOk;
  }

  lemma NotDir(s: Vm, s': Vm, own: Owners, own': Owners, d: nat, t: nat, first: nat, n: nat, f: nat, flags: nat, v: nat)
    requires d in own && own[d] == Dir && Stretch(s, s', own, own', d, first, n, f, flags)
    requires t in own' && own'[t] == Tab(d, v / NENTRY)
    ensures t != d
  {
    hide VmOk, View;
  }

  lemma ReadyNow(s: Vm, s': Vm, own: Owners, own': Owners, first: nat, last: nat, a: nat, f: nat, pa: nat)
    requires first <= a <= last && pa == f + (a - first) && Ready(s, own, first, last - first + 1, f)
    requires Ready(s', own', a, last - a + 1, pa)
    ensures a < KPAGE ==>
              pa in own && own[pa] == Held && pa in own' && own'[pa] == Held && pa < |s'.mem| && s'.mem[pa].Data?
  {
  }

  lemma WalkedEntry(s: Vm, s': Vm, own: Owners, d: nat, a: nat)
    requires d in own && own[d] == Dir && a < NPAGE && View(s.mem, d, a) == Empty && SameViews(s, s', own)
    ensures E(s'.mem, d, a / NENTRY).To? ==> E(s'.mem, E(s'.mem, d, a / NENTRY).frame, a % NENTRY) == Empty
  {
    assert View(s'.mem, d, a) == Empty;
  }

  lemma KeptTrans(own: Owners, own1: Owners, own2: Owners, d: nat)
    requires Kept(own, own1, d, {}) && Kept(own1, own2, d, {})
    ensures Kept(own, own2, d, {})
  {
  }
}

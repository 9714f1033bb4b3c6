/** Whole address spaces (xv6/vm.c): setupkvm, allocuvm and copyuvm conserve frames, and undo
    what they did when memory runs out. */
module VmSpace {
  import opened Numbers
  import opened VmModel
  import opened VmKernel

  // ------------------------------------------------------------------------------------
  // setupkvm
  // ------------------------------------------------------------------------------------

  /** A row of kmap: pages, in place of addresses. */
  datatype Kmap = Kmap(virt: nat, phys: nat, n: nat, flags: nat)

  /** kmap, for a kernel whose data section starts at frame dp. */
  function KmapRow(dp: nat, m: nat): Kmap
    requires 0x100 < dp < 0xe000 && m < 4
  {
    if m == 0 then Kmap(0x80000, 0, 0x100, PTE_PW)
    else if m == 1 then Kmap(0x80100, 0x100, dp - 0x100, PTE_P)
    else if m == 2 then Kmap(0x80000 + dp, dp, 0xe000 - dp, PTE_PW)
    else Kmap(0xfe000, 0xfe000, 0x2000, PTE_PW)
  }

  /** The kernel half of every address space. */
  function KernelView(dp: nat, v: nat): Entry {
    if 0x80000 <= v < 0x8e000 then To(v - 0x80000, if 0x80100 <= v < 0x80000 + dp then PTE_P else PTE_PW)
    else if 0xfe000 <= v < 0x100000 then To(v, PTE_PW)
    else Empty
  }

  /** d maps what the first m rows of kmap say. */
  ghost predicate Rows(s: Vm, d: nat, dp: nat, m: nat)
    requires 0x100 < dp < 0xe000 && m <= 4
  {
    forall v :: 0 <= v < NPAGE ==>
      View(s.mem, d, v) == if m < 4 && v >= KmapRow(dp, m).virt then Empty else KernelView(dp, v)
  }

  lemma RowsMore(s: Vm, s': Vm, own: Owners, d: nat, dp: nat, m: nat)
    requires 0x100 < dp < 0xe000 && m < 4 && Rows(s, d, dp, m) && d in own && own[d] == Dir
    requires var k := KmapRow(dp, m); Mapped(s, s', own, d, k.virt, k.n, k.phys, k.flags)
    ensures Rows(s', d, dp, m + 1)
  {
    hide View;
  }

  lemma RowsEmpty(s: Vm, d: nat, dp: nat, m: nat)
    requires 0x100 < dp < 0xe000 && m < 4 && Rows(s, d, dp, m)
    ensures var k := KmapRow(dp, m);
            k.virt + k.n <= NPAGE && forall v :: k.virt <= v < k.virt + k.n ==> View(s.mem, d, v) == Empty
  {
    hide View;
  }

  // The directory and the tables of the kernel half: 56 for the memory below PHYSTOP, 8 for devices.
  const KVMFRAMES := 65

  /** Where row m of kmap starts, up to the memory's end. */
  function Top(dp: nat, m: nat): nat
    requires 0x100 < dp < 0xe000 && m <= 3
  {
    if m < 3 then KmapRow(dp, m).virt else 0x8e000
  }

  /** The tables that the first m rows take. */
  function TablesOf(dp: nat, m: nat): nat
    requires 0x100 < dp < 0xe000 && m <= 4
  {
    if m == 4 then 64 else (Top(dp, m) + NENTRY - 1) / NENTRY - 0x200
  }

  ghost predicate RowTables(s: Vm, d: nat, dp: nat, m: nat)
    requires 0x100 < dp < 0xe000 && m <= 4
  {
    forall i: nat :: HasTable(s, d, i) <==>
                     0x200 <= i < 0x200 + Min(TablesOf(dp, m), 56) || (m == 4 && 0x3f8 <= i < 0x400)
  }

  /** The numbers from lo up to hi. */
  ghost function Interval(lo: nat, hi: nat): (r: set<nat>)
    requires lo <= hi
    ensures |r| == hi - lo && forall x: nat :: x in r <==> lo <= x < hi
    decreases hi - lo
  {
    if lo == hi then {} else Interval(lo, hi - 1) + {hi - 1}
  }

  /** The directory entries of row m. */
  lemma RowSpan(dp: nat, m: nat)
    requires 0x100 < dp < 0xe000 && m < 3
    ensures var k, lo, hi := KmapRow(dp, m), TablesOf(dp, m), TablesOf(dp, m + 1);
            && lo <= hi <= 56 && k.n > 0 && (k.virt + k.n - 1) / NENTRY == 0x200 + hi - 1
            && 0x200 <= k.virt / NENTRY && 0x200 + lo - 1 <= k.virt / NENTRY <= 0x200 + lo
  {
  }

  lemma RowMissing(s: Vm, d: nat, first: nat, n: nat, lo: nat, hi: nat)
    requires lo <= hi && n > 0 && (first + n - 1) / NENTRY == 0x200 + hi - 1
    requires 0x200 <= first / NENTRY && 0x200 + lo - 1 <= first / NENTRY <= 0x200 + lo
    requires forall i: nat :: HasTable(s, d, i) <==> 0x200 <= i < 0x200 + lo
    ensures Missing(s, d, first, n) == Interval(0x200 + lo, 0x200 + hi)
  {
    hide HasTable;
  }

  lemma DeviceMissing(s: Vm, d: nat)
    requires forall i: nat :: HasTable(s, d, i) <==> 0x200 <= i < 0x238
    ensures Missing(s, d, 0xfe000, 0x2000) == Interval(0x3f8, 0x400)
  {
    hide HasTable;
  }

  lemma RowPrice(s: Vm, d: nat, dp: nat, m: nat)
    requires 0x100 < dp < 0xe000 && m < 4 && RowTables(s, d, dp, m)
    ensures TablesOf(dp, m) <= TablesOf(dp, m + 1) <= 64
    ensures var k := KmapRow(dp, m); Price(s, d, k.virt, k.n, false) == TablesOf(dp, m + 1) - TablesOf(dp, m)
  {
    hide HasTable, Missing;
    if m == 3 {
      DeviceMissing(s, d);
    } else {
      RowSpan(dp, m);
      hide TablesOf, KmapRow;
      var k := KmapRow(dp, m);
      RowMissing(s, d, k.virt, k.n, TablesOf(dp, m), TablesOf(dp, m + 1));
    }
  }

  lemma RowPaid(s: Vm, s': Vm, d: nat, dp: nat, m: nat)
    requires 0x100 < dp < 0xe000 && m < 4 && RowTables(s, d, dp, m)
    requires var k := KmapRow(dp, m); Paid(s, s', d, k.virt, k.n, false)
    ensures RowTables(s', d, dp, m + 1) && |s.free| == |s'.free| + TablesOf(dp, m + 1) - TablesOf(dp, m)
  {
    hide HasTable, Missing;
    RowPrice(s, d, dp, m);
    var k := KmapRow(dp, m);
    if m < 3 {
      assert k.virt + k.n == Top(dp, m + 1) && k.n > 0;
      assert (k.virt + k.n - 1) / NENTRY == 0x200 + TablesOf(dp, m + 1) - 1;
    }
    hide Price;
  }

  lemma NoTables(s: Vm, d: nat, dp: nat)
    requires d < |s.mem| && s.mem[d] == Table(NoEntries()) && 0x100 < dp < 0xe000
    ensures RowTables(s, d, dp, 0)
  {
  }

  lemma UserTables(s: Vm, d: nat, dp: nat)
    requires 0x100 < dp < 0xe000 && RowTables(s, d, dp, 4)
    ensures forall i :: 0 <= i < 0x200 ==> !HasTable(s, d, i)
  {
    hide HasTable;
  }

  /** A directory that was not there before has frames of its own only. */
  lemma Undone(s: Vm, own: Owners, own': Owners, d: nat)
    requires VmOk(s, own) && d !in own && Kept(own[d := Dir], own', d, {})
    ensures Without(own', d) == own
  {
    hide E, Partition, Kinds, Owned;
    forall b | b in own
      ensures b in own' && own'[b] == own[b] && !Of(b, own[b], d)
    {
      assert b in own[d := Dir];
      assert RoleOk(s, own, b, own[b]);
      if own[b].Page? {
        var t := E(s.mem, own[b].d, own[b].i).frame;
        assert RoleOk(s, own, t, own[t]);
      }
    }
    forall b | b in own' && b !in own
      ensures Of(b, own'[b], d)
    {
    }
    hide VmOk;
  }

  /** With the same owners the same frames are free. */
  lemma SameFree(s: Vm, s': Vm, own: Owners)
    requires VmOk(s, own) && VmOk(s', own) && s'.lo == s.lo && |s'.mem| == |s.mem|
    ensures forall b :: b in s'.free <==> b in s.free
  {
  }

  lemma NewDirView(s: Vm, own: Owners, d: nat)
    requires VmOk(s, own) && d !in own && d < |s.mem|
    ensures SameViews(s, Fill(s, d, Table(NoEntries())), own) && SamePages(s, Fill(s, d, Table(NoEntries())), own)
  {
    OwnedOf(s, own);
    FillOthers(s, d, Table(NoEntries()));
    hide VmOk, E;
    OtherView(s, Fill(s, d, Table(NoEntries())), own, d);
  }

  lemma MapSame(s: Vm, s1: Vm, s2: Vm, own: Owners, own1: Owners, d: nat, first: nat, n: nat, f: nat, flags: nat)
    requires SameViews(s, s1, own) && SamePages(s, s1, own) && d !in own && Kept(own[d := Dir], own1, d, {})
    requires Mapped(s1, s2, own1, d, first, n, f, flags) && SamePages(s1, s2, own1)
    ensures SameViews(s, s2, own) && SamePages(s, s2, own)
  {
    hide View;
    assert forall b :: b in own ==> b in own[d := Dir] && b in own1 && own1[b] == own[b] && b != d;
  }

  lemma FailSame(s: Vm, s1: Vm, s2: Vm, own: Owners, own1: Owners, d: nat)
    requires SameViews(s, s1, own) && SamePages(s, s1, own) && d !in own && Kept(own[d := Dir], own1, d, {})
    requires SamePages(s1, s2, own1)
    requires forall x, u :: x in own1 && own1[x] == Dir && 0 <= u < NPAGE && (x != d || u < KPAGE) ==>
               View(s2.mem, x, u) == View(s1.mem, x, u)
    ensures SameViews(s, s2, own) && SamePages(s, s2, own)
  {
    hide View;
    assert forall b :: b in own ==> b in own[d := Dir] && b in own1 && own1[b] == own[b] && b != d;
  }

  lemma SameSame(s: Vm, s1: Vm, s2: Vm, own: Owners)
    requires SameViews(s, s1, own) && SamePages(s, s1, own) && SameViews(s1, s2, own) && SamePages(s1, s2, own)
    ensures SameViews(s, s2, own) && SamePages(s, s2, own)
  {
    hide View;
  }

  lemma KeptDir(own: Owners, own1: Owners, d: nat)
    requires d !in own && Kept(own[d := Dir], own1, d, {})
    ensures d in own1 && own1[d] == Dir
  {
    assert d in own[d := Dir];
  }

  lemma ReadyKernel(s: Vm, own: Owners, first: nat, n: nat, f: nat)
    requires first >= KPAGE
    ensures Ready(s, own, first, n, f)
  {
  }

  /** A stretch of kernel pages takes no frame over and leaves the user half alone. */
  lemma StretchKernel(s: Vm, s': Vm, own: Owners, own': Owners, d: nat, first: nat, n: nat, f: nat, flags: nat)
    requires Stretch(s, s', own, own', d, first, n, f, flags) && first >= KPAGE
    ensures VmOk(s', own') && SamePages(s, s', own) && Kept(own, own', d, {})
    ensures Mapped(s, s', own, d, first, n, f, flags)
    ensures |s'.mem| == |s.mem| && s'.lo == s.lo
    ensures forall x, u :: x in own && own[x] == Dir && 0 <= u < NPAGE && (x != d || u < KPAGE) ==>
              View(s'.mem, x, u) == View(s.mem, x, u)
  {
    hide VmOk, View;
    assert Frames(first, n, f) == {};
  }

  /** A stretch of one user page. */
  lemma StretchPage(s: Vm, s': Vm, own: Owners, own': Owners, d: nat, v: nat, b: nat, flags: nat)
    requires Stretch(s, s', own, own', d, v, 1, b, flags) && v < KPAGE && b in own && own[b] == Held && b < |s.mem|
    ensures VmOk(s', own') && SamePages(s, s', own) && Mapped(s, s', own, d, v, 1, b, flags) && Kept(own, own', d, {b})
    ensures b in own' && own'[b] == Page(d, v / NENTRY, v % NENTRY) && b < |s'.mem| && s'.mem[b] == s.mem[b]
    ensures |s'.mem| == |s.mem| && s'.lo == s.lo
  {
    hide VmOk, View, Mapped;
    assert Frames(v, 1, b) == {b};
  }

  /** setupkvm. */
  method Setupkvm(k: Kernel, dp: nat, ghost own: Owners) returns (ok: bool, d: nat, ghost own': Owners)
    requires VmOk(k.s, own) && 0x100 < dp < 0xe000
    modifies k
    ensures VmOk(k.s, own') && SameViews(old(k.s), k.s, own) && SamePages(old(k.s), k.s, own)
    ensures |k.s.mem| == |old(k.s).mem| && k.s.lo == old(k.s).lo
    ensures !ok ==> own' == own
    ensures ok ==> d !in own && Kept(own[d := Dir], own', d, {}) && Rows(k.s, d, dp, 4)
    ensures ok <==> |old(k.s).free| >= KVMFRAMES
    ensures ok ==> |k.s.free| == |old(k.s).free| - KVMFRAMES && forall i :: 0 <= i < 0x200 ==> !HasTable(k.s, d, i)
  {
    hide VmOk, SameViews, SamePages, View, Mapped, Rows, Kept, Without, E, Stretch, Ready, Price, Paid, HasTable;
    hide RowTables;
    ghost var s0 := k.s;
    SameRefl(s0, own);
    ok, d, own' := k.Kalloc(own);
    if !ok {
      return;
    }
    ghost var s1 := k.s;
    FillKeeps(s1, own', d, Table(NoEntries()));
    DirStart(s0, s1, own, d, dp);
    k.s := k.s.(mem := k.s.mem[d := Table(NoEntries())]);
    NewDir(k.s, own', d);
    own' := own[d := Dir];
    NoTables(k.s, d, dp);
    var m := 0;
    while m < 4
      invariant 0 <= m <= 4 && VmOk(k.s, own') && |k.s.mem| == |s0.mem| && k.s.lo == s0.lo
      invariant SameViews(s0, k.s, own) && SamePages(s0, k.s, own)
      invariant Kept(own[d := Dir], own', d, {}) && Rows(k.s, d, dp, m)
      invariant RowTables(k.s, d, dp, m) && |s0.free| == |k.s.free| + 1 + TablesOf(dp, m)
    {
      ghost var s2, own2 := k.s, own';
      var row := KmapRow(dp, m);
      KeptDir(own, own2, d);
      RowsEmpty(s2, d, dp, m);
      RowPrice(s2, d, dp, m);
      ghost var done;
      ReadyKernel(s2, own2, row.virt, row.n, row.phys);
      ok, done, own' := k.Mappages(d, row.virt, row.virt + row.n - 1, row.phys, row.flags, own2);
      StretchKernel(s2, k.s, own2, own', d, row.virt, done, row.phys, row.flags);
      KeptTrans(own[d := Dir], own2, own', d);
      if !ok {
        FailSame(s0, s2, k.s, own, own2, d);
        Undone(s0, own, own', d);
        KeptDir(own, own', d);
        ghost var s3 := k.s;
        own' := k.Freevm(d, own');
        SameSame(s0, s3, k.s, own);
        return false, 0, own';
      }
      MapSame(s0, s2, k.s, own, own2, d, row.virt, row.n, row.phys, row.flags);
      RowsMore(s2, k.s, own2, d, dp, m);
      RowPaid(s2, k.s, d, dp, m);
      m := m + 1;
    }
    UserTables(k.s, d, dp);
    return true, d, own';
  }

  lemma DirStart(s: Vm, s1: Vm, own: Owners, d: nat, dp: nat)
    requires VmOk(s, own) && s.free != [] && d == s.free[0] && d !in own && d < |s.mem| && s1 == Taken(s)
    requires 0x100 < dp < 0xe000
    ensures var s2 := Fill(s1, d, Table(NoEntries()));
            && SameViews(s, s2, own) && SamePages(s, s2, own) && Rows(s2, d, dp, 0)
            && Kept(own[d := Dir], own[d := Dir], d, {})
            && own[d := Held][d := Dir] == own[d := Dir]
  {
    NewDirView(s, own, d);
    assert Fill(s1, d, Table(NoEntries())).mem == Fill(s, d, Table(NoEntries())).mem;
  }

  // ------------------------------------------------------------------------------------
  // One new user page
  // ------------------------------------------------------------------------------------

  /** s' has one more page, v of d, on frame b with the given contents. */
  ghost predicate Added(s: Vm, s': Vm, own: Owners, own': Owners, d: nat, v: nat, b: nat, f: Frame, flags: nat) {
    && VmOk(s', own') && Kept(own, own', d, {}) && OneView(s, s', own, d, v, To(b, flags)) && SamePages(s, s', own)
    && b !in own && b < |s'.mem| && s'.mem[b] == f && b in own' && own'[b] == Page(d, v / NENTRY, v % NENTRY)
  }

  /** The frame is allocated and filled, and not mapped yet. */
  lemma FilledFrame(s: Vm, own: Owners, b: nat, f: Frame)
    requires VmOk(s, own) && s.free != [] && b == s.free[0]
    ensures b !in own && b < |s.mem| && VmOk(Fill(Taken(s), b, f), own[b := Held])
    ensures SameViews(s, Fill(Taken(s), b, f), own) && SamePages(s, Fill(Taken(s), b, f), own)
  {
    TakeKeeps(s, own);
    OwnedOf(s, own);
    FillOthers(Taken(s), b, f);
    hide VmOk, E;
    FillKeeps(Taken(s), own[b := Held], b, f);
    OtherView(s, Fill(Taken(s), b, f), own, b);
  }

  lemma IsAdded(s: Vm, s1: Vm, s2: Vm, own: Owners, own2: Owners, d: nat, v: nat, b: nat, f: Frame, flags: nat)
    requires d in own && own[d] == Dir && b !in own && b < |s2.mem| && s2.mem[b] == f && VmOk(s2, own2)
    requires SameViews(s, s1, own) && SamePages(s, s1, own)
    requires Mapped(s1, s2, own[b := Held], d, v, 1, b, flags) && SamePages(s1, s2, own[b := Held])
    requires Kept(own[b := Held], own2, d, {b}) && b in own2 && own2[b] == Page(d, v / NENTRY, v % NENTRY)
    ensures Added(s, s2, own, own2, d, v, b, f, flags)
  {
    hide View, VmOk;
    assert forall x :: x in own ==> x in own[b := Held] && own[b := Held][x] == own[x] && x != b;
  }

  /** kalloc, fill and mappages. held tells that the frame was allocated but not mapped. */
  method MapNew(k: Kernel, d: nat, v: nat, f: Frame, flags: nat, ghost own: Owners)
    returns (ok: bool, held: bool, b: nat, ghost own': Owners)
    requires VmOk(k.s, own) && d in own && own[d] == Dir && v < KPAGE && View(k.s.mem, d, v) == Empty && f.Data?
    modifies k
    ensures |k.s.mem| == |old(k.s).mem| && k.s.lo == old(k.s).lo && VmOk(k.s, own')
    ensures ok ==> Added(old(k.s), k.s, own, own', d, v, b, f, flags)
    ensures !ok && !held ==> k.s == old(k.s) && own' == own
    ensures !ok && held ==> b !in own && own' == own[b := Held] && b < |k.s.mem| && SameViews(old(k.s), k.s, own)
    ensures !ok && held ==> SamePages(old(k.s), k.s, own)
    ensures ok <==> |old(k.s).free| >= Price(old(k.s), d, v, 1, true)
    ensures ok ==> PaidOne(old(k.s), k.s, d, v, true)
  {
    hide VmOk, SameViews, SamePages, View, Mapped, Kept, E, Added, Stretch, Price, Paid, PaidOne, HasTable;
    ghost var s0 := k.s;
    OnePrice(s0, d, v);
    ok, b, own' := k.Kalloc(own);
    if !ok {
      return false, false, 0, own;
    }
    FilledFrame(s0, own, b, f);
    k.s := k.s.(mem := k.s.mem[b := f]);
    ghost var s1 := k.s;
    EmptyStill(s0, s1, own, d, v);
    FilledTables(s0, d, b, f);
    OnePrice(s1, d, v);
    ghost var done;
    ok, done, own' := k.Mappages(d, v, v, b, flags, own[b := Held]);
    if ok {
      FilledPaid(s0, s1, k.s, d, v);
      StretchPage(s1, k.s, own[b := Held], own', d, v, b, flags);
      IsAdded(s0, s1, k.s, own, own', d, v, b, f, flags);
    }
    return ok, !ok, b, own';
  }

  lemma OnePrice(s: Vm, d: nat, v: nat)
    ensures Price(s, d, v, 1, true) == 1 + if HasTable(s, d, v / NENTRY) then 0 else 1
    ensures Price(s, d, v, 1, false) == if HasTable(s, d, v / NENTRY) then 0 else 1
  {
    hide HasTable;
    assert Missing(s, d, v, 1) == if HasTable(s, d, v / NENTRY) then {} else {v / NENTRY};
  }

  lemma FilledTables(s: Vm, d: nat, b: nat, f: Frame)
    requires s.free != [] && b < |s.mem| && b != d
    ensures forall i :: HasTable(Fill(Taken(s), b, f), d, i) == HasTable(s, d, i)
  {
  }

  lemma FilledPaid(s: Vm, s1: Vm, s2: Vm, d: nat, v: nat)
    requires |s.free| == |s1.free| + 1 && Paid(s1, s2, d, v, 1, false)
    requires forall i :: HasTable(s1, d, i) == HasTable(s, d, i)
    ensures PaidOne(s, s2, d, v, true)
  {
    OnePrice(s1, d, v);
    hide HasTable, Price;
  }

  lemma EmptyStill(s: Vm, s1: Vm, own: Owners, d: nat, v: nat)
    requires d in own && own[d] == Dir && v < NPAGE && View(s.mem, d, v) == Empty && SameViews(s, s1, own)
    ensures View(s1.mem, d, v) == Empty
  {
    hide View;
  }

  // ------------------------------------------------------------------------------------
  // allocuvm
  // ------------------------------------------------------------------------------------

  /** Pages [lo, hi) of d are new, zeroed and writable, and all else is as before. */
  ghost predicate Grown(s: Vm, s': Vm, own: Owners, own': Owners, d: nat, lo: nat, hi: nat) {
    && VmOk(s', own') && Kept(own, own', d, {}) && SamePages(s, s', own)
    && (forall x, u :: x in own && own[x] == Dir && 0 <= u < NPAGE && !(x == d && lo <= u < hi) ==>
          View(s'.mem, x, u) == View(s.mem, x, u))
    && (forall u :: lo <= u < hi && u < NPAGE ==> NewZero(s', own, own', View(s'.mem, d, u)))
  }

  ghost predicate NewZero(s: Vm, own: Owners, own': Owners, e: Entry) {
    && e.To? && e.flags == PTE_PWU && e.frame !in own && e.frame in own' && own'[e.frame].Page?
    && e.frame < |s.mem| && s.mem[e.frame] == Zeros()
  }

  lemma GrownStart(s: Vm, own: Owners, d: nat, lo: nat)
    requires VmOk(s, own)
    ensures Grown(s, s, own, own, d, lo, lo)
  {
  }

  lemma GrownMore(s: Vm, s1: Vm, s2: Vm, own: Owners, own1: Owners, own2: Owners, d: nat, lo: nat, v: nat, b: nat)
    requires d in own && own[d] == Dir && lo <= v < KPAGE && Grown(s, s1, own, own1, d, lo, v)
    requires Added(s1, s2, own1, own2, d, v, b, Zeros(), PTE_PWU)
    ensures Grown(s, s2, own, own2, d, lo, v + 1)
  {
    hide View, VmOk, Zeros;
    KeptTrans(own, own1, own2, d);
    KeptRoles(own, own1, d);
    PagesTrans(s, s1, s2, own, own1);
    assert b !in own;
    forall u | lo <= u < v + 1
      ensures NewZero(s2, own, own2, View(s2.mem, d, u))
    {
      if u < v {
        assert NewZero(s1, own, own1, View(s1.mem, d, u));
      }
    }
  }

  /** Deallocating what was added brings every view back; only tables may have been gained. */
  ghost predicate Restored(s: Vm, s': Vm, own: Owners, own': Owners, d: nat) {
    && VmOk(s', own') && Kept(own, own', d, {}) && SameViews(s, s', own) && SamePages(s, s', own)
    && forall b :: b in own' && b !in own ==> own'[b].Tab? && own'[b].d == d
  }

  lemma NonePaged(s: Vm, own: Owners, d: nat, lo: nat, hi: nat)
    requires VmOk(s, own) && d in own && own[d] == Dir && hi <= KPAGE
    requires forall u :: lo <= u < hi ==> View(s.mem, d, u) == Empty
    ensures forall b :: b in own ==> !PageIn(own[b], d, lo, hi)
  {
    hide VmOk, View;
    forall b | b in own
      ensures !PageIn(own[b], d, lo, hi)
    {
      if own[b].Page? {
        RoleView(s, own, b);
      }
    }
  }

  /** A page role shows in the view. */
  lemma RoleView(s: Vm, own: Owners, b: nat)
    requires VmOk(s, own) && b in own && own[b].Page?
    ensures var v := own[b].i * NENTRY + own[b].j;
            v < KPAGE && View(s.mem, own[b].d, v).To? && View(s.mem, own[b].d, v).frame == b
  {
    hide E;
    assert RoleOk(s, own, b, own[b]);
  }

  lemma ViewRole(s: Vm, own: Owners, d: nat, v: nat)
    requires VmOk(s, own) && d in own && own[d] == Dir && v < KPAGE && View(s.mem, d, v).To?
    ensures View(s.mem, d, v).frame in own && own[View(s.mem, d, v).frame] == Page(d, v / NENTRY, v % NENTRY)
  {
    hide E;
  }

  lemma OnlyTables(s: Vm, s': Vm, own: Owners, own': Owners, d: nat)
    requires VmOk(s, own) && VmOk(s', own') && SameViews(s, s', own) && Kept(own, own', d, {}) && d in own
    requires own[d] == Dir
    ensures forall b :: b in own' && b !in own ==> own'[b].Tab? && own'[b].d == d
  {
    hide VmOk, View;
    forall b | b in own' && b !in own
      ensures own'[b].Tab? && own'[b].d == d
    {
      if own'[b].Page? {
        RoleView(s', own', b);
        var v := own'[b].i * NENTRY + own'[b].j;
        assert View(s'.mem, d, v) == View(s.mem, d, v);
        ViewRole(s, own, d, v);
      }
    }
  }

  lemma IsRestored(s: Vm, s1: Vm, s2: Vm, own: Owners, own1: Owners, own2: Owners, d: nat, lo: nat, v: nat, hi: nat)
    requires VmOk(s, own) && d in own && own[d] == Dir && v <= hi <= KPAGE && Grown(s, s1, own, own1, d, lo, v)
    requires forall u :: lo <= u < hi ==> View(s.mem, d, u) == Empty
    requires Gone(s1, s2, own1, d, lo, hi) && Lost(own1, own2, d, lo, hi) && SamePages(s1, s2, own2) && VmOk(s2, own2)
    ensures Restored(s, s2, own, own2, d)
  {
    hide View, VmOk;
    NonePaged(s, own, d, lo, hi);
    assert Kept(own, own2, d, {});
    assert SameViews(s, s2, own);
    OnlyTables(s, s2, own, own2, d);
  }

  lemma HeldGone(s1: Vm, sm: Vm, s2: Vm, own1: Owners, own2: Owners, d: nat, lo: nat, hi: nat, b: nat)
    requires b !in own1 && SameViews(s1, sm, own1) && SamePages(s1, sm, own1)
    requires Gone(sm, s2, own1[b := Held], d, lo, hi) && Lost(own1[b := Held], own2, d, lo, hi)
    requires SamePages(sm, s2, own2)
    ensures b in own2 && own2[b] == Held
    ensures Gone(s1, s2, own1, d, lo, hi) && Lost(own1, own2 - {b}, d, lo, hi) && SamePages(s1, s2, own2 - {b})
  {
    hide View;
    assert forall x :: x in own1 ==> x in own1[b := Held] && own1[b := Held][x] == own1[x];
    assert b in own1[b := Held];
  }

  lemma GoneThen(s1: Vm, s2: Vm, s3: Vm, own1: Owners, own2: Owners, own3: Owners, d: nat, lo: nat, hi: nat)
    requires Gone(s1, s2, own1, d, lo, hi) && Lost(own1, own3, d, lo, hi) && SamePages(s1, s2, own3)
    requires SameViews(s2, s3, own2) && SamePages(s2, s3, own3)
    requires forall b :: b in own3 ==> b in own2 && own2[b] == own3[b]
    ensures Gone(s1, s3, own1, d, lo, hi) && SamePages(s1, s3, own3)
  {
    hide View;
  }

  /** allocuvm. Mapping a page twice panics, so the new pages must be unmapped. */
  method Allocuvm(k: Kernel, d: nat, oldsz: nat, newsz: nat, ghost own: Owners) returns (ok: bool, r: nat,
                  ghost own': Owners)
    requires VmOk(k.s, own) && d in own && own[d] == Dir
    requires forall u :: Pages(oldsz) <= u < Pages(newsz) && newsz < KERNBASE ==> View(k.s.mem, d, u) == Empty
    modifies k
    ensures |k.s.mem| == |old(k.s).mem| && k.s.lo == old(k.s).lo
    ensures newsz >= KERNBASE ==> !ok && k.s == old(k.s) && own' == own
    ensures newsz < KERNBASE && newsz < oldsz ==> ok && r == oldsz && k.s == old(k.s) && own' == own
    ensures ok && newsz >= oldsz ==> r == newsz && Grown(old(k.s), k.s, own, own', d, Pages(oldsz), Pages(newsz))
    ensures !ok ==> r == 0 && Restored(old(k.s), k.s, own, own', d)
    ensures oldsz <= newsz < KERNBASE ==>
              (ok <==> |old(k.s).free| >= Price(old(k.s), d, Pages(oldsz), Pages(newsz) - Pages(oldsz), true))
  {
    hide VmOk, SameViews, SamePages, View, Kept, E, Added, Grown, Restored, Gone, Lost, Price, Paid, PaidOne, HasTable;
    ghost var s0 := k.s;
    own' := own;
    if newsz >= KERNBASE {
      RestoredRefl(s0, own, d);
      return false, 0, own;
    }
    if newsz < oldsz {
      return true, oldsz, own;
    }
    var v := Pages(oldsz);
    GrownStart(s0, own, d, v);
    PaidNone(s0, d, v, true);
    while v * PGSIZE < newsz
      invariant Pages(oldsz) <= v <= Pages(newsz) && |k.s.mem| == |s0.mem| && k.s.lo == s0.lo
      invariant VmOk(k.s, own') && d in own' && own'[d] == Dir && Grown(s0, k.s, own, own', d, Pages(oldsz), v)
      invariant Paid(s0, k.s, d, Pages(oldsz), v - Pages(oldsz), true)
      decreases newsz - v * PGSIZE
    {
      ghost var s1, own1 := k.s, own';
      GrownEmpty(s0, s1, own, own1, d, Pages(oldsz), v);
      var held, b;
      ok, held, b, own' := MapNew(k, d, v, Data(seq(PGSIZE, _ => 0)), PTE_PWU, own1);
      OnePrice(s1, d, v);
      if !ok {
        PaidShort(s0, s1, d, Pages(oldsz), v - Pages(oldsz), Pages(newsz) - Pages(oldsz), true);
        ghost var sm := k.s;
        var _, own2 := k.Deallocuvm(d, newsz, oldsz, own');
        own' := own2;
        if held {
          HeldGone(s1, sm, k.s, own1, own2, d, Pages(oldsz), Pages(newsz), b);
          ghost var s2 := k.s;
          HeldFreed(s2, own2, b);
          k.Kfree(b);
          own' := own2 - {b};
          GoneThen(s1, s2, k.s, own1, own2, own', d, Pages(oldsz), Pages(newsz));
        }
        IsRestored(s0, s1, k.s, own, own1, own', d, Pages(oldsz), v, Pages(newsz));
        return false, 0, own';
      }
      GrownMore(s0, s1, k.s, own, own1, own', d, Pages(oldsz), v, b);
      StillDir(own1, own', s1, k.s, d, v, b);
      PaidMore(s0, s1, k.s, d, Pages(oldsz), v - Pages(oldsz), true);
      v := v + 1;
    }
    PaidEnough(s0, k.s, d, Pages(oldsz), v - Pages(oldsz), true);
    return true, newsz, own';
  }

  lemma RestoredRefl(s: Vm, own: Owners, d: nat)
    requires VmOk(s, own)
    ensures Restored(s, s, own, own, d)
  {
  }

  lemma GrownEmpty(s: Vm, s1: Vm, own: Owners, own1: Owners, d: nat, lo: nat, v: nat)
    requires Grown(s, s1, own, own1, d, lo, v) && d in own && own[d] == Dir && v < NPAGE && View(s.mem, d, v) == Empty
    ensures View(s1.mem, d, v) == Empty
  {
    hide View, VmOk;
  }

  lemma StillDir(own: Owners, own': Owners, s: Vm, s': Vm, d: nat, v: nat, b: nat)
    requires Added(s, s', own, own', d, v, b, Zeros(), PTE_PWU) && d in own && own[d] == Dir
    ensures d in own' && own'[d] == Dir
  {
    hide VmOk, View;
  }

  // ------------------------------------------------------------------------------------
  // copyuvm
  // ------------------------------------------------------------------------------------

  /** Page u of d is a copy of page u of d0: same flags and contents, on a frame of its own. */
  ghost predicate CopyOf(s: Vm, s': Vm, own: Owners, own': Owners, d0: nat, d: nat, u: nat) {
    var e, c := View(s.mem, d0, u), View(s'.mem, d, u);
    && e.To? && c.To? && c.flags == e.flags && e.frame < |s.mem| && c.frame < |s'.mem|
    && s'.mem[c.frame] == s.mem[e.frame]
    && c.frame !in own && c.frame in own' && own'[c.frame].Page?
  }

  /** d is a new address space with pages below v copied from d0; everything else is as in s. */
  ghost predicate Copied(s: Vm, s': Vm, own: Owners, own': Owners, d0: nat, d: nat, dp: nat, v: nat) {
    && VmOk(s', own') && d !in own && Kept(own[d := Dir], own', d, {}) && SameViews(s, s', own) && SamePages(s, s', own)
    && (forall u :: 0 <= u < v ==> CopyOf(s, s', own, own', d0, d, u))
    && (forall u :: v <= u < NPAGE ==> View(s'.mem, d, u) == KernelView(dp, u))
  }

  lemma CopyStart(s: Vm, s': Vm, own: Owners, own': Owners, d0: nat, d: nat, dp: nat)
    requires 0x100 < dp < 0xe000 && VmOk(s', own') && d !in own && Kept(own[d := Dir], own', d, {})
    requires SameViews(s, s', own) && SamePages(s, s', own) && Rows(s', d, dp, 4)
    ensures Copied(s, s', own, own', d0, d, dp, 0)
  {
    hide View, VmOk;
  }

  lemma CopyMore(s: Vm, s1: Vm, s2: Vm, own: Owners, own1: Owners, own2: Owners, d0: nat, d: nat, dp: nat, v: nat,
                 b: nat)
    requires Copied(s, s1, own, own1, d0, d, dp, v) && v < KPAGE && View(s.mem, d0, v).To?
    requires View(s.mem, d0, v).frame < |s.mem|
    requires Added(s1, s2, own1, own2, d, v, b, s.mem[View(s.mem, d0, v).frame], View(s.mem, d0, v).flags)
    ensures Copied(s, s2, own, own2, d0, d, dp, v + 1)
  {
    hide View, VmOk;
    assert forall x :: x in own ==> x in own[d := Dir] && x in own1 && own1[x] == own[x] && x != d;
    KeptTrans(own[d := Dir], own1, own2, d);
    assert d in own[d := Dir] && d in own1 && own1[d] == Dir;
    assert b !in own;
    assert SameViews(s, s2, own) && SamePages(s, s2, own);
    forall u | 0 <= u < v + 1
      ensures CopyOf(s, s2, own, own2, d0, d, u)
    {
      if u < v {
        assert CopyOf(s, s1, own, own1, d0, d, u);
        assert View(s2.mem, d, u) == View(s1.mem, d, u);
      }
    }
  }

  lemma CopySource(s: Vm, own: Owners, d0: nat, v: nat)
    requires VmOk(s, own) && d0 in own && own[d0] == Dir && v < KPAGE && View(s.mem, d0, v).To?
    ensures var b := View(s.mem, d0, v).frame; b in own && own[b].Page? && b < |s.mem| && s.mem[b].Data?
  {
    ViewRole(s, own, d0, v);
  }

  lemma CopyFacts(s: Vm, s1: Vm, own: Owners, own1: Owners, d0: nat, d: nat, dp: nat, v: nat)
    requires Copied(s, s1, own, own1, d0, d, dp, v) && v < KPAGE && d0 in own && own[d0] == Dir
    requires View(s.mem, d0, v).To? && View(s.mem, d0, v).frame in own && own[View(s.mem, d0, v).frame].Page?
    requires View(s.mem, d0, v).frame < |s.mem|
    ensures VmOk(s1, own1) && d in own1 && own1[d] == Dir && d0 in own1 && own1[d0] == Dir
    ensures View(s1.mem, d, v) == Empty && View(s1.mem, d0, v) == View(s.mem, d0, v)
    ensures |s1.mem| == |s.mem| && s1.mem[View(s.mem, d0, v).frame] == s.mem[View(s.mem, d0, v).frame]
  {
    hide View, VmOk;
    assert d in own[d := Dir] && d0 in own[d := Dir];
  }

  /** Undoing a copy. */
  lemma CopyUndone(s: Vm, s1: Vm, s2: Vm, s3: Vm, own: Owners, own1: Owners, d0: nat, d: nat, dp: nat, v: nat)
    requires Copied(s, s1, own, own1, d0, d, dp, v)
    requires SameViews(s1, s2, own1) && SamePages(s1, s2, own1) && SameViews(s2, s3, own) && SamePages(s2, s3, own)
    ensures SameViews(s, s3, own) && SamePages(s, s3, own)
  {
    hide View, VmOk;
    assert forall x :: x in own ==> x in own[d := Dir] && x in own1 && own1[x] == own[x];
  }

  lemma HeldBack(s1: Vm, sm: Vm, s2: Vm, own1: Owners, b: nat)
    requires b !in own1 && SameViews(s1, sm, own1) && SamePages(s1, sm, own1)
    requires SameViews(sm, s2, own1[b := Held]) && SamePages(sm, s2, own1[b := Held] - {b})
    ensures own1[b := Held] - {b} == own1 && SameViews(s1, s2, own1) && SamePages(s1, s2, own1)
  {
    hide View;
    assert own1[b := Held] - {b} == own1;
    assert forall x :: x in own1 ==> x in own1[b := Held] && own1[b := Held][x] == own1[x];
  }

  /** copyuvm. The source panics on a page below sz that is not mapped. */
  method Copyuvm(k: Kernel, d0: nat, sz: nat, dp: nat, ghost own: Owners) returns (ok: bool, d: nat, ghost own': Owners)
    requires VmOk(k.s, own) && d0 in own && own[d0] == Dir && sz <= KERNBASE && 0x100 < dp < 0xe000
    requires forall u :: 0 <= u < Pages(sz) ==> View(k.s.mem, d0, u).To?
    modifies k
    ensures |k.s.mem| == |old(k.s).mem| && k.s.lo == old(k.s).lo
    ensures ok ==> Copied(old(k.s), k.s, own, own', d0, d, dp, Pages(sz))
    ensures !ok ==> own' == own && VmOk(k.s, own) && SameViews(old(k.s), k.s, own) && SamePages(old(k.s), k.s, own)
    ensures !ok ==> forall b :: b in k.s.free <==> b in old(k.s).free
    ensures ok <==> |old(k.s).free| >= KVMFRAMES + Pages(sz) + (Pages(sz) + NENTRY - 1) / NENTRY
  {
    hide VmOk, SameViews, SamePages, View, Kept, E, Added, Copied, Rows, Without, Price, Paid, PaidOne, HasTable;
    ghost var s0 := k.s;
    ok, d, own' := Setupkvm(k, dp, own);
    if !ok {
      SameFree(s0, k.s, own);
      return;
    }
    CopyStart(s0, k.s, own, own', d0, d, dp);
    ghost var sk := k.s;
    PaidNone(sk, d, 0, true);
    UserPrice(sk, d, Pages(sz));
    var v := 0;
    while v * PGSIZE < sz
      invariant 0 <= v <= Pages(sz) && |k.s.mem| == |s0.mem| && k.s.lo == s0.lo
      invariant Copied(s0, k.s, own, own', d0, d, dp, v) && Paid(sk, k.s, d, 0, v, true)
      decreases sz - v * PGSIZE
    {
      ghost var s1, own1 := k.s, own';
      CopySource(s0, own, d0, v);
      CopyFacts(s0, s1, own, own1, d0, d, dp, v);
      var e := View(k.s.mem, d0, v);
      var held, b;
      ok, held, b, own' := MapNew(k, d, v, k.s.mem[e.frame], e.flags, own1);
      OnePrice(s1, d, v);
      if !ok {
        PaidShort(sk, s1, d, 0, v, Pages(sz), true);
        SameRefl(s1, own1);
        if held {
          ghost var sm := k.s;
          HeldFreed(sm, own', b);
          k.Kfree(b);
          HeldBack(s1, sm, k.s, own1, b);
        }
        ghost var s2 := k.s;
        CopyKept(s0, s1, own, own1, d0, d, dp, v);
        Undone(s0, own, own1, d);
        own' := k.Freevm(d, own1);
        CopyUndone(s0, s1, s2, k.s, own, own1, d0, d, dp, v);
        SameFree(s0, k.s, own);
        return false, 0, own';
      }
      CopyMore(s0, s1, k.s, own, own1, own', d0, d, dp, v, b);
      PaidMore(sk, s1, k.s, d, 0, v, true);
      v := v + 1;
    }
    PaidEnough(sk, k.s, d, 0, v, true);
    return true, d, own';
  }

  /** The price of n user pages in a directory without user tables. */
  lemma UserPrice(s: Vm, d: nat, n: nat)
    requires n <= KPAGE && forall i :: 0 <= i < 0x200 ==> !HasTable(s, d, i)
    ensures Price(s, d, 0, n, true) == n + (n + NENTRY - 1) / NENTRY
  {
    hide HasTable;
    assert Missing(s, d, 0, n) == Interval(0, (n + NENTRY - 1) / NENTRY);
  }

  lemma CopyKept(s: Vm, s1: Vm, own: Owners, own1: Owners, d0: nat, d: nat, dp: nat, v: nat)
    requires Copied(s, s1, own, own1, d0, d, dp, v)
    ensures d !in own && Kept(own[d := Dir], own1, d, {})
  {
    hide View, VmOk;
  }

  // ------------------------------------------------------------------------------------
  // freerange
  // ------------------------------------------------------------------------------------

  /** freerange over physical addresses [vstart, vend): exactly the whole frames inside are freed. */
  method Freerange(k: Kernel, vstart: nat, vend: nat, ghost own: Owners) returns (ghost own': Owners)
    requires VmOk(k.s, own)
    requires forall b :: Pages(vstart) <= b < vend / PGSIZE ==> b in own && own[b] == Held
    modifies k
    ensures VmOk(k.s, own') && |k.s.mem| == |old(k.s).mem| && k.s.lo == old(k.s).lo
    ensures forall b :: b in own' <==> b in own && !(Pages(vstart) <= b < vend / PGSIZE)
    ensures forall b :: b in own' ==> own'[b] == own[b]
  {
    hide VmOk;
    own' := own;
    var b := Pages(vstart);
    while b * PGSIZE + PGSIZE <= vend
      invariant Pages(vstart) <= b && VmOk(k.s, own') && |k.s.mem| == |old(k.s).mem| && k.s.lo == old(k.s).lo
      invariant b <= vend / PGSIZE || b == Pages(vstart)
      invariant forall x :: x in own' <==> x in own && !(Pages(vstart) <= x < b)
      invariant forall x :: x in own' ==> own'[x] == own[x]
      decreases vend - b * PGSIZE
    {
      HeldFreed(k.s, own', b);
      k.Kfree(b);
      own' := own' - {b};
      b := b + 1;
    }
  }
}

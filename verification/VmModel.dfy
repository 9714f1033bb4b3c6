/** Physical frames, the kernel's free list and two-level page tables (xv6/kalloc.c, xv6/vm.c),
    with the owner of every frame. */
module VmModel {

  const NENTRY := 1024

  /** Pages below the kernel's half of the address space, and pages in all. */
  const KPAGE := 0x80000
  const NPAGE := 0x100000

  /** A page-directory or page-table entry: not present, or a frame number and flags. */
  datatype Entry = Empty | To(frame: nat, flags: nat)

  type Entries = e: seq<Entry> | |e| == NENTRY witness seq(NENTRY, _ => Empty)

  function NoEntries(): (e: Entries)
    ensures forall j :: 0 <= j < NENTRY ==> e[j] == Empty
  {
    seq(NENTRY, _ => Empty)
  }

  /** What a frame holds. */
  datatype Frame = Table(e: Entries) | Data(bytes: seq<bv8>)

  /** Frames [lo, |mem|) are the ones kinit gave to the allocator. */
  datatype Vm = Vm(mem: seq<Frame>, free: seq<nat>, lo: nat)

  /** Entry j of frame t, read as a table. */
  function E(mem: seq<Frame>, t: nat, j: nat): Entry {
    if t < |mem| && mem[t].Table? && j < NENTRY then mem[t].e[j] else Empty
  }

  /** What page v maps to in directory d. */
  function View(mem: seq<Frame>, d: nat, v: nat): Entry {
    var pde := E(mem, d, v / NENTRY);
    if pde == Empty then Empty else E(mem, pde.frame, v % NENTRY)
  }

  // ------------------------------------------------------------------------------------
  // Owners
  // ------------------------------------------------------------------------------------

  /** A frame in use is a page directory, table i of directory d, the user page under entry j of
      that table, or held by other kernel code. */
  datatype Role = Held | Dir | Tab(d: nat, i: nat) | Page(d: nat, i: nat, j: nat)

  type Owners = map<nat, Role>

  ghost predicate NoDup(free: seq<nat>) {
    forall k, l :: 0 <= k < l < |free| ==> free[k] != free[l]
  }

  /** Every frame is on the free list or owned, never both, never twice. */
  ghost predicate Partition(s: Vm, own: Owners) {
    && NoDup(s.free)
    && (forall b :: b in s.free ==> s.lo <= b < |s.mem| && b !in own)
    && (forall b :: b in own ==> s.lo <= b < |s.mem|)
    && (forall b :: s.lo <= b < |s.mem| ==> b in s.free || b in own)
  }

  /** Directories and tables hold entries, user pages hold data. */
  ghost predicate Kinds(s: Vm, own: Owners) {
    forall b :: b in own && b < |s.mem| ==>
      && (own[b].Dir? || own[b].Tab? ==> s.mem[b].Table?)
      && (own[b].Page? ==> s.mem[b].Data?)
  }

  /** Every owner points at its frame. */
  ghost predicate Pointed(s: Vm, own: Owners) {
    forall b :: b in own ==> RoleOk(s, own, b, own[b])
  }

  ghost predicate RoleOk(s: Vm, own: Owners, b: nat, r: Role) {
    match r
    case Held => true
    case Dir => true
    case Tab(d, i) => i < NENTRY && d in own && own[d] == Dir && E(s.mem, d, i).To? && E(s.mem, d, i).frame == b
    case Page(d, i, j) =>
      && i < NENTRY / 2 && j < NENTRY && E(s.mem, d, i).To? && E(s.mem, d, i).frame in own
      && own[E(s.mem, d, i).frame] == Tab(d, i)
      && E(s.mem, E(s.mem, d, i).frame, j).To? && E(s.mem, E(s.mem, d, i).frame, j).frame == b
  }

  /** Every entry of a directory, and of a table of its user half, points at its own frame. */
  ghost predicate Owned(s: Vm, own: Owners) {
    && (forall d, i :: d in own && own[d] == Dir && E(s.mem, d, i).To? ==>
          E(s.mem, d, i).frame in own && own[E(s.mem, d, i).frame] == Tab(d, i))
    && (forall t, j :: t in own && own[t].Tab? && own[t].i < NENTRY / 2 && E(s.mem, t, j).To? ==>
          E(s.mem, t, j).frame in own && own[E(s.mem, t, j).frame] == Page(own[t].d, own[t].i, j))
  }

  ghost predicate VmOk(s: Vm, own: Owners) {
    Partition(s, own) && Kinds(s, own) && Pointed(s, own) && Owned(s, own)
  }

  /** No frame has two owners: a user page is mapped at one place in one directory. */
  lemma OneOwner(s: Vm, own: Owners, d: nat, v: nat, d': nat, v': nat)
    requires VmOk(s, own) && d in own && own[d] == Dir && d' in own && own[d'] == Dir && v < KPAGE && v' < KPAGE
    requires View(s.mem, d, v).To? && View(s.mem, d', v').To? && View(s.mem, d, v).frame == View(s.mem, d', v').frame
    ensures d == d' && v == v'
  {
    var t, t' := E(s.mem, d, v / NENTRY).frame, E(s.mem, d', v' / NENTRY).frame;
    assert own[t] == Tab(d, v / NENTRY) && own[t'] == Tab(d', v' / NENTRY);
    assert own[View(s.mem, d, v).frame] == Page(d, v / NENTRY, v % NENTRY) == Page(d', v' / NENTRY, v' % NENTRY);
  }

  /** Roles depend on memory only through the tables, and frames held elsewhere do not matter. */
  lemma KeepRoles(s: Vm, s': Vm, own: Owners, own': Owners)
    requires Pointed(s, own) && Owned(s, own)
    requires forall b :: b in own && own[b] != Held ==> b in own' && own'[b] == own[b]
    requires forall b :: b in own' && own'[b] != Held ==> b in own && own[b] == own'[b]
    requires forall t, j :: t in own && (own[t].Dir? || own[t].Tab?) ==> E(s'.mem, t, j) == E(s.mem, t, j)
    ensures Pointed(s', own') && Owned(s', own')
  {
    hide E;
    forall b | b in own'
      ensures RoleOk(s', own', b, own'[b])
    {
      if own'[b] != Held {
        assert RoleOk(s, own, b, own[b]);
        if own[b].Page? {
          var t := E(s.mem, own[b].d, own[b].i).frame;
          assert RoleOk(s, own, t, own[t]);
        }
      }
    }
  }

  // ------------------------------------------------------------------------------------
  // kalloc and kfree
  // ------------------------------------------------------------------------------------

  function Taken(s: Vm): Vm
    requires s.free != []
  {
    s.(free := s.free[1..])
  }

  lemma TakePartition(s: Vm, own: Owners)
    requires Partition(s, own) && s.free != []
    ensures s.free[0] !in own && s.lo <= s.free[0] < |s.mem| && Partition(Taken(s), own[s.free[0] := Held])
  {
    var b, s', own' := s.free[0], Taken(s), own[s.free[0] := Held];
    assert b in s.free;
    forall x | x in s.free && x != b
      ensures x in s'.free
    {
      var k :| 0 <= k < |s.free| && s.free[k] == x;
      assert s'.free[k - 1] == x;
    }
    forall x | x in s'.free
      ensures x in s.free && x != b
    {
      var k :| 0 <= k < |s'.free| && s'.free[k] == x;
      assert s.free[k + 1] == x && s.free[0] != s.free[k + 1];
    }
  }

  lemma TakeKeeps(s: Vm, own: Owners)
    requires VmOk(s, own) && s.free != []
    ensures s.free[0] !in own && s.lo <= s.free[0] < |s.mem| && VmOk(Taken(s), own[s.free[0] := Held])
  {
    hide E, Partition, NoDup;
    TakePartition(s, own);
    KeepRoles(s, Taken(s), own, own[s.free[0] := Held]);
  }

  /** kfree, after the page has been filled with ones. */
  function Given(s: Vm, b: nat): Vm
    requires b < |s.mem|
  {
    s.(mem := s.mem[b := Data(seq(4096, _ => 1))], free := [b] + s.free)
  }

  lemma GivePartition(s: Vm, own: Owners, b: nat)
    requires Partition(s, own) && b in own
    ensures b < |s.mem| && Partition(Given(s, b), own - {b})
  {
    assert forall x :: x in [b] + s.free <==> x == b || x in s.free;
  }

  lemma GiveKeeps(s: Vm, own: Owners, b: nat)
    requires VmOk(s, own) && b in own && own[b] == Held
    ensures b < |s.mem| && VmOk(Given(s, b), own - {b})
  {
    GivePartition(s, own, b);
    hide Partition, NoDup, Pointed, Owned;
    KeepRoles(s, Given(s, b), own, own - {b});
  }

  // ------------------------------------------------------------------------------------
  // Stores into tables
  // ------------------------------------------------------------------------------------

  function PutE(s: Vm, t: nat, j: nat, e: Entry): Vm
    requires t < |s.mem| && s.mem[t].Table? && j < NENTRY
  {
    s.(mem := s.mem[t := Table(s.mem[t].e[j := e])])
  }

  function Fill(s: Vm, b: nat, f: Frame): Vm
    requires b < |s.mem|
  {
    s.(mem := s.mem[b := f])
  }

  /** Contents of a held frame do not matter. */
  lemma FillKeeps(s: Vm, own: Owners, b: nat, f: Frame)
    requires VmOk(s, own) && b in own && own[b] == Held
    ensures b < |s.mem| && VmOk(Fill(s, b, f), own)
    ensures forall t, j :: t != b ==> E(Fill(s, b, f).mem, t, j) == E(s.mem, t, j)
  {
    assert b < |s.mem|;
    hide Pointed, Owned;
    KeepRoles(s, Fill(s, b, f), own, own);
  }

  lemma SamePartition(s: Vm, s': Vm, own: Owners, own': Owners)
    requires Partition(s, own) && s'.free == s.free && |s'.mem| == |s.mem| && s'.lo == s.lo
    requires forall b :: b in own' <==> b in own
    ensures Partition(s', own')
  {
  }

  /** s' differs from s in one entry. */
  ghost predicate OneEntry(s: Vm, s': Vm, t: nat, j: nat, e: Entry) {
    forall u, k :: E(s'.mem, u, k) == if u == t && k == j then e else E(s.mem, u, k)
  }

  lemma PutOne(s: Vm, t: nat, j: nat, e: Entry)
    requires t < |s.mem| && s.mem[t].Table? && j < NENTRY
    ensures OneEntry(s, PutE(s, t, j, e), t, j, e)
  {
  }

  lemma PutKinds(s: Vm, own: Owners, t: nat, j: nat, e: Entry)
    requires Kinds(s, own) && t < |s.mem| && s.mem[t].Table? && j < NENTRY
    ensures Kinds(PutE(s, t, j, e), own)
  {
  }

  lemma DirRoles(s: Vm, s': Vm, own: Owners, d: nat, i: nat, b: nat, flags: nat)
    requires Pointed(s, own) && Owned(s, own) && b in own && own[b] == Held && d in own && own[d] == Dir && i < NENTRY
    requires E(s.mem, d, i) == Empty && OneEntry(s, s', d, i, To(b, flags)) && forall j :: E(s.mem, b, j) == Empty
    ensures Pointed(s', own[b := Tab(d, i)]) && Owned(s', own[b := Tab(d, i)])
  {
    hide E;
    var own' := own[b := Tab(d, i)];
    forall x | x in own'
      ensures RoleOk(s', own', x, own'[x])
    {
      if x != b {
        assert RoleOk(s, own, x, own[x]);
      }
    }
  }

  lemma DirEntry(s: Vm, own: Owners, d: nat, i: nat, b: nat, flags: nat)
    requires VmOk(s, own) && b in own && own[b] == Held && b < |s.mem| && s.mem[b] == Table(NoEntries())
    requires d in own && own[d] == Dir && i < NENTRY && E(s.mem, d, i) == Empty && d < |s.mem|
    ensures s.mem[d].Table? && VmOk(PutE(s, d, i, To(b, flags)), own[b := Tab(d, i)])
  {
    assert s.mem[d].Table?;
    assert forall j :: E(s.mem, b, j) == Empty;
    var s', own' := PutE(s, d, i, To(b, flags)), own[b := Tab(d, i)];
    SamePartition(s, s', own, own');
    PutKinds(s, own', d, i, To(b, flags));
    hide E, Partition, Kinds, Pointed, Owned;
    PutOne(s, d, i, To(b, flags));
    DirRoles(s, s', own, d, i, b, flags);
  }

  /** A present entry's table. */
  lemma TableOf(s: Vm, own: Owners, d: nat, i: nat)
    requires VmOk(s, own) && d in own && own[d] == Dir && E(s.mem, d, i).To?
    ensures var t := E(s.mem, d, i).frame;
            t in own && own[t] == Tab(d, i) && s.lo <= t < |s.mem| && s.mem[t].Table? && i < NENTRY
  {
    hide RoleOk;
  }

  lemma PageRoles(s: Vm, s': Vm, own: Owners, d: nat, i: nat, j: nat, t: nat, b: nat, flags: nat)
    requires Pointed(s, own) && Owned(s, own) && b in own && own[b] == Held && t in own && own[t] == Tab(d, i)
    requires i < NENTRY / 2 && j < NENTRY && E(s.mem, t, j) == Empty && OneEntry(s, s', t, j, To(b, flags))
    ensures Pointed(s', own[b := Page(d, i, j)]) && Owned(s', own[b := Page(d, i, j)])
  {
    hide E;
    assert RoleOk(s, own, t, own[t]);
    var own' := own[b := Page(d, i, j)];
    forall x | x in own'
      ensures RoleOk(s', own', x, own'[x])
    {
      if x != b {
        assert RoleOk(s, own, x, own[x]);
      }
    }
  }

  lemma PageEntry(s: Vm, own: Owners, d: nat, i: nat, j: nat, t: nat, b: nat, flags: nat)
    requires VmOk(s, own) && b in own && own[b] == Held && b < |s.mem| && s.mem[b].Data?
    requires t in own && own[t] == Tab(d, i) && i < NENTRY / 2 && j < NENTRY && E(s.mem, t, j) == Empty
    ensures t < |s.mem| && s.mem[t].Table? && VmOk(PutE(s, t, j, To(b, flags)), own[b := Page(d, i, j)])
  {
    assert t < |s.mem| && s.mem[t].Table?;
    var s', own' := PutE(s, t, j, To(b, flags)), own[b := Page(d, i, j)];
    SamePartition(s, s', own, own');
    PutKinds(s, own', t, j, To(b, flags));
    hide E, Partition, Kinds, Pointed, Owned;
    PutOne(s, t, j, To(b, flags));
    PageRoles(s, s', own, d, i, j, t, b, flags);
  }

  /** The kernel's half maps frames it does not own. */
  lemma KernelEntry(s: Vm, own: Owners, d: nat, i: nat, j: nat, t: nat, e: Entry)
    requires VmOk(s, own) && t in own && own[t] == Tab(d, i) && NENTRY / 2 <= i && j < NENTRY
    ensures t < |s.mem| && s.mem[t].Table? && VmOk(PutE(s, t, j, e), own)
  {
    assert s.mem[t].Table?;
    var s' := PutE(s, t, j, e);
    SamePartition(s, s', own, own);
    assert forall u, k :: E(s'.mem, u, k) == if u == t && k == j then e else E(s.mem, u, k);
    assert Kinds(s', own);
    hide E, Partition, Kinds;
    forall x | x in own
      ensures RoleOk(s', own, x, own[x])
    {
      assert RoleOk(s, own, x, own[x]);
    }
  }

  lemma ClearRoles(s: Vm, s': Vm, own: Owners, d: nat, i: nat, j: nat, t: nat)
    requires Pointed(s, own) && Owned(s, own) && t in own && own[t] == Tab(d, i)
    requires i < NENTRY / 2 && j < NENTRY && E(s.mem, t, j).To? && OneEntry(s, s', t, j, Empty)
    ensures var b := E(s.mem, t, j).frame; Pointed(s', own[b := Held]) && Owned(s', own[b := Held])
  {
    hide E;
    assert RoleOk(s, own, t, own[t]);
    var b := E(s.mem, t, j).frame;
    var own' := own[b := Held];
    forall x | x in own'
      ensures RoleOk(s', own', x, own'[x])
    {
      if x != b {
        assert RoleOk(s, own, x, own[x]);
      }
    }
  }

  /** Clearing the entry of a user page leaves the frame in the kernel's hands. */
  lemma ClearEntry(s: Vm, own: Owners, d: nat, i: nat, j: nat, t: nat)
    requires VmOk(s, own) && t in own && own[t] == Tab(d, i) && i < NENTRY / 2 && j < NENTRY && E(s.mem, t, j).To?
    ensures t < |s.mem| && s.mem[t].Table?
    ensures var b := E(s.mem, t, j).frame;
            b in own && own[b] == Page(d, i, j) && b != t && VmOk(PutE(s, t, j, Empty), own[b := Held])
  {
    assert t < |s.mem| && s.mem[t].Table?;
    var b := E(s.mem, t, j).frame;
    assert own[b] == Page(d, i, j);
    var s', own' := PutE(s, t, j, Empty), own[b := Held];
    SamePartition(s, s', own, own');
    PutKinds(s, own', t, j, Empty);
    hide E, Partition, Kinds, Pointed, Owned;
    PutOne(s, t, j, Empty);
    ClearRoles(s, s', own, d, i, j, t);
  }

  /** An empty table makes a directory. */
  lemma NewDir(s: Vm, own: Owners, b: nat)
    requires VmOk(s, own) && b in own && own[b] == Held && b < |s.mem| && s.mem[b] == Table(NoEntries())
    ensures VmOk(s, own[b := Dir]) && forall v :: View(s.mem, b, v) == Empty
  {
    assert forall j :: E(s.mem, b, j) == Empty;
    var own' := own[b := Dir];
    SamePartition(s, s, own, own');
    assert Kinds(s, own');
    hide E, Partition, Kinds;
    forall x | x in own'
      ensures RoleOk(s, own', x, own'[x])
    {
      if x != b {
        assert RoleOk(s, own, x, own[x]);
      }
    }
  }

  // ------------------------------------------------------------------------------------
  // What the directories map
  // ------------------------------------------------------------------------------------

  /** Directories of own map the same pages in s and s'. */
  ghost predicate SameViews(s: Vm, s': Vm, own: Owners) {
    forall x, v :: x in own && own[x] == Dir && 0 <= v < NPAGE ==> View(s'.mem, x, v) == View(s.mem, x, v)
  }

  /** Mapped user pages, and frames held elsewhere, keep their contents. */
  ghost predicate SamePages(s: Vm, s': Vm, own: Owners) {
    && |s'.mem| == |s.mem|
    && forall b :: b in own && (own[b].Page? || own[b].Held?) && b < |s.mem| ==> s'.mem[b] == s.mem[b]
  }

  /** The views are those of s, but for page v of directory d. */
  ghost predicate OneView(s: Vm, s': Vm, own: Owners, d: nat, v: nat, e: Entry) {
    forall x, u :: x in own && own[x] == Dir && 0 <= u < NPAGE ==>
      View(s'.mem, x, u) == if x == d && u == v then e else View(s.mem, x, u)
  }

  lemma PutView(s: Vm, s': Vm, own: Owners, d: nat, i: nat, j: nat, t: nat, e: Entry)
    requires Pointed(s, own) && Owned(s, own) && t in own && own[t] == Tab(d, i) && j < NENTRY
    requires OneEntry(s, s', t, j, e)
    ensures OneView(s, s', own, d, i * NENTRY + j, e)
  {
    hide E;
    assert RoleOk(s, own, t, own[t]);
    forall x, u | x in own && own[x] == Dir && 0 <= u < NPAGE
      ensures View(s'.mem, x, u) == if x == d && u == i * NENTRY + j then e else View(s.mem, x, u)
    {
      assert E(s'.mem, x, u / NENTRY) == E(s.mem, x, u / NENTRY);
    }
  }

  /** A frame that is no table of a directory can change without changing any view. */
  lemma OtherView(s: Vm, s': Vm, own: Owners, b: nat)
    requires Owned(s, own)
    requires b !in own || own[b] == Held || own[b].Page?
    requires forall t, j :: t != b ==> E(s'.mem, t, j) == E(s.mem, t, j)
    ensures SameViews(s, s', own)
  {
    hide E;
    forall x, u | x in own && own[x] == Dir && 0 <= u < NPAGE
      ensures View(s'.mem, x, u) == View(s.mem, x, u)
    {
      assert E(s'.mem, x, u / NENTRY) == E(s.mem, x, u / NENTRY);
    }
  }

  /** A new empty table changes no view. */
  lemma DirView(s: Vm, s': Vm, own: Owners, d: nat, i: nat, b: nat, flags: nat)
    requires Owned(s, own) && b in own && own[b] == Held && d in own && own[d] == Dir && i < NENTRY
    requires E(s.mem, d, i) == Empty && OneEntry(s, s', d, i, To(b, flags)) && forall j :: E(s.mem, b, j) == Empty
    ensures SameViews(s, s', own)
  {
    hide E;
    forall x, u | x in own && own[x] == Dir && 0 <= u < NPAGE
      ensures View(s'.mem, x, u) == View(s.mem, x, u)
    {
      assert E(s'.mem, x, u / NENTRY) == if x == d && u / NENTRY == i then To(b, flags) else E(s.mem, x, u / NENTRY);
    }
  }

  // ------------------------------------------------------------------------------------
  // Giving up a whole tree
  // ------------------------------------------------------------------------------------

  predicate Of(b: nat, r: Role, d: nat) {
    b == d || (r.Tab? && r.d == d) || (r.Page? && r.d == d)
  }

  /** The frames of d's tree become plain kernel frames. */
  ghost function Dissolved(own: Owners, d: nat): (r: Owners) {
    map b | b in own :: if Of(b, own[b], d) then Held else own[b]
  }

  lemma DissolveKeeps(s: Vm, own: Owners, d: nat)
    requires VmOk(s, own) && d in own && own[d] == Dir
    requires forall b :: b in own && own[b].Page? ==> own[b].d != d
    ensures VmOk(s, Dissolved(own, d))
  {
    var own' := Dissolved(own, d);
    SamePartition(s, s, own, own');
    assert Kinds(s, own');
    hide E, Partition, Kinds;
    forall x | x in own'
      ensures RoleOk(s, own', x, own'[x])
    {
      if own'[x] != Held {
        assert RoleOk(s, own, x, own[x]);
      }
    }
  }
}

/** A process's list of memory areas (linux-1.0.0/mm/mmap.c) and the address map it stands for. */
module VmAreas {

  const TASK_SIZE := 0xc0000000
  const PAGE_SIZE := 4096
  const WORD := 0x1_0000_0000

  /** struct vm_area_struct. A pointer is a number, with 0 for NULL. Offsets are 32-bit words. */
  datatype Area = Area(start: nat, end: nat, prot: nat, share: nat, inode: nat, offset: nat, ops: nat)

  /** What an address maps to; the file offset counts only for areas that map a file. */
  datatype Page = Unmapped | Mapped(prot: nat, share: nat, inode: nat, ops: nat, offset: nat)

  predicate Holds(v: Area, a: nat) {
    v.start <= a < v.end
  }

  function PageOf(v: Area, a: nat): Page
    requires v.start <= a
  {
    Mapped(v.prot, v.share, v.inode, v.ops, if v.inode == 0 then 0 else (v.offset + (a - v.start)) % WORD)
  }

  /** The address map of a list. */
  function At(list: seq<Area>, a: nat): Page {
    if list == [] then Unmapped
    else if Holds(list[0], a) then PageOf(list[0], a)
    else At(list[1..], a)
  }

  predicate AreaOk(v: Area) {
    v.start < v.end <= TASK_SIZE
  }

  /** Sorted and disjoint. */
  ghost predicate Sorted(list: seq<Area>) {
    && (forall k :: 0 <= k < |list| ==> AreaOk(list[k]))
    && forall k, l :: 0 <= k < l < |list| ==> list[k].end <= list[l].start
  }

  lemma {:induction false} AtSome(list: seq<Area>, k: nat, a: nat)
    requires Sorted(list) && k < |list| && Holds(list[k], a)
    ensures At(list, a) == PageOf(list[k], a)
  {
    if k > 0 {
      assert list[0].end <= list[k].start;
      AtSome(list[1..], k - 1, a);
    }
  }

  lemma {:induction false} AtNone(list: seq<Area>, a: nat)
    requires forall k :: 0 <= k < |list| ==> !Holds(list[k], a)
    ensures At(list, a) == Unmapped
  {
    if list != [] {
      AtNone(list[1..], a);
    }
  }

  // ------------------------------------------------------------------------------------
  // insert_vm_struct
  // ------------------------------------------------------------------------------------

  /** The place insert_vm_struct stops at: the first area that starts above v. */
  ghost predicate Place(list: seq<Area>, v: Area, k: nat) {
    && k <= |list| && (forall l :: 0 <= l < k ==> list[l].start <= v.start)
    && (k < |list| ==> list[k].start > v.start)
  }

  ghost predicate Apart(list: seq<Area>, v: Area) {
    forall k :: 0 <= k < |list| ==> list[k].end <= v.start || v.end <= list[k].start
  }

  lemma InsertSorted(list: seq<Area>, v: Area, k: nat)
    requires Sorted(list) && AreaOk(v) && Apart(list, v) && Place(list, v, k)
    ensures Sorted(list[..k] + [v] + list[k..])
  {
  }

  lemma InsertAt(list: seq<Area>, v: Area, k: nat, a: nat)
    requires Sorted(list) && AreaOk(v) && Apart(list, v) && Place(list, v, k)
    ensures At(list[..k] + [v] + list[k..], a) == if Holds(v, a) then PageOf(v, a) else At(list, a)
  {
    var r := list[..k] + [v] + list[k..];
    InsertSorted(list, v, k);
    assert r[k] == v;
    if Holds(v, a) {
      AtSome(r, k, a);
    } else if m :| 0 <= m < |list| && Holds(list[m], a) {
      AtSome(list, m, a);
      AtSome(r, if m < k then m else m + 1, a);
    } else {
      AtNone(list, a);
      AtNone(r, a);
    }
  }

  // ------------------------------------------------------------------------------------
  // merge_segments
  // ------------------------------------------------------------------------------------

  /** The mergep argument: NULL, or ignoff_mergep with its data pointer. */
  datatype Mergep = ByOffset | IgnoreOffset(data: nat)

  predicate Fits(m: Mergep, p: Area, v: Area) {
    match m
    case ByOffset => (p.offset + (p.end - p.start)) % WORD == v.offset
    case IgnoreOffset(data) => p.inode == v.inode && p.inode == data
  }

  predicate Mergeable(m: Mergep, p: Area, v: Area) {
    p.ops == v.ops && p.prot == v.prot && p.inode == v.inode && p.end == v.start && Fits(m, p, v) && p.share == v.share
  }

  function Join(p: Area, v: Area): Area {
    p.(end := v.end)
  }

  /** Offsets may be ignored only where there is no file. */
  predicate Harmless(m: Mergep) {
    m.IgnoreOffset? ==> m.data == 0
  }

  /** A joined area maps every address as its parts did. */
  lemma JoinPage(m: Mergep, p: Area, v: Area, a: nat)
    requires Harmless(m) && Mergeable(m, p, v) && AreaOk(p) && AreaOk(v)
    ensures AreaOk(Join(p, v)) && (Holds(Join(p, v), a) <==> Holds(p, a) || Holds(v, a))
    ensures Holds(p, a) ==> PageOf(Join(p, v), a) == PageOf(p, a)
    ensures Holds(v, a) ==> PageOf(Join(p, v), a) == PageOf(v, a)
  {
    if Holds(v, a) && p.inode != 0 {
      assert (v.offset + (a - v.start)) % WORD == (p.offset + (p.end - p.start) + (a - v.start)) % WORD;
    }
  }

  /** Replacing areas k and k + 1 by their join keeps the list sorted and the address map. */
  lemma JoinKeeps(m: Mergep, s: seq<Area>, k: nat, a: nat)
    requires Sorted(s) && k + 1 < |s| && Harmless(m) && Mergeable(m, s[k], s[k + 1])
    ensures var t := s[..k] + [Join(s[k], s[k + 1])] + s[k + 2..];
            Sorted(t) && At(t, a) == At(s, a)
  {
    var t := s[..k] + [Join(s[k], s[k + 1])] + s[k + 2..];
    JoinPage(m, s[k], s[k + 1], a);
    assert Sorted(t);
    if l :| 0 <= l < |s| && Holds(s[l], a) {
      AtSome(s, l, a);
      var l' := if l <= k then l else l - 1;
      assert t[l'] == if l' == k then Join(s[k], s[k + 1]) else s[l];
      AtSome(t, l', a);
    } else {
      AtNone(s, a);
      AtNone(t, a);
    }
  }

  /** No two neighbours up to n could be merged. */
  ghost predicate Merged(m: Mergep, s: seq<Area>, n: nat) {
    forall k :: 0 <= k && k + 1 < |s| && k < n ==> !Mergeable(m, s[k], s[k + 1])
  }

  ghost predicate SameMap(s: seq<Area>, t: seq<Area>) {
    forall a: nat :: At(s, a) == At(t, a)
  }

  lemma JoinMap(m: Mergep, s: seq<Area>, k: nat)
    requires Sorted(s) && k + 1 < |s| && Harmless(m) && Mergeable(m, s[k], s[k + 1])
    ensures var t := s[..k] + [Join(s[k], s[k + 1])] + s[k + 2..];
            Sorted(t) && SameMap(t, s)
  {
    var t := s[..k] + [Join(s[k], s[k + 1])] + s[k + 2..];
    JoinKeeps(m, s, k, 0);
    forall a: nat
      ensures At(t, a) == At(s, a)
    {
      JoinKeeps(m, s, k, a);
    }
  }

  // ------------------------------------------------------------------------------------
  // Taking areas out of a list
  // ------------------------------------------------------------------------------------

  /** The part of v below x, and the part from x on. */
  function Below(v: Area, x: nat): Area {
    v.(end := x)
  }

  function Above(v: Area, x: nat): Area
    requires v.start <= x
  {
    v.(start := x, offset := (v.offset + (x - v.start)) % WORD)
  }

  lemma AbovePage(v: Area, x: nat, a: nat)
    requires v.start <= x <= a
    ensures PageOf(Above(v, x), a) == PageOf(v, a)
  {
  }
}

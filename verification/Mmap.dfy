/** do_munmap, unmap_fixup, insert_vm_struct, merge_segments and do_mmap
    (linux-1.0.0/mm/mmap.c) on the task's area list. kmalloc is taken to succeed and no area has
    its own unmap operation; page tables are not part of the model. */
module Mmap {
  import opened VmAreas

  const SHM_RANGE_START := 0x40000000
  const SHM_RANGE_END := 0x60000000
  const EINVAL := 22
  const ENOMEM := 12

  function PageAlign(x: nat): nat {
    (x + PAGE_SIZE - 1) % WORD / PAGE_SIZE * PAGE_SIZE
  }

  /** The next page boundary, unless the sum wraps to 0. */
  lemma PageAlignIs(x: nat)
    requires x < WORD
    ensures PageAlign(x) % PAGE_SIZE == 0
    ensures if x <= WORD - PAGE_SIZE then x <= PageAlign(x) < x + PAGE_SIZE else PageAlign(x) == 0
  {
  }

  // ------------------------------------------------------------------------------------
  // Areas under removal
  // ------------------------------------------------------------------------------------

  /** The areas of two lists together. */
  function Under(list: seq<Area>, free: seq<Area>, a: nat): Page {
    if At(list, a) != Unmapped then At(list, a) else At(free, a)
  }

  ghost predicate Touches(v: Area, lo: nat, hi: nat) {
    v.start < hi && lo < v.end
  }

  /** Areas waiting to be released: each overlaps [lo, hi) and is apart from all others. */
  ghost predicate Waiting(list: seq<Area>, free: seq<Area>, lo: nat, hi: nat) {
    && (forall k :: 0 <= k < |free| ==> AreaOk(free[k]) && Touches(free[k], lo, hi) && Apart(list, free[k]))
    && forall k, l :: 0 <= k < l < |free| ==> free[k].end <= free[l].start || free[l].end <= free[k].start
  }

  lemma RemoveSorted(list: seq<Area>, k: nat)
    requires Sorted(list) && k < |list|
    ensures var r := list[..k] + list[k + 1..]; Sorted(r) && Apart(r, list[k])
  {
  }

  lemma RemoveAt(list: seq<Area>, k: nat, a: nat)
    requires Sorted(list) && k < |list|
    ensures var r := list[..k] + list[k + 1..];
            && At(list, a) == (if Holds(list[k], a) then PageOf(list[k], a) else At(r, a))
            && (Holds(list[k], a) ==> At(r, a) == Unmapped)
  {
    hide At;
    var r := list[..k] + list[k + 1..];
    RemoveSorted(list, k);
    if Holds(list[k], a) {
      AtSome(list, k, a);
      NotHeld(r, list[k], a);
    } else if m :| 0 <= m < |list| && Holds(list[m], a) {
      AtSome(list, m, a);
      AtSome(r, if m < k then m else m - 1, a);
    } else {
      AtNone(list, a);
      AtNone(r, a);
    }
  }

  lemma RemoveUnder(list: seq<Area>, free: seq<Area>, k: nat, a: nat)
    requires Sorted(list) && k < |list|
    requires forall m :: 0 <= m < |free| ==> Apart(list, free[m])
    ensures Under(list[..k] + list[k + 1..], [list[k]] + free, a) == Under(list, free, a)
  {
    RemoveAt(list, k, a);
    assert ([list[k]] + free)[1..] == free;
  }

  lemma RemoveWaiting(list: seq<Area>, free: seq<Area>, k: nat, lo: nat, hi: nat)
    requires Sorted(list) && k < |list| && Waiting(list, free, lo, hi) && Touches(list[k], lo, hi)
    ensures Sorted(list[..k] + list[k + 1..]) && Waiting(list[..k] + list[k + 1..], [list[k]] + free, lo, hi)
  {
    RemoveSorted(list, k);
  }

  /** The list after area v is replaced by what is left of it outside [lo, hi). */
  ghost predicate Replaced(s: seq<Area>, t: seq<Area>, v: Area, lo: nat, hi: nat) {
    && Sorted(t)
    && (forall a: nat :: At(t, a) == if Holds(v, a) && !(lo <= a < hi) then PageOf(v, a) else At(s, a))
    && (forall w :: w in t ==> w in s || (v.start <= w.start && w.end <= v.end && (w.end <= lo || hi <= w.start)))
  }

  lemma NotHeld(s: seq<Area>, v: Area, a: nat)
    requires Apart(s, v) && Holds(v, a)
    ensures At(s, a) == Unmapped
  {
    AtNone(s, a);
  }

  /** Releasing the head of the waiting list changes nothing outside the range. */
  lemma ReplacedUnder(s: seq<Area>, t: seq<Area>, free: seq<Area>, lo: nat, hi: nat, st: nat, end: nat, a: nat)
    requires free != [] && Waiting(s, free, lo, hi) && Replaced(s, t, free[0], st, end)
    requires !(lo <= a < hi) && lo <= st && end <= hi
    ensures Under(t, free[1..], a) == Under(s, free, a)
  {
    if Holds(free[0], a) {
      NotHeld(s, free[0], a);
    }
  }

  lemma ReplacedWaiting(s: seq<Area>, t: seq<Area>, free: seq<Area>, lo: nat, hi: nat, st: nat, end: nat)
    requires free != [] && Waiting(s, free, lo, hi) && Replaced(s, t, free[0], st, end)
    ensures Waiting(t, free[1..], lo, hi)
  {
    forall k | 1 <= k < |free|
      ensures Apart(t, free[k])
    {
      forall m | 0 <= m < |t|
        ensures t[m].end <= free[k].start || free[k].end <= t[m].start
      {
        assert t[m] in t;
      }
    }
  }

  /** The list after area v is inserted. */
  ghost predicate Inserted(s: seq<Area>, t: seq<Area>, v: Area) {
    && Sorted(t)
    && (forall a: nat :: At(t, a) == if Holds(v, a) then PageOf(v, a) else At(s, a))
    && (forall w :: w in t <==> w in s || w == v)
  }

  lemma IsInserted(s: seq<Area>, v: Area, k: nat)
    requires Sorted(s) && AreaOk(v) && Apart(s, v) && Place(s, v, k)
    ensures Inserted(s, s[..k] + [v] + s[k..], v)
  {
    hide At;
    InsertSorted(s, v, k);
    forall a: nat
      ensures At(s[..k] + [v] + s[k..], a) == if Holds(v, a) then PageOf(v, a) else At(s, a)
    {
      InsertAt(s, v, k, a);
    }
    assert s == s[..k] + s[k..];
  }

  lemma ApartInserted(s: seq<Area>, t: seq<Area>, v: Area, w: Area)
    requires Inserted(s, t, v) && Apart(s, w) && (v.end <= w.start || w.end <= v.start)
    ensures Apart(t, w)
  {
    forall k | 0 <= k < |t|
      ensures t[k].end <= w.start || w.end <= t[k].start
    {
      assert t[k] in t;
    }
  }

  lemma HeadLeft(s: seq<Area>, t: seq<Area>, v: Area, lo: nat)
    requires Sorted(s) && AreaOk(v) && Apart(s, v) && v.start < lo < v.end && Inserted(s, t, Below(v, lo))
    ensures Replaced(s, t, v, lo, v.end)
  {
    hide At, Sorted;
  }

  lemma TailLeft(s: seq<Area>, t: seq<Area>, v: Area, hi: nat)
    requires Sorted(s) && AreaOk(v) && Apart(s, v) && v.start < hi < v.end && Inserted(s, t, Above(v, hi))
    ensures Replaced(s, t, v, v.start, hi)
  {
    forall a: nat
      ensures At(t, a) == if Holds(v, a) && !(v.start <= a < hi) then PageOf(v, a) else At(s, a)
    {
      hide At, Inserted, Sorted;
      InsertedAt(s, t, Above(v, hi), a);
      if a >= hi {
        AbovePage(v, hi, a);
      }
    }
    hide At, Sorted, PageOf, Holds;
  }

  lemma InsertedAt(s: seq<Area>, t: seq<Area>, v: Area, a: nat)
    requires Inserted(s, t, v)
    ensures At(t, a) == if Holds(v, a) then PageOf(v, a) else At(s, a)
  {
    hide At, Sorted;
  }

  lemma BothAt(s: seq<Area>, t: seq<Area>, u: seq<Area>, v: Area, lo: nat, hi: nat, a: nat)
    requires v.start < lo <= hi < v.end && Inserted(s, t, Above(v, hi)) && Inserted(t, u, Below(v, lo))
    ensures At(u, a) == if Holds(v, a) && !(lo <= a < hi) then PageOf(v, a) else At(s, a)
  {
    hide At, Inserted;
    InsertedAt(s, t, Above(v, hi), a);
    InsertedAt(t, u, Below(v, lo), a);
    if a >= hi {
      AbovePage(v, hi, a);
    }
  }

  lemma BothLeft(s: seq<Area>, t: seq<Area>, u: seq<Area>, v: Area, lo: nat, hi: nat)
    requires v.start < lo <= hi < v.end && Inserted(s, t, Above(v, hi)) && Inserted(t, u, Below(v, lo))
    ensures Replaced(s, u, v, lo, hi)
  {
    forall a: nat
      ensures At(u, a) == if Holds(v, a) && !(lo <= a < hi) then PageOf(v, a) else At(s, a)
    {
      hide At, Inserted, PageOf;
      BothAt(s, t, u, v, lo, hi, a);
    }
    hide At, Sorted, PageOf, Holds;
  }

  lemma NoneLeft(s: seq<Area>, v: Area)
    requires Sorted(s) && Apart(s, v)
    ensures Replaced(s, s, v, v.start, v.end)
  {
    hide At;
  }

  /** No area of the list meets the range. */
  ghost predicate Clear(list: seq<Area>, lo: nat, hi: nat) {
    forall v :: v in list ==> v.end <= lo || hi <= v.start
  }

  // ------------------------------------------------------------------------------------
  // The task
  // ------------------------------------------------------------------------------------

  class Task {
    var mmap: seq<Area>

    /** insert_vm_struct: v goes in at place k. */
    method InsertVmStruct(v: Area) returns (ghost k: nat)
      modifies this
      ensures Place(old(mmap), v, k) && mmap == old(mmap)[..k] + [v] + old(mmap)[k..]
      ensures Sorted(old(mmap)) && AreaOk(v) && Apart(old(mmap), v) ==> Inserted(old(mmap), mmap, v)
    {
      hide At;
      var i := 0;
      while i < |mmap| && mmap[i].start <= v.start
        invariant i <= |mmap| && forall l :: 0 <= l < i ==> mmap[l].start <= v.start
      {
        i := i + 1;
      }
      k := i;
      if Sorted(mmap) && AreaOk(v) && Apart(mmap, v) {
        IsInserted(mmap, v, k);
      }
      mmap := mmap[..i] + [v] + mmap[i..];
    }

    /** unmap_fixup: put back what is left of an area that has been taken off the list. */
    method UnmapFixup(v: Area, addr: nat, len: nat)
      requires Sorted(mmap) && AreaOk(v) && Apart(mmap, v) && addr < WORD && len < WORD
      modifies this
      ensures if v.start <= addr < v.end && v.start < addr + len <= v.end
              then Replaced(old(mmap), mmap, v, addr, addr + len)
              else mmap == old(mmap)
    {
      hide Replaced, Inserted, Sorted, Apart, Holds;
      var end := (addr + len) % WORD;
      if addr < v.start || addr >= v.end || end <= v.start || end > v.end || end < addr {
        return;
      }
      ghost var was := mmap;
      if addr == v.start && end == v.end {
        NoneLeft(was, v);
        return;
      }
      var area := v;
      ApartPart(was, v);
      if addr >= area.start && end == area.end {
        area := area.(end := addr);
      }
      if addr == area.start && end <= area.end {
        area := area.(offset := (area.offset + (end - area.start)) % WORD, start := end);
      }
      ghost var mid := mmap;
      if addr > area.start && end < area.end {
        var tail := area.(offset := (area.offset + (end - area.start)) % WORD, start := end);
        ghost var _ := InsertVmStruct(tail);
        mid := mmap;
        area := area.(end := addr);
        ApartInserted(was, mid, tail, area);
        InsertedSorted(was, mid, tail);
      }
      ghost var _ := InsertVmStruct(area);
      if end == v.end {
        HeadLeft(was, mmap, v, addr);
      } else if addr == v.start {
        TailLeft(was, mmap, v, end);
      } else {
        BothLeft(was, mid, mmap, v, addr, end);
      }
    }

    /** The first loop of do_munmap: every area that meets [lo, hi) moves to the free list. */
    method TakeOut(lo: nat, hi: nat) returns (free: seq<Area>)
      requires Sorted(mmap) && lo < hi
      modifies this
      ensures Sorted(mmap) && Waiting(mmap, free, lo, hi) && Clear(mmap, lo, hi)
      ensures forall a: nat :: Under(mmap, free, a) == At(old(mmap), a)
    {
      hide At;
      free := [];
      assert At([], 0) == Unmapped by { AtNone([], 0); }
      var k := 0;
      assert forall a: nat :: Under(mmap, free, a) == At(old(mmap), a) by { EmptyFree(mmap); }
      while k < |mmap|
        invariant k <= |mmap| && Sorted(mmap) && Waiting(mmap, free, lo, hi)
        invariant forall l :: 0 <= l < k ==> mmap[l].end <= lo || hi <= mmap[l].start
        invariant forall a: nat :: Under(mmap, free, a) == At(old(mmap), a)
        decreases |mmap| - k
      {
        var v := mmap[k];
        if (lo < v.start && hi <= v.start) || (lo >= v.end && hi > v.end) {
          k := k + 1;
        } else {
          TakeOne(mmap, free, k, lo, hi);
          mmap := mmap[..k] + mmap[k + 1..];
          free := [v] + free;
        }
      }
    }

    /** do_munmap. */
    method DoMunmap(addr: nat, len: nat) returns (r: int)
      requires Sorted(mmap) && addr < WORD && len < WORD
      modifies this
      ensures Sorted(mmap)
      ensures r == if addr % PAGE_SIZE != 0 || addr > TASK_SIZE || len > TASK_SIZE - addr then -EINVAL else 0
      ensures r != 0 ==> mmap == old(mmap)
      ensures r == 0 ==> Unmaps(old(mmap), mmap, addr, addr + PageAlign(len)) && addr + PageAlign(len) <= TASK_SIZE
    {
      hide At, Sorted, Waiting, Clear, Unmaps, Under;
      if addr % PAGE_SIZE != 0 || addr > TASK_SIZE || len > TASK_SIZE - addr {
        return -EINVAL;
      }
      var n := PageAlign(len);
      ghost var was := mmap;
      if n == 0 {
        NothingOut(was, addr);
        return 0;
      }
      assert addr + n <= TASK_SIZE;
      var free := TakeOut(addr, addr + n);
      while free != []
        invariant Sorted(mmap) && Waiting(mmap, free, addr, addr + n) && Clear(mmap, addr, addr + n)
        invariant forall a: nat :: !(addr <= a < addr + n) ==> Under(mmap, free, a) == At(was, a)
        decreases |free|
      {
        ghost var s, f := mmap, free;
        var v := free[0];
        WaitingHead(s, f, addr, addr + n);
        free := free[1..];
        var st := if addr < v.start then v.start else addr;
        var end := if addr + n > v.end then v.end else addr + n;
        UnmapFixup(v, st, end - st);
        ReleaseOne(s, mmap, f, addr, addr + n, st, end);
      }
      AllOut(was, mmap, addr, addr + n);
      return 0;
    }

    /** merge_segments on the whole list. */
    method MergeSegments(m: Mergep)
      requires Harmless(m)
      modifies this
      ensures Merged(m, mmap, |mmap|)
      ensures Sorted(old(mmap)) ==> Sorted(mmap) && SameMap(mmap, old(mmap))
      ensures Broken(old(mmap)) ==> Broken(mmap)
      ensures |old(mmap)| <= 1 ==> mmap == old(mmap)
    {
      hide At, Mergeable, Broken, Sorted, SameMap;
      SameMapRefl(mmap);
      if |mmap| == 0 {
        return;
      }
      var prev := 0;
      while prev + 1 < |mmap|
        invariant prev < |mmap| && Merged(m, mmap, prev)
        invariant Sorted(old(mmap)) ==> Sorted(mmap) && SameMap(mmap, old(mmap))
        invariant Broken(old(mmap)) ==> Broken(mmap)
        invariant |old(mmap)| <= 1 ==> mmap == old(mmap)
        decreases |mmap| - prev
      {
        if Mergeable(m, mmap[prev], mmap[prev + 1]) {
          ghost var s := mmap;
          mmap := mmap[..prev] + [Join(mmap[prev], mmap[prev + 1])] + mmap[prev + 2..];
          JoinMerged(m, s, mmap, prev);
          if Sorted(old(mmap)) {
            JoinMap(m, s, prev);
            SameMapTrans(mmap, s, old(mmap));
          }
          if Broken(s) {
            JoinBroken(m, s, mmap, prev);
          }
        } else {
          prev := prev + 1;
        }
      }
    }

    /** The address search of do_mmap without MAP_FIXED. The sum addr + len is a 32-bit word. */
    method FindGap(len: nat) returns (found: bool, addr: nat)
      requires forall k :: 0 <= k < |mmap| ==> AreaOk(mmap[k])
      requires 0 < len <= TASK_SIZE && len % PAGE_SIZE == 0
      ensures found ==> SHM_RANGE_START <= addr && addr % PAGE_SIZE == 0
      ensures len == TASK_SIZE ==> found && addr == SHM_RANGE_START
      ensures len != TASK_SIZE ==> (found <==> exists x :: Free(mmap, x, len))
      ensures found && len != TASK_SIZE ==> Lowest(mmap, addr, len)
    {
      addr := SHM_RANGE_START;
      while (addr + len) % WORD < SHM_RANGE_END
        invariant SHM_RANGE_START <= addr <= TASK_SIZE && addr % PAGE_SIZE == 0
        invariant addr == SHM_RANGE_START || len < SHM_RANGE_END - SHM_RANGE_START
        invariant forall x :: Free(mmap, x, len) ==> addr <= x
        decreases TASK_SIZE - addr
      {
        var k := 0;
        while k < |mmap| && (addr >= mmap[k].end || (addr + len) % WORD <= mmap[k].start)
          invariant k <= |mmap|
          invariant forall l :: 0 <= l < k ==> addr >= mmap[l].end || (addr + len) % WORD <= mmap[l].start
        {
          k := k + 1;
        }
        if k == |mmap| {
          break;
        }
        NextGap(mmap, addr, len, k);
        addr := PageAlign(mmap[k].end);
      }
      if (addr + len) % WORD >= SHM_RANGE_END {
        return false, 0;
      }
      assert len != TASK_SIZE ==> Free(mmap, addr, len);
      return true, addr;
    }

    /** anon_map and generic_mmap once their checks have passed. */
    method AddArea(v: Area)
      modifies this
      ensures Merged(if v.inode == 0 then IgnoreOffset(0) else ByOffset, mmap, |mmap|)
      ensures Sorted(old(mmap)) && AreaOk(v) && Apart(old(mmap), v) ==> Sorted(mmap) && Overlaid(old(mmap), mmap, v)
      ensures Sorted(old(mmap)) && v.end == 0 ==> Broken(mmap)
      ensures old(mmap) == [] ==> mmap == [v]
    {
      hide At, Sorted, Broken, Inserted, Merged, SameMap, Overlaid, Apart;
      ghost var was := mmap;
      ghost var k := InsertVmStruct(v);
      ghost var mid := mmap;
      if Sorted(was) && v.end == 0 {
        InsertBroken(was, mid, v, k);
      }
      MergeSegments(if v.inode == 0 then IgnoreOffset(0) else ByOffset);
      if Sorted(was) && AreaOk(v) && Apart(was, v) {
        InsertedSorted(was, mid, v);
        InsertedOverlaid(was, mid, mmap, v);
      }
    }

    /** The end of do_mmap: clear the old maps of [at, at + n) and let the mapper add area v, unless it
        reports an error. An end of 0 is one that wrapped. */
    method MapAt(v: Area, at: nat, n: nat, error: int) returns (ok: bool)
      requires Sorted(mmap) && v.start == at && at % PAGE_SIZE == 0 && n % PAGE_SIZE == 0 && 0 < n <= TASK_SIZE
      requires if v.end == 0 then at == SHM_RANGE_START && n == TASK_SIZE else v.end == at + n <= TASK_SIZE
      modifies this
      ensures ok <==> error == 0
      ensures !ok ==> Sorted(mmap) && if v.end == 0 then mmap == old(mmap) else Unmaps(old(mmap), mmap, at, at + n)
      ensures ok ==> Merged(if v.inode == 0 then IgnoreOffset(0) else ByOffset, mmap, |mmap|)
      ensures ok ==> if v.end == 0 then !Sorted(mmap) else Sorted(mmap) && Overlaid(old(mmap), mmap, v)
      ensures ok && v.end == 0 && old(mmap) == [] ==> mmap == [v]
    {
      hide At, Sorted, Merged, Overlaid, Apart, Unmaps, Broken;
      ghost var was := mmap;
      var e := DoMunmap(at, n);
      if error != 0 {
        return false;
      }
      ghost var mid := mmap;
      if v.end != 0 {
        GoneApart(was, mid, at, n, v);
      }
      AddArea(v);
      if v.end == 0 {
        BrokenNotSorted(mmap);
      } else {
        OverlaidTrans(was, mid, mmap, at, n, v);
      }
      return true;
    }

    /** do_mmap. error is what the mapper reports; at is the address chosen. */
    method DoMmap(file: File, addr: nat, len: nat, prot: Prot, kind: nat, fixed: bool, off: nat, error: int)
      returns (r: int, ghost at: nat)
      requires Sorted(mmap) && addr < WORD && len < WORD && off < WORD && (file.File? ==> file.inode != 0)
      modifies this
      ensures PageAlign(len) == 0 ==> r == addr
      ensures PageAlign(len) != 0 && Checked(old(mmap), file, addr, len, prot, kind, fixed) != 0 ==>
                r == Checked(old(mmap), file, addr, len, prot, kind, fixed)
      ensures Replied(old(mmap), file, addr, len, prot, kind, fixed, error, r)
      ensures r >= 0 && PageAlign(len) != 0 && !Wraps(len, fixed) ==>
                Granted(old(mmap), mmap, file, r, PageAlign(len), prot, kind, off)
      ensures PageAlign(len) == 0 || r < -1 ==> mmap == old(mmap)
      ensures PageAlign(len) != 0 && Checked(old(mmap), file, addr, len, prot, kind, fixed) == 0 ==>
                && Chosen(old(mmap), addr, len, fixed, at) && r == (if error == 0 then at else -1)
                && if error == 0 then Adds(old(mmap), mmap, file, len, prot, kind, fixed, off, at)
                   else
                     && Sorted(mmap)
                     && if fixed then Unmaps(old(mmap), mmap, addr, addr + PageAlign(len)) else SameMap(mmap, old(mmap))
    {
      hide At, Sorted, Merged, Overlaid, Apart, Unmaps, Free, Lowest, Broken, SameMap;
      hide Replied, Granted;
      at := 0;
      var n := PageAlign(len);
      CheckedMeans(mmap, file, addr, len, prot, kind, fixed, error);
      if n == 0 {
        return addr, addr;
      }
      r := Refusal(file, addr, n, prot, kind, fixed);
      var where := addr;
      if r != 0 {
        return r, 0;
      }
      if !fixed {
        AreasOk(mmap);
        var found;
        found, where := FindGap(n);
        if !found {
          return -ENOMEM, 0;
        }
      }
      if file.File? && !file.canMap {
        return -ENODEV, 0;
      }
      if Mask(prot, kind) == 0 {
        return -EINVAL, 0;
      }
      ghost var was := mmap;
      at := where;
      var v := NewArea(file, where, n, prot, kind, off);
      if !Wraps(len, fixed) && !fixed {
        LowestFree(was, where, n);
        FreeEnd(was, where, n);
      }
      var ok := MapAt(v, where, n, error);
      if ok && !Wraps(len, fixed) {
        OverlaidGranted(was, mmap, file, where, n, prot, kind, off);
      }
      if !ok && !fixed {
        SameMapRefl(was);
        if !Wraps(len, fixed) {
          GapSame(was, mmap, where, n);
        }
      }
      return if ok then where else -1, at;
    }
  }

  // ------------------------------------------------------------------------------------
  // do_mmap
  // ------------------------------------------------------------------------------------

  const EACCES := 13
  const ENODEV := 19
  const MAP_SHARED := 1
  const MAP_PRIVATE := 2
  const PAGE_READONLY := 0x25
  const PAGE_SHARED := 0x27
  const PAGE_COPY := 0x225
  const FILE_MMAP := 1

  datatype File = NoFile | File(readable: bool, writable: bool, canMap: bool, inode: nat)

  datatype Prot = Prot(read: bool, write: bool, exec: bool)

  /** The page protection; PAGE_COPY and PAGE_SHARED contain the bits of PAGE_READONLY. */
  function Mask(prot: Prot, kind: nat): nat {
    if prot.write then (if kind == MAP_PRIVATE then PAGE_COPY else PAGE_SHARED)
    else if prot.read || prot.exec then PAGE_READONLY
    else 0
  }

  /** The errors do_mmap reports before it looks for an address or after, whatever the list. */
  function Refusal(file: File, addr: nat, n: nat, prot: Prot, kind: nat, fixed: bool): int {
    if addr > TASK_SIZE || n > TASK_SIZE || addr > TASK_SIZE - n then -EINVAL
    else if file.File? && kind != MAP_SHARED && kind != MAP_PRIVATE then -EINVAL
    else if file.File? && kind == MAP_SHARED && prot.write && !file.writable then -EACCES
    else if file.File? && !file.readable then -EACCES
    else if fixed && addr % PAGE_SIZE != 0 then -EINVAL
    else 0
  }

  function NewArea(file: File, at: nat, n: nat, prot: Prot, kind: nat, off: nat): Area {
    if file.File? then Area(at, (at + n) % WORD, Mask(prot, kind), 0, file.inode, off, FILE_MMAP)
    else Area(at, (at + n) % WORD, Mask(prot, kind), 0, 0, 0, 0)
  }

  /** The request for which the search's addr + len wraps to 0. */
  predicate Wraps(len: nat, fixed: bool) {
    !fixed && PageAlign(len) == TASK_SIZE
  }

  /** The error do_mmap reports before it changes the list, 0 for none. */
  ghost function Checked(s: seq<Area>, file: File, addr: nat, len: nat, prot: Prot, kind: nat, fixed: bool): int {
    var n := PageAlign(len);
    if Refusal(file, addr, n, prot, kind, fixed) != 0 then Refusal(file, addr, n, prot, kind, fixed)
    else if !fixed && !Wraps(len, fixed) && !exists x :: Free(s, x, n) then -ENOMEM
    else if file.File? && !file.canMap then -ENODEV
    else if Mask(prot, kind) == 0 then -EINVAL
    else 0
  }

  /** What the file must be open for: to be read, and to be written if writes reach it. */
  predicate MayMap(file: File, prot: Prot, kind: nat) {
    file.File? ==> file.readable && (kind == MAP_SHARED && prot.write ==> file.writable)
  }

  predicate KnownKind(file: File, kind: nat) {
    file.File? ==> kind == MAP_SHARED || kind == MAP_PRIVATE
  }

  /** The range is in the address space, the kind is known, and a fixed address is that of a page. */
  predicate GoodArguments(file: File, addr: nat, n: nat, kind: nat, fixed: bool) {
    addr + n <= TASK_SIZE && KnownKind(file, kind) && (fixed ==> addr % PAGE_SIZE == 0)
  }

  predicate AnyAccess(prot: Prot) {
    prot.read || prot.write || prot.exec
  }

  /** There is an address to map at. */
  ghost predicate HasPlace(s: seq<Area>, len: nat, fixed: bool) {
    fixed || Wraps(len, fixed) || exists x :: Free(s, x, PageAlign(len))
  }

  /** Each answer of do_mmap and the one cause it has. */
  ghost predicate Replied(s: seq<Area>, file: File, addr: nat, len: nat, prot: Prot, kind: nat, fixed: bool,
                          error: int, r: int) {
    var n := PageAlign(len);
    var legal := GoodArguments(file, addr, n, kind, fixed) && MayMap(file, prot, kind);
    var ready := legal && HasPlace(s, len, fixed);
    && (n == 0 ==> r == addr)
    && (n != 0 ==>
          && (r == -EACCES <==> addr + n <= TASK_SIZE && KnownKind(file, kind) && !MayMap(file, prot, kind))
          && (r == -ENOMEM <==> legal && !ready)
          && (r == -ENODEV <==> ready && file.File? && !file.canMap)
          && (r == -EINVAL <==>
                || !(addr + n <= TASK_SIZE && KnownKind(file, kind))
                || (MayMap(file, prot, kind) && fixed && addr % PAGE_SIZE != 0)
                || (ready && (file.File? ==> file.canMap) && !AnyAccess(prot)))
          && (r == -1 <==> ready && (file.File? ==> file.canMap) && AnyAccess(prot) && error != 0)
          && (r >= 0 <==> ready && (file.File? ==> file.canMap) && AnyAccess(prot) && error == 0))
  }

  /** Exactly the range maps to the object, page for page: copied on a write if private, shared if written and
      not private, and read-only otherwise. */
  ghost predicate Granted(s: seq<Area>, t: seq<Area>, file: File, at: nat, n: nat, prot: Prot, kind: nat, off: nat) {
    && (file.File? ==> MayMap(file, prot, kind) && KnownKind(file, kind))
    && (forall a: nat :: !(at <= a < at + n) ==> At(t, a) == At(s, a))
    && forall a: nat :: at <= a < at + n ==>
         && At(t, a).Mapped?
         && At(t, a).prot == (if prot.write && kind == MAP_PRIVATE then PAGE_COPY
                              else if prot.write then PAGE_SHARED else PAGE_READONLY)
         && At(t, a).share == 0 && At(t, a).ops == (if file.File? then FILE_MMAP else 0)
         && if file.File? then At(t, a).inode == file.inode && At(t, a).offset == (off + (a - at)) % WORD
            else At(t, a).inode == 0
  }

  lemma CheckedMeans(s: seq<Area>, file: File, addr: nat, len: nat, prot: Prot, kind: nat, fixed: bool, error: int)
    ensures var n, e := PageAlign(len), Checked(s, file, addr, len, prot, kind, fixed);
            && (n == 0 ==> Replied(s, file, addr, len, prot, kind, fixed, error, addr))
            && (n != 0 && e != 0 ==> Replied(s, file, addr, len, prot, kind, fixed, error, e))
            && (n != 0 && e == 0 && error != 0 ==> Replied(s, file, addr, len, prot, kind, fixed, error, -1))
            && (n != 0 && e == 0 && error == 0 ==>
                  forall r :: r >= 0 ==> Replied(s, file, addr, len, prot, kind, fixed, error, r))
    ensures Checked(s, file, addr, len, prot, kind, fixed) == 0 ==> MayMap(file, prot, kind) && KnownKind(file, kind)
    ensures Checked(s, file, addr, len, prot, kind, fixed) == 0 ==> AnyAccess(prot)
    ensures Checked(s, file, addr, len, prot, kind, fixed) == 0 || Checked(s, file, addr, len, prot, kind, fixed) < -1
  {
    hide Free, PageAlign;
  }

  lemma OverlaidGranted(s: seq<Area>, t: seq<Area>, file: File, at: nat, n: nat, prot: Prot, kind: nat, off: nat)
    requires MayMap(file, prot, kind) && KnownKind(file, kind) && AnyAccess(prot) && (file.File? ==> file.inode != 0)
    requires at + n <= TASK_SIZE && Overlaid(s, t, NewArea(file, at, n, prot, kind, off))
    ensures Granted(s, t, file, at, n, prot, kind, off)
  {
    hide At;
  }

  /** The lowest gap of n bytes. */
  ghost predicate Lowest(s: seq<Area>, at: nat, n: nat) {
    Free(s, at, n) && forall x :: Free(s, x, n) ==> at <= x
  }

  /** The address do_mmap maps at. */
  ghost predicate Chosen(s: seq<Area>, addr: nat, len: nat, fixed: bool, at: nat) {
    if fixed then at == addr else if Wraps(len, fixed) then at == SHM_RANGE_START else Lowest(s, at, PageAlign(len))
  }

  /** The new area is laid over the list and its neighbours are merged, unless its end wrapped: then the
      list is no longer sorted. */
  ghost predicate Adds(s: seq<Area>, t: seq<Area>, file: File, len: nat, prot: Prot, kind: nat, fixed: bool, off: nat,
                       at: nat) {
    var v := NewArea(file, at, PageAlign(len), prot, kind, off);
    && Merged(if file.File? then ByOffset else IgnoreOffset(0), t, |t|)
    && if Wraps(len, fixed) then !Sorted(t) && (s == [] ==> t == [v]) else Sorted(t) && Overlaid(s, t, v)
  }

  /** A read-only anonymous request for 0xc0000000 bytes in an empty address space is granted: its one
      area ends at 0, so the list is not sorted and maps nothing. */
  method WrapExample() returns (r: int, list: seq<Area>)
    ensures r == SHM_RANGE_START && list == [Area(SHM_RANGE_START, 0, PAGE_READONLY, 0, 0, 0, 0)]
    ensures !Sorted(list) && forall a: nat :: At(list, a) == Unmapped
  {
    var t := new Task;
    t.mmap := [];
    ghost var at;
    r, at := t.DoMmap(NoFile, 0, 0xc0000000, Prot(true, false, false), MAP_PRIVATE, false, 0, 0);
    list := t.mmap;
  }

  lemma LowestFree(s: seq<Area>, at: nat, n: nat)
    requires Lowest(s, at, n)
    ensures Free(s, at, n)
  {
  }

  /** Unmapping a gap changes nothing. */
  lemma GapSame(s: seq<Area>, t: seq<Area>, at: nat, n: nat)
    requires Free(s, at, n) && Unmaps(s, t, at, at + n)
    ensures SameMap(t, s)
  {
    forall a: nat
      ensures At(t, a) == At(s, a)
    {
      if at <= a < at + n {
        AtNone(s, a);
      }
    }
  }

  /** t is s with area v laid over it. */
  ghost predicate Overlaid(s: seq<Area>, t: seq<Area>, v: Area) {
    forall a: nat :: At(t, a) == if Holds(v, a) then PageOf(v, a) else At(s, a)
  }

  lemma InsertBroken(s: seq<Area>, t: seq<Area>, v: Area, k: nat)
    requires Place(s, v, k) && t == s[..k] + [v] + s[k..] && v.end == 0
    requires Sorted(s)
    ensures Broken(t)
  {
    assert t[k] == v;
    forall l | k < l < |t|
      ensures t[l].start > 0
    {
      assert t[l] == s[l - 1] && AreaOk(s[k]);
    }
    assert BrokenAt(t, k);
  }

  lemma InsertedOverlaid(s: seq<Area>, t: seq<Area>, u: seq<Area>, v: Area)
    requires Inserted(s, t, v) && SameMap(u, t)
    ensures Overlaid(s, u, v)
  {
    hide At, Sorted;
  }

  lemma AreasOk(s: seq<Area>)
    requires Sorted(s)
    ensures forall k :: 0 <= k < |s| ==> AreaOk(s[k])
  {
  }

  lemma FreeEnd(s: seq<Area>, at: nat, n: nat)
    requires Free(s, at, n)
    ensures at + n < SHM_RANGE_END
  {
  }

  /** Once a range is unmapped a new area there meets no other. */
  lemma GoneApart(s: seq<Area>, t: seq<Area>, at: nat, n: nat, v: Area)
    requires Sorted(t) && n > 0 && Unmaps(s, t, at, at + n) && v.start == at && v.end == at + n
    ensures Apart(t, v)
  {
    forall k | 0 <= k < |t|
      ensures t[k].end <= at || at + n <= t[k].start
    {
      if t[k].end > at && at + n > t[k].start {
        var a := if t[k].start < at then at else t[k].start;
        assert At(t, a) == Unmapped;
        AtSome(t, k, a);
      }
    }
  }

  lemma OverlaidTrans(s: seq<Area>, t: seq<Area>, u: seq<Area>, at: nat, n: nat, v: Area)
    requires Unmaps(s, t, at, at + n) && Overlaid(t, u, v) && v.start == at && v.end == at + n
    ensures Overlaid(s, u, v)
  {
    hide At;
  }

  /** [x, x + len) is a page-aligned gap inside the range do_mmap searches. */
  ghost predicate Free(list: seq<Area>, x: nat, len: nat) {
    && SHM_RANGE_START <= x && x % PAGE_SIZE == 0 && x + len < SHM_RANGE_END
    && forall k :: 0 <= k < |list| ==> x >= list[k].end || x + len <= list[k].start
  }

  /** An area in the way is in the way of every page up to its end. */
  lemma NextGap(list: seq<Area>, addr: nat, len: nat, k: nat)
    requires k < |list| && AreaOk(list[k]) && addr < list[k].end && (addr + len) % WORD > list[k].start
    requires SHM_RANGE_START <= addr && addr % PAGE_SIZE == 0 && 0 < len <= TASK_SIZE
    requires (addr + len) % WORD < SHM_RANGE_END
    requires forall x :: Free(list, x, len) ==> addr <= x
    ensures addr < PageAlign(list[k].end) <= TASK_SIZE
    ensures forall x :: Free(list, x, len) ==> PageAlign(list[k].end) <= x
  {
    forall x | Free(list, x, len)
      ensures PageAlign(list[k].end) <= x
    {
      assert addr <= x;
    }
  }

  // ------------------------------------------------------------------------------------
  // Lists that a wrapped end has broken
  // ------------------------------------------------------------------------------------

  /** Some area's end has wrapped to 0. */
  ghost predicate Broken(s: seq<Area>) {
    exists k :: 0 <= k < |s| && BrokenAt(s, k)
  }

  ghost predicate BrokenAt(s: seq<Area>, k: nat)
    requires k < |s|
  {
    s[k].end == 0 && forall l :: k < l < |s| ==> s[l].start > 0
  }

  lemma BrokenNotSorted(s: seq<Area>)
    requires Broken(s)
    ensures !Sorted(s)
  {
    var k :| 0 <= k < |s| && BrokenAt(s, k);
    assert !AreaOk(s[k]);
  }

  lemma JoinBroken(m: Mergep, s: seq<Area>, t: seq<Area>, k: nat)
    requires k + 1 < |s| && Broken(s) && Mergeable(m, s[k], s[k + 1])
    requires t == s[..k] + [Join(s[k], s[k + 1])] + s[k + 2..]
    ensures Broken(t)
  {
    var b :| 0 <= b < |s| && BrokenAt(s, b);
    var c := if b <= k then b else b - 1;
    assert b != k;
    assert t[c].end == 0;
    forall l | c < l < |t|
      ensures t[l].start > 0
    {
      assert t[l].start == s[if l <= k then l else l + 1].start;
    }
    assert BrokenAt(t, c);
  }

  lemma SameMapRefl(s: seq<Area>)
    ensures SameMap(s, s)
  {
  }

  lemma SameMapTrans(s: seq<Area>, t: seq<Area>, u: seq<Area>)
    requires SameMap(s, t) && SameMap(t, u)
    ensures SameMap(s, u)
  {
  }

  // ------------------------------------------------------------------------------------
  // Steps of do_munmap and merge_segments
  // ------------------------------------------------------------------------------------

  /** munmap's meaning: the range is gone and every other address keeps what it had. */
  ghost predicate Unmaps(s: seq<Area>, t: seq<Area>, lo: nat, hi: nat) {
    forall a: nat :: At(t, a) == if lo <= a < hi then Unmapped else At(s, a)
  }

  lemma EmptyFree(s: seq<Area>)
    ensures forall a: nat :: Under(s, [], a) == At(s, a)
  {
  }

  lemma NothingOut(s: seq<Area>, lo: nat)
    ensures Unmaps(s, s, lo, lo)
  {
  }

  lemma TakeOne(s: seq<Area>, free: seq<Area>, k: nat, lo: nat, hi: nat)
    requires Sorted(s) && k < |s| && Waiting(s, free, lo, hi) && Touches(s[k], lo, hi)
    ensures var t := s[..k] + s[k + 1..];
            && Sorted(t) && Waiting(t, [s[k]] + free, lo, hi)
            && forall a: nat :: Under(t, [s[k]] + free, a) == Under(s, free, a)
  {
    hide At, Under;
    RemoveWaiting(s, free, k, lo, hi);
    forall a: nat
      ensures Under(s[..k] + s[k + 1..], [s[k]] + free, a) == Under(s, free, a)
    {
      RemoveUnder(s, free, k, a);
    }
  }

  lemma WaitingHead(s: seq<Area>, free: seq<Area>, lo: nat, hi: nat)
    requires free != [] && Waiting(s, free, lo, hi)
    ensures AreaOk(free[0]) && Touches(free[0], lo, hi) && Apart(s, free[0])
  {
  }

  lemma ReleaseOne(s: seq<Area>, t: seq<Area>, free: seq<Area>, lo: nat, hi: nat, st: nat, end: nat)
    requires free != [] && Waiting(s, free, lo, hi) && Clear(s, lo, hi) && Replaced(s, t, free[0], st, end)
    requires st == if lo < free[0].start then free[0].start else lo
    requires end == if hi > free[0].end then free[0].end else hi
    ensures Sorted(t) && Waiting(t, free[1..], lo, hi) && Clear(t, lo, hi)
    ensures forall a: nat :: !(lo <= a < hi) ==> Under(t, free[1..], a) == Under(s, free, a)
  {
    hide At, Under;
    ReplacedWaiting(s, t, free, lo, hi, st, end);
    forall a: nat | !(lo <= a < hi)
      ensures Under(t, free[1..], a) == Under(s, free, a)
    {
      ReplacedUnder(s, t, free, lo, hi, st, end, a);
    }
  }

  lemma AllOut(s: seq<Area>, t: seq<Area>, lo: nat, hi: nat)
    requires Clear(t, lo, hi) && forall a: nat :: !(lo <= a < hi) ==> Under(t, [], a) == At(s, a)
    ensures Unmaps(s, t, lo, hi)
  {
    forall a: nat
      ensures At(t, a) == if lo <= a < hi then Unmapped else At(s, a)
    {
      if lo <= a < hi {
        AtNone(t, a);
      } else {
        assert Under(t, [], a) == At(s, a);
      }
    }
  }

  /** Joining a pair does not make an earlier pair mergeable. */
  lemma JoinMerged(m: Mergep, s: seq<Area>, t: seq<Area>, k: nat)
    requires k + 1 < |s| && Merged(m, s, k) && t == s[..k] + [Join(s[k], s[k + 1])] + s[k + 2..]
    ensures Merged(m, t, k)
  {
    forall l | 0 <= l && l + 1 < |t| && l < k
      ensures !Mergeable(m, t[l], t[l + 1])
    {
      assert !Mergeable(m, s[l], s[l + 1]);
    }
  }

  lemma InsertedSorted(s: seq<Area>, t: seq<Area>, v: Area)
    requires Inserted(s, t, v)
    ensures Sorted(t)
  {
  }

  lemma ApartPart(s: seq<Area>, v: Area)
    requires Apart(s, v)
    ensures forall w: Area :: v.start <= w.start && w.end <= v.end ==> Apart(s, w)
  {
  }
}

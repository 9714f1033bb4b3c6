/** Whole runs of mmap and munmap (linux-1.0.0/mm/mmap.c) against a plain address map. */
module MmapRuns {
  import opened VmAreas
  import opened Mmap

  datatype Call =
    | Map(file: File, addr: nat, len: nat, prot: Prot, kind: nat, fixed: bool, off: nat, error: int)
    | Unmap(addr: nat, len: nat)

  /** What a call does to the address map. */
  datatype Effect = Nothing | Cleared(lo: nat, hi: nat) | Laid(v: Area)

  function Changed(p: Page, e: Effect, a: nat): Page {
    match e
    case Nothing => p
    case Cleared(lo, hi) => if lo <= a < hi then Unmapped else p
    case Laid(v) => if Holds(v, a) then PageOf(v, a) else p
  }

  /** Address a after the effects, from page p. */
  function Replay(p: Page, log: seq<Effect>, a: nat): Page {
    if log == [] then p else Changed(Replay(p, log[..|log| - 1], a), log[|log| - 1], a)
  }

  predicate CallOk(c: Call) {
    c.addr < WORD && c.len < WORD && (c.Map? ==> c.off < WORD && (c.file.File? ==> c.file.inode != 0))
  }

  /** The list after a call is the list before it with the effect applied. */
  ghost predicate Does(s: seq<Area>, t: seq<Area>, e: Effect) {
    forall a: nat :: At(t, a) == Changed(At(s, a), e, a)
  }

  /** The request that is granted although its area would end past the address space. */
  predicate Breaks(c: Call) {
    && c.Map? && PageAlign(c.len) != 0 && Wraps(c.len, c.fixed) && c.error == 0 && AnyAccess(c.prot)
    && GoodArguments(c.file, c.addr, PageAlign(c.len), c.kind, c.fixed) && MayMap(c.file, c.prot, c.kind)
    && (c.file.File? ==> c.file.canMap)
  }

  /** v maps the range from at on to what the call asks for. */
  predicate AsAsked(c: Call, at: int, v: Area)
    requires c.Map?
  {
    && v.start == at && v.end == at + PageAlign(c.len) && v.share == 0
    && v.prot == (if c.prot.write && c.kind == MAP_PRIVATE then PAGE_COPY
                  else if c.prot.write then PAGE_SHARED else PAGE_READONLY)
    && if c.file.File? then v.inode == c.file.inode && v.offset == c.off && v.ops == FILE_MMAP
       else v.inode == 0 && v.ops == 0
  }

  /** What a call on the list s returns and does. */
  ghost predicate EffectOf(c: Call, s: seq<Area>, r: int, e: Effect) {
    match c
    case Unmap(addr, len) =>
      if addr % PAGE_SIZE != 0 || addr > TASK_SIZE || len > TASK_SIZE - addr then r == -EINVAL && e == Nothing
      else r == 0 && e == Cleared(addr, addr + PageAlign(len))
    case Map(file, addr, len, prot, kind, fixed, off, error) =>
      && Replied(s, file, addr, len, prot, kind, fixed, error, r)
      && if PageAlign(len) == 0 || r < -1 then e == Nothing
         else if r == -1 then e == if fixed then Cleared(addr, addr + PageAlign(len)) else Nothing
         else Chosen(s, addr, len, fixed, r) && e.Laid? && AsAsked(c, r, e.v)
  }

  method Step(t: Task, c: Call) returns (ok: bool, r: int, ghost e: Effect)
    requires Sorted(t.mmap) && CallOk(c)
    modifies t
    ensures ok <==> !Breaks(c)
    ensures ok <==> Sorted(t.mmap)
    ensures ok ==> EffectOf(c, old(t.mmap), r, e) && Does(old(t.mmap), t.mmap, e)
  {
    hide At, Sorted, Merged, Free, Lowest, SameMap, Overlaid, Granted, Checked, Chosen;
    ok := true;
    match c {
      case Unmap(addr, len) =>
        r := t.DoMunmap(addr, len);
        e := if r == 0 then Cleared(addr, addr + PageAlign(len)) else Nothing;
      case Map(file, addr, len, prot, kind, fixed, off, error) =>
        ghost var s, at := t.mmap, 0;
        r, at := t.DoMmap(file, addr, len, prot, kind, fixed, off, error);
        ok := !(r >= 0 && PageAlign(len) != 0 && Wraps(len, fixed));
        CheckedMeans(s, file, addr, len, prot, kind, fixed, error);
        e := Nothing;
        if PageAlign(len) != 0 && r >= 0 {
          e := Laid(NewArea(file, at, PageAlign(len), prot, kind, off));
          if ok {
            LaidDoes(s, t.mmap, NewArea(file, at, PageAlign(len), prot, kind, off));
            PlaceEnds(s, addr, len, fixed, at);
          }
        } else if PageAlign(len) != 0 && r == -1 {
          e := if fixed then Cleared(addr, addr + PageAlign(len)) else Nothing;
          if !fixed {
            SameDoes(s, t.mmap);
          }
        }
    }
  }

  /** A chosen place ends in the address space, unless the search wrapped. */
  lemma PlaceEnds(s: seq<Area>, addr: nat, len: nat, fixed: bool, at: nat)
    requires Chosen(s, addr, len, fixed, at) && !Wraps(len, fixed) && (fixed ==> addr + PageAlign(len) <= TASK_SIZE)
    ensures at + PageAlign(len) <= TASK_SIZE
  {
    hide PageAlign;
  }

  lemma LaidDoes(s: seq<Area>, t: seq<Area>, v: Area)
    requires Overlaid(s, t, v)
    ensures Does(s, t, Laid(v))
  {
    hide At;
  }

  lemma SameDoes(s: seq<Area>, t: seq<Area>)
    requires SameMap(t, s)
    ensures Does(s, t, Nothing)
  {
    hide At;
  }

  /** After every call of a run the list is sorted and maps every address as the effects of the calls
      say. Only a request whose area ends past the address space ends the run. */
  method Run(t: Task, calls: seq<Call>)
    returns (results: seq<int>, ghost log: seq<Effect>, ghost lists: seq<seq<Area>>)
    requires Sorted(t.mmap) && forall c :: c in calls ==> CallOk(c)
    modifies t
    ensures |log| == |results| <= |calls| && |lists| == |results| + 1 && lists[0] == old(t.mmap)
    ensures forall k :: 0 <= k <= |results| ==> Sorted(lists[k])
    ensures forall k, a: nat :: 0 <= k <= |results| ==> At(lists[k], a) == Replay(At(lists[0], a), log[..k], a)
    ensures forall k :: 0 <= k < |results| ==> EffectOf(calls[k], lists[k], results[k], log[k])
    ensures forall k :: 0 <= k < |results| ==> !Breaks(calls[k])
    ensures |results| == |calls| ==> t.mmap == lists[|results|]
    ensures |results| < |calls| ==> Breaks(calls[|results|]) && !Sorted(t.mmap)
  {
    hide At, Sorted, Does, CallOk, Changed, EffectOf, Breaks;
    results, log, lists := [], [], [t.mmap];
    while |results| < |calls|
      invariant |log| == |results| <= |calls| && |lists| == |results| + 1 && lists[0] == old(t.mmap)
      invariant lists[|results|] == t.mmap
      invariant forall k :: 0 <= k <= |results| ==> Sorted(lists[k])
      invariant forall k :: 0 <= k < |results| ==> Does(lists[k], lists[k + 1], log[k])
      invariant forall k :: 0 <= k < |results| ==> EffectOf(calls[k], lists[k], results[k], log[k])
      invariant forall k :: 0 <= k < |results| ==> !Breaks(calls[k])
      decreases |calls| - |results|
    {
      assert calls[|results|] in calls;
      ghost var e;
      var ok, r;
      ok, r, e := Step(t, calls[|results|]);
      if !ok {
        Replays(lists, log);
        return;
      }
      results, log, lists := results + [r], log + [e], lists + [t.mmap];
    }
    Replays(lists, log);
  }

  lemma Replays(lists: seq<seq<Area>>, log: seq<Effect>)
    requires |lists| == |log| + 1 && forall k :: 0 <= k < |log| ==> Does(lists[k], lists[k + 1], log[k])
    ensures forall k, a: nat :: 0 <= k <= |log| ==> At(lists[k], a) == Replay(At(lists[0], a), log[..k], a)
  {
    forall k, a: nat | 0 <= k <= |log|
      ensures At(lists[k], a) == Replay(At(lists[0], a), log[..k], a)
    {
      ReplayAt(lists, log, k, a);
    }
  }

  lemma {:induction false} ReplayAt(lists: seq<seq<Area>>, log: seq<Effect>, k: nat, a: nat)
    requires |lists| == |log| + 1 && forall k :: 0 <= k < |log| ==> Does(lists[k], lists[k + 1], log[k])
    requires k <= |log|
    ensures At(lists[k], a) == Replay(At(lists[0], a), log[..k], a)
    decreases k
  {
    hide At, Changed, Does;
    if k > 0 {
      ReplayAt(lists, log, k - 1, a);
      DoesAt(lists[k - 1], lists[k - 1 + 1], log[k - 1], a);
      assert log[..k][..k - 1] == log[..k - 1];
    }
  }

  lemma DoesAt(s: seq<Area>, t: seq<Area>, e: Effect, a: nat)
    requires Does(s, t, e)
    ensures At(t, a) == Changed(At(s, a), e, a)
  {
  }
}

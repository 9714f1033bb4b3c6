/** The libc allocator (c-os/libc/libc.c): first fit over the list of headers in the arena. A pointer
    is the offset of a payload, 0 for none. */
module Heap {
  import opened Numbers
  import opened HeapBlocks
  import opened HeapBytes

  /** The block at off is the first free block of at least need bytes. */
  ghost predicate FitAt(s: seq<Blk>, k: nat, off: nat, need: nat)
    requires k < |s|
  {
    && s[k].off == off && s[k].free && s[k].size >= need
    && forall i :: 0 <= i < k ==> !(s[i].free && s[i].size >= need)
  }

  ghost predicate NoFit(s: seq<Blk>, need: nat) {
    forall k :: 0 <= k < |s| && s[k].free ==> s[k].size < need
  }

  /** The bytes a block of size bytes keeps when need bytes are taken from it. */
  function Kept(size: nat, need: nat): nat {
    if size <= need + HEADER + ALIGN then size else need
  }

  /** b is cut from the first free block of at least need bytes. */
  ghost predicate FirstFit(s: seq<Blk>, b: Blk, need: nat) {
    exists k :: 0 <= k < |s| && FitAt(s, k, b.off, need) && b.size == Kept(s[k].size, need)
  }

  /** realloc of b asks for a size that wraps to 0, and the first free block gives less than b holds. */
  ghost predicate Overruns(s: seq<Blk>, b: Blk, size: nat) {
    size > WORD - ALIGN && exists k :: 0 <= k < |s| && FitAt(s, k, s[k].off, 0) && b.size > Kept(s[k].size, 0)
  }

  lemma FirstFitIs(s: seq<Blk>, b: Blk, n: Blk, size: nat)
    requires Tiles(s) && FirstFit(s, n, AlignUp(size)) && b.size < size < WORD
    ensures b.size > n.size <==> Overruns(s, b, size)
  {
    hide Tiles;
    AlignUpFits(size);
    var k :| 0 <= k < |s| && FitAt(s, k, n.off, AlignUp(size)) && n.size == Kept(s[k].size, AlignUp(size));
    if size > WORD - ALIGN {
      assert FitAt(s, k, s[k].off, 0);
      forall j | 0 <= j < |s| && FitAt(s, j, s[j].off, 0)
        ensures j == k
      {
      }
    }
  }

  lemma NoFitIs(s: seq<Blk>, b: Blk, size: nat)
    requires NoFit(s, AlignUp(size)) && b.size < size < WORD
    ensures !Overruns(s, b, size)
  {
    AlignUpFits(size);
  }

  class Allocator {
    var mem: seq<byte>
    ghost var blocks: seq<Blk>

    ghost predicate Valid()
      reads this
    {
      HeapOk(blocks) && Written(mem, blocks)
    }

    /** qos_libc_heap_init on a new heap. */
    constructor ()
      ensures Valid() && blocks == [Blk(0, ARENA - HEADER, true)]
    {
      var zero: seq<byte> := seq(ARENA, _ => 0);
      mem := SetLink(SetFlag(SetSize(zero, 0, ARENA - HEADER), 0, 1), 0, 0);
      blocks := [Blk(0, ARENA - HEADER, true)];
      InitWritten(zero);
    }

    /** qos_libc_heap_split of block k, whose header is at at. */
    method Split(at: nat, need: nat, ghost k: nat)
      requires Valid() && k < |blocks| && blocks[k].off == at && blocks[k].free && need <= blocks[k].size
      modifies this
      ensures Tiles(blocks) && Written(mem, blocks)
      ensures SamePayloads(old(blocks), old(mem), mem) && SameLive(old(blocks), blocks)
      ensures k < |blocks| && blocks[k] == old(blocks[k]).(size := Kept(old(blocks[k].size), need))
      ensures ApartBut(blocks, k)
      ensures forall i :: 0 <= i < k ==> blocks[i] == old(blocks[i])
    {
      hide Tiles, SameLive, SamePayloads, HeapOk, Written, Cut, ApartBut, Only, HeadAt, SetSize, SetFlag, SetLink;
      hide SplitMem;
      HeapTiles(blocks, k);
      WrittenAt(mem, blocks, k);
      SameRefl(blocks, mem);
      if HeadAt(mem, at).size <= need + HEADER + ALIGN {
        return;
      }
      CutTiles(blocks, k, need);
      CutLive(blocks, k, need);
      CutAt(blocks, k, need);
      CutApart(blocks, k, need);
      SplitWritten(blocks, k, need, mem);
      OnlyFree(blocks, k, mem, SplitMem(mem, at, need), at, End(blocks[k]));
      SplitStores(mem, at, need);
      var h, to := HeadAt(mem, at), at + HEADER + need;
      mem := SetSize(mem, to, h.size - need - HEADER);
      mem := SetFlag(mem, to, 1);
      mem := SetLink(mem, to, h.link);
      mem := SetSize(mem, at, need);
      mem := SetLink(mem, at, to);
      blocks := Cut(blocks, k, need);
    }

    /** qos_libc_heap_coalesce. */
    method Coalesce()
      requires Tiles(blocks) && Written(mem, blocks)
      modifies this
      ensures Valid() && SameLive(old(blocks), blocks) && SamePayloads(old(blocks), old(mem), mem)
    {
      hide Tiles, SameLive, SamePayloads, Written, LinkOf, Only, HeadAt, SetSize, SetLink, GlueMem, Glue;
      TilesSome(blocks);
      WrittenAt(mem, blocks, 0);
      SameRefl(blocks, mem);
      TilesStart(blocks);
      var at := 0;
      ghost var k := 0;
      LinkSmall(blocks, 0);
      while HeadAt(mem, at).link != 0
        invariant k < |blocks| && at == blocks[k].off && at + HEADER <= |mem|
        invariant Tiles(blocks) && Written(mem, blocks) && Apart(blocks, k) && SameLive(old(blocks), blocks)
        invariant SamePayloads(old(blocks), old(mem), mem)
        invariant HeadAt(mem, at).link == LinkOf(blocks, k) && (LinkOf(blocks, k) != 0 <==> k + 1 < |blocks|)
        decreases |blocks| - k
      {
        var h := HeadAt(mem, at);
        Walk(mem, blocks, k);
        var next := HeadAt(mem, h.link);
        if h.flag != 0 && next.flag != 0 && h.link == at + HEADER + h.size {
          ghost var was, mem1 := blocks, mem;
          GlueKeeps(was, k);
          GlueWritten(was, k, mem);
          GlueStores(mem, at, h.size + HEADER + next.size, next.link);
          mem := SetSize(mem, at, h.size + HEADER + next.size);
          mem := SetLink(mem, at, next.link);
          OnlyFree(was, k, mem1, mem, at, at + HEADER);
          PayloadsTrans(old(blocks), was, old(mem), mem1, mem);
          blocks := Glue(was, k);
          LiveTrans(old(blocks), was, blocks);
          GlueLinks(was, k);
        } else {
          at := h.link;
          k := k + 1;
        }
        WrittenAt(mem, blocks, k);
        LinkSmall(blocks, k);
      }
    }

    /** qos_malloc: 0, or the payload of the first free block that is large enough. */
    method Malloc(size: nat) returns (r: nat, ghost b: Blk)
      requires Valid() && size < WORD
      modifies this
      ensures Valid() && SamePayloads(old(blocks), old(mem), mem)
      ensures r == 0 <==> size == 0 || NoFit(old(blocks), AlignUp(size))
      ensures r == 0 ==> blocks == old(blocks) && mem == old(mem)
      ensures r != 0 ==> AddsLive(old(blocks), blocks, b) && r == b.off + HEADER && End(b) <= ARENA
      ensures r != 0 ==> FirstFit(old(blocks), b, AlignUp(size)) && (b.size >= size <==> size <= WORD - ALIGN)
    {
      hide Tiles, SameLive, SamePayloads, Written, HeapOk, ApartBut, AddsLive, HeadAt, SetFlag, Only, LinkOf;
      b := Blk(0, 0, true);
      HeapTiles(blocks, 0);
      TilesSome(blocks);
      WrittenAt(mem, blocks, 0);
      LinkSmall(blocks, 0);
      SameRefl(blocks, mem);
      if size == 0 {
        return 0, b;
      }
      AlignUpFits(size);
      var need := AlignUp(size);
      var at := 0;
      ghost var k := 0;
      TilesStart(blocks);
      while true
        invariant k < |blocks| && at == blocks[k].off && blocks == old(blocks) && mem == old(mem)
        invariant forall i :: 0 <= i < k ==> !(blocks[i].free && blocks[i].size >= need)
        decreases |blocks| - k
      {
        WrittenAt(mem, blocks, k);
        LinkSmall(blocks, k);
        var h := HeadAt(mem, at);
        if h.flag != 0 && h.size >= need {
          b := blocks[k].(free := false, size := Kept(blocks[k].size, need));
          assert FitAt(blocks, k, b.off, need) && b.size == Kept(blocks[k].size, need);
          Take(at, need, k, b);
          return at + HEADER, b;
        }
        if h.link == 0 {
          return 0, b;
        }
        LinkNext(blocks, k);
        at := h.link;
        k := k + 1;
      }
    }

    /** The split and the cleared flag of the block that malloc has found. */
    method Take(at: nat, need: nat, ghost k: nat, ghost b: Blk)
      requires Valid() && k < |blocks| && blocks[k].off == at && blocks[k].free && need <= blocks[k].size
      requires b == blocks[k].(free := false, size := Kept(blocks[k].size, need))
      modifies this
      ensures Valid() && SamePayloads(old(blocks), old(mem), mem)
      ensures AddsLive(old(blocks), blocks, b) && End(b) <= ARENA
    {
      hide Tiles, SameLive, SamePayloads, Written, HeapOk, ApartBut, AddsLive, HeadAt, SetFlag, Only;
      ghost var was := blocks;
      Split(at, need, k);
      ghost var mid, mem1 := blocks, mem;
      MarkKeeps(was, mid, k);
      MarkWritten(mid, k, false, mem);
      mem := SetFlag(mem, at, 0);
      OnlyFree(mid, k, mem1, mem, at, at + HEADER);
      PayloadsTrans(was, mid, old(mem), mem1, mem);
      blocks := Marked(mid, k, false);
    }

    /** qos_free of a live payload. */
    method Free(ptr: nat, ghost b: Blk)
      requires Valid() && (ptr != 0 ==> b in blocks && !b.free && ptr == b.off + HEADER)
      modifies this
      ensures Valid()
      ensures ptr == 0 ==> blocks == old(blocks) && mem == old(mem)
      ensures ptr != 0 ==> DropsLive(old(blocks), blocks, b) && SamePayloads(blocks, old(mem), mem)
    {
      hide Tiles, SameLive, SamePayloads, DropsLive, Written, HeapOk, HeadAt, SetFlag, Only;
      if ptr == 0 {
        return;
      }
      ghost var k :| 0 <= k < |blocks| && blocks[k] == b;
      ghost var was, mem0 := blocks, mem;
      HeapTiles(was, k);
      MarkWritten(was, k, true, mem);
      mem := SetFlag(mem, ptr - HEADER, 1);
      ghost var mem1 := mem;
      WrittenAt(mem0, was, k);
      OnlyFree(was, k, mem0, mem, b.off, b.off + HEADER);
      FreeMark(was, k);
      blocks := Marked(was, k, true);
      ghost var mid := blocks;
      Coalesce();
      DropsThen(was, mid, blocks, b, mem0, mem1, mem);
    }

    /** qos_realloc of a live payload. intact is false when the copy runs past the new payload. */
    method Realloc(ptr: nat, size: nat, ghost b: Blk) returns (r: nat, intact: bool, ghost n: Blk)
      requires Valid() && size < WORD && (ptr != 0 ==> b in blocks && !b.free && ptr == b.off + HEADER)
      modifies this
      ensures !intact <==> ptr != 0 && Overruns(old(blocks), b, size)
      ensures intact ==> Valid()
      ensures ptr != 0 && size == 0 ==>
                r == 0 && DropsLive(old(blocks), blocks, b) && SamePayloads(blocks, old(mem), mem)
      ensures ptr != 0 && 0 < size <= b.size ==> r == ptr && blocks == old(blocks) && mem == old(mem)
      ensures ptr == 0 || size > b.size ==> (r == 0 <==> size == 0 || NoFit(old(blocks), AlignUp(size)))
      ensures r == 0 && (ptr == 0 || size > b.size) ==> blocks == old(blocks) && mem == old(mem)
      ensures ptr != 0 && size > b.size && r != 0 ==> FirstFit(old(blocks), n, AlignUp(size)) && r == n.off + HEADER
      ensures ptr != 0 && size > b.size && r != 0 && intact ==> Moved(old(blocks), blocks, b, n, old(mem), mem)
      ensures ptr == 0 && r != 0 ==> FirstFit(old(blocks), n, AlignUp(size)) && r == n.off + HEADER
      ensures ptr == 0 && r != 0 ==>
                AddsLive(old(blocks), blocks, n) && SamePayloads(old(blocks), old(mem), mem) && End(n) <= ARENA
    {
      hide HeapOk, Tiles, SamePayloads, AddsLive, DropsLive, Moved, Stamp, Written, HeadAt, FirstFit, NoFit, Overruns;
      hide AlignUp;
      n := b;
      if ptr == 0 {
        r, n := Malloc(size);
        return r, true, n;
      }
      ghost var k :| 0 <= k < |blocks| && blocks[k] == b;
      ghost var s0, mem0 := blocks, mem;
      HeapTiles(s0, k);
      WrittenAt(mem, s0, k);
      Inside(s0, k);
      if size == 0 {
        NeverOverruns(s0, b, size);
        Free(ptr, b);
        return 0, true, n;
      }
      if HeadAt(mem, ptr - HEADER).size >= size {
        NeverOverruns(s0, b, size);
        return ptr, true, n;
      }
      r, n := Malloc(size);
      if r == 0 {
        NoFitIs(s0, b, size);
        return 0, true, n;
      }
      FirstFitIs(s0, b, n, size);
      ghost var s1, mem1 := blocks, mem;
      StillLive(s0, s1, b, n);
      LiveHead(s1, mem, b);
      LiveHead(s1, mem, n);
      var copy := HeadAt(mem, ptr - HEADER).size;
      if copy > HeadAt(mem, r - HEADER).size {
        return r, false, n;
      }
      mem := Stamp(mem, r, mem[ptr..ptr + copy]);
      CopyKeeps(s1, n, mem1, r, mem1[ptr..ptr + copy]);
      ghost var mem2 := mem;
      Free(ptr, b);
      IsMoved(s0, s1, blocks, b, n, mem0, mem1, mem2, mem);
      return r, true, n;
    }
  }

  lemma InitWritten(zero: seq<byte>)
    requires |zero| == ARENA
    ensures var s := [Blk(0, ARENA - HEADER, true)];
            var m := SetSize(zero, 0, ARENA - HEADER);
            var m' := SetFlag(m, 0, 1);
            HeapOk(s) && Written(SetLink(m', 0, 0), s)
  {
    hide HeadAt, SetSize, SetFlag, SetLink;
    var m := SetSize(zero, 0, ARENA - HEADER);
    SetSizeIs(zero, 0, ARENA - HEADER);
    SetFlagIs(m, 0, 1);
    SetLinkIs(SetFlag(m, 0, 1), 0, 0);
  }

  lemma SplitStores(mem: seq<byte>, at: nat, need: nat)
    requires at + HEADER + need + HEADER <= |mem| && HeadAt(mem, at).size >= need + HEADER
    ensures var to, h := at + HEADER + need, HeadAt(mem, at);
            && |SetSize(mem, to, h.size - need - HEADER)| == |mem|
            && var m1 := SetSize(mem, to, h.size - need - HEADER);
            && |SetFlag(m1, to, 1)| == |mem|
            && var m2 := SetFlag(m1, to, 1);
            && |SetLink(m2, to, h.link)| == |mem|
            && var m3 := SetLink(m2, to, h.link);
            && |SetSize(m3, at, need)| == |mem|
            && SplitMem(mem, at, need) == SetLink(SetSize(m3, at, need), at, to)
  {
  }

  lemma GlueStores(mem: seq<byte>, at: nat, size: nat, link: nat)
    requires at + HEADER <= |mem|
    ensures |SetSize(mem, at, size)| == |mem|
    ensures GlueMem(mem, at, size, link) == SetLink(SetSize(mem, at, size), at, link)
  {
  }

  /** The header behind the link of block k is that of block k + 1. */
  lemma Walk(mem: seq<byte>, s: seq<Blk>, k: nat)
    requires Tiles(s) && Written(mem, s) && k + 1 < |s|
    ensures s[k].off + HEADER <= |mem| == ARENA && s[k + 1].off + HEADER <= |mem| && s[k + 1].off == End(s[k])
    ensures HeadAt(mem, s[k].off) == Head(s[k].size, if s[k].free then 1 else 0, s[k + 1].off)
    ensures HeadAt(mem, s[k + 1].off) == Head(s[k + 1].size, if s[k + 1].free then 1 else 0, LinkOf(s, k + 1))
  {
    hide HeadAt;
    WrittenAt(mem, s, k);
    WrittenAt(mem, s, k + 1);
  }

  lemma TilesStart(s: seq<Blk>)
    requires Tiles(s)
    ensures s[0].off == 0
  {
  }

  lemma LinkNext(s: seq<Blk>, k: nat)
    requires k + 1 < |s|
    ensures LinkOf(s, k) == s[k + 1].off
  {
  }

  lemma NeverOverruns(s: seq<Blk>, b: Blk, size: nat)
    requires size <= ARENA
    ensures !Overruns(s, b, size)
  {
  }

  lemma LiveHead(s: seq<Blk>, mem: seq<byte>, b: Blk)
    requires HeapOk(s) && Written(mem, s) && b in s
    ensures |mem| == ARENA && End(b) <= ARENA && HeadAt(mem, b.off).size == b.size
  {
    hide HeadAt;
    var k :| 0 <= k < |s| && s[k] == b;
    Inside(s, k);
    WrittenAt(mem, s, k);
  }

  /** A copy into a live payload leaves the list readable. */
  lemma CopyKeeps(s: seq<Blk>, n: Blk, mem: seq<byte>, r: nat, h: seq<byte>)
    requires HeapOk(s) && Written(mem, s) && n in s && r == n.off + HEADER && |h| <= n.size && End(n) <= |mem|
    ensures Written(Stamp(mem, r, h), s)
  {
    hide Written, HeadAt;
    var k :| 0 <= k < |s| && s[k] == n;
    PayloadWrite(s, k, mem, Stamp(mem, r, h), r, End(n));
  }

  // ------------------------------------------------------------------------------------
  // Sizes above the largest aligned one
  // ------------------------------------------------------------------------------------

  /** What malloc takes from a new heap. */
  lemma FreshFit(s: seq<Blk>, n: Blk, need: nat)
    requires s == [Blk(0, ARENA - HEADER, true)] && FirstFit(s, n, need) && need <= 1000
    ensures n.off == 0 && n.size == need
  {
  }

  lemma FreshRoom(s: seq<Blk>, need: nat)
    requires s == [Blk(0, ARENA - HEADER, true)] && need <= 1000
    ensures !NoFit(s, need)
  {
    assert s[0].free && s[0].size >= need;
  }

  /** Behind the only live block there is one large free block. */
  lemma OneLive(s: seq<Blk>, t: seq<Blk>, b: Blk)
    requires s == [Blk(0, ARENA - HEADER, true)] && HeapOk(t) && AddsLive(s, t, b) && b.off == 0 && b.size == 112
    ensures Overruns(t, b, WORD - 1)
  {
    var k :| 0 <= k < |t| && t[k] == b;
    assert k == 0 by {
      if k > 0 {
        Disjoint(t, 0, k);
      }
    }
    assert |t| > 1 && t[0 + 1].off == End(b);
    assert forall i :: 0 < i < |t| ==> t[i].free by {
      forall i | 0 < i < |t|
        ensures t[i].free
      {
        Ordered(t, 0, i);
        assert t[i] in t;
      }
    }
    assert FitAt(t, 1, t[1].off, 0);
  }

  /** malloc of the largest size succeeds on a new heap, with a payload of no bytes. */
  method MallocWraps() returns (r: nat, size: nat)
    ensures r != 0 && size == 0
  {
    hide HeapOk, Written, SamePayloads, AddsLive, HeadAt, FirstFit, NoFit;
    var h := new Allocator();
    ghost var s, b := h.blocks, Blk(0, 0, true);
    AlignUpFits(WORD - 1);
    r, b := h.Malloc(WORD - 1);
    FreshRoom(s, 0);
    FreshFit(s, b, 0);
    Added(s, h.blocks, b);
    LiveHead(h.blocks, h.mem, b);
    size := HeadAt(h.mem, r - HEADER).size;
  }

  /** realloc of a live payload to the largest size copies past the new payload. */
  method ReallocWraps() returns (r: nat, intact: bool)
    ensures !intact
  {
    hide HeapOk, Written, SamePayloads, AddsLive, HeadAt, FirstFit, NoFit, Overruns, Moved;
    var h := new Allocator();
    ghost var s, b, n := h.blocks, Blk(0, 0, true), Blk(0, 0, true);
    var p;
    p, b := h.Malloc(100);
    FreshRoom(s, AlignUp(100));
    FreshFit(s, b, AlignUp(100));
    OneLive(s, h.blocks, b);
    Added(s, h.blocks, b);
    r, intact, n := h.Realloc(p, WORD - 1, b);
  }

  lemma Added(s: seq<Blk>, t: seq<Blk>, b: Blk)
    requires AddsLive(s, t, b)
    ensures b in t && !b.free
  {
  }
}

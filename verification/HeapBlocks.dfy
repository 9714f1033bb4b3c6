/** The block list of the libc heap (c-os/libc/libc.c): headers and payloads back to back through the
    arena. size_t is a 64-bit word. */
module HeapBlocks {

  const ARENA := 0x100000
  const HEADER := 24
  const ALIGN := 16
  const WORD := 0x1_0000_0000_0000_0000

  /** A header at offset off, and the payload of size bytes behind it. */
  datatype Blk = Blk(off: nat, size: nat, free: bool)

  function End(b: Blk): nat {
    b.off + HEADER + b.size
  }

  function AlignUp(v: nat): nat {
    (v + (ALIGN - 1)) % WORD / ALIGN * ALIGN
  }

  /** The next multiple of ALIGN, unless the sum wraps: that is all that can make the aligned size too small. */
  lemma AlignUpFits(v: nat)
    requires v < WORD
    ensures AlignUp(v) % ALIGN == 0 && AlignUp(v) < v + ALIGN
    ensures AlignUp(v) >= v <==> v <= WORD - ALIGN
    ensures v > WORD - ALIGN ==> AlignUp(v) == 0
  {
  }

  // ------------------------------------------------------------------------------------
  // The block list
  // ------------------------------------------------------------------------------------

  /** The blocks lie back to back from the start of the arena to its end. */
  ghost predicate Tiles(s: seq<Blk>) {
    && s != [] && s[0].off == 0 && End(s[|s| - 1]) == ARENA
    && forall k :: 0 <= k && k + 1 < |s| ==> s[k + 1].off == End(s[k])
  }

  /** No two neighbours before n are both free. */
  ghost predicate Apart(s: seq<Blk>, n: nat) {
    forall k :: 0 <= k && k + 1 < |s| && k < n ==> !(s[k].free && s[k + 1].free)
  }

  ghost predicate HeapOk(s: seq<Blk>) {
    Tiles(s) && Apart(s, |s|)
  }

  lemma {:induction false} Ordered(s: seq<Blk>, i: nat, j: nat)
    requires Tiles(s) && i < j < |s|
    ensures End(s[i]) <= s[j].off
    decreases j - i
  {
    if i + 1 < j {
      Ordered(s, i, j - 1);
    }
  }

  lemma {:induction false} Inside(s: seq<Blk>, k: nat)
    requires Tiles(s) && k < |s|
    ensures End(s[k]) <= ARENA
    decreases |s| - k
  {
    if k + 1 < |s| {
      Inside(s, k + 1);
    }
  }

  /** Live payloads are disjoint, and none overlaps a header. */
  lemma Disjoint(s: seq<Blk>, i: nat, j: nat)
    requires Tiles(s) && i < |s| && j < |s| && i != j
    ensures End(s[i]) <= s[j].off || End(s[j]) <= s[i].off
  {
    if i < j {
      Ordered(s, i, j);
    } else {
      Ordered(s, j, i);
    }
  }

  ghost predicate SameLive(s: seq<Blk>, t: seq<Blk>) {
    forall b: Blk :: !b.free ==> (b in t <==> b in s)
  }

  /** When everything has been freed the heap is the one initial block. */
  lemma AllFree(s: seq<Blk>)
    requires HeapOk(s)
    ensures (forall k :: 0 <= k < |s| ==> s[k].free) <==> s == [Blk(0, ARENA - HEADER, true)]
  {
    if |s| > 1 {
      assert !(s[0].free && s[0 + 1].free);
    }
  }

  /** Split block k: need bytes stay, the rest becomes a free block. */
  function Cut(s: seq<Blk>, k: nat, need: nat): seq<Blk>
    requires k < |s| && need + HEADER <= s[k].size
  {
    var b := s[k];
    s[..k] + [b.(size := need), Blk(b.off + HEADER + need, b.size - need - HEADER, true)] + s[k + 1..]
  }

  lemma CutTiles(s: seq<Blk>, k: nat, need: nat)
    requires Tiles(s) && k < |s| && need + HEADER <= s[k].size
    ensures Tiles(Cut(s, k, need))
  {
    var t := Cut(s, k, need);
    forall i | 0 <= i && i + 1 < |t|
      ensures t[i + 1].off == End(t[i])
    {
      if i > k + 1 {
        assert t[i] == s[i - 1] && t[i + 1] == s[i - 1 + 1];
      }
    }
    assert |s| > k + 1 ==> t[|t| - 1] == s[|s| - 1];
  }

  lemma CutLive(s: seq<Blk>, k: nat, need: nat)
    requires k < |s| && need + HEADER <= s[k].size && s[k].free
    ensures SameLive(s, Cut(s, k, need))
  {
    var t := Cut(s, k, need);
    assert s == s[..k] + [s[k]] + s[k + 1..];
  }

  function Marked(s: seq<Blk>, k: nat, free: bool): seq<Blk>
    requires k < |s|
  {
    s[k := s[k].(free := free)]
  }

  /** Blocks k and k + 1 as one. */
  function Glue(s: seq<Blk>, k: nat): seq<Blk>
    requires k + 1 < |s|
  {
    s[..k] + [s[k].(size := s[k].size + HEADER + s[k + 1].size)] + s[k + 2..]
  }

  lemma GlueKeeps(s: seq<Blk>, k: nat)
    requires Tiles(s) && k + 1 < |s| && s[k].free && s[k + 1].free && Apart(s, k)
    ensures Tiles(Glue(s, k)) && SameLive(s, Glue(s, k)) && Apart(Glue(s, k), k)
  {
    var t := Glue(s, k);
    forall i | 0 <= i && i + 1 < |t|
      ensures t[i + 1].off == End(t[i])
    {
      assert t[i + 1].off == s[if i < k then i + 1 else i + 2].off;
      assert End(t[i]) == End(s[if i < k then i else i + 1]);
    }
    forall i | 0 <= i && i + 1 < |t| && i < k
      ensures !(t[i].free && t[i + 1].free)
    {
      assert t[i].free == s[i].free && t[i + 1].free == s[i + 1].free;
    }
    assert s == s[..k] + [s[k], s[k + 1]] + s[k + 2..];
  }

  // ------------------------------------------------------------------------------------
  // Live blocks
  // ------------------------------------------------------------------------------------

  lemma SameOff(s: seq<Blk>, k: nat, b: Blk)
    requires HeapOk(s) && k < |s| && b in s && s[k].off == b.off
    ensures s[k] == b
  {
    var j :| 0 <= j < |s| && s[j] == b;
    if j != k {
      Disjoint(s, j, k);
    }
  }

  /** t has the live blocks of s but b. */
  ghost predicate DropsLive(s: seq<Blk>, t: seq<Blk>, b: Blk) {
    forall x: Blk :: !x.free ==> (x in t <==> x in s && x != b)
  }

  lemma FreeMark(s: seq<Blk>, k: nat)
    requires HeapOk(s) && k < |s| && !s[k].free
    ensures Tiles(Marked(s, k, true)) && DropsLive(s, Marked(s, k, true), s[k])
  {
    var u := Marked(s, k, true);
    forall x: Blk | !x.free
      ensures x in u <==> x in s && x != s[k]
    {
      if x in s && x != s[k] {
        var j :| 0 <= j < |s| && s[j] == x;
        assert u[j] == x;
      }
      if x in u {
        var j :| 0 <= j < |u| && u[j] == x;
        assert j != k && s[j] == x;
        Disjoint(s, j, k);
      }
    }
  }

  lemma StillLive(s: seq<Blk>, t: seq<Blk>, b: Blk, n: Blk)
    requires AddsLive(s, t, n) && b in s && !b.free
    ensures b in t && b != n && n in t && !n.free
  {
  }

  lemma LiveInside(s: seq<Blk>, b: Blk)
    requires HeapOk(s) && b in s
    ensures End(b) <= ARENA
  {
    var k :| 0 <= k < |s| && s[k] == b;
    Inside(s, k);
  }

  lemma LiveDisjoint(s: seq<Blk>, b: Blk, n: Blk)
    requires HeapOk(s) && b in s && n in s && b != n
    ensures End(b) <= n.off || End(n) <= b.off
  {
    var k :| 0 <= k < |s| && s[k] == b;
    var j :| 0 <= j < |s| && s[j] == n;
    Disjoint(s, k, j);
  }

  lemma TilesSome(s: seq<Blk>)
    requires Tiles(s)
    ensures s != []
  {
  }

  lemma Next(s: seq<Blk>, k: nat)
    requires Tiles(s) && k + 1 < |s|
    ensures s[k + 1].off == End(s[k])
  {
  }

  lemma LiveTrans(s: seq<Blk>, t: seq<Blk>, u: seq<Blk>)
    requires SameLive(s, t) && SameLive(t, u)
    ensures SameLive(s, u)
  {
  }

  /** t has the live blocks of s and b. */
  ghost predicate AddsLive(s: seq<Blk>, t: seq<Blk>, b: Blk) {
    && !b.free && b in t && b !in s
    && forall x: Blk :: !x.free ==> (x in t <==> x in s || x == b)
  }

  /** Marking a block live that a split has cut to size. */
  lemma MarkKeeps(s: seq<Blk>, t: seq<Blk>, k: nat)
    requires HeapOk(s) && Tiles(t) && SameLive(s, t) && ApartBut(t, k) && k < |t| && t[k].free
    ensures HeapOk(Marked(t, k, false)) && AddsLive(s, Marked(t, k, false), t[k].(free := false)) && End(t[k]) <= ARENA
  {
    var u, b := Marked(t, k, false), t[k].(free := false);
    Inside(t, k);
    forall x: Blk | !x.free
      ensures x in u <==> x in t || x == b
    {
      if x in t {
        var j :| 0 <= j < |t| && t[j] == x;
        assert u[j] == x;
      }
      if x in u {
        var j :| 0 <= j < |u| && u[j] == x;
        assert j != k ==> t[j] == x;
      }
      assert u[k] == b;
    }
    forall j | 0 <= j < |t|
      ensures t[j] != b
    {
      if j != k {
        Disjoint(t, j, k);
      }
    }
  }

  /** No two neighbours are both free, except perhaps k and k + 1. */
  ghost predicate ApartBut(s: seq<Blk>, k: nat) {
    forall i :: 0 <= i && i + 1 < |s| && i != k ==> !(s[i].free && s[i + 1].free)
  }

  lemma HeapTiles(s: seq<Blk>, k: nat)
    requires HeapOk(s)
    ensures Tiles(s) && ApartBut(s, k)
  {
  }

  lemma CutAt(s: seq<Blk>, k: nat, need: nat)
    requires k < |s| && need + HEADER <= s[k].size
    ensures var t := Cut(s, k, need);
            |t| == |s| + 1 && t[k] == s[k].(size := need) && forall i :: 0 <= i < k ==> t[i] == s[i]
  {
  }

  lemma CutApart(s: seq<Blk>, k: nat, need: nat)
    requires HeapOk(s) && k < |s| && need + HEADER <= s[k].size && s[k].free
    ensures ApartBut(Cut(s, k, need), k)
  {
    var t := Cut(s, k, need);
    forall i | 0 <= i && i + 1 < |t| && i != k
      ensures !(t[i].free && t[i + 1].free)
    {
      if i < k {
        assert !(s[i].free && s[i + 1].free);
      } else if i == k + 1 {
        assert !(s[k].free && s[k + 1].free);
      } else {
        assert !(s[i - 1].free && s[i - 1 + 1].free);
      }
    }
  }
}

/** The heap arena as bytes (c-os/libc/libc.c): block headers are little-endian words that lie in the
    arena between the payloads. A link is the offset of the next header, 0 for none. */
module HeapBytes {
  import opened Numbers
  import opened HeapBlocks

  // ------------------------------------------------------------------------------------
  // Words
  // ------------------------------------------------------------------------------------

  function Load(mem: seq<byte>, at: nat, n: nat): nat
    requires at + n <= |mem|
    decreases n
  {
    if n == 0 then 0 else var low: int := mem[at]; low + 0x100 * Load(mem, at + 1, n - 1)
  }

  function Encode(v: nat, n: nat): (h: seq<byte>)
    ensures |h| == n
  {
    if n == 0 then [] else [v % 0x100] + Encode(v / 0x100, n - 1)
  }

  function Limit(n: nat): nat {
    if n == 0 then 1 else 0x100 * Limit(n - 1)
  }

  function Stamp(mem: seq<byte>, at: nat, h: seq<byte>): (r: seq<byte>)
    requires at + |h| <= |mem|
    ensures |r| == |mem| && forall x :: 0 <= x < |mem| ==> r[x] == if at <= x < at + |h| then h[x - at] else mem[x]
  {
    mem[..at] + h + mem[at + |h|..]
  }

  lemma {:induction false} LoadEncoded(mem: seq<byte>, at: nat, v: nat, n: nat)
    requires at + n <= |mem| && v < Limit(n)
    requires forall i :: 0 <= i < n ==> mem[at + i] == Encode(v, n)[i]
    ensures Load(mem, at, n) == v
    decreases n
  {
    if n > 0 {
      var rest := Encode(v / 0x100, n - 1);
      forall i | 0 <= i < n - 1
        ensures mem[at + 1 + i] == rest[i]
      {
        assert mem[at + (i + 1)] == Encode(v, n)[i + 1];
      }
      LoadEncoded(mem, at + 1, v / 0x100, n - 1);
      assert mem[at + 0] == Encode(v, n)[0];
    }
  }

  lemma {:induction false} LoadSame(mem: seq<byte>, mem': seq<byte>, at: nat, n: nat)
    requires at + n <= |mem| == |mem'| && forall x :: at <= x < at + n ==> mem'[x] == mem[x]
    ensures Load(mem', at, n) == Load(mem, at, n)
    decreases n
  {
    if n > 0 {
      LoadSame(mem, mem', at + 1, n - 1);
    }
  }

  lemma Limits()
    ensures Limit(4) == 0x1_0000_0000 && Limit(8) == WORD
  {
    assert Limit(2) == 0x1_0000;
    assert Limit(4) == 0x1_0000_0000;
    assert Limit(6) == 0x1_0000_0000_0000;
  }

  // ------------------------------------------------------------------------------------
  // Headers
  // ------------------------------------------------------------------------------------

  /** A block header: size at 0, free at 8 with four bytes of padding behind it, next at 16. */
  datatype Head = Head(size: nat, flag: nat, link: nat)

  function HeadAt(mem: seq<byte>, at: nat): Head
    requires at + HEADER <= |mem|
  {
    Head(Load(mem, at, 8), Load(mem, at + 8, 4), Load(mem, at + 16, 8))
  }

  function SetSize(mem: seq<byte>, at: nat, v: nat): seq<byte>
    requires at + HEADER <= |mem|
  {
    Stamp(mem, at, Encode(v, 8))
  }

  function SetFlag(mem: seq<byte>, at: nat, v: nat): seq<byte>
    requires at + HEADER <= |mem|
  {
    Stamp(mem, at + 8, Encode(v, 4))
  }

  function SetLink(mem: seq<byte>, at: nat, v: nat): seq<byte>
    requires at + HEADER <= |mem|
  {
    Stamp(mem, at + 16, Encode(v, 8))
  }

  /** mem and mem' differ only in lo..hi. */
  ghost predicate Only(mem: seq<byte>, mem': seq<byte>, lo: nat, hi: nat) {
    |mem'| == |mem| && forall x :: 0 <= x < |mem| && !(lo <= x < hi) ==> mem'[x] == mem[x]
  }

  lemma SetSizeIs(mem: seq<byte>, at: nat, v: nat)
    requires at + HEADER <= |mem| && v < WORD
    ensures var m := SetSize(mem, at, v);
            |m| == |mem| && HeadAt(m, at) == HeadAt(mem, at).(size := v) && Only(mem, m, at, at + HEADER)
  {
    var m := SetSize(mem, at, v);
    hide Load, Encode, Limit;
    Limits();
    LoadEncoded(m, at, v, 8);
    LoadSame(mem, m, at + 8, 4);
    LoadSame(mem, m, at + 16, 8);
  }

  lemma SetFlagIs(mem: seq<byte>, at: nat, v: nat)
    requires at + HEADER <= |mem| && v <= 1
    ensures var m := SetFlag(mem, at, v);
            |m| == |mem| && HeadAt(m, at) == HeadAt(mem, at).(flag := v) && Only(mem, m, at, at + HEADER)
  {
    var m := SetFlag(mem, at, v);
    hide Load, Encode, Limit;
    Limits();
    LoadEncoded(m, at + 8, v, 4);
    LoadSame(mem, m, at, 8);
    LoadSame(mem, m, at + 16, 8);
  }

  lemma SetLinkIs(mem: seq<byte>, at: nat, v: nat)
    requires at + HEADER <= |mem| && v < WORD
    ensures var m := SetLink(mem, at, v);
            |m| == |mem| && HeadAt(m, at) == HeadAt(mem, at).(link := v) && Only(mem, m, at, at + HEADER)
  {
    var m := SetLink(mem, at, v);
    hide Load, Encode, Limit;
    Limits();
    LoadEncoded(m, at + 16, v, 8);
    LoadSame(mem, m, at, 8);
    LoadSame(mem, m, at + 8, 4);
  }

  lemma HeadSame(mem: seq<byte>, mem': seq<byte>, lo: nat, hi: nat, at: nat)
    requires Only(mem, mem', lo, hi) && at + HEADER <= |mem| && (at + HEADER <= lo || hi <= at)
    ensures HeadAt(mem', at) == HeadAt(mem, at)
  {
    hide Load;
    LoadSame(mem, mem', at, 8);
    LoadSame(mem, mem', at + 8, 4);
    LoadSame(mem, mem', at + 16, 8);
  }

  lemma OnlyMore(m0: seq<byte>, m1: seq<byte>, m2: seq<byte>, lo: nat, hi: nat, from: nat, to: nat)
    requires Only(m0, m1, lo, hi) && Only(m1, m2, from, to) && lo <= from && to <= hi
    ensures Only(m0, m2, lo, hi)
  {
  }

  // ------------------------------------------------------------------------------------
  // The list in the arena
  // ------------------------------------------------------------------------------------

  function LinkOf(s: seq<Blk>, k: nat): nat {
    if k + 1 < |s| then s[k + 1].off else 0
  }

  predicate HeadIs(mem: seq<byte>, b: Blk, link: nat) {
    b.off + HEADER <= |mem| && HeadAt(mem, b.off) == Head(b.size, if b.free then 1 else 0, link)
  }

  /** The arena holds the headers of the blocks of s, linked in order. */
  ghost predicate Written(mem: seq<byte>, s: seq<Blk>) {
    |mem| == ARENA && forall k :: 0 <= k < |s| ==> HeadIs(mem, s[k], LinkOf(s, k))
  }

  lemma WrittenAt(mem: seq<byte>, s: seq<Blk>, k: nat)
    requires Written(mem, s) && k < |s|
    ensures |mem| == ARENA && s[k].off + HEADER <= ARENA
    ensures HeadAt(mem, s[k].off) == Head(s[k].size, if s[k].free then 1 else 0, LinkOf(s, k))
  {
  }

  /** A write inside block k leaves the other headers as they are. */
  lemma OtherHead(s: seq<Blk>, k: nat, mem: seq<byte>, mem': seq<byte>, j: nat)
    requires Tiles(s) && k < |s| && j < |s| && j != k && Written(mem, s) && Only(mem, mem', s[k].off, End(s[k]))
    ensures HeadIs(mem', s[j], LinkOf(s, j))
  {
    Disjoint(s, j, k);
    hide Tiles, HeadAt, Only;
    HeadSame(mem, mem', s[k].off, End(s[k]), s[j].off);
  }

  /** A write inside a payload leaves the list as it is. */
  lemma PayloadWrite(s: seq<Blk>, k: nat, mem: seq<byte>, mem': seq<byte>, lo: nat, hi: nat)
    requires Tiles(s) && k < |s| && Written(mem, s) && Only(mem, mem', lo, hi)
    requires s[k].off + HEADER <= lo && hi <= End(s[k])
    ensures Written(mem', s)
  {
    assert |mem'| == ARENA;
    assert Only(mem, mem', s[k].off, End(s[k]));
    forall j | 0 <= j < |s|
      ensures HeadIs(mem', s[j], LinkOf(s, j))
    {
      hide Tiles, Only, HeadAt;
      WrittenAt(mem, s, j);
      if j == k {
        HeadSame(mem, mem', lo, hi, s[k].off);
      } else {
        OtherHead(s, k, mem, mem', j);
      }
    }
  }

  // ------------------------------------------------------------------------------------
  // The stores of the allocator
  // ------------------------------------------------------------------------------------

  /** The stores of qos_libc_heap_split. */
  function SplitMem(mem: seq<byte>, at: nat, need: nat): seq<byte>
    requires at + HEADER + need + HEADER <= |mem| && HeadAt(mem, at).size >= need + HEADER
  {
    var to := at + HEADER + need;
    var h := HeadAt(mem, at);
    SetLink(SetSize(SetLink(SetFlag(SetSize(mem, to, h.size - need - HEADER), to, 1), to, h.link), at, need), at, to)
  }

  lemma SplitHeads(mem: seq<byte>, at: nat, need: nat)
    requires at + HEADER + need + HEADER <= |mem| && need + HEADER <= HeadAt(mem, at).size < WORD
    requires |mem| < WORD && HeadAt(mem, at).link < WORD
    ensures var m, h, to := SplitMem(mem, at, need), HeadAt(mem, at), at + HEADER + need;
            && |m| == |mem| && Only(mem, m, at, to + HEADER)
            && HeadAt(m, at) == Head(need, h.flag, to)
            && HeadAt(m, to) == Head(h.size - need - HEADER, 1, h.link)
  {
    hide HeadAt, SetSize, SetFlag, SetLink, Only;
    var h, to := HeadAt(mem, at), at + HEADER + need;
    SetSizeIs(mem, to, h.size - need - HEADER);
    var m1 := SetSize(mem, to, h.size - need - HEADER);
    SetFlagIs(m1, to, 1);
    var m2 := SetFlag(m1, to, 1);
    SetLinkIs(m2, to, h.link);
    var m3 := SetLink(m2, to, h.link);
    SetSizeIs(m3, at, need);
    var m4 := SetSize(m3, at, need);
    SetLinkIs(m4, at, to);
    var m5 := SetLink(m4, at, to);
    HeadSame(mem, m1, to, to + HEADER, at);
    HeadSame(m1, m2, to, to + HEADER, at);
    HeadSame(m2, m3, to, to + HEADER, at);
    HeadSame(m3, m4, at, at + HEADER, to);
    HeadSame(m4, m5, at, at + HEADER, to);
    OnlyAll(mem, m1, m2, m3, m4, m5, at, to);
  }

  lemma OnlyAll(m0: seq<byte>, m1: seq<byte>, m2: seq<byte>, m3: seq<byte>, m4: seq<byte>, m5: seq<byte>, at: nat,
                to: nat)
    requires at + HEADER <= to && Only(m0, m1, to, to + HEADER) && Only(m1, m2, to, to + HEADER)
    requires Only(m2, m3, to, to + HEADER) && Only(m3, m4, at, at + HEADER) && Only(m4, m5, at, at + HEADER)
    ensures Only(m0, m5, at, to + HEADER)
  {
  }

  lemma CutLinks(s: seq<Blk>, k: nat, need: nat)
    requires k < |s| && need + HEADER <= s[k].size
    ensures var t := Cut(s, k, need);
            && |t| == |s| + 1 && LinkOf(t, k) == s[k].off + HEADER + need && LinkOf(t, k + 1) == LinkOf(s, k)
            && t[k] == s[k].(size := need)
            && t[k + 1] == Blk(s[k].off + HEADER + need, s[k].size - need - HEADER, true)
            && (forall i :: 0 <= i < k ==> t[i] == s[i] && LinkOf(t, i) == LinkOf(s, i))
            && forall i :: k + 1 < i < |t| ==> t[i] == s[i - 1] && LinkOf(t, i) == LinkOf(s, i - 1)
  {
  }

  lemma SplitWritten(s: seq<Blk>, k: nat, need: nat, mem: seq<byte>)
    requires Tiles(s) && k < |s| && Written(mem, s) && s[k].free && need + HEADER <= s[k].size
    ensures s[k].off + HEADER + need + HEADER <= |mem| == ARENA && HeadAt(mem, s[k].off).size == s[k].size
    ensures var m := SplitMem(mem, s[k].off, need);
            Written(m, Cut(s, k, need)) && Only(mem, m, s[k].off, End(s[k]))
  {
    hide Tiles, HeadAt, SplitMem, Cut, LinkOf;
    Inside(s, k);
    WrittenAt(mem, s, k);
    LinkSmall(s, k);
    SplitHeads(mem, s[k].off, need);
    CutLinks(s, k, need);
    var m, t := SplitMem(mem, s[k].off, need), Cut(s, k, need);
    assert Only(mem, m, s[k].off, End(s[k]));
    forall i | 0 <= i < |t|
      ensures HeadIs(m, t[i], LinkOf(t, i))
    {
      hide Written, Only;
      if i < k {
        OtherHead(s, k, mem, m, i);
      } else if i > k + 1 {
        OtherHead(s, k, mem, m, i - 1);
      }
    }
  }

  lemma LinkSmall(s: seq<Blk>, k: nat)
    requires Tiles(s) && k < |s|
    ensures LinkOf(s, k) < ARENA
    ensures k + 1 < |s| <==> LinkOf(s, k) != 0
  {
    if k + 1 < |s| {
      Ordered(s, k, k + 1);
      Inside(s, k + 1);
    }
  }

  /** The stores of one turn of qos_libc_heap_coalesce. */
  function GlueMem(mem: seq<byte>, at: nat, size: nat, link: nat): seq<byte>
    requires at + HEADER <= |mem|
  {
    SetLink(SetSize(mem, at, size), at, link)
  }

  lemma GlueLinks(s: seq<Blk>, k: nat)
    requires k + 1 < |s|
    ensures var t := Glue(s, k);
            && |t| == |s| - 1 && LinkOf(t, k) == LinkOf(s, k + 1)
            && t[k] == s[k].(size := s[k].size + HEADER + s[k + 1].size)
            && (forall i :: 0 <= i < k ==> t[i] == s[i] && LinkOf(t, i) == LinkOf(s, i))
            && forall i :: k < i < |t| ==> t[i] == s[i + 1] && LinkOf(t, i) == LinkOf(s, i + 1)
  {
  }

  lemma GlueWritten(s: seq<Blk>, k: nat, mem: seq<byte>)
    requires Tiles(s) && k + 1 < |s| && Written(mem, s) && s[k].free && s[k + 1].free
    ensures s[k].off + HEADER <= |mem| == ARENA
    ensures var m := GlueMem(mem, s[k].off, s[k].size + HEADER + s[k + 1].size, LinkOf(s, k + 1));
            Written(m, Glue(s, k)) && Only(mem, m, s[k].off, s[k].off + HEADER)
  {
    hide Tiles, HeadAt, GlueMem, Glue, LinkOf;
    Inside(s, k + 1);
    Inside(s, k);
    WrittenAt(mem, s, k);
    LinkSmall(s, k + 1);
    var at, size, link := s[k].off, s[k].size + HEADER + s[k + 1].size, LinkOf(s, k + 1);
    var m, t := GlueMem(mem, at, size, link), Glue(s, k);
    GlueHead(mem, at, size, link);
    GlueLinks(s, k);
    assert Only(mem, m, s[k].off, End(s[k]));
    forall i | 0 <= i < |t|
      ensures HeadIs(m, t[i], LinkOf(t, i))
    {
      hide Written, Only;
      if i < k {
        OtherHead(s, k, mem, m, i);
      } else if i > k {
        OtherHead(s, k, mem, m, i + 1);
      }
    }
  }

  lemma GlueHead(mem: seq<byte>, at: nat, size: nat, link: nat)
    requires at + HEADER <= |mem| && size < WORD && link < WORD
    ensures var m := GlueMem(mem, at, size, link);
            |m| == |mem| && HeadAt(m, at) == Head(size, HeadAt(mem, at).flag, link) && Only(mem, m, at, at + HEADER)
  {
    hide HeadAt, SetSize, SetLink;
    SetSizeIs(mem, at, size);
    SetLinkIs(SetSize(mem, at, size), at, link);
  }

  lemma MarkWritten(s: seq<Blk>, k: nat, free: bool, mem: seq<byte>)
    requires Tiles(s) && k < |s| && Written(mem, s)
    ensures s[k].off + HEADER <= |mem| == ARENA
    ensures var m := SetFlag(mem, s[k].off, if free then 1 else 0);
            Written(m, Marked(s, k, free)) && Only(mem, m, s[k].off, s[k].off + HEADER)
  {
    hide Tiles, HeadAt, SetFlag;
    Inside(s, k);
    WrittenAt(mem, s, k);
    var m, t := SetFlag(mem, s[k].off, if free then 1 else 0), Marked(s, k, free);
    SetFlagIs(mem, s[k].off, if free then 1 else 0);
    assert Only(mem, m, s[k].off, End(s[k]));
    forall i | 0 <= i < |t|
      ensures HeadIs(m, t[i], LinkOf(t, i))
    {
      hide Written, Only;
      assert LinkOf(t, i) == LinkOf(s, i);
      if i != k {
        OtherHead(s, k, mem, m, i);
      }
    }
  }

  // ------------------------------------------------------------------------------------
  // Payload bytes
  // ------------------------------------------------------------------------------------

  /** mem and mem' agree on the payloads of the live blocks of s. */
  ghost predicate SamePayloads(s: seq<Blk>, mem: seq<byte>, mem': seq<byte>) {
    && |mem| == |mem'| == ARENA
    && forall b, x :: b in s && !b.free && b.off + HEADER <= x < End(b) && x < ARENA ==> mem'[x] == mem[x]
  }

  function Bytes(mem: seq<byte>, b: Blk): (r: seq<byte>)
    requires End(b) <= |mem|
    ensures |r| == b.size
  {
    mem[b.off + HEADER..End(b)]
  }

  /** Writing inside a free block, or a header, touches no live payload. */
  lemma OnlyFree(s: seq<Blk>, k: nat, mem: seq<byte>, mem': seq<byte>, lo: nat, hi: nat)
    requires Tiles(s) && k < |s| && |mem| == ARENA && Only(mem, mem', lo, hi) && s[k].off <= lo && hi <= End(s[k])
    requires s[k].free || hi <= s[k].off + HEADER
    ensures SamePayloads(s, mem, mem')
  {
    forall b, x | b in s && !b.free && b.off + HEADER <= x < End(b) && x < ARENA
      ensures mem'[x] == mem[x]
    {
      var j :| 0 <= j < |s| && s[j] == b;
      if j != k {
        Disjoint(s, j, k);
      }
    }
  }

  lemma SameRefl(s: seq<Blk>, mem: seq<byte>)
    requires |mem| == ARENA
    ensures SamePayloads(s, mem, mem) && SameLive(s, s)
  {
  }

  lemma PayloadsTrans(s: seq<Blk>, t: seq<Blk>, a: seq<byte>, b: seq<byte>, c: seq<byte>)
    requires SamePayloads(s, a, b) && SamePayloads(t, b, c) && SameLive(s, t)
    ensures SamePayloads(s, a, c)
  {
  }

  lemma DropsThen(s: seq<Blk>, t: seq<Blk>, u: seq<Blk>, b: Blk, m0: seq<byte>, m1: seq<byte>, m2: seq<byte>)
    requires DropsLive(s, t, b) && SameLive(t, u) && SamePayloads(s, m0, m1) && SamePayloads(t, m1, m2)
    ensures DropsLive(s, u, b) && SamePayloads(u, m0, m2)
  {
  }

  /** The live blocks of s with n in place of b; n starts with b's bytes and no other payload changed. */
  ghost predicate Moved(s: seq<Blk>, t: seq<Blk>, b: Blk, n: Blk, m: seq<byte>, m': seq<byte>) {
    && !n.free && n in t && n !in s && n.off != b.off
    && (forall x: Blk :: !x.free ==> (x in t <==> x == n || (x in s && x != b)))
    && |m| == |m'| == ARENA && End(b) <= ARENA && End(n) <= ARENA && b.size <= n.size
    && Bytes(m', n)[..b.size] == Bytes(m, b)
    && forall x: Blk, i :: x in s && !x.free && x != b && x.off + HEADER <= i < End(x) && i < ARENA ==> m'[i] == m[i]
  }

  lemma CopiedBytes(b: Blk, n: Blk, m0: seq<byte>, m1: seq<byte>, m2: seq<byte>, m3: seq<byte>)
    requires |m0| == |m1| == |m2| == |m3| == ARENA && b.size <= n.size && End(n) <= ARENA && End(b) <= ARENA
    requires forall i :: b.off + HEADER <= i < End(b) ==> m1[i] == m0[i]
    requires m2 == Stamp(m1, n.off + HEADER, m1[b.off + HEADER..End(b)])
    requires forall i :: n.off + HEADER <= i < End(n) ==> m3[i] == m2[i]
    ensures Bytes(m3, n)[..b.size] == Bytes(m0, b)
  {
    var t, u := Bytes(m3, n), Bytes(m0, b);
    forall i | 0 <= i < b.size
      ensures t[i] == u[i]
    {
      assert t[i] == m3[n.off + HEADER + i] == m2[n.off + HEADER + i];
      assert u[i] == m0[b.off + HEADER + i] == m1[b.off + HEADER + i];
    }
  }

  lemma IsMoved(s0: seq<Blk>, s1: seq<Blk>, s2: seq<Blk>, b: Blk, n: Blk, m0: seq<byte>, m1: seq<byte>, m2: seq<byte>,
                m3: seq<byte>)
    requires HeapOk(s1) && AddsLive(s0, s1, n) && b in s0 && !b.free && b.size <= n.size && End(n) <= ARENA
    requires End(b) <= ARENA
    requires SamePayloads(s0, m0, m1) && m2 == Stamp(m1, n.off + HEADER, m1[b.off + HEADER..End(b)])
    requires DropsLive(s1, s2, b) && SamePayloads(s2, m2, m3)
    ensures Moved(s0, s2, b, n, m0, m3)
  {
    assert n in s1 && n != b && n in s2;
    LiveDisjoint(s1, b, n);
    CopiedBytes(b, n, m0, m1, m2, m3);
    forall x: Blk, i | x in s0 && !x.free && x != b && x.off + HEADER <= i < End(x) && i < ARENA
      ensures m3[i] == m0[i]
    {
      assert x in s1 && x != n && x in s2;
      LiveDisjoint(s1, x, n);
      assert m1[i] == m0[i] && m2[i] == m1[i] && m3[i] == m2[i];
    }
  }
}

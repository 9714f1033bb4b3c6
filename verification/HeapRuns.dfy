/** Whole runs of the heap (c-os/libc/libc.c): live payloads behave like separate buffers. */
module HeapRuns {
  import opened Numbers
  import opened HeapBlocks
  import opened HeapBytes
  import opened Heap

  datatype Call =
    | DoMalloc(size: nat)
    | DoFree(p: nat)
    | DoRealloc(p: nat, size: nat)
    | Store(p: nat, i: nat, v: byte)

  /** The buffers a program holds: payload address to contents. */
  type Buffers = map<nat, seq<byte>>

  predicate LiveAt(s: seq<Blk>, p: nat, n: nat) {
    p >= HEADER && Blk(p - HEADER, n, false) in s
  }

  /** Every buffer is a live block, and every live block a buffer. */
  ghost predicate Names(s: seq<Blk>, data: Buffers) {
    forall p :: p in data ==> LiveAt(s, p, |data[p]|)
  }

  ghost predicate Covers(s: seq<Blk>, data: Buffers) {
    forall b: Blk :: b in s && !b.free ==> b.off + HEADER in data
  }

  /** The arena holds the buffers' contents. */
  ghost predicate Contents(mem: seq<byte>, data: Buffers) {
    |mem| == ARENA && forall p :: p in data ==> ContentAt(mem, p, data[p])
  }

  predicate ContentAt(mem: seq<byte>, p: nat, d: seq<byte>) {
    p + |d| <= |mem| && mem[p..p + |d|] == d
  }

  ghost predicate Reflects(s: seq<Blk>, mem: seq<byte>, data: Buffers) {
    Names(s, data) && Covers(s, data) && Contents(mem, data)
  }

  function With(s: seq<byte>, i: nat, v: byte): seq<byte>
    requires i < |s|
  {
    s[i := v]
  }

  function BlockOf(data: Buffers, p: nat): Blk
    requires p in data && p >= HEADER
  {
    Blk(p - HEADER, |data[p]|, false)
  }

  /** Two blocks of a heap have different offsets. */
  lemma Distinct(s: seq<Blk>, b: Blk, c: Blk)
    requires HeapOk(s) && b in s && c in s && b.off == c.off
    ensures b == c
  {
    if b != c {
      LiveDisjoint(s, b, c);
    }
  }

  /** A buffer's bytes are the same in mem and mem'. */
  lemma SameContent(s: seq<Blk>, mem: seq<byte>, mem': seq<byte>, p: nat, d: seq<byte>)
    requires SamePayloads(s, mem, mem') && LiveAt(s, p, |d|) && ContentAt(mem, p, d)
    ensures ContentAt(mem', p, d)
  {
    var b := Blk(p - HEADER, |d|, false);
    assert forall x :: p <= x < p + |d| ==> mem'[x] == mem[x];
  }

  // ------------------------------------------------------------------------------------
  // malloc
  // ------------------------------------------------------------------------------------

  lemma MallocNew(s: seq<Blk>, t: seq<Blk>, n: Blk, data: Buffers)
    requires HeapOk(t) && Names(s, data) && AddsLive(s, t, n)
    ensures n.off + HEADER !in data
  {
    hide HeapOk;
    var p := n.off + HEADER;
    if p in data {
      assert LiveAt(s, p, |data[p]|);
      Distinct(t, Blk(n.off, |data[p]|, false), n);
    }
  }

  lemma MallocNames(s: seq<Blk>, t: seq<Blk>, n: Blk, data: Buffers, d: seq<byte>)
    requires Names(s, data) && Covers(s, data) && AddsLive(s, t, n) && |d| == n.size
    ensures Names(t, data[n.off + HEADER := d]) && Covers(t, data[n.off + HEADER := d])
  {
    var data' := data[n.off + HEADER := d];
    forall p | p in data'
      ensures LiveAt(t, p, |data'[p]|)
    {
      if p != n.off + HEADER {
        assert LiveAt(s, p, |data[p]|);
      } else {
        assert Blk(p - HEADER, |d|, false) == n;
      }
    }
  }

  lemma MallocContents(s: seq<Blk>, n: Blk, mem: seq<byte>, mem': seq<byte>, data: Buffers)
    requires Names(s, data) && Contents(mem, data) && SamePayloads(s, mem, mem') && End(n) <= ARENA
    ensures Contents(mem', data[n.off + HEADER := Bytes(mem', n)])
  {
    var data' := data[n.off + HEADER := Bytes(mem', n)];
    forall p | p in data'
      ensures ContentAt(mem', p, data'[p])
    {
      if p != n.off + HEADER {
        hide ContentAt, LiveAt, SamePayloads;
        assert LiveAt(s, p, |data[p]|) && ContentAt(mem, p, data[p]);
        SameContent(s, mem, mem', p, data[p]);
      }
    }
  }

  // ------------------------------------------------------------------------------------
  // free
  // ------------------------------------------------------------------------------------

  lemma FreeCovers(s: seq<Blk>, t: seq<Blk>, b: Blk, data: Buffers)
    requires HeapOk(s) && Covers(s, data) && b in s && !b.free && DropsLive(s, t, b)
    ensures Covers(t, data - {b.off + HEADER})
  {
    hide HeapOk;
    forall x: Blk | x in t && !x.free
      ensures x.off + HEADER in data - {b.off + HEADER}
    {
      if x.off == b.off {
        Distinct(s, x, b);
      }
    }
  }

  lemma FreeNames(s: seq<Blk>, t: seq<Blk>, b: Blk, data: Buffers)
    requires Names(s, data) && DropsLive(s, t, b)
    ensures Names(t, data - {b.off + HEADER})
  {
    forall p | p in data && p != b.off + HEADER
      ensures LiveAt(t, p, |data[p]|)
    {
      assert LiveAt(s, p, |data[p]|);
    }
  }

  lemma FreeContents(t: seq<Blk>, mem: seq<byte>, mem': seq<byte>, data: Buffers, q: nat)
    requires Names(t, data - {q}) && Contents(mem, data) && SamePayloads(t, mem, mem')
    ensures Contents(mem', data - {q})
  {
    forall p | p in data - {q}
      ensures ContentAt(mem', p, data[p])
    {
      hide ContentAt, LiveAt, SamePayloads;
      assert LiveAt(t, p, |data[p]|) && ContentAt(mem, p, data[p]);
      SameContent(t, mem, mem', p, data[p]);
    }
  }

  // ------------------------------------------------------------------------------------
  // realloc
  // ------------------------------------------------------------------------------------

  /** The pieces of Moved the proofs below need. */
  lemma MovedLive(s: seq<Blk>, t: seq<Blk>, b: Blk, n: Blk, mem: seq<byte>, mem': seq<byte>)
    requires Moved(s, t, b, n, mem, mem')
    ensures (forall x: Blk :: !x.free ==> (x in t <==> x == n || (x in s && x != b)))
    ensures n in t && !n.free && n !in s && n.off != b.off
    ensures End(n) <= ARENA && |mem| == |mem'| == ARENA && b.size <= n.size
  {
  }

  lemma MoveNames(s: seq<Blk>, t: seq<Blk>, b: Blk, n: Blk, data: Buffers, d: seq<byte>)
    requires Names(s, data) && n in t && !n.free && |d| == n.size
    requires forall x: Blk :: !x.free ==> (x in t <==> x == n || (x in s && x != b))
    ensures Names(t, (data - {b.off + HEADER})[n.off + HEADER := d])
  {
    var data' := (data - {b.off + HEADER})[n.off + HEADER := d];
    forall p | p in data'
      ensures LiveAt(t, p, |data'[p]|)
    {
      if p != n.off + HEADER {
        assert LiveAt(s, p, |data[p]|);
      } else {
        assert Blk(p - HEADER, |d|, false) == n;
      }
    }
  }

  lemma MoveCovers(s: seq<Blk>, t: seq<Blk>, b: Blk, n: Blk, data: Buffers, d: seq<byte>)
    requires HeapOk(s) && Covers(s, data) && b in s && !b.free
    requires forall x: Blk :: !x.free ==> (x in t <==> x == n || (x in s && x != b))
    ensures Covers(t, (data - {b.off + HEADER})[n.off + HEADER := d])
  {
    hide HeapOk;
    var data' := (data - {b.off + HEADER})[n.off + HEADER := d];
    forall x: Blk | x in t && !x.free
      ensures x.off + HEADER in data'
    {
      if x != n && x.off == b.off {
        Distinct(s, x, b);
      }
    }
  }

  /** The new buffer's address is not that of another buffer. */
  lemma MoveOther(s: seq<Blk>, t: seq<Blk>, b: Blk, n: Blk, data: Buffers)
    requires HeapOk(t) && Names(s, data) && n in t && !n.free && n !in s && n.off != b.off
    requires forall x: Blk :: !x.free ==> (x in t <==> x == n || (x in s && x != b))
    ensures n.off + HEADER !in data
  {
    hide HeapOk;
    var q := n.off + HEADER;
    if q in data {
      assert LiveAt(s, q, |data[q]|);
      Distinct(t, Blk(n.off, |data[q]|, false), n);
    }
  }

  lemma MoveContents(s: seq<Blk>, t: seq<Blk>, b: Blk, n: Blk, mem: seq<byte>, mem': seq<byte>, data: Buffers)
    requires Names(s, data) && Contents(mem, data) && Moved(s, t, b, n, mem, mem') && b.off + HEADER in data
    requires |data[b.off + HEADER]| == b.size
    ensures Contents(mem', (data - {b.off + HEADER})[n.off + HEADER := Bytes(mem', n)])
    ensures Bytes(mem', n)[..b.size] == data[b.off + HEADER]
  {
    var data' := (data - {b.off + HEADER})[n.off + HEADER := Bytes(mem', n)];
    assert ContentAt(mem, b.off + HEADER, data[b.off + HEADER]);
    forall p | p in data'
      ensures ContentAt(mem', p, data'[p])
    {
      if p != n.off + HEADER {
        assert LiveAt(s, p, |data[p]|) && ContentAt(mem, p, data[p]);
        MovedContent(s, t, b, n, mem, mem', p, data[p]);
      }
    }
  }

  lemma MovedContent(s: seq<Blk>, t: seq<Blk>, b: Blk, n: Blk, mem: seq<byte>, mem': seq<byte>, p: nat, d: seq<byte>)
    requires Moved(s, t, b, n, mem, mem') && LiveAt(s, p, |d|) && p != b.off + HEADER && ContentAt(mem, p, d)
    ensures ContentAt(mem', p, d)
  {
    var x := Blk(p - HEADER, |d|, false);
    assert forall i :: p <= i < p + |d| ==> mem'[i] == mem[i];
  }

  // ------------------------------------------------------------------------------------
  // Stores
  // ------------------------------------------------------------------------------------

  lemma StoreContents(s: seq<Blk>, p: nat, i: nat, v: byte, mem: seq<byte>, data: Buffers)
    requires HeapOk(s) && Names(s, data) && Contents(mem, data) && p in data && i < |data[p]|
    ensures p + i < |mem| && Contents(With(mem, p + i, v), data[p := With(data[p], i, v)])
  {
    assert LiveAt(s, p, |data[p]|) && ContentAt(mem, p, data[p]);
    var mem', data' := With(mem, p + i, v), data[p := With(data[p], i, v)];
    forall q | q in data'
      ensures ContentAt(mem', q, data'[q])
    {
      if q != p {
        assert LiveAt(s, q, |data[q]|) && ContentAt(mem, q, data[q]);
        hide HeapOk;
        LiveDisjoint(s, Blk(q - HEADER, |data[q]|, false), Blk(p - HEADER, |data[p]|, false));
      }
    }
  }

  lemma StoreNames(s: seq<Blk>, p: nat, d: seq<byte>, data: Buffers)
    requires Names(s, data) && Covers(s, data) && p in data && |d| == |data[p]|
    ensures Names(s, data[p := d]) && Covers(s, data[p := d])
  {
  }

  lemma StartReflects(s: seq<Blk>, mem: seq<byte>)
    requires s == [Blk(0, ARENA - HEADER, true)] && Written(mem, s)
    ensures Reflects(s, mem, map[])
  {
  }

  lemma AllGone(s: seq<Blk>)
    requires HeapOk(s) && Covers(s, map[])
    ensures s == [Blk(0, ARENA - HEADER, true)]
  {
    AllFree(s);
    forall k | 0 <= k < |s|
      ensures s[k].free
    {
      assert s[k] in s;
    }
  }

  lemma Live(s: seq<Blk>, mem: seq<byte>, data: Buffers, p: nat)
    requires HeapOk(s) && Reflects(s, mem, data) && p in data
    ensures p >= HEADER && BlockOf(data, p) in s && End(BlockOf(data, p)) <= ARENA
  {
    assert LiveAt(s, p, |data[p]|);
    hide HeapOk, Reflects;
    LiveInside(s, BlockOf(data, p));
  }

  lemma MallocReflects(s: seq<Blk>, t: seq<Blk>, n: Blk, mem: seq<byte>, mem': seq<byte>, data: Buffers)
    requires HeapOk(t) && Reflects(s, mem, data) && AddsLive(s, t, n) && SamePayloads(s, mem, mem') && End(n) <= ARENA
    ensures |mem'| == ARENA && Reflects(t, mem', data[n.off + HEADER := Bytes(mem', n)]) && n.off + HEADER !in data
    ensures n in t
  {
    assert |mem'| == ARENA && n in t;
    hide HeapOk, Names, Covers, Contents, AddsLive, SamePayloads, Bytes;
    MallocNew(s, t, n, data);
    MallocNames(s, t, n, data, Bytes(mem', n));
    MallocContents(s, n, mem, mem', data);
  }

  lemma FreeReflects(s: seq<Blk>, t: seq<Blk>, b: Blk, mem: seq<byte>, mem': seq<byte>, data: Buffers)
    requires HeapOk(s) && Reflects(s, mem, data) && b in s && !b.free && DropsLive(s, t, b)
    requires SamePayloads(t, mem, mem')
    ensures Reflects(t, mem', data - {b.off + HEADER})
  {
    hide HeapOk, Names, Covers, Contents, DropsLive, SamePayloads;
    FreeCovers(s, t, b, data);
    FreeNames(s, t, b, data);
    FreeContents(t, mem, mem', data, b.off + HEADER);
  }

  /** The buffer of b has moved to n and grown. */
  ghost predicate Resized(t: seq<Blk>, mem: seq<byte>, data: Buffers, b: Blk, n: Blk) {
    && |mem| == ARENA && End(n) <= ARENA && n in t && !n.free && n.off + HEADER !in data
    && Reflects(t, mem, (data - {b.off + HEADER})[n.off + HEADER := Bytes(mem, n)])
    && b.size <= n.size && b.off + HEADER in data && Bytes(mem, n)[..b.size] == data[b.off + HEADER]
  }

  lemma MoveReflects(s: seq<Blk>, t: seq<Blk>, b: Blk, n: Blk, mem: seq<byte>, mem': seq<byte>, data: Buffers)
    requires b in s && !b.free && b.off + HEADER in data && |data[b.off + HEADER]| == b.size
    requires HeapOk(s) && HeapOk(t) && Moved(s, t, b, n, mem, mem') && Reflects(s, mem, data)
    ensures Resized(t, mem', data, b, n)
  {
    hide HeapOk, Names, Covers, Contents, Moved, Bytes;
    MovedLive(s, t, b, n, mem, mem');
    MoveNames(s, t, b, n, data, Bytes(mem', n));
    MoveCovers(s, t, b, n, data, Bytes(mem', n));
    MoveOther(s, t, b, n, data);
    MoveContents(s, t, b, n, mem, mem', data);
  }

  lemma StoreReflects(s: seq<Blk>, p: nat, i: nat, v: byte, mem: seq<byte>, data: Buffers)
    requires HeapOk(s) && Reflects(s, mem, data) && p in data && i < |data[p]|
    ensures p + i < |mem| && Reflects(s, With(mem, p + i, v), data[p := With(data[p], i, v)])
  {
    hide HeapOk, Names, Covers, Contents;
    StoreContents(s, p, i, v, mem, data);
    StoreNames(s, p, With(data[p], i, v), data);
  }

  // ------------------------------------------------------------------------------------
  // One call
  // ------------------------------------------------------------------------------------

  /** What malloc(size) returns and does to the buffers. */
  ghost predicate Handed(s: seq<Blk>, size: nat, r: nat, data: Buffers, data': Buffers) {
    && (r == 0 <==> size == 0 || NoFit(s, AlignUp(size)))
    && (r == 0 ==> data' == data)
    && (r != 0 ==> r !in data && data' - {r} == data && NewAt(s, size, r, data'))
  }

  /** The new buffer at r is cut from the first free block that fits, and holds size bytes unless the
      aligned size wrapped. */
  ghost predicate NewAt(s: seq<Blk>, size: nat, r: nat, data': Buffers) {
    && r in data' && r >= HEADER && FirstFit(s, BlockOf(data', r), AlignUp(size))
    && (|data'[r]| >= size <==> size <= WORD - ALIGN)
  }

  /** What realloc(p, size) does to a live buffer that is too small. */
  ghost predicate Grown(s: seq<Blk>, p: nat, size: nat, r: nat, data: Buffers, data': Buffers)
    requires p in data
  {
    && (r == 0 <==> NoFit(s, AlignUp(size)))
    && (r == 0 ==> data' == data)
    && (r != 0 ==> r !in data && data' - {r} == data - {p} && NewAt(s, size, r, data') && data[p] <= data'[r])
  }

  /** What a call on the heap s returns and does to the buffers. A call on a pointer that is not live is
      not made. */
  ghost predicate Effect(c: Call, s: seq<Blk>, r: nat, data: Buffers, data': Buffers) {
    match c
    case DoMalloc(size) => Handed(s, size, r, data, data')
    case DoFree(p) => r == 0 && data' == data - {p}
    case DoRealloc(p, size) =>
      if p == 0 then Handed(s, size, r, data, data')
      else if p !in data then r == 0 && data' == data
      else if size == 0 then r == 0 && data' == data - {p}
      else if size <= |data[p]| then r == p && data' == data
      else Grown(s, p, size, r, data, data')
    case Store(p, i, v) =>
      r == 0 && data' == if p in data && i < |data[p]| then data[p := With(data[p], i, v)] else data
  }

  /** The call copies past the end of the buffer it returns. */
  ghost predicate Breaks(c: Call, s: seq<Blk>, data: Buffers) {
    c.DoRealloc? && c.p in data && c.p >= HEADER && Overruns(s, BlockOf(data, c.p), c.size)
  }

  /** One call. The heap is given up when the call breaks it. */
  method Step(h: Allocator, c: Call, data: Buffers) returns (ok: bool, r: nat, data': Buffers)
    requires h.Valid() && Reflects(h.blocks, h.mem, data) && (c.DoMalloc? || c.DoRealloc? ==> c.size < WORD)
    modifies h
    ensures ok <==> !Breaks(c, old(h.blocks), data)
    ensures ok ==> h.Valid() && Reflects(h.blocks, h.mem, data') && Effect(c, old(h.blocks), r, data, data')
  {
    hide Reflects, HeapOk, Written, AddsLive, DropsLive, SamePayloads, Moved, Handed, Grown, Overruns;
    match c {
      case DoMalloc(size) =>
        r, data' := Hand(h, size, data);
        ok := true;
      case DoFree(p) =>
        r, ok, data' := 0, true, data - {p};
        if p in data {
          Release(h, p, data);
        } else {
          assert data - {p} == data;
        }
      case DoRealloc(p, size) =>
        if p in data {
          Live(h.blocks, h.mem, data, p);
          ok, r, data' := Resize(h, p, size, data);
        } else if p == 0 {
          r, data' := Hand(h, size, data);
          ok := true;
        } else {
          ok, r, data' := true, 0, data;
        }
      case Store(p, i, v) =>
        r, ok, data' := 0, true, data;
        if p in data && i < |data[p]| {
          StoreReflects(h.blocks, p, i, v, h.mem, data);
          StoreWritten(h.blocks, p, i, v, h.mem, data);
          h.mem := With(h.mem, p + i, v);
          data' := data[p := With(data[p], i, v)];
        }
    }
  }

  method Hand(h: Allocator, size: nat, data: Buffers) returns (r: nat, data': Buffers)
    requires h.Valid() && Reflects(h.blocks, h.mem, data) && size < WORD
    modifies h
    ensures h.Valid() && Reflects(h.blocks, h.mem, data') && Handed(old(h.blocks), size, r, data, data')
  {
    hide Reflects, HeapOk, Written, AddsLive, DropsLive, SamePayloads, FirstFit, NoFit, HeadAt, AlignUp;
    data' := data;
    ghost var s, mem := h.blocks, h.mem;
    ghost var n;
    r, n := h.Malloc(size);
    if r != 0 {
      MallocReflects(s, h.blocks, n, mem, h.mem, data);
      Added(s, h.blocks, n);
      LiveHead(h.blocks, h.mem, n);
      data' := data[r := h.mem[r..r + HeadAt(h.mem, r - HEADER).size]];
      assert data' - {r} == data && BlockOf(data', r) == n;
    }
  }

  method Release(h: Allocator, p: nat, data: Buffers)
    requires h.Valid() && Reflects(h.blocks, h.mem, data) && p in data
    modifies h
    ensures h.Valid() && Reflects(h.blocks, h.mem, data - {p})
  {
    hide Reflects, HeapOk, Written, DropsLive, SamePayloads;
    ghost var s, mem := h.blocks, h.mem;
    Live(s, mem, data, p);
    ghost var b := BlockOf(data, p);
    h.Free(p, b);
    FreeReflects(s, h.blocks, b, mem, h.mem, data);
  }

  /** A store into a live payload leaves the headers as they are. */
  lemma StoreWritten(s: seq<Blk>, p: nat, i: nat, v: byte, mem: seq<byte>, data: Buffers)
    requires HeapOk(s) && Written(mem, s) && Reflects(s, mem, data) && p in data && i < |data[p]| && p + i < |mem|
    ensures Written(With(mem, p + i, v), s)
  {
    hide Reflects, Written;
    Live(s, mem, data, p);
    var k :| 0 <= k < |s| && s[k] == BlockOf(data, p);
    PayloadWrite(s, k, mem, With(mem, p + i, v), p + i, p + i + 1);
  }

  /** realloc of a live buffer. */
  method Resize(h: Allocator, p: nat, size: nat, data: Buffers) returns (ok: bool, r: nat, data': Buffers)
    requires h.Valid() && Reflects(h.blocks, h.mem, data) && size < WORD && p in data && p >= HEADER
    modifies h
    ensures ok <==> !Overruns(old(h.blocks), BlockOf(data, p), size)
    ensures ok ==> h.Valid() && Reflects(h.blocks, h.mem, data')
    ensures ok ==> Effect(DoRealloc(p, size), old(h.blocks), r, data, data')
  {
    hide Reflects, HeapOk, Written, AddsLive, DropsLive, SamePayloads, Moved, FirstFit, NoFit, Overruns, HeadAt;
    hide AlignUp;
    ghost var s, mem := h.blocks, h.mem;
    Live(s, mem, data, p);
    ghost var b := BlockOf(data, p);
    ghost var n;
    data' := data;
    r, ok, n := h.Realloc(p, size, b);
    if !ok {
      return;
    }
    if size == 0 {
      FreeReflects(s, h.blocks, b, mem, h.mem, data);
      data' := data - {p};
    } else if r != 0 && size > |data[p]| {
      MoveReflects(s, h.blocks, b, n, mem, h.mem, data);
      FitSize(s, n, size);
      ResizedAt(h.blocks, h.mem, data, b, n);
      LiveHead(h.blocks, h.mem, n);
      data' := (data - {p})[r := h.mem[r..r + HeadAt(h.mem, r - HEADER).size]];
      assert data' - {r} == data - {p} && BlockOf(data', r) == n;
    }
  }

  lemma ResizedAt(t: seq<Blk>, mem: seq<byte>, data: Buffers, b: Blk, n: Blk)
    requires Resized(t, mem, data, b, n)
    ensures n in t && !n.free && n.off + HEADER !in data && End(n) <= |mem|
    ensures var d := mem[n.off + HEADER..n.off + HEADER + n.size];
            && Reflects(t, mem, (data - {b.off + HEADER})[n.off + HEADER := d])
            && b.off + HEADER in data && data[b.off + HEADER] <= d
  {
    hide Reflects;
    var d := mem[n.off + HEADER..n.off + HEADER + n.size];
    assert d == Bytes(mem, n);
    assert d[..b.size] == data[b.off + HEADER];
  }

  lemma FitSize(s: seq<Blk>, n: Blk, size: nat)
    requires FirstFit(s, n, AlignUp(size)) && size < WORD && size > 0
    ensures n.size >= size <==> size <= WORD - ALIGN
  {
  }

  // ------------------------------------------------------------------------------------
  // Runs
  // ------------------------------------------------------------------------------------

  /** The block list is in order, and its live blocks are the buffers. */
  ghost predicate Holds(s: seq<Blk>, data: Buffers) {
    HeapOk(s) && Names(s, data) && Covers(s, data)
  }

  /** Any run of calls: after each the block list tiles the arena with the buffers as its live blocks,
      and each does to the buffers what its effect says. Only a realloc that breaks the heap ends it. */
  method Run(calls: seq<Call>)
    returns (results: seq<nat>, datas: seq<Buffers>, ghost heaps: seq<seq<Blk>>, mem: seq<byte>)
    requires forall c :: c in calls ==> (c.DoMalloc? || c.DoRealloc? ==> c.size < WORD)
    ensures |results| <= |calls| && |datas| == |heaps| == |results| + 1 && datas[0] == map[]
    ensures forall k :: 0 <= k <= |results| ==> Holds(heaps[k], datas[k])
    ensures forall k :: 0 <= k < |results| ==> Effect(calls[k], heaps[k], results[k], datas[k], datas[k + 1])
    ensures forall k :: 0 <= k < |results| ==> !Breaks(calls[k], heaps[k], datas[k])
    ensures |results| < |calls| ==> Breaks(calls[|results|], heaps[|results|], datas[|results|])
    ensures |results| == |calls| ==> Written(mem, heaps[|results|]) && Contents(mem, datas[|results|])
    ensures forall k :: 0 <= k <= |results| && datas[k] == map[] ==> heaps[k] == [Blk(0, ARENA - HEADER, true)]
  {
    hide Reflects, HeapOk, Written, Effect, Breaks, Holds;
    var h := new Allocator();
    var data: Buffers := map[];
    StartReflects(h.blocks, h.mem);
    results, datas, heaps := [], [data], [h.blocks];
    ReflectsHolds(h.blocks, h.mem, data);
    while |results| < |calls|
      invariant |results| <= |calls| && |datas| == |heaps| == |results| + 1 && datas[0] == map[]
      invariant h.Valid() && Reflects(h.blocks, h.mem, data) && fresh(h)
      invariant heaps[|results|] == h.blocks && datas[|results|] == data
      invariant forall k :: 0 <= k <= |results| ==> Holds(heaps[k], datas[k])
      invariant forall k :: 0 <= k < |results| ==> Effect(calls[k], heaps[k], results[k], datas[k], datas[k + 1])
      invariant forall k :: 0 <= k < |results| ==> !Breaks(calls[k], heaps[k], datas[k])
      decreases |calls| - |results|
    {
      var c := calls[|results|];
      assert c in calls;
      var ok, r, data' := Step(h, c, data);
      if !ok {
        mem := h.mem;
        Wholes(heaps, datas);
        return;
      }
      ReflectsHolds(h.blocks, h.mem, data');
      data := data';
      results, datas, heaps := results + [r], datas + [data], heaps + [h.blocks];
    }
    mem := h.mem;
    Wholes(heaps, datas);
    ReflectsContents(h.blocks, h.mem, data);
  }

  lemma ReflectsHolds(s: seq<Blk>, mem: seq<byte>, data: Buffers)
    requires HeapOk(s) && Reflects(s, mem, data)
    ensures Holds(s, data)
  {
  }

  lemma ReflectsContents(s: seq<Blk>, mem: seq<byte>, data: Buffers)
    requires Reflects(s, mem, data)
    ensures Contents(mem, data)
  {
  }

  /** With no buffer left the heap is whole. */
  lemma Wholes(heaps: seq<seq<Blk>>, datas: seq<Buffers>)
    requires |heaps| == |datas| && forall k :: 0 <= k < |heaps| ==> Holds(heaps[k], datas[k])
    ensures forall k :: 0 <= k < |heaps| && datas[k] == map[] ==> heaps[k] == [Blk(0, ARENA - HEADER, true)]
  {
    forall k | 0 <= k < |heaps| && datas[k] == map[]
      ensures heaps[k] == [Blk(0, ARENA - HEADER, true)]
    {
      AllGone(heaps[k]);
    }
  }
}

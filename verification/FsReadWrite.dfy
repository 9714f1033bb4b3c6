/** readi (xv6/fs.c), and the count of what writei logs. Devices are not part of the model. */
module FsReadWrite {
  import opened Numbers
  import opened Blocks
  import opened FsModel
  import opened FsInode
  import opened FsTrace
  import opened FsFile
  import opened FsBytes
  import opened FsWrite

  const T_DEV := 3

  // ------------------------------------------------------------------------------------
  // readi
  // ------------------------------------------------------------------------------------

  /** What readi may do besides reading: with no holes, nothing at all. */
  ghost predicate ReadState(f: Fs, g: Fs, sb: Super, own: map<nat, Owner>, own': map<nat, Owner>, i: nat) {
    && SizesOk(f, sb) && SizesOk(g, sb) && i < sb.ninodes && FsOk(f, sb, own) && FsOk(g, sb, own')
    && Extends(f, g, sb, own, own', i)
    && (NoHoles(f, i) ==> g == f && own' == own)
  }

  lemma ReadTurn(f: Fs, g: Fs, h: Fs, sb: Super, own: map<nat, Owner>, own1: map<nat, Owner>, own2: map<nat, Owner>,
                 i: nat, bn: nat, b: nat)
    requires ReadState(f, g, sb, own, own1, i) && bn < MAXFILE && Mapped(g, h, sb, own1, own2, i, SlotOf(bn), b)
    requires bn * BSIZE < f.ino[i].size
    ensures ReadState(f, h, sb, own, own2, i) && sb.data <= b < |h.disk|
    ensures forall p :: bn * BSIZE <= p < bn * BSIZE + BSIZE ==> ByteAt(f, i, p) == h.disk[b][p % BSIZE]
  {
    hide FsOk, Extends, Ptr;
    assert SizesOk(h, sb) && FsOk(h, sb, own2) by { MappedOk(g, h, sb, own1, own2, i, SlotOf(bn), b); }
    ExtendsTrans(f, g, h, sb, own, own1, own2, i);
    StoreKeeps(h, sb, own2, i, SlotOf(bn), ZeroBlock());
    forall p | bn * BSIZE <= p < bn * BSIZE + BSIZE
      ensures ByteAt(f, i, p) == h.disk[b][p % BSIZE]
    {
      assert p / BSIZE == bn;
      ExtendsByte(f, h, sb, own, own2, i, i, p);
    }
  }

  /** s is the bytes of inode i from off on. */
  ghost predicate BytesFrom(f: Fs, i: nat, off: nat, s: seq<byte>)
    requires i < |f.ino| && InodeOk(f.ino[i])
  {
    (s == [] || off + |s| <= MAXBYTES) && forall k :: 0 <= k < |s| ==> s[k] == ByteAt(f, i, off + k)
  }

  /** File block bn below the size, mapped and read. */
  method ReadBlock(fs: FileSystem, i: nat, bn: nat, ghost f0: Fs, ghost own: map<nat, Owner>, ghost own1: map<nat,
                   Owner>)
    returns (ok: bool, bp: Block, ghost own': map<nat, Owner>)
    requires ReadState(f0, fs.f, fs.sb, own, own1, i) && fs.Idle() && bn < MAXFILE && bn * BSIZE < f0.ino[i].size
    modifies fs`f, fs`logged, fs`ops
    ensures !ok ==> Full(fs.f, fs.sb) && !NoHoles(f0, i)
    ensures ok ==> fs.Idle() && ReadState(f0, fs.f, fs.sb, own, own', i)
    ensures ok ==> SizesOk(fs.f, fs.sb) && FsOk(fs.f, fs.sb, own') && (NoHoles(f0, i) ==> fs.f == f0)
    ensures NoHoles(f0, i) ==> fs.logged == old(fs.logged)
    ensures ok ==> forall p :: bn * BSIZE <= p < bn * BSIZE + BSIZE ==> ByteAt(f0, i, p) == bp[p % BSIZE]
  {
    hide FsOk, Extends, Ptr, ByteAt, Mapped, ReadState, Full, Trace, Held, NoHoles;
    ghost var f1 := fs.f;
    ReadMore(f0, f1, fs.sb, own, own1, i);
    NoPanic(f0, f1, fs.sb, own, own1, i, bn);
    var b;
    ghost var bits;
    ok, b, own', bits := fs.Bmap(i, bn, own1);
    bp := ZeroBlock();
    if ok {
      ReadTurn(f0, f1, fs.f, fs.sb, own, own1, own', i, bn, b);
      ReadMore(f0, fs.f, fs.sb, own, own', i);
      HomeBlock(fs.sb, b);
      bp := fs.Bread(b);
      fs.Brelse(b);
    }
  }

  /** readi: -1, or the bytes of [off, off + n) that lie below the size. ok is false for a panic: of bmap
      when the range goes past the largest file, or of balloc when a hole has to be filled. */
  method Readi(fs: FileSystem, i: nat, off: uint, n: uint, ghost own: map<nat, Owner>)
    returns (ok: bool, r: int, dst: seq<byte>, ghost own': map<nat, Owner>)
    requires SizesOk(fs.f, fs.sb) && FsOk(fs.f, fs.sb, own) && i < fs.sb.ninodes && fs.f.ino[i].typ != T_DEV
    requires fs.Idle()
    modifies fs`f, fs`logged, fs`ops
    ensures ok ==> fs.Idle() && ReadState(old(fs.f), fs.f, fs.sb, own, own', i)
    ensures NoHoles(old(fs.f), i) ==> ok && fs.f == old(fs.f) && fs.logged == old(fs.logged)
    ensures !ok ==> Full(fs.f, fs.sb) || MAXBYTES < Min(off + n, old(fs.f.ino[i].size))
    ensures ok ==> (r == -1 <==> off > old(fs.f.ino[i].size) || off + n > UINT_MAX)
    ensures ok && r != -1 ==> r == |dst| == Min(n, old(fs.f.ino[i].size) - off) && BytesFrom(old(fs.f), i, off, dst)
    ensures ok && r != -1 && old(fs.f.ino[i].size) <= MAXBYTES ==>
              dst == Content(old(fs.f), i)[off..Min(off + n, old(fs.f.ino[i].size))]
  {
    hide FsOk, Extends, Ptr, ByteAt, Mapped, ReadState, Full, Trace, Held, BytesFrom, NoHoles;
    ghost var f0 := fs.f;
    own', dst := own, [];
    ReadStart(f0, fs.sb, own, i);
    if off > fs.f.ino[i].size || off + n > UINT_MAX {
      return true, -1, [], own;
    }
    var m := if off + n > fs.f.ino[i].size then fs.f.ino[i].size - off else n;
    NoBytes(f0, i, off);
    HoleFree(f0, i);
    while |dst| < m
      invariant |dst| <= m && off + m <= f0.ino[i].size && (|dst| < m ==> off + |dst| < f0.ino[i].size)
      invariant ReadState(f0, fs.f, fs.sb, own, own', i) && FsOk(fs.f, fs.sb, own') && SizesOk(fs.f, fs.sb)
      invariant NoHoles(f0, i) ==> fs.f == f0 && fs.logged == old(fs.logged)
      invariant BytesFrom(f0, i, off, dst) && fs.Idle()
    {
      var o, bp := off + |dst|, ZeroBlock();
      if o / BSIZE >= MAXFILE {
        return false, 0, [], own';
      }
      ok, bp, own' := ReadBlock(fs, i, o / BSIZE, f0, own, own');
      if !ok {
        return false, 0, [], own';
      }
      var c := Min(m - |dst|, BSIZE - o % BSIZE);
      ghost var s := dst;
      dst := dst + bp[o % BSIZE..o % BSIZE + c];
      Copied(f0, i, off, s, o, c, bp, dst);
    }
    if f0.ino[i].size <= MAXBYTES {
      WholeContent(f0, i, off, dst);
    }
    return true, m, dst, own';
  }

  lemma NoBytes(f: Fs, i: nat, off: nat)
    requires i < |f.ino| && InodeOk(f.ino[i])
    ensures BytesFrom(f, i, off, [])
  {
  }

  lemma HoleFree(f: Fs, i: nat)
    requires i < |f.ino| && InodeOk(f.ino[i])
    ensures NoHoles(f, i) ==> f.ino[i].size <= MAXBYTES
  {
  }

  lemma HomeBlock(sb: Super, b: nat)
    requires LayoutOk(sb) && sb.data <= b
    ensures sb.inodestart <= b
  {
  }

  lemma WholeContent(f: Fs, i: nat, off: nat, s: seq<byte>)
    requires i < |f.ino| && InodeOk(f.ino[i]) && off + |s| <= f.ino[i].size <= MAXBYTES && BytesFrom(f, i, off, s)
    ensures s == Content(f, i)[off..off + |s|]
  {
    hide ByteAt;
  }

  lemma ReadStart(f: Fs, sb: Super, own: map<nat, Owner>, i: nat)
    requires SizesOk(f, sb) && FsOk(f, sb, own) && i < sb.ninodes
    ensures ReadState(f, f, sb, own, own, i)
  {
    hide FsOk, Extends, Ptr;
    ExtendsRefl(f, sb, own, i);
  }

  lemma ReadMore(f: Fs, g: Fs, sb: Super, own: map<nat, Owner>, own': map<nat, Owner>, i: nat)
    requires ReadState(f, g, sb, own, own', i)
    ensures SizesOk(g, sb) && FsOk(g, sb, own') && i < |f.ino| && i < sb.ninodes && (NoHoles(f, i) ==> g == f)
  {
  }

  /** A file without holes never needs a block below its size. */
  lemma NoPanic(f: Fs, g: Fs, sb: Super, own: map<nat, Owner>, own': map<nat, Owner>, i: nat, bn: nat)
    requires ReadState(f, g, sb, own, own', i) && bn < MAXFILE && bn * BSIZE < f.ino[i].size
    ensures NoHoles(f, i) ==> Ptr(g.disk, g.ino[i], SlotOf(bn)) != 0
  {
  }

  lemma Copied(f: Fs, i: nat, off: nat, s: seq<byte>, o: nat, c: nat, blk: Block, t: seq<byte>)
    requires i < |f.ino| && InodeOk(f.ino[i]) && o == off + |s| && o / BSIZE < MAXFILE
    requires BytesFrom(f, i, off, s) && o % BSIZE + c <= BSIZE && t == s + blk[o % BSIZE..o % BSIZE + c]
    requires forall p :: o / BSIZE * BSIZE <= p < o / BSIZE * BSIZE + BSIZE ==> ByteAt(f, i, p) == blk[p % BSIZE]
    ensures BytesFrom(f, i, off, t)
  {
    hide ByteAt;
    forall k | 0 <= k < |t|
      ensures t[k] == ByteAt(f, i, off + k)
    {
      if k >= |s| {
        var x := k - |s|;
        assert (o + x) % BSIZE == o % BSIZE + x;
        assert ByteAt(f, i, o + x) == blk[(o + x) % BSIZE];
      }
    }
  }

  // ------------------------------------------------------------------------------------
  // writei
  // ------------------------------------------------------------------------------------

  lemma WriteStart(f: Fs, sb: Super, own: map<nat, Owner>, i: nat, off: nat)
    requires SizesOk(f, sb) && FsOk(f, sb, own) && i < sb.ninodes
    ensures Wrote(f, f, sb, own, i, off, [])
  {
    hide FsOk, Ptr, ByteAt;
  }

  lemma WroteOk(f: Fs, g: Fs, sb: Super, own': map<nat, Owner>, i: nat, off: nat, s: seq<byte>)
    requires Wrote(f, g, sb, own', i, off, s)
    ensures SizesOk(f, sb) && SizesOk(g, sb) && FsOk(g, sb, own') && i < sb.ninodes
    ensures g.ino[i].size == f.ino[i].size
  {
    hide Ptr, FsOk, ByteAt, Updated, Covered;
  }

  /** Blocks a writei of n bytes at off touches. */
  function Touched(off: nat, n: nat): nat {
    if n == 0 then 0 else (off % BSIZE + n + BSIZE - 1) / BSIZE
  }

  /** Blocks it may have to allocate for data: an unaligned write starts in a block that exists. */
  function Fresh(off: nat, n: nat): nat {
    if n == 0 || off % BSIZE == 0 then Touched(off, n) else Touched(off, n) - 1
  }

  /** What writei has logged so far: data blocks, bitmap blocks, and the numbers of turns taken
      and data blocks allocated. */
  datatype Tally = Tally(data: set<nat>, bits: set<nat>, turns: nat, news: nat)

  ghost predicate Logs(f: Fs, g: Fs, i: nat, was: set<nat>, logged: set<nat>, t: Tally)
    requires i < |f.ino| && i < |g.ino| && InodeOk(f.ino[i]) && InodeOk(g.ino[i])
  {
    && logged <= was + t.data + t.bits + Indirect(g, i)
    && |t.data| <= t.turns
    && |t.bits| + Missing(g, i, NDIRECT) <= t.news + Missing(f, i, NDIRECT)
  }

  /** Every turn but the first starts at a block boundary, and the first needs no new block unless
      it starts at one too. */
  ghost predicate Paced(f: Fs, i: nat, off: nat, done: nat, n: nat, t: Tally)
    requires i < |f.ino| && InodeOk(f.ino[i])
  {
    && (t.turns == 0 <==> done == 0) && t.news <= t.turns
    && (t.turns > 0 ==> BSIZE * (t.turns - 1) < off % BSIZE + done <= BSIZE * t.turns)
    && (t.turns > 0 && done < n ==> off % BSIZE + done == BSIZE * t.turns)
    && (t.turns > 0 && off % BSIZE != 0 && NoHoles(f, i) ==> t.news < t.turns)
  }

  lemma LogsTurn(f: Fs, g: Fs, h: Fs, sb: Super, own: map<nat, Owner>, own': map<nat, Owner>, i: nat, bn: nat, b: nat,
                 was: set<nat>, logged: set<nat>, logged': set<nat>, bits: set<nat>, t: Tally)
    requires SizesOk(f, sb) && SizesOk(g, sb) && SizesOk(h, sb) && i < sb.ninodes && bn < MAXFILE
    requires Mapped(g, h, sb, own, own', i, SlotOf(bn), b) && Logs(f, g, i, was, logged, t)
    requires logged' <= logged + bits + {b} + Indirect(h, i) && |bits| <= MayTake(g, i, bn)
    ensures Logs(f, h, i, was, logged',
                 Tally(t.data + {b}, t.bits + bits, t.turns + 1, t.news + Missing(g, i, SlotOf(bn))))
  {
    hide FsOk;
    assert Indirect(g, i) <= Indirect(h, i) by {
      assert Ptr(g.disk, g.ino[i], NDIRECT) != 0 ==> Ptr(h.disk, h.ino[i], NDIRECT) == Ptr(g.disk, g.ino[i], NDIRECT);
    }
    assert bn >= NDIRECT ==> h.ino[i].addrs[NDIRECT] != 0;
    hide Extends, Mapped, Ptr;
    assert |t.bits + bits| <= |t.bits| + |bits|;
    assert |t.data + {b}| <= |t.data| + 1;
  }

  lemma PacedTurn(f: Fs, g: Fs, sb: Super, i: nat, off: nat, done: nat, n: nat, c: nat, t: Tally, t': Tally)
    requires SizesOk(f, sb) && Kept(f, g, sb, i) && Paced(f, i, off, done, n, t)
    requires done < n && off + n <= MAXBYTES && off <= f.ino[i].size
    requires c == Min(n - done, BSIZE - (off + done) % BSIZE)
    requires t'.turns == t.turns + 1 && t'.news == t.news + Missing(g, i, SlotOf((off + done) / BSIZE))
    ensures Paced(f, i, off, done + c, n, t')
  {
    hide Ptr;
    if t.turns > 0 {
      assert off + done == off / BSIZE * BSIZE + BSIZE * t.turns;
      assert (off + done) % BSIZE == 0;
    } else if off % BSIZE != 0 && NoHoles(f, i) {
      assert off / BSIZE * BSIZE < f.ino[i].size;
      assert Ptr(f.disk, f.ino[i], SlotOf(off / BSIZE)) != 0;
    }
  }

  /** With no holes, a write that ends below the size leaves the inode alone. */
  lemma NoGrowth(f: Fs, g: Fs, h: Fs, sb: Super, own: map<nat, Owner>, own': map<nat, Owner>, i: nat, bn: nat, b: nat)
    requires Kept(f, g, sb, i) && bn < MAXFILE && bn * BSIZE < f.ino[i].size && NoHoles(f, i)
    requires Mapped(g, h, sb, own, own', i, SlotOf(bn), b)
    ensures h == g
  {
    hide Ptr, FsOk;
  }
}

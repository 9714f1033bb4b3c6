/** The state of a writei in progress (xv6/fs.c): which bytes, pointers and inodes have changed
    since it began, and how many blocks it has logged. */
module FsWrite {
  import opened Numbers
  import opened Blocks
  import opened FsModel
  import opened FsInode
  import opened FsFile
  import opened FsBytes

  /** Nothing but inode i's pointers has changed outside the data blocks, and no pointer that was
      in use. */
  ghost predicate Kept(f: Fs, g: Fs, sb: Super, i: nat) {
    && SizesOk(f, sb) && SizesOk(g, sb) && i < sb.ninodes
    && (forall j :: 0 <= j < |f.ino| && j != i ==> g.ino[j] == f.ino[j])
    && g.ino[i] == f.ino[i].(addrs := g.ino[i].addrs)
    && (forall x :: 0 <= x < sb.bmapstart ==> g.disk[x] == f.disk[x])
    && (forall j, k :: 0 <= j < |f.ino| && 0 <= k < NSLOT && (j != i || Ptr(f.disk, f.ino[j], k) != 0) ==>
          Ptr(g.disk, g.ino[j], k) == Ptr(f.disk, f.ino[j], k))
  }

  /** Bytes [off, off + |s|) of inode i are s and every other byte of every inode is as in f. */
  ghost predicate Updated(f: Fs, g: Fs, i: nat, off: nat, s: seq<byte>)
    requires |f.ino| == |g.ino| && forall j :: 0 <= j < |f.ino| ==> InodeOk(f.ino[j]) && InodeOk(g.ino[j])
  {
    forall j, p :: 0 <= j < |f.ino| && 0 <= p < MAXBYTES ==>
      ByteAt(g, j, p) == if j == i && off <= p < off + |s| then s[p - off] else ByteAt(f, j, p)
  }

  /** Every block holding a byte of [off, off + n) is mapped. */
  ghost predicate Covered(g: Fs, i: nat, off: nat, n: nat)
    requires i < |g.ino| && InodeOk(g.ino[i])
  {
    forall p :: off <= p < off + n && p < MAXBYTES ==> Ptr(g.disk, g.ino[i], SlotOf(p / BSIZE)) != 0
  }

  ghost predicate Wrote(f: Fs, g: Fs, sb: Super, own': map<nat, Owner>, i: nat, off: nat, s: seq<byte>) {
    Kept(f, g, sb, i) && FsOk(g, sb, own') && Updated(f, g, i, off, s) && Covered(g, i, off, |s|)
  }

  function Splice(blk: Block, at: nat, s: seq<byte>): (r: Block)
    requires at + |s| <= BSIZE
    ensures forall x :: 0 <= x < BSIZE ==> r[x] == if at <= x < at + |s| then s[x - at] else blk[x]
  {
    blk[..at] + s + blk[at + |s|..]
  }

  lemma ExtendsKept(f: Fs, g: Fs, h: Fs, sb: Super, own: map<nat, Owner>, own': map<nat, Owner>, i: nat)
    requires Kept(f, g, sb, i) && Extends(g, h, sb, own, own', i)
    ensures Kept(f, h, sb, i)
  {
    hide Ptr, LayoutOk, InodeOk;
  }

  lemma StoreKept(f: Fs, g: Fs, sb: Super, own: map<nat, Owner>, i: nat, k: nat, blk: Block)
    requires Kept(f, g, sb, i) && FsOk(g, sb, own) && k < NSLOT && k != NDIRECT && Ptr(g.disk, g.ino[i], k) != 0
    ensures Ptr(g.disk, g.ino[i], k) < |g.disk| && Kept(f, Store(g, Ptr(g.disk, g.ino[i], k), blk), sb, i)
  {
    hide Ptr, BitOf, FsOk;
    StoreKeeps(g, sb, own, i, k, blk);
  }

  /** One turn of writei's loop: the block holding byte off + |s| is mapped, and the bytes t that
      fit in it are copied in. */
  ghost predicate Turn(off: nat, s: seq<byte>, t: seq<byte>) {
    off + |s| + |t| <= MAXBYTES && 0 < |t| && (off + |s|) % BSIZE + |t| <= BSIZE
  }

  lemma TurnBytes(f: Fs, g: Fs, h: Fs, sb: Super, own: map<nat, Owner>, i: nat, off: nat, s: seq<byte>, t: seq<byte>)
    requires SizesOk(f, sb) && SizesOk(g, sb) && SizesOk(h, sb) && FsOk(h, sb, own) && i < |f.ino|
    requires Turn(off, s, t) && Updated(f, g, i, off, s)
    requires forall j :: 0 <= j < |f.ino| ==> SameBytes(g, h, j)
    requires Ptr(h.disk, h.ino[i], SlotOf((off + |s|) / BSIZE)) != 0
    ensures Ptr(h.disk, h.ino[i], SlotOf((off + |s|) / BSIZE)) < |h.disk|
    ensures var b := Ptr(h.disk, h.ino[i], SlotOf((off + |s|) / BSIZE));
            Updated(f, Store(h, b, Splice(h.disk[b], (off + |s|) % BSIZE, t)), i, off, s + t)
  {
    hide Ptr, BitOf, FsOk, Splice;
    var bn := (off + |s|) / BSIZE;
    StoreByte(h, sb, own, i, bn, h.disk[0], i, off);
    var b := Ptr(h.disk, h.ino[i], SlotOf(bn));
    var blk := Splice(h.disk[b], (off + |s|) % BSIZE, t);
    var r := Store(h, b, blk);
    forall j, p | 0 <= j < |f.ino| && 0 <= p < MAXBYTES
      ensures ByteAt(r, j, p) == if j == i && off <= p < off + |s + t| then (s + t)[p - off] else ByteAt(f, j, p)
    {
      StoreByte(h, sb, own, i, bn, blk, j, p);
      assert SameBytes(g, h, j);
      if j == i && p / BSIZE == bn {
        assert ByteAt(h, i, p) == h.disk[b][p % BSIZE];
        assert p == bn * BSIZE + p % BSIZE && off + |s| == bn * BSIZE + (off + |s|) % BSIZE;
      }
    }
  }

  lemma TurnCovers(g: Fs, h: Fs, r: Fs, sb: Super, i: nat, off: nat, s: seq<byte>, t: seq<byte>)
    requires SizesOk(g, sb) && SizesOk(h, sb) && SizesOk(r, sb) && i < |g.ino| && Turn(off, s, t)
    requires Covered(g, i, off, |s|)
    requires Ptr(h.disk, h.ino[i], SlotOf((off + |s|) / BSIZE)) != 0
    requires forall k :: 0 <= k < NSLOT && Ptr(g.disk, g.ino[i], k) != 0 ==> Ptr(h.disk, h.ino[i], k) != 0
    requires forall k :: 0 <= k < NSLOT ==> Ptr(r.disk, r.ino[i], k) == Ptr(h.disk, h.ino[i], k)
    ensures Covered(r, i, off, |s + t|)
  {
    hide Ptr, LayoutOk, InodeOk;
    forall p | off <= p < off + |s + t| && p < MAXBYTES
      ensures Ptr(r.disk, r.ino[i], SlotOf(p / BSIZE)) != 0
    {
      if p >= off + |s| {
        assert p / BSIZE == (off + |s|) / BSIZE;
      }
    }
  }

  lemma WriteTurn(f: Fs, g: Fs, h: Fs, sb: Super, own: map<nat, Owner>, own': map<nat, Owner>, i: nat, off: nat,
                  s: seq<byte>, t: seq<byte>, b: nat)
    requires SizesOk(g, sb) && SizesOk(h, sb) && i < sb.ninodes
    requires Wrote(f, g, sb, own, i, off, s) && Turn(off, s, t)
    requires Mapped(g, h, sb, own, own', i, SlotOf((off + |s|) / BSIZE), b)
    ensures b < |h.disk| && Wrote(f, Store(h, b, Splice(h.disk[b], (off + |s|) % BSIZE, t)), sb, own', i, off, s + t)
  {
    hide FsOk, Extends, Ptr, BitOf, Splice, ByteAt, Updated, Kept, Covered;
    var k := SlotOf((off + |s|) / BSIZE);
    assert SizesOk(f, sb) && |f.ino| == sb.ninodes by { KeptSizes(f, g, sb, i); }
    ExtendsBytes(g, h, sb, own, own', i);
    TurnBytes(f, g, h, sb, own', i, off, s, t);
    var blk := Splice(h.disk[b], (off + |s|) % BSIZE, t);
    ExtendsKept(f, g, h, sb, own, own', i);
    StoreKept(f, h, sb, own', i, k, blk);
    StoreKeeps(h, sb, own', i, k, blk);
    ExtendsPtrs(g, h, sb, own, own', i);
    TurnCovers(g, h, Store(h, b, blk), sb, i, off, s, t);
  }

  lemma KeptSizes(f: Fs, g: Fs, sb: Super, i: nat)
    requires Kept(f, g, sb, i)
    ensures SizesOk(f, sb) && SizesOk(g, sb) && i < sb.ninodes
  {
  }

  lemma ExtendsPtrs(g: Fs, h: Fs, sb: Super, own: map<nat, Owner>, own': map<nat, Owner>, i: nat)
    requires SizesOk(g, sb) && SizesOk(h, sb) && i < sb.ninodes && Extends(g, h, sb, own, own', i)
    ensures forall k :: 0 <= k < NSLOT && Ptr(g.disk, g.ino[i], k) != 0 ==> Ptr(h.disk, h.ino[i], k) != 0
  {
    hide Ptr, LayoutOk, InodeOk;
  }
}

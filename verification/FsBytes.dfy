/** File contents (xv6/fs.c): the bytes of an inode across the direct and indirect blocks, and what
    allocating and storing blocks does to them. */
module FsBytes {
  import opened Numbers
  import opened Blocks
  import opened FsModel
  import opened FsInode
  import opened FsFile

  const MAXBYTES := 71680 // MAXFILE * BSIZE

  /** Byte p of inode i; a block that was never allocated reads as zeros. */
  function ByteAt(f: Fs, i: nat, p: nat): byte
    requires i < |f.ino| && InodeOk(f.ino[i]) && p < MAXBYTES
  {
    var b := Ptr(f.disk, f.ino[i], SlotOf(p / BSIZE));
    if b == 0 || b >= |f.disk| then 0 else f.disk[b][p % BSIZE]
  }

  /** The flat byte sequence an inode stands for. */
  function Content(f: Fs, i: nat): (c: seq<byte>)
    requires i < |f.ino| && InodeOk(f.ino[i]) && f.ino[i].size <= MAXBYTES
    ensures |c| == f.ino[i].size
  {
    seq(f.ino[i].size, p requires 0 <= p < f.ino[i].size => ByteAt(f, i, p))
  }

  /** Every block below the size is mapped. */
  predicate NoHoles(f: Fs, i: nat)
    requires i < |f.ino| && InodeOk(f.ino[i])
  {
    f.ino[i].size <= MAXBYTES &&
    forall bn :: 0 <= bn < MAXFILE && bn * BSIZE < f.ino[i].size ==> Ptr(f.disk, f.ino[i], SlotOf(bn)) != 0
  }

  // ------------------------------------------------------------------------------------
  // Allocation changes no byte
  // ------------------------------------------------------------------------------------

  lemma SlotUnique(a: nat, b: nat)
    requires a < MAXFILE && b < MAXFILE && SlotOf(a) == SlotOf(b)
    ensures a == b
  {
  }

  lemma ExtendsByte(f: Fs, g: Fs, sb: Super, own: map<nat, Owner>, own': map<nat, Owner>, i: nat, j: nat, p: nat)
    requires SizesOk(f, sb) && SizesOk(g, sb) && FsOk(f, sb, own) && FsOk(g, sb, own')
    requires Extends(f, g, sb, own, own', i) && j < |f.ino| && p < MAXBYTES
    ensures ByteAt(g, j, p) == ByteAt(f, j, p)
  {
    hide Ptr, BitOf, BitsExact;
    var k := SlotOf(p / BSIZE);
    var b, c := Ptr(f.disk, f.ino[j], k), Ptr(g.disk, g.ino[j], k);
    if j != i || b != 0 {
      assert b == c;
      assert b != 0 ==> b in own && own[b] == (j, k);
    } else if c != 0 {
      assert c in own' && own'[c] == (i, k);
      assert c !in own;
    }
  }

  /** Bytes of inode j are the same in f and g. */
  ghost predicate SameBytes(f: Fs, g: Fs, j: nat)
    requires j < |f.ino| && j < |g.ino| && InodeOk(f.ino[j]) && InodeOk(g.ino[j])
  {
    forall p :: 0 <= p < MAXBYTES ==> ByteAt(g, j, p) == ByteAt(f, j, p)
  }

  lemma ExtendsBytes(f: Fs, g: Fs, sb: Super, own: map<nat, Owner>, own': map<nat, Owner>, i: nat)
    requires SizesOk(f, sb) && SizesOk(g, sb) && FsOk(f, sb, own) && FsOk(g, sb, own')
    requires Extends(f, g, sb, own, own', i)
    ensures forall j :: 0 <= j < |f.ino| ==> SameBytes(f, g, j)
  {
    hide ByteAt, FsOk, Extends;
    forall j, p | 0 <= j < |f.ino| && 0 <= p < MAXBYTES
      ensures ByteAt(g, j, p) == ByteAt(f, j, p)
    {
      ExtendsByte(f, g, sb, own, own', i, j, p);
    }
  }

  // ------------------------------------------------------------------------------------
  // Storing one data block
  // ------------------------------------------------------------------------------------

  function Store(f: Fs, b: nat, blk: Block): Fs
    requires b < |f.disk|
  {
    f.(disk := f.disk[b := blk])
  }

  /** Storing a data block changes no pointer and no bit. */
  lemma StoreKeeps(f: Fs, sb: Super, own: map<nat, Owner>, i: nat, k: nat, blk: Block)
    requires SizesOk(f, sb) && FsOk(f, sb, own) && i < |f.ino| && k < NSLOT && k != NDIRECT
    requires Ptr(f.disk, f.ino[i], k) != 0
    ensures sb.data <= Ptr(f.disk, f.ino[i], k) < |f.disk|
    ensures var g := Store(f, Ptr(f.disk, f.ino[i], k), blk);
            && SizesOk(g, sb) && FsOk(g, sb, own)
            && forall j, l :: 0 <= j < |f.ino| && 0 <= l < NSLOT ==>
                 Ptr(g.disk, f.ino[j], l) == Ptr(f.disk, f.ino[j], l)
  {
    var b := Ptr(f.disk, f.ino[i], k);
    hide Ptr, BitOf;
    assert own[b] == (i, k) && sb.data <= b < sb.size;
    var g := Store(f, b, blk);
    PtrsKept(f, g.disk, sb, own);
    EntryBits(f, g, sb, own, b, b);
  }

  lemma StoreByte(f: Fs, sb: Super, own: map<nat, Owner>, i: nat, bn: nat, blk: Block, j: nat, p: nat)
    requires SizesOk(f, sb) && FsOk(f, sb, own) && i < |f.ino| && bn < MAXFILE && j < |f.ino| && p < MAXBYTES
    requires Ptr(f.disk, f.ino[i], SlotOf(bn)) != 0
    ensures Ptr(f.disk, f.ino[i], SlotOf(bn)) < |f.disk|
    ensures var g := Store(f, Ptr(f.disk, f.ino[i], SlotOf(bn)), blk);
            ByteAt(g, j, p) == if j == i && p / BSIZE == bn then blk[p % BSIZE] else ByteAt(f, j, p)
  {
    hide Ptr, BitOf;
    StoreKeeps(f, sb, own, i, SlotOf(bn), blk);
    var k := SlotOf(p / BSIZE);
    if Ptr(f.disk, f.ino[j], k) == Ptr(f.disk, f.ino[i], SlotOf(bn)) {
      OneOwner(f, sb, own, j, k, i, SlotOf(bn));
      SlotUnique(p / BSIZE, bn);
    }
  }
}

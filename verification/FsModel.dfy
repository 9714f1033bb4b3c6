/** The file system above the log (xv6/fs.c): bitmap, inodes and block maps over the blocks as
    readers see them, and the ownership of every block. */
module FsModel {
  import opened Blocks

  const NDIRECT := 12
  const NINDIRECT := 128
  const MAXFILE := 140
  const IPB := 8

  /** The superblock fields the layer uses; blocks below data are boot, super, log, inode and
      bitmap blocks. */
  datatype Super = Super(size: nat, ninodes: nat, inodestart: nat, bmapstart: nat, data: nat)

  /** An inode: the fields shared by struct inode and struct dinode. typ, major, minor and nlink
      are 16-bit fields. */
  datatype Inode = Inode(typ: nat, major: nat, minor: nat, nlink: nat, size: uint, addrs: seq<uint>)

  /** The blocks and the in-memory inodes. */
  datatype Fs = Fs(disk: seq<Block>, ino: seq<Inode>)

  predicate LayoutOk(sb: Super) {
    && 0 < sb.ninodes && sb.data <= sb.size <= UINT_MAX
    && sb.inodestart + (sb.ninodes - 1) / IPB < sb.bmapstart
    && sb.bmapstart + sb.size / BPB < sb.data
  }

  predicate InodeOk(i: Inode) {
    && i.typ < 0x10000 && i.major < 0x10000 && i.minor < 0x10000 && i.nlink < 0x10000
    && |i.addrs| == NDIRECT + 1
  }

  predicate SizesOk(f: Fs, sb: Super) {
    && LayoutOk(sb) && |f.disk| == sb.size && |f.ino| == sb.ninodes
    && forall i :: 0 <= i < |f.ino| ==> InodeOk(f.ino[i])
  }

  // ------------------------------------------------------------------------------------
  // Block pointers
  // ------------------------------------------------------------------------------------

  /** A place that can hold a block number: slot 0 to 11 of ip->addrs, slot 12 for the indirect
      block, and 13 to 140 for the entries of the indirect block. */
  const NSLOT := 141

  function SlotOf(bn: nat): (k: nat)
    requires bn < MAXFILE
    ensures k < NSLOT && k != NDIRECT
  {
    if bn < NDIRECT then bn else bn + 1
  }

  function Ptr(disk: seq<Block>, i: Inode, k: nat): uint
    requires InodeOk(i) && k < NSLOT
  {
    if k <= NDIRECT then i.addrs[k]
    else if i.addrs[NDIRECT] == 0 || i.addrs[NDIRECT] >= |disk| then 0
    else Word(disk[i.addrs[NDIRECT]], k - NDIRECT - 1)
  }

  predicate BitOf(disk: seq<Block>, sb: Super, b: nat)
    requires LayoutOk(sb) && |disk| == sb.size && b < sb.size
  {
    Bit(disk[sb.bmapstart + b / BPB], b % BPB)
  }

  /** A block's owner: an inode and a slot. */
  type Owner = (nat, nat)

  /** Every pointer names the block it owns. */
  ghost predicate PtrsOwned(f: Fs, sb: Super, own: map<nat, Owner>)
    requires SizesOk(f, sb)
  {
    forall i, k :: 0 <= i < |f.ino| && 0 <= k < NSLOT && Ptr(f.disk, f.ino[i], k) != 0 ==>
      Ptr(f.disk, f.ino[i], k) in own && own[Ptr(f.disk, f.ino[i], k)] == (i, k)
  }

  /** Every owned block is a data block and its owner's pointer. */
  ghost predicate OwnersPoint(f: Fs, sb: Super, own: map<nat, Owner>)
    requires SizesOk(f, sb)
  {
    forall b :: b in own ==>
      && sb.data <= b < sb.size && own[b].0 < |f.ino| && own[b].1 < NSLOT
      && Ptr(f.disk, f.ino[own[b].0], own[b].1) == b
  }

  /** The bitmap marks exactly the metadata and the owned blocks. */
  ghost predicate BitsExact(f: Fs, sb: Super, own: map<nat, Owner>)
    requires SizesOk(f, sb)
  {
    forall b :: 0 <= b < sb.size ==> (BitOf(f.disk, sb, b) <==> b < sb.data || b in own)
  }

  ghost predicate FsOk(f: Fs, sb: Super, own: map<nat, Owner>) {
    SizesOk(f, sb) && PtrsOwned(f, sb, own) && OwnersPoint(f, sb, own) && BitsExact(f, sb, own)
  }

  /** No block has two owners. */
  lemma OneOwner(f: Fs, sb: Super, own: map<nat, Owner>, i: nat, k: nat, j: nat, l: nat)
    requires FsOk(f, sb, own) && i < |f.ino| && j < |f.ino| && k < NSLOT && l < NSLOT
    requires Ptr(f.disk, f.ino[i], k) == Ptr(f.disk, f.ino[j], l) != 0
    ensures i == j && k == l
  {
    assert own[Ptr(f.disk, f.ino[i], k)] == (i, k) == (j, l);
  }

  // ------------------------------------------------------------------------------------
  // Changes that keep the pointers
  // ------------------------------------------------------------------------------------

  /** The block is the indirect block of some inode. */
  ghost predicate IsIndirect(own: map<nat, Owner>, b: nat) {
    b in own && own[b].1 == NDIRECT
  }

  /** Pointers depend on the disk only through indirect blocks. */
  lemma PtrSame(f: Fs, d: seq<Block>, sb: Super, own: map<nat, Owner>, i: nat, k: nat)
    requires SizesOk(f, sb) && PtrsOwned(f, sb, own) && OwnersPoint(f, sb, own) && |d| == |f.disk|
    requires i < |f.ino| && k < NSLOT
    requires forall b :: 0 <= b < |d| && IsIndirect(own, b) ==> d[b] == f.disk[b]
    ensures Ptr(d, f.ino[i], k) == Ptr(f.disk, f.ino[i], k)
  {
    var ind := f.ino[i].addrs[NDIRECT];
    if k > NDIRECT && ind != 0 {
      assert Ptr(f.disk, f.ino[i], NDIRECT) == ind;
      assert IsIndirect(own, ind);
    }
  }

  lemma PtrsKept(f: Fs, d: seq<Block>, sb: Super, own: map<nat, Owner>)
    requires SizesOk(f, sb) && PtrsOwned(f, sb, own) && OwnersPoint(f, sb, own) && |d| == |f.disk|
    requires forall b :: 0 <= b < |d| && IsIndirect(own, b) ==> d[b] == f.disk[b]
    ensures SizesOk(f.(disk := d), sb) && PtrsOwned(f.(disk := d), sb, own) && OwnersPoint(f.(disk := d), sb, own)
    ensures forall i, k :: 0 <= i < |f.ino| && 0 <= k < NSLOT ==> Ptr(d, f.ino[i], k) == Ptr(f.disk, f.ino[i], k)
  {
    forall i, k | 0 <= i < |f.ino| && 0 <= k < NSLOT
      ensures Ptr(d, f.ino[i], k) == Ptr(f.disk, f.ino[i], k)
    {
      PtrSame(f, d, sb, own, i, k);
    }
    hide Ptr, LayoutOk, InodeOk;
  }

  function BitmapBlock(sb: Super, b: nat): nat {
    sb.bmapstart + b / BPB
  }

  /** Set or clear the bit of block b. */
  function PutBit(disk: seq<Block>, sb: Super, b: nat, on: bool): (d: seq<Block>)
    requires LayoutOk(sb) && |disk| == sb.size && b < sb.size
    ensures |d| == |disk|
  {
    disk[BitmapBlock(sb, b) := SetBit(disk[BitmapBlock(sb, b)], b % BPB, on)]
  }

  lemma PutBitIs(disk: seq<Block>, sb: Super, b: nat, on: bool)
    requires LayoutOk(sb) && |disk| == sb.size && b < sb.size
    ensures var d := PutBit(disk, sb, b, on);
            && (forall x :: 0 <= x < |d| && x != BitmapBlock(sb, b) ==> d[x] == disk[x])
            && (forall x :: 0 <= x < sb.size ==> BitOf(d, sb, x) == if x == b then on else BitOf(disk, sb, x))
  {
    var d := PutBit(disk, sb, b, on);
    hide SetBit, Bit;
    forall x | 0 <= x < sb.size
      ensures BitOf(d, sb, x) == if x == b then on else BitOf(disk, sb, x)
    {
      if BitmapBlock(sb, x) == BitmapBlock(sb, b) {
        SetBitIs(disk[BitmapBlock(sb, b)], b % BPB, on, x % BPB);
        assert x % BPB == b % BPB ==> x == b;
      }
    }
  }

  /** balloc's effect once it has found block b: its bit is set and its contents are zero. */
  function AllocDisk(disk: seq<Block>, sb: Super, b: nat): (d: seq<Block>)
    requires LayoutOk(sb) && |disk| == sb.size && b < sb.size
    ensures |d| == |disk|
  {
    PutBit(disk, sb, b, true)[b := ZeroBlock()]
  }

  /** As BitsExact, but block b is marked and has no owner. */
  ghost predicate BitsBut(f: Fs, sb: Super, own: map<nat, Owner>, b: nat)
    requires SizesOk(f, sb)
  {
    forall x :: 0 <= x < sb.size ==> (BitOf(f.disk, sb, x) <==> x < sb.data || x in own || x == b)
  }

  lemma AllocBits(f: Fs, sb: Super, own: map<nat, Owner>, b: nat)
    requires SizesOk(f, sb) && BitsExact(f, sb, own) && b < sb.size && !BitOf(f.disk, sb, b)
    ensures var g := f.(disk := AllocDisk(f.disk, sb, b));
            SizesOk(g, sb) && BitsBut(g, sb, own, b)
    ensures sb.data <= b && b !in own
  {
    hide Bit;
    PutBitIs(f.disk, sb, b, true);
    var d := PutBit(f.disk, sb, b, true);
    var e := d[b := ZeroBlock()];
    assert sb.data <= b;
    forall x | 0 <= x < sb.size
      ensures BitOf(e, sb, x) == BitOf(d, sb, x)
    {
      assert BitmapBlock(sb, x) < sb.data;
    }
  }

  /** balloc keeps every pointer and marks one unowned block. */
  lemma AllocKeeps(f: Fs, sb: Super, own: map<nat, Owner>, b: nat)
    requires FsOk(f, sb, own) && b < sb.size && !BitOf(f.disk, sb, b)
    ensures sb.data <= b && b !in own
    ensures var g := f.(disk := AllocDisk(f.disk, sb, b));
            && SizesOk(g, sb) && PtrsOwned(g, sb, own) && OwnersPoint(g, sb, own) && BitsBut(g, sb, own, b)
            && g.disk[b] == ZeroBlock()
            && (forall x :: 0 <= x < |f.disk| && x != b && x != BitmapBlock(sb, b) ==> g.disk[x] == f.disk[x])
            && (forall i, k :: 0 <= i < |f.ino| && 0 <= k < NSLOT ==>
                  Ptr(g.disk, f.ino[i], k) == Ptr(f.disk, f.ino[i], k))
  {
    hide Ptr, BitOf;
    AllocBits(f, sb, own, b);
    PutBitIs(f.disk, sb, b, true);
    PtrsKept(f, AllocDisk(f.disk, sb, b), sb, own);
  }

  // ------------------------------------------------------------------------------------
  // Storing a new pointer
  // ------------------------------------------------------------------------------------

  function WithAddr(i: Inode, k: nat, b: uint): Inode
    requires k < |i.addrs|
  {
    i.(addrs := i.addrs[k := b])
  }

  function SetAddr(f: Fs, i: nat, k: nat, b: uint): Fs
    requires i < |f.ino| && k < |f.ino[i].addrs|
  {
    Fs(f.disk, f.ino[i := WithAddr(f.ino[i], k, b)])
  }

  function SetEntry(f: Fs, i: nat, j: nat, b: uint): Fs
    requires i < |f.ino| && InodeOk(f.ino[i]) && j < NINDIRECT && f.ino[i].addrs[NDIRECT] < |f.disk|
  {
    var ind := f.ino[i].addrs[NDIRECT];
    f.(disk := f.disk[ind := SetWord(f.disk[ind], j, b)])
  }

  /** g has pointer b in slot k of inode i, and f's pointers everywhere else. */
  ghost predicate OnePtr(f: Fs, g: Fs, i: nat, k: nat, b: nat) {
    && |g.disk| == |f.disk| && |g.ino| == |f.ino|
    && (forall j :: 0 <= j < |f.ino| ==> InodeOk(f.ino[j]) && InodeOk(g.ino[j]))
    && forall j, l :: 0 <= j < |f.ino| && 0 <= l < NSLOT ==>
         Ptr(g.disk, g.ino[j], l) == if j == i && l == k then b else Ptr(f.disk, f.ino[j], l)
  }

  lemma OnePtrOwned(f: Fs, g: Fs, sb: Super, own: map<nat, Owner>, i: nat, k: nat, b: nat)
    requires SizesOk(f, sb) && PtrsOwned(f, sb, own) && OwnersPoint(f, sb, own) && SizesOk(g, sb)
    requires OnePtr(f, g, i, k, b) && i < |f.ino| && k < NSLOT && Ptr(f.disk, f.ino[i], k) == 0
    requires sb.data <= b < sb.size && b !in own && b != 0
    ensures PtrsOwned(g, sb, own[b := (i, k)]) && OwnersPoint(g, sb, own[b := (i, k)])
  {
    assert sb.data > 0;
    hide Ptr, LayoutOk, InodeOk;
  }

  lemma SetAddrPtr(f: Fs, sb: Super, own: map<nat, Owner>, i: nat, k: nat, b: nat)
    requires SizesOk(f, sb) && OwnersPoint(f, sb, own) && i < |f.ino| && k <= NDIRECT && f.ino[i].addrs[k] == 0
    requires 0 < b < sb.size && f.disk[b] == ZeroBlock()
    ensures OnePtr(f, SetAddr(f, i, k, b), i, k, b) && SizesOk(SetAddr(f, i, k, b), sb)
  {
    var g := SetAddr(f, i, k, b);
    assert forall j :: 0 <= j < NINDIRECT ==> Word(ZeroBlock(), j) == 0;
    forall j, l | 0 <= j < |f.ino| && 0 <= l < NSLOT
      ensures Ptr(g.disk, g.ino[j], l) == if j == i && l == k then b else Ptr(f.disk, f.ino[j], l)
    {
    }
  }

  lemma SetEntryPtr(f: Fs, sb: Super, own: map<nat, Owner>, i: nat, j: nat, b: nat)
    requires SizesOk(f, sb) && PtrsOwned(f, sb, own) && OwnersPoint(f, sb, own) && i < |f.ino| && j < NINDIRECT
    requires f.ino[i].addrs[NDIRECT] != 0 && b < sb.size
    ensures f.ino[i].addrs[NDIRECT] < |f.disk|
    ensures OnePtr(f, SetEntry(f, i, j, b), i, NDIRECT + 1 + j, b) && SizesOk(SetEntry(f, i, j, b), sb)
  {
    var ind := f.ino[i].addrs[NDIRECT];
    assert Ptr(f.disk, f.ino[i], NDIRECT) == ind && own[ind] == (i, NDIRECT);
    var g := SetEntry(f, i, j, b);
    forall m, l | 0 <= m < |f.ino| && 0 <= l < NSLOT
      ensures Ptr(g.disk, g.ino[m], l) == if m == i && l == NDIRECT + 1 + j then b else Ptr(f.disk, f.ino[m], l)
    {
      if m != i {
        assert f.ino[m].addrs[NDIRECT] != 0 ==> Ptr(f.disk, f.ino[m], NDIRECT) != ind;
      }
    }
  }

  // ------------------------------------------------------------------------------------
  // bmap
  // ------------------------------------------------------------------------------------

  /** What bmap does when slot k of inode i is empty: it takes block b from the free map, zeroes
      it and stores its number. */
  ghost predicate Allocated(f: Fs, g: Fs, sb: Super, own: map<nat, Owner>, i: nat, k: nat, b: nat) {
    && b !in own && FsOk(g, sb, own[b := (i, k)]) && OnePtr(f, g, i, k, b)
    && b < |g.disk| && g.disk[b] == ZeroBlock()
    && (forall j :: 0 <= j < |f.ino| && j != i ==> g.ino[j] == f.ino[j])
    && (i < |f.ino| ==> g.ino[i] == f.ino[i].(addrs := g.ino[i].addrs))
    && (forall x :: 0 <= x < |f.disk| && x != b && x != BitmapBlock(sb, b) && !(x in own && own[x] == (i, NDIRECT)) ==>
          g.disk[x] == f.disk[x])
  }

  /** A file system with one block marked and zeroed for a new pointer. */
  ghost predicate Marked(h: Fs, sb: Super, own: map<nat, Owner>, b: nat) {
    && SizesOk(h, sb) && PtrsOwned(h, sb, own) && OwnersPoint(h, sb, own) && BitsBut(h, sb, own, b)
    && 0 < sb.data <= b < sb.size && b !in own && h.disk[b] == ZeroBlock()
  }

  lemma StoreAddr(h: Fs, sb: Super, own: map<nat, Owner>, i: nat, k: nat, b: nat)
    requires Marked(h, sb, own, b) && i < |h.ino| && k <= NDIRECT && h.ino[i].addrs[k] == 0
    ensures OnePtr(h, SetAddr(h, i, k, b), i, k, b) && FsOk(SetAddr(h, i, k, b), sb, own[b := (i, k)])
  {
    assert Ptr(h.disk, h.ino[i], k) == 0;
    hide Ptr, BitOf, PtrsOwned, OwnersPoint, BitsBut, BitsExact;
    var g := SetAddr(h, i, k, b);
    SetAddrPtr(h, sb, own, i, k, b);
    OnePtrOwned(h, g, sb, own, i, k, b);
    EntryExact(h, g, sb, own, i, k, b);
  }

  lemma StoreEntry(h: Fs, sb: Super, own: map<nat, Owner>, i: nat, j: nat, b: nat)
    requires Marked(h, sb, own, b) && i < |h.ino| && j < NINDIRECT && h.ino[i].addrs[NDIRECT] != 0
    requires Ptr(h.disk, h.ino[i], NDIRECT + 1 + j) == 0
    ensures var ind := h.ino[i].addrs[NDIRECT]; ind in own && own[ind] == (i, NDIRECT) && ind < |h.disk|
    ensures var g, k := SetEntry(h, i, j, b), NDIRECT + 1 + j;
            OnePtr(h, g, i, k, b) && FsOk(g, sb, own[b := (i, k)])
  {
    var ind := h.ino[i].addrs[NDIRECT];
    assert Ptr(h.disk, h.ino[i], NDIRECT) == ind;
    assert ind in own && own[ind] == (i, NDIRECT) && sb.data <= ind < sb.size;
    hide Ptr, BitOf, PtrsOwned, OwnersPoint, BitsBut, BitsExact, SetWord;
    SetEntryPtr(h, sb, own, i, j, b);
    var g := SetEntry(h, i, j, b);
    EntryBits(h, g, sb, own, ind, b);
    OnePtrOwned(h, g, sb, own, i, NDIRECT + 1 + j, b);
    EntryExact(h, g, sb, own, i, NDIRECT + 1 + j, b);
  }

  lemma AllocMarks(f: Fs, sb: Super, own: map<nat, Owner>, b: nat)
    requires FsOk(f, sb, own) && b < sb.size && !BitOf(f.disk, sb, b)
    ensures var h := f.(disk := AllocDisk(f.disk, sb, b));
            && Marked(h, sb, own, b) && |h.disk| == |f.disk|
            && (forall x :: 0 <= x < |f.disk| && x != b && x != BitmapBlock(sb, b) ==> h.disk[x] == f.disk[x])
            && (forall i, k :: 0 <= i < |f.ino| && 0 <= k < NSLOT ==>
                  Ptr(h.disk, f.ino[i], k) == Ptr(f.disk, f.ino[i], k))
  {
    hide Ptr, BitOf, PtrsOwned, OwnersPoint, BitsBut, BitsExact;
    AllocKeeps(f, sb, own, b);
  }

  lemma AllocAddr(f: Fs, sb: Super, own: map<nat, Owner>, i: nat, k: nat, b: nat)
    requires FsOk(f, sb, own) && i < |f.ino| && k <= NDIRECT && f.ino[i].addrs[k] == 0
    requires b < sb.size && !BitOf(f.disk, sb, b)
    ensures Allocated(f, SetAddr(f.(disk := AllocDisk(f.disk, sb, b)), i, k, b), sb, own, i, k, b)
  {
    hide Ptr, BitOf, PtrsOwned, OwnersPoint, BitsBut, BitsExact, AllocDisk;
    AllocMarks(f, sb, own, b);
    var h := f.(disk := AllocDisk(f.disk, sb, b));
    StoreAddr(h, sb, own, i, k, b);
  }

  lemma AllocEntry(f: Fs, sb: Super, own: map<nat, Owner>, i: nat, j: nat, b: nat)
    requires FsOk(f, sb, own) && i < |f.ino| && j < NINDIRECT && f.ino[i].addrs[NDIRECT] != 0
    requires Ptr(f.disk, f.ino[i], NDIRECT + 1 + j) == 0
    requires b < sb.size && !BitOf(f.disk, sb, b)
    ensures f.ino[i].addrs[NDIRECT] < |f.disk|
    ensures var h := f.(disk := AllocDisk(f.disk, sb, b));
            Allocated(f, SetEntry(h, i, j, b), sb, own, i, NDIRECT + 1 + j, b)
  {
    hide Ptr, BitOf, PtrsOwned, OwnersPoint, BitsBut, BitsExact, AllocDisk, SetWord;
    AllocMarks(f, sb, own, b);
    var h := f.(disk := AllocDisk(f.disk, sb, b));
    StoreEntry(h, sb, own, i, j, b);
  }

  lemma EntryExact(h: Fs, g: Fs, sb: Super, own: map<nat, Owner>, i: nat, k: nat, b: nat)
    requires SizesOk(h, sb) && SizesOk(g, sb) && BitsBut(h, sb, own, b)
    requires forall x :: 0 <= x < sb.size ==> BitOf(g.disk, sb, x) == BitOf(h.disk, sb, x)
    ensures BitsExact(g, sb, own[b := (i, k)])
  {
    hide BitOf, LayoutOk, InodeOk;
  }

  lemma IndirectOwned(f: Fs, sb: Super, own: map<nat, Owner>, i: nat)
    requires FsOk(f, sb, own) && i < |f.ino| && f.ino[i].addrs[NDIRECT] != 0
    ensures var ind := f.ino[i].addrs[NDIRECT];
            ind in own && own[ind] == (i, NDIRECT) && sb.data <= ind < sb.size
  {
    assert Ptr(f.disk, f.ino[i], NDIRECT) == f.ino[i].addrs[NDIRECT];
  }

  /** Storing into a data block leaves the bitmap alone. */
  lemma EntryBits(h: Fs, g: Fs, sb: Super, own: map<nat, Owner>, ind: nat, b: nat)
    requires SizesOk(h, sb) && SizesOk(g, sb) && sb.data <= ind < sb.size
    requires forall x :: 0 <= x < |h.disk| && x != ind ==> g.disk[x] == h.disk[x]
    ensures forall x :: 0 <= x < sb.size ==> BitOf(g.disk, sb, x) == BitOf(h.disk, sb, x)
  {
    forall x | 0 <= x < sb.size
      ensures BitOf(g.disk, sb, x) == BitOf(h.disk, sb, x)
    {
      assert BitmapBlock(sb, x) < sb.data;
    }
  }
}

/** On-disk inodes (xv6/fs.c, xv6/fs.h): their layout in inode blocks, ilock and iupdate. */
module FsInode {
  import opened Blocks
  import opened FsModel

  /** The first word of inode slot s of a block: a dinode is 64 bytes. */
  function BaseWord(s: nat): nat {
    16 * s
  }

  /** ilock's copy of dinode slot s. */
  function Decode(b: Block, s: nat): (i: Inode)
    requires s < IPB
    ensures InodeOk(i)
  {
    var w := BaseWord(s);
    Inode(Word(b, w) % 0x10000, Word(b, w) / 0x10000, Word(b, w + 1) % 0x10000, Word(b, w + 1) / 0x10000,
          Word(b, w + 2), seq<uint>(NDIRECT + 1, j requires 0 <= j <= NDIRECT => Word(b, w + 3 + j)))
  }

  function PutAddrs(b: Block, w: nat, addrs: seq<uint>, n: nat): (r: Block)
    requires n <= |addrs| && w + n <= WORDS
    ensures forall j :: 0 <= j < WORDS ==> Word(r, j) == if w <= j < w + n then addrs[j - w] else Word(b, j)
  {
    if n == 0 then b else SetWord(PutAddrs(b, w, addrs, n - 1), w + n - 1, addrs[n - 1])
  }

  /** iupdate's stores into dinode slot s. */
  function Encode(b: Block, s: nat, i: Inode): (r: Block)
    requires s < IPB && InodeOk(i)
  {
    var w := BaseWord(s);
    var r0 := SetWord(b, w, i.typ + 0x10000 * i.major);
    var r1 := SetWord(r0, w + 1, i.minor + 0x10000 * i.nlink);
    var r2 := SetWord(r1, w + 2, i.size);
    PutAddrs(r2, w + 3, i.addrs, NDIRECT + 1)
  }

  function Short(b: Block, at: nat): nat
    requires at + 2 <= BSIZE
  {
    var b0: int, b1: int := b[at], b[at + 1];
    b0 + 0x100 * b1
  }

  /** Where the fields of dinode s lie: four 16-bit fields, then the size and the block numbers. */
  lemma Layout(b: Block, s: nat, j: nat)
    requires s < IPB && j <= NDIRECT
    ensures var i, at := Decode(b, s), 64 * s;
            && i.typ == Short(b, at) && i.major == Short(b, at + 2) && i.minor == Short(b, at + 4)
            && i.nlink == Short(b, at + 6)
            && i.size == Short(b, at + 8) + 0x10000 * Short(b, at + 10)
            && i.addrs[j] == Short(b, at + 12 + 4 * j) + 0x10000 * Short(b, at + 14 + 4 * j)
  {
    var w := 16 * s + 3 + j;
    assert 4 * w == 64 * s + 12 + 4 * j;
    assert Decode(b, s).addrs[j] == Word(b, w);
  }

  /** Word k of a dinode. */
  function WordOf(i: Inode, k: nat): uint
    requires InodeOk(i) && k < 16
  {
    if k == 0 then i.typ + 0x10000 * i.major
    else if k == 1 then i.minor + 0x10000 * i.nlink
    else if k == 2 then i.size
    else i.addrs[k - 3]
  }

  lemma EncodeWords(b: Block, s: nat, i: Inode)
    requires s < IPB && InodeOk(i)
    ensures var r, w := Encode(b, s, i), BaseWord(s);
            forall j :: 0 <= j < WORDS ==> Word(r, j) == if w <= j < w + 16 then WordOf(i, j - w) else Word(b, j)
  {
    hide Word, PutAddrs;
  }

  /** Round trip, and the other inodes of the block are not touched. */
  lemma DecodeEncode(b: Block, s: nat, i: Inode, t: nat)
    requires s < IPB && t < IPB && InodeOk(i)
    ensures Decode(Encode(b, s, i), t) == if t == s then i else Decode(b, t)
  {
    hide Word, Encode;
    EncodeWords(b, s, i);
    var d := Decode(Encode(b, s, i), t);
    assert forall k :: 0 <= k <= NDIRECT ==> d.addrs[k] == if t == s then i.addrs[k] else Decode(b, t).addrs[k];
  }

  function InodeBlock(sb: Super, i: nat): nat {
    sb.inodestart + i / IPB
  }

  /** The inode as the disk has it. */
  function OnDisk(f: Fs, sb: Super, i: nat): Inode
    requires SizesOk(f, sb) && i < sb.ninodes
  {
    Decode(f.disk[InodeBlock(sb, i)], i % IPB)
  }

  function Iupdate(f: Fs, sb: Super, i: nat): Fs
    requires SizesOk(f, sb) && i < sb.ninodes
  {
    var m := InodeBlock(sb, i);
    f.(disk := f.disk[m := Encode(f.disk[m], i % IPB, f.ino[i])])
  }

  /** The in-memory inode i equals its dinode. */
  ghost predicate WrittenThrough(f: Fs, sb: Super, i: nat)
    requires SizesOk(f, sb) && i < sb.ninodes
  {
    OnDisk(f, sb, i) == f.ino[i]
  }

  lemma MetaBits(f: Fs, g: Fs, sb: Super, m: nat)
    requires SizesOk(f, sb) && SizesOk(g, sb) && m < sb.bmapstart
    requires forall x :: 0 <= x < |f.disk| && x != m ==> g.disk[x] == f.disk[x]
    ensures forall x :: 0 <= x < sb.size ==> BitOf(g.disk, sb, x) == BitOf(f.disk, sb, x)
  {
    hide Bit;
  }

  /** iupdate writes one inode through, and changes no pointer, bit or other inode. */
  lemma IupdateKeeps(f: Fs, sb: Super, own: map<nat, Owner>, i: nat)
    requires FsOk(f, sb, own) && i < sb.ninodes
    ensures var g := Iupdate(f, sb, i);
            && FsOk(g, sb, own) && g.ino == f.ino && WrittenThrough(g, sb, i)
            && (forall j :: 0 <= j < sb.ninodes && j != i ==> OnDisk(g, sb, j) == OnDisk(f, sb, j))
            && (forall x :: 0 <= x < |f.disk| && x >= sb.data ==> g.disk[x] == f.disk[x])
  {
    var g, m := Iupdate(f, sb, i), InodeBlock(sb, i);
    assert m < sb.bmapstart < sb.data;
    hide Bit, Ptr, Word, Encode, Decode;
    PtrsKept(f, g.disk, sb, own);
    MetaBits(f, g, sb, m);
    forall j | 0 <= j < sb.ninodes
      ensures OnDisk(g, sb, j) == if j == i then f.ino[i] else OnDisk(f, sb, j)
    {
      if InodeBlock(sb, j) == m {
        DecodeEncode(f.disk[m], i % IPB, f.ino[i], j % IPB);
      }
    }
    hide BitOf;
  }
}

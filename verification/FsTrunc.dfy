/** bfree and itrunc (xv6/fs.c): truncation gives back exactly the inode's blocks, and never frees
    a block that is free. */
module FsTrunc {
  import opened Blocks
  import opened FsModel
  import opened FsInode
  import opened FsTrace
  import opened FsFile
  import opened FsBytes
  import opened FsWritei

  function FreeDisk(f: Fs, sb: Super, b: nat): (g: Fs)
    requires SizesOk(f, sb) && b < sb.size
    ensures SizesOk(g, sb) && g.ino == f.ino
  {
    f.(disk := PutBit(f.disk, sb, b, false))
  }

  // ------------------------------------------------------------------------------------
  // Dropping one pointer
  // ------------------------------------------------------------------------------------

  /** g has f's bits, but for b, which is free. */
  ghost predicate Freed(f: Fs, g: Fs, sb: Super, b: nat)
    requires SizesOk(f, sb) && SizesOk(g, sb)
  {
    forall x :: 0 <= x < sb.size ==> (BitOf(g.disk, sb, x) <==> x != b && BitOf(f.disk, sb, x))
  }

  lemma DropPtr(f: Fs, g: Fs, sb: Super, own: map<nat, Owner>, i: nat, k: nat, b: nat)
    requires SizesOk(f, sb) && SizesOk(g, sb) && FsOk(f, sb, own) && i < |f.ino| && k < NSLOT
    requires b == Ptr(f.disk, f.ino[i], k) != 0 && OnePtr(f, g, i, k, 0) && Freed(f, g, sb, b)
    ensures FsOk(g, sb, own - {b})
  {
    hide Ptr, BitOf, LayoutOk, InodeOk;
    assert b in own && own[b] == (i, k) && sb.data <= b;
  }

  /** Clearing a bit touches no indirect block. */
  lemma FreePtrs(f: Fs, sb: Super, own: map<nat, Owner>, b: nat)
    requires SizesOk(f, sb) && FsOk(f, sb, own) && b < sb.size
    ensures var g := FreeDisk(f, sb, b);
            && PtrsOwned(g, sb, own) && OwnersPoint(g, sb, own) && Freed(f, g, sb, b)
            && (forall j, k :: 0 <= j < |f.ino| && 0 <= k < NSLOT ==>
                  Ptr(g.disk, f.ino[j], k) == Ptr(f.disk, f.ino[j], k))
            && (forall x :: 0 <= x < |f.disk| && !(sb.bmapstart <= x < sb.data) ==> g.disk[x] == f.disk[x])
  {
    hide Ptr, Bit, SetBit;
    PutBitIs(f.disk, sb, b, false);
    assert BitmapBlock(sb, b) < sb.data;
    PtrsKept(f, PutBit(f.disk, sb, b, false), sb, own);
  }

  lemma ClearAddr(f: Fs, sb: Super, i: nat, k: nat)
    requires SizesOk(f, sb) && i < |f.ino| && k <= NDIRECT
    requires k == NDIRECT ==> forall l :: NDIRECT < l < NSLOT ==> Ptr(f.disk, f.ino[i], l) == 0
    ensures OnePtr(f, SetAddr(f, i, k, 0), i, k, 0) && SizesOk(SetAddr(f, i, k, 0), sb)
  {
  }

  /** Free the block in slot k of ip->addrs and clear the slot. */
  lemma DropAddr(f: Fs, sb: Super, own: map<nat, Owner>, i: nat, k: nat)
    requires SizesOk(f, sb) && FsOk(f, sb, own) && i < |f.ino| && k <= NDIRECT && f.ino[i].addrs[k] != 0
    requires k == NDIRECT ==> forall l :: NDIRECT < l < NSLOT ==> Ptr(f.disk, f.ino[i], l) == 0
    ensures var b := f.ino[i].addrs[k];
            && b in own && own[b] == (i, k) && b < sb.size && BitOf(f.disk, sb, b)
            && SizesOk(SetAddr(FreeDisk(f, sb, b), i, k, 0), sb)
            && FsOk(SetAddr(FreeDisk(f, sb, b), i, k, 0), sb, own - {b})
            && OnePtr(f, SetAddr(FreeDisk(f, sb, b), i, k, 0), i, k, 0)
  {
    var b := f.ino[i].addrs[k];
    assert b == Ptr(f.disk, f.ino[i], k);
    OwnedMarked(f, sb, own, i, k);
    hide Ptr, FsOk, BitOf, PutBit, PtrsOwned, OwnersPoint;
    FreePtrs(f, sb, own, b);
    var h := FreeDisk(f, sb, b);
    ClearAddr(h, sb, i, k);
    DropPtr(f, SetAddr(h, i, k, 0), sb, own, i, k, b);
  }

  /** A block that a pointer names is marked in use: bfree does not panic on it. */
  lemma OwnedMarked(f: Fs, sb: Super, own: map<nat, Owner>, i: nat, k: nat)
    requires SizesOk(f, sb) && FsOk(f, sb, own) && i < |f.ino| && k < NSLOT && Ptr(f.disk, f.ino[i], k) != 0
    ensures var b := Ptr(f.disk, f.ino[i], k);
            b in own && own[b] == (i, k) && sb.data <= b < sb.size && BitOf(f.disk, sb, b)
  {
    hide Ptr, BitOf;
  }

  /** Free the block in entry j of the indirect block and clear the entry. */
  lemma DropEntry(f: Fs, sb: Super, own: map<nat, Owner>, i: nat, j: nat)
    requires SizesOk(f, sb) && FsOk(f, sb, own) && i < |f.ino| && j < NINDIRECT
    requires Ptr(f.disk, f.ino[i], NDIRECT + 1 + j) != 0
    ensures 0 < f.ino[i].addrs[NDIRECT] < |f.disk|
    ensures var b := Ptr(f.disk, f.ino[i], NDIRECT + 1 + j);
            && b in own && own[b] == (i, NDIRECT + 1 + j) && b < sb.size && BitOf(f.disk, sb, b)
            && SizesOk(SetEntry(FreeDisk(f, sb, b), i, j, 0), sb)
            && FsOk(SetEntry(FreeDisk(f, sb, b), i, j, 0), sb, own - {b})
            && OnePtr(f, SetEntry(FreeDisk(f, sb, b), i, j, 0), i, NDIRECT + 1 + j, 0)
  {
    var k := NDIRECT + 1 + j;
    assert f.ino[i].addrs[NDIRECT] != 0;
    IndirectOwned(f, sb, own, i);
    OwnedMarked(f, sb, own, i, k);
    var b := Ptr(f.disk, f.ino[i], k);
    hide Ptr, FsOk, BitOf, PutBit, PtrsOwned, OwnersPoint, SetWord;
    FreePtrs(f, sb, own, b);
    var h := FreeDisk(f, sb, b);
    SetEntryPtr(h, sb, own, i, j, 0);
    var g := SetEntry(h, i, j, 0);
    EntryBits(h, g, sb, own, f.ino[i].addrs[NDIRECT], b);
    DropPtr(f, g, sb, own, i, k, b);
  }

  // ------------------------------------------------------------------------------------
  // Whole truncations
  // ------------------------------------------------------------------------------------

  /** Inode i has given up some of its blocks; other files' blocks and inodes are untouched. */
  ghost predicate Shrunk(f: Fs, g: Fs, sb: Super, own: map<nat, Owner>, own': map<nat, Owner>, i: nat) {
    && SizesOk(f, sb) && SizesOk(g, sb) && i < sb.ninodes
    && (forall b :: b in own' ==> b in own && own'[b] == own[b])
    && (forall b :: b in own && b !in own' ==> own[b].0 == i)
    && (forall b :: b in own' && own'[b] != (i, NDIRECT) && b < |f.disk| ==> g.disk[b] == f.disk[b])
    && (forall x :: 0 <= x < sb.bmapstart ==> g.disk[x] == f.disk[x])
    && (forall j :: 0 <= j < |f.ino| && j != i ==> g.ino[j] == f.ino[j])
    && g.ino[i] == f.ino[i].(addrs := g.ino[i].addrs)
  }

  lemma ShrunkTrans(f: Fs, g: Fs, h: Fs, sb: Super, own: map<nat, Owner>, own1: map<nat, Owner>, own2: map<nat, Owner>,
                    i: nat)
    requires Shrunk(f, g, sb, own, own1, i) && Shrunk(g, h, sb, own1, own2, i)
    ensures Shrunk(f, h, sb, own, own2, i)
  {
    hide LayoutOk, InodeOk;
  }

  lemma DataBlocks(f: Fs, sb: Super, own: map<nat, Owner>)
    requires SizesOk(f, sb) && FsOk(f, sb, own)
    ensures forall b :: b in own ==> sb.data <= b < sb.size
  {
    hide Ptr, BitOf;
  }

  lemma ShrunkAddr(f: Fs, sb: Super, own: map<nat, Owner>, i: nat, k: nat)
    requires SizesOk(f, sb) && FsOk(f, sb, own) && i < |f.ino| && k <= NDIRECT
    requires f.ino[i].addrs[k] in own && own[f.ino[i].addrs[k]] == (i, k) && f.ino[i].addrs[k] < sb.size
    ensures var b := f.ino[i].addrs[k];
            SizesOk(SetAddr(FreeDisk(f, sb, b), i, k, 0), sb) ==>
              Shrunk(f, SetAddr(FreeDisk(f, sb, b), i, k, 0), sb, own, own - {b}, i)
  {
    hide FsOk, PutBit;
    DataBlocks(f, sb, own);
    FreePtrs(f, sb, own, f.ino[i].addrs[k]);
  }

  lemma ShrunkEntry(f: Fs, sb: Super, own: map<nat, Owner>, i: nat, j: nat, b: nat)
    requires SizesOk(f, sb) && FsOk(f, sb, own) && i < |f.ino| && j < NINDIRECT
    requires 0 < f.ino[i].addrs[NDIRECT] < |f.disk|
    requires b in own && own[b] == (i, NDIRECT + 1 + j) && b < sb.size
    ensures SizesOk(SetEntry(FreeDisk(f, sb, b), i, j, 0), sb) ==>
              Shrunk(f, SetEntry(FreeDisk(f, sb, b), i, j, 0), sb, own, own - {b}, i)
  {
    hide FsOk, PutBit, SetWord, Ptr, PtrsOwned, OwnersPoint, Freed;
    IndirectOwned(f, sb, own, i);
    DataBlocks(f, sb, own);
    FreePtrs(f, sb, own, b);
  }

  lemma ShrunkRefl(f: Fs, sb: Super, own: map<nat, Owner>, i: nat)
    requires SizesOk(f, sb) && i < sb.ninodes
    ensures Shrunk(f, f, sb, own, own, i)
  {
  }

  /** bfree; its panic on a free block is the precondition. Block b is free afterwards, and nothing else
      about any block, bit or inode has changed. */
  method Bfree(fs: FileSystem, b: nat)
    requires SizesOk(fs.f, fs.sb) && b < fs.sb.size && BitOf(fs.f.disk, fs.sb, b)
    requires fs.Tracing() && |Held(fs.ops)| <= 1 && forall x :: x in Held(fs.ops) ==> fs.sb.data <= x
    modifies fs`f, fs`logged, fs`ops
    ensures fs.Tracing() && Held(fs.ops) == old(Held(fs.ops))
    ensures SizesOk(fs.f, fs.sb) && Freed(old(fs.f), fs.f, fs.sb, b) && fs.f.ino == old(fs.f).ino
    ensures forall x :: 0 <= x < fs.sb.size && x != BitmapBlock(fs.sb, b) ==> fs.f.disk[x] == old(fs.f).disk[x]
    ensures fs.f == FreeDisk(old(fs.f), fs.sb, b) && fs.logged == old(fs.logged) + {BitmapBlock(fs.sb, b)}
  {
    hide Trace, Held, BitOf, SetBit;
    ghost var held := Held(fs.ops);
    var m := BitmapBlock(fs.sb, b);
    PutBitIs(fs.f.disk, fs.sb, b, false);
    BitmapAt(fs.sb, b);
    var bp := fs.Bread(m);
    fs.LogWrite(m, SetBit(bp, b % BPB, false));
    fs.Brelse(m);
    assert held + {m} - {m} == held;
  }

  /** The n blocks from lo on. */
  ghost function Span(lo: nat, n: nat): (r: set<nat>)
    ensures |r| == n && forall x: nat :: x in r <==> lo <= x < lo + n
  {
    if n == 0 then {} else Span(lo, n - 1) + {lo + n - 1}
  }

  ghost function Bitmaps(sb: Super): set<nat> {
    Span(sb.bmapstart, sb.size / BPB + 1)
  }

  lemma InBitmaps(sb: Super, b: nat)
    requires b < sb.size
    ensures BitmapBlock(sb, b) in Bitmaps(sb)
  {
  }

  /** The first k direct slots are empty. */
  ghost predicate Cleared(f: Fs, i: nat, k: nat)
    requires i < |f.ino| && InodeOk(f.ino[i])
  {
    forall l :: 0 <= l < k && l < NDIRECT ==> f.ino[i].addrs[l] == 0
  }

  /** The first loop of itrunc. */
  method FreeDirect(fs: FileSystem, i: nat, ghost own: map<nat, Owner>) returns (ghost own': map<nat, Owner>)
    requires SizesOk(fs.f, fs.sb) && FsOk(fs.f, fs.sb, own) && i < fs.sb.ninodes && fs.Idle()
    modifies fs`f, fs`logged, fs`ops
    ensures fs.Idle() && fs.logged <= old(fs.logged) + Bitmaps(fs.sb)
    ensures SizesOk(fs.f, fs.sb) && FsOk(fs.f, fs.sb, own') && Shrunk(old(fs.f), fs.f, fs.sb, own, own', i)
    ensures Cleared(fs.f, i, NDIRECT)
  {
    hide FsOk, Shrunk, BitOf, FreeDisk, OnePtr, Trace, Held, Bitmaps, Freed;
    ghost var f0, was := fs.f, fs.logged;
    own' := own;
    ShrunkRefl(f0, fs.sb, own, i);
    var k := 0;
    while k < NDIRECT
      invariant 0 <= k <= NDIRECT
      invariant SizesOk(fs.f, fs.sb) && FsOk(fs.f, fs.sb, own') && Shrunk(f0, fs.f, fs.sb, own, own', i)
      invariant Cleared(fs.f, i, k) && fs.Idle() && fs.logged <= was + Bitmaps(fs.sb)
    {
      if fs.f.ino[i].addrs[k] != 0 {
        ghost var f1, own1 := fs.f, own';
        var b := fs.f.ino[i].addrs[k];
        DropAddr(f1, fs.sb, own1, i, k);
        ShrunkAddr(f1, fs.sb, own1, i, k);
        InBitmaps(fs.sb, b);
        Bfree(fs, b);
        fs.f := SetAddr(fs.f, i, k, 0);
        own' := own1 - {b};
        ShrunkTrans(f0, f1, fs.f, fs.sb, own, own1, own', i);
      }
      k := k + 1;
    }
  }

  /** f is v with the entries of the indirect block still in place: the first j are stale. */
  ghost predicate Stale(f: Fs, v: Fs, i: nat, ind: nat, a: Block, j: nat) {
    && |f.disk| == |v.disk| && f.ino == v.ino && ind < |f.disk| && f.disk[ind] == a && i < |f.ino|
    && |f.ino[i].addrs| == NDIRECT + 1 && f.ino[i].addrs[NDIRECT] == ind != 0
    && (forall x :: 0 <= x < |f.disk| && x != ind ==> f.disk[x] == v.disk[x])
    && forall l :: 0 <= l < NINDIRECT ==> Word(v.disk[ind], l) == if l < j then 0 else Word(a, l)
  }

  lemma StaleBits(f: Fs, v: Fs, sb: Super, own: map<nat, Owner>, i: nat, ind: nat, a: Block, j: nat)
    requires SizesOk(f, sb) && SizesOk(v, sb) && Stale(f, v, i, ind, a, j) && sb.data <= ind
    ensures forall x :: 0 <= x < sb.size ==> BitOf(f.disk, sb, x) == BitOf(v.disk, sb, x)
  {
    hide BitOf, Word;
    EntryBits(v, f, sb, own, ind, ind);
  }

  lemma FreeStale(f: Fs, v: Fs, sb: Super, i: nat, ind: nat, a: Block, j: nat, b: nat)
    requires SizesOk(f, sb) && SizesOk(v, sb) && Stale(f, v, i, ind, a, j) && sb.data <= ind && b < sb.size
    ensures Stale(FreeDisk(f, sb, b), FreeDisk(v, sb, b), i, ind, a, j)
  {
    hide Word, SetBit;
    assert BitmapBlock(sb, b) < sb.data;
  }

  lemma ClearStale(f: Fs, v: Fs, sb: Super, i: nat, ind: nat, a: Block, j: nat)
    requires SizesOk(v, sb) && Stale(f, v, i, ind, a, j) && j < NINDIRECT && i < sb.ninodes
    ensures Stale(f, SetEntry(v, i, j, 0), i, ind, a, j + 1)
  {
    hide Word;
  }

  /** The second loop of itrunc. v is the file system as it would be with the freed entries
      cleared; the code leaves them in the block it is about to free. */
  method FreeEntries(fs: FileSystem, i: nat, ghost own: map<nat, Owner>)
    returns (ghost own': map<nat, Owner>, ghost v: Fs)
    requires SizesOk(fs.f, fs.sb) && FsOk(fs.f, fs.sb, own) && i < fs.sb.ninodes && fs.f.ino[i].addrs[NDIRECT] != 0
    requires Cleared(fs.f, i, NDIRECT) && fs.Idle()
    modifies fs`f, fs`logged, fs`ops
    ensures fs.Idle() && fs.logged <= old(fs.logged) + Bitmaps(fs.sb)
    ensures SizesOk(fs.f, fs.sb) && SizesOk(v, fs.sb) && FsOk(v, fs.sb, own')
    ensures Shrunk(old(fs.f), v, fs.sb, own, own', i)
    ensures fs.sb.data <= fs.f.ino[i].addrs[NDIRECT] < fs.sb.size && Cleared(fs.f, i, NDIRECT)
    ensures Stale(fs.f, v, i, fs.f.ino[i].addrs[NDIRECT], fs.f.disk[fs.f.ino[i].addrs[NDIRECT]], NINDIRECT)
  {
    hide FsOk, Shrunk, BitOf, OnePtr, Ptr, Word, Stale, FreeDisk, SetEntry, Trace, Held, Bitmaps, Freed;
    ghost var f0, was := fs.f, fs.logged;
    own', v := own, fs.f;
    ShrunkRefl(f0, fs.sb, own, i);
    IndirectOwned(f0, fs.sb, own, i);
    var ind := fs.f.ino[i].addrs[NDIRECT];
    var a := fs.Bread(ind);
    StaleStart(f0, fs.sb, i, ind);
    var j := 0;
    while j < NINDIRECT
      invariant 0 <= j <= NINDIRECT && fs.f.ino == f0.ino
      invariant SizesOk(fs.f, fs.sb) && SizesOk(v, fs.sb) && FsOk(v, fs.sb, own') && Shrunk(f0, v, fs.sb, own, own', i)
      invariant Stale(fs.f, v, i, ind, a, j)
      invariant fs.Tracing() && Held(fs.ops) == {ind} && fs.logged <= was + Bitmaps(fs.sb)
    {
      EntryOf(fs.f, v, fs.sb, i, ind, a, j);
      if Word(a, j) != 0 {
        var b := Word(a, j);
        ghost var f1, v1, own1 := fs.f, v, own';
        DropEntry(v1, fs.sb, own1, i, j);
        ShrunkEntry(v1, fs.sb, own1, i, j, b);
        StaleBits(f1, v1, fs.sb, own1, i, ind, a, j);
        InBitmaps(fs.sb, b);
        Bfree(fs, b);
        FreeStale(f1, v1, fs.sb, i, ind, a, j, b);
        ClearStale(fs.f, FreeDisk(v1, fs.sb, b), fs.sb, i, ind, a, j);
        v, own' := SetEntry(FreeDisk(v1, fs.sb, b), i, j, 0), own1 - {b};
        ShrunkTrans(f0, v1, v, fs.sb, own, own1, own', i);
      } else {
        SkipStale(fs.f, v, i, ind, a, j);
      }
      j := j + 1;
    }
    fs.Brelse(ind);
    StaleBlock(fs.f, v, i, ind, a, NINDIRECT);
  }

  lemma StaleStart(f: Fs, sb: Super, i: nat, ind: nat)
    requires SizesOk(f, sb) && i < sb.ninodes && ind == f.ino[i].addrs[NDIRECT] && 0 < ind < |f.disk|
    ensures Stale(f, f, i, ind, f.disk[ind], 0)
  {
  }

  lemma SkipStale(f: Fs, v: Fs, i: nat, ind: nat, a: Block, j: nat)
    requires j < NINDIRECT && Stale(f, v, i, ind, a, j) && Word(a, j) == 0
    ensures Stale(f, v, i, ind, a, j + 1)
  {
    hide Word;
  }

  lemma StaleBlock(f: Fs, v: Fs, i: nat, ind: nat, a: Block, j: nat)
    requires Stale(f, v, i, ind, a, j)
    ensures ind < |f.disk| && f.disk[ind] == a
  {
  }

  lemma EntryOf(f: Fs, v: Fs, sb: Super, i: nat, ind: nat, a: Block, j: nat)
    requires SizesOk(v, sb) && i < sb.ninodes && j < NINDIRECT && Stale(f, v, i, ind, a, j)
    ensures 0 < v.ino[i].addrs[NDIRECT] < |v.disk| && Ptr(v.disk, v.ino[i], NDIRECT + 1 + j) == Word(a, j)
  {
    hide Word;
  }

  /** Contents of a block nobody owns do not matter. */
  lemma Unowned(f: Fs, v: Fs, w: Fs, sb: Super, own: map<nat, Owner>, own': map<nat, Owner>, i: nat, ind: nat)
    requires SizesOk(v, sb) && SizesOk(w, sb) && FsOk(v, sb, own') && Shrunk(f, v, sb, own, own', i)
    requires w.ino == v.ino && sb.data <= ind && ind !in own'
    requires forall x :: 0 <= x < |v.disk| && x != ind ==> w.disk[x] == v.disk[x]
    ensures FsOk(w, sb, own') && Shrunk(f, w, sb, own, own', i)
  {
    hide Ptr, BitOf;
    if ind < |v.disk| {
      PtrsKept(v, w.disk, sb, own');
      EntryBits(v, w, sb, own', ind, ind);
    } else {
      assert w.disk == v.disk;
    }
  }

  lemma ClearedAll(f: Fs, v: Fs, sb: Super, i: nat, ind: nat, a: Block)
    requires SizesOk(v, sb) && i < sb.ninodes && Stale(f, v, i, ind, a, NINDIRECT)
    ensures forall l :: NDIRECT < l < NSLOT ==> Ptr(v.disk, v.ino[i], l) == 0
  {
    hide Word;
  }

  /** The indirect part of itrunc. */
  method FreeIndirect(fs: FileSystem, i: nat, ghost own: map<nat, Owner>) returns (ghost own': map<nat, Owner>)
    requires SizesOk(fs.f, fs.sb) && FsOk(fs.f, fs.sb, own) && i < fs.sb.ninodes && Cleared(fs.f, i, NDIRECT)
    requires fs.Idle()
    modifies fs`f, fs`logged, fs`ops
    ensures fs.Idle() && fs.logged <= old(fs.logged) + Bitmaps(fs.sb)
    ensures SizesOk(fs.f, fs.sb) && FsOk(fs.f, fs.sb, own') && Shrunk(old(fs.f), fs.f, fs.sb, own, own', i)
    ensures forall l :: 0 <= l <= NDIRECT ==> fs.f.ino[i].addrs[l] == 0
  {
    hide FsOk, Shrunk, BitOf, OnePtr, Ptr, Word, Stale, FreeDisk, Trace, Held, Bitmaps, Freed;
    own' := own;
    if fs.f.ino[i].addrs[NDIRECT] == 0 {
      ShrunkRefl(fs.f, fs.sb, own, i);
      return;
    }
    ghost var f0 := fs.f;
    ghost var own1, v;
    own1, v := FreeEntries(fs, i, own);
    ghost var f1 := fs.f;
    var ind := fs.f.ino[i].addrs[NDIRECT];
    StaleBits(f1, v, fs.sb, own1, i, ind, f1.disk[ind], NINDIRECT);
    ClearedAll(f1, v, fs.sb, i, ind, f1.disk[ind]);
    SameInodes(f1, v, i, ind, f1.disk[ind]);
    DropAddr(v, fs.sb, own1, i, NDIRECT);
    ShrunkAddr(v, fs.sb, own1, i, NDIRECT);
    InBitmaps(fs.sb, ind);
    Bfree(fs, ind);
    fs.f := SetAddr(fs.f, i, NDIRECT, 0);
    FreeStale(f1, v, fs.sb, i, ind, f1.disk[ind], NINDIRECT, ind);
    own' := own1 - {ind};
    ghost var w := SetAddr(FreeDisk(v, fs.sb, ind), i, NDIRECT, 0);
    ShrunkTrans(f0, v, w, fs.sb, own, own1, own', i);
    StaleRest(FreeDisk(f1, fs.sb, ind), FreeDisk(v, fs.sb, ind), i, ind, f1.disk[ind]);
    Unowned(f0, w, fs.f, fs.sb, own, own', i, ind);
  }

  lemma SameInodes(f: Fs, v: Fs, i: nat, ind: nat, a: Block)
    requires Stale(f, v, i, ind, a, NINDIRECT)
    ensures v.ino == f.ino
  {
  }

  lemma StaleRest(f: Fs, v: Fs, i: nat, ind: nat, a: Block)
    requires Stale(f, v, i, ind, a, NINDIRECT)
    ensures f.ino == v.ino && |f.disk| == |v.disk|
    ensures forall x :: 0 <= x < |f.disk| && x != ind ==> f.disk[x] == v.disk[x]
  {
  }

  /** itrunc from f to g: inode i is empty and on disk, exactly its blocks are given up, and no
      other file has changed. */
  ghost predicate Truncated(f: Fs, g: Fs, sb: Super, own: map<nat, Owner>, own': map<nat, Owner>, i: nat) {
    && SizesOk(f, sb) && SizesOk(g, sb) && FsOk(g, sb, own') && i < sb.ninodes
    && (forall b :: b in own' <==> b in own && own[b].0 != i)
    && (forall b :: b in own' ==> own'[b] == own[b] && b < sb.size && g.disk[b] == f.disk[b])
    && g.ino[i] == f.ino[i].(size := 0, addrs := g.ino[i].addrs)
    && (forall l :: 0 <= l <= NDIRECT ==> g.ino[i].addrs[l] == 0)
    && WrittenThrough(g, sb, i)
    && (forall j :: 0 <= j < sb.ninodes && j != i ==> g.ino[j] == f.ino[j] && OnDisk(g, sb, j) == OnDisk(f, sb, j))
  }

  lemma AllGone(f: Fs, g: Fs, sb: Super, own: map<nat, Owner>, own': map<nat, Owner>, i: nat)
    requires SizesOk(g, sb) && FsOk(g, sb, own') && Shrunk(f, g, sb, own, own', i)
    requires forall l :: 0 <= l <= NDIRECT ==> g.ino[i].addrs[l] == 0
    ensures forall b :: b in own' <==> b in own && own[b].0 != i
    ensures forall b :: b in own' ==> own'[b] == own[b] && b < sb.size && g.disk[b] == f.disk[b]
  {
    assert forall k :: 0 <= k < NSLOT ==> Ptr(g.disk, g.ino[i], k) == 0;
    hide Ptr, BitOf, LayoutOk, InodeOk;
    DataBlocks(g, sb, own');
  }

  lemma ShrunkOnDisk(f: Fs, g: Fs, sb: Super, own: map<nat, Owner>, own': map<nat, Owner>, i: nat)
    requires Shrunk(f, g, sb, own, own', i)
    ensures forall j :: 0 <= j < sb.ninodes ==> OnDisk(g, sb, j) == OnDisk(f, sb, j)
  {
    hide Decode;
    forall j | 0 <= j < sb.ninodes
      ensures OnDisk(g, sb, j) == OnDisk(f, sb, j)
    {
      assert j / IPB <= (sb.ninodes - 1) / IPB;
    }
  }

  lemma GrownBlocks(g: Fs, sb: Super, own: map<nat, Owner>, i: nat)
    requires SizesOk(g, sb) && FsOk(g, sb, own) && i < sb.ninodes
    ensures forall b :: b in own ==> b < |g.disk| && Grown(g, sb, i, 0).disk[b] == g.disk[b]
  {
    hide FsOk, Encode;
    DataBlocks(g, sb, own);
  }

  lemma TruncatedEnd(f: Fs, g: Fs, sb: Super, own: map<nat, Owner>, own': map<nat, Owner>, i: nat)
    requires SizesOk(g, sb) && FsOk(g, sb, own') && Shrunk(f, g, sb, own, own', i)
    requires forall l :: 0 <= l <= NDIRECT ==> g.ino[i].addrs[l] == 0
    ensures Truncated(f, Grown(g, sb, i, 0), sb, own, own', i)
  {
    hide FsOk, Ptr, ByteAt, OnDisk, Grown;
    AllGone(f, g, sb, own, own', i);
    ShrunkOnDisk(f, g, sb, own, own', i);
    GrownKeeps(g, sb, own', i, 0);
    GrownBlocks(g, sb, own', i);
  }

  method Itrunc(fs: FileSystem, i: nat, ghost own: map<nat, Owner>) returns (ghost own': map<nat, Owner>)
    requires SizesOk(fs.f, fs.sb) && FsOk(fs.f, fs.sb, own) && i < fs.sb.ninodes && fs.Idle()
    modifies fs`f, fs`logged, fs`ops
    ensures fs.Idle() && Truncated(old(fs.f), fs.f, fs.sb, own, own', i)
    ensures fs.logged <= old(fs.logged) + Bitmaps(fs.sb) + {InodeBlock(fs.sb, i)}
  {
    hide FsOk, Shrunk, Truncated, Iupdate, Trace, Held, Bitmaps;
    ghost var f0 := fs.f;
    ghost var own1 := FreeDirect(fs, i, own);
    ghost var f1 := fs.f;
    own' := FreeIndirect(fs, i, own1);
    ShrunkTrans(f0, f1, fs.f, fs.sb, own, own1, own', i);
    TruncatedEnd(f0, fs.f, fs.sb, own, own', i);
    fs.f := SetSize(fs.f, i, 0);
    UpdateInode(fs, i);
  }

  /** Truncation changes no byte of any other file. */
  lemma TruncatedBytes(f: Fs, g: Fs, sb: Super, own: map<nat, Owner>, own': map<nat, Owner>, i: nat, j: nat)
    requires SizesOk(f, sb) && SizesOk(g, sb) && FsOk(f, sb, own) && Truncated(f, g, sb, own, own', i) && j < sb.ninodes
    requires j != i
    ensures SameBytes(f, g, j)
  {
    hide BitOf, Word;
    var ind := f.ino[j].addrs[NDIRECT];
    assert ind != 0 ==> Ptr(f.disk, f.ino[j], NDIRECT) == ind && own[ind] == (j, NDIRECT);
    assert forall k :: 0 <= k < NSLOT ==> Ptr(g.disk, g.ino[j], k) == Ptr(f.disk, f.ino[j], k);
    hide Ptr;
    forall p | 0 <= p < MAXBYTES
      ensures ByteAt(g, j, p) == ByteAt(f, j, p)
    {
      var k := SlotOf(p / BSIZE);
      var b := Ptr(f.disk, f.ino[j], k);
      assert b != 0 ==> b in own && own[b] == (j, k);
    }
  }
}

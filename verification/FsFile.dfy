/** balloc and bmap (xv6/fs.c) as methods on the blocks and inodes, with the buffer calls they make. A
    method that the source ends in a panic for lack of blocks returns ok == false. */
module FsFile {
  import opened Blocks
  import opened FsModel
  import opened FsInode
  import opened FsTrace

  /** What allocation for inode i may change: it adds blocks owned by i, the data blocks zeroed, and
      stores their numbers. Every other pointer, inode and owned block, except i's indirect block, stays. */
  ghost predicate Extends(f: Fs, g: Fs, sb: Super, own: map<nat, Owner>, own': map<nat, Owner>, i: nat) {
    && SizesOk(f, sb) && SizesOk(g, sb) && i < sb.ninodes
    && (forall b :: b in own ==> b in own' && own'[b] == own[b])
    && (forall b :: b in own' && b !in own ==>
          own'[b].0 == i && (own'[b].1 != NDIRECT && b < |g.disk| ==> g.disk[b] == ZeroBlock()))
    && (forall b :: b in own && own[b] != (i, NDIRECT) && b < |f.disk| ==> g.disk[b] == f.disk[b])
    && (forall x :: 0 <= x < sb.bmapstart ==> g.disk[x] == f.disk[x])
    && (forall j :: 0 <= j < |f.ino| && j != i ==> g.ino[j] == f.ino[j])
    && g.ino[i] == f.ino[i].(addrs := g.ino[i].addrs)
    && (forall j, k :: 0 <= j < |f.ino| && 0 <= k < NSLOT && (j != i || Ptr(f.disk, f.ino[j], k) != 0) ==>
          Ptr(g.disk, g.ino[j], k) == Ptr(f.disk, f.ino[j], k))
  }

  lemma AllocatedExtends(f: Fs, g: Fs, sb: Super, own: map<nat, Owner>, i: nat, k: nat, b: nat)
    requires FsOk(f, sb, own) && i < |f.ino| && k < NSLOT && Allocated(f, g, sb, own, i, k, b)
    requires Ptr(f.disk, f.ino[i], k) == 0 && !BitOf(f.disk, sb, b)
    ensures Extends(f, g, sb, own, own[b := (i, k)], i)
  {
    hide Ptr, BitOf, PtrsOwned;
    assert sb.data <= b;
    assert sb.bmapstart <= BitmapBlock(sb, b) < sb.data;
    assert forall x :: x in own ==> x != BitmapBlock(sb, b) && x >= sb.data;
    hide BitsExact, OwnersPoint;
  }

  lemma ExtendsTrans(f: Fs, g: Fs, h: Fs, sb: Super, own: map<nat, Owner>, own1: map<nat, Owner>, own2: map<nat, Owner>,
                     i: nat)
    requires Extends(f, g, sb, own, own1, i) && Extends(g, h, sb, own1, own2, i)
    ensures Extends(f, h, sb, own, own2, i)
  {
    hide Ptr, LayoutOk;
  }

  lemma ExtendsRefl(f: Fs, sb: Super, own: map<nat, Owner>, i: nat)
    requires SizesOk(f, sb) && i < sb.ninodes
    ensures Extends(f, f, sb, own, own, i)
  {
  }

  /** Every block is in use. */
  ghost predicate Full(f: Fs, sb: Super) {
    SizesOk(f, sb) && forall x :: 0 <= x < sb.size ==> BitOf(f.disk, sb, x)
  }

  /** The inode's indirect block, if it has one. */
  ghost function Indirect(f: Fs, i: nat): set<nat>
    requires i < |f.ino| && InodeOk(f.ino[i])
  {
    if f.ino[i].addrs[NDIRECT] == 0 then {} else {f.ino[i].addrs[NDIRECT]}
  }

  lemma BitmapAt(sb: Super, b: nat)
    requires LayoutOk(sb) && b < sb.size
    ensures sb.inodestart < BitmapBlock(sb, b) < sb.data
  {
  }

  /** The blocks below n are in use. */
  ghost predicate InUse(disk: seq<Block>, sb: Super, n: nat)
    requires LayoutOk(sb) && |disk| == sb.size
  {
    forall x :: 0 <= x < n && x < sb.size ==> BitOf(disk, sb, x)
  }

  lemma InUseMore(disk: seq<Block>, sb: Super, b0: nat, bi: nat, bp: Block)
    requires LayoutOk(sb) && |disk| == sb.size && b0 < sb.size && b0 % BPB == 0 && InUse(disk, sb, b0)
    requires bi <= BPB && b0 + bi <= sb.size && bp == disk[sb.bmapstart + b0 / BPB]
    requires forall x :: 0 <= x < bi ==> Bit(bp, x)
    ensures InUse(disk, sb, b0 + bi)
    ensures bi < BPB && b0 + bi < sb.size ==> BitOf(disk, sb, b0 + bi) == Bit(bp, bi) && (b0 + bi) / BPB == b0 / BPB
  {
    hide Bit;
    forall x | 0 <= x < b0 + bi && x < sb.size
      ensures BitOf(disk, sb, x)
    {
      if x >= b0 {
        assert x / BPB == b0 / BPB && x % BPB == x - b0;
      }
    }
  }

  /** The first clear bit of a bitmap block, or n. */
  method FirstClear(bp: Block, n: nat) returns (bi: nat)
    requires n <= BPB
    ensures bi <= n && (forall x :: 0 <= x < bi ==> Bit(bp, x)) && (bi < n ==> !Bit(bp, bi))
  {
    hide Bit;
    bi := 0;
    while bi < n && Bit(bp, bi)
      invariant 0 <= bi <= n && forall x :: 0 <= x < bi ==> Bit(bp, x)
    {
      bi := bi + 1;
    }
  }

  /** A free block is not held, and lies above the inodes. */
  lemma Unheld(disk: seq<Block>, sb: Super, b: nat, held: set<nat>)
    requires LayoutOk(sb) && |disk| == sb.size && b < sb.size && !BitOf(disk, sb, b)
    requires forall x :: x in held ==> sb.data <= x < sb.size && BitOf(disk, sb, x)
    requires InUse(disk, sb, sb.data)
    ensures b !in held && BitmapBlock(sb, b) !in held && BitmapBlock(sb, b) < sb.size && sb.data <= b
  {
    hide BitOf;
  }

  class FileSystem {
    const sb: Super
    var f: Fs
    // The blocks passed to log_write.
    var logged: set<nat>
    // The blocks when the transaction began, and what it has done to buffers since.
    var base: seq<Block>
    var ops: seq<Op>

    ghost predicate Tracing()
      reads this
    {
      Trace(sb, f.disk, base, ops, logged)
    }

    /** In a transaction, holding no buffer. */
    ghost predicate Idle()
      reads this
    {
      Tracing() && Held(ops) == {}
    }

    /** The metadata is in use, and at most the buffer of a data block that is in use is held. */
    ghost predicate HoldsUsed()
      requires SizesOk(f, sb)
      reads this
    {
      && InUse(f.disk, sb, sb.data)
      && |Held(ops)| <= 1 && forall x :: x in Held(ops) ==> sb.data <= x < sb.size && BitOf(f.disk, sb, x)
    }

    /** begin_op. */
    method BeginOp()
      requires |f.disk| == sb.size
      modifies `base, `ops, `logged
      ensures Idle() && base == f.disk && logged == {}
    {
      base, ops, logged := f.disk, [], {};
      TraceStart(sb, f.disk);
    }

    method Bread(b: nat) returns (v: Block)
      requires Tracing() && |f.disk| == sb.size && sb.inodestart <= b < sb.size && b !in Held(ops) && |Held(ops)| <= 1
      modifies `ops
      ensures Tracing() && Held(ops) == old(Held(ops)) + {b} && v == f.disk[b]
    {
      hide Trace, Held;
      OpenTrace(sb, f.disk, base, ops, logged, b);
      ops := ops + [LogRuns.Op.Open(b)];
      return f.disk[b];
    }

    /** The holder's change of a buffer followed by log_write. */
    method LogWrite(b: nat, v: Block)
      requires Tracing() && b in Held(ops) && b < |f.disk|
      modifies `f, `logged, `ops
      ensures Tracing() && Held(ops) == old(Held(ops))
      ensures f == old(f).(disk := old(f).disk[b := v]) && logged == old(logged) + {b}
    {
      hide Trace, Held;
      UpdateTrace(sb, f.disk, base, ops, logged, b, v);
      f := f.(disk := f.disk[b := v]);
      logged := logged + {b};
      ops := ops + [LogRuns.Op.Update(b, v)];
    }

    method Brelse(b: nat)
      requires Tracing() && b in Held(ops)
      modifies `ops
      ensures Tracing() && Held(ops) == old(Held(ops)) - {b}
    {
      hide Trace, Held;
      CloseTrace(sb, f.disk, base, ops, logged, b);
      ops := ops + [LogRuns.Op.Close(b)];
    }

    /** balloc: the lowest free block, marked and zeroed. */
    method Balloc() returns (ok: bool, b: nat)
      requires SizesOk(f, sb) && Tracing() && HoldsUsed()
      modifies `f, `logged, `ops
      ensures Tracing() && Held(ops) == old(Held(ops))
      ensures !ok ==> f == old(f) && logged == old(logged) && Full(f, sb)
      ensures ok ==>
                && b < sb.size && !BitOf(old(f).disk, sb, b) && (forall x :: 0 <= x < b ==> BitOf(old(f).disk, sb, x))
                && f == old(f).(disk := AllocDisk(old(f).disk, sb, b))
                && logged == old(logged) + {BitmapBlock(sb, b), b}
    {
      hide BitOf, PutBit, AllocDisk, Trace, Held;
      ghost var held := Held(ops);
      var b0 := 0;
      while b0 < sb.size
        invariant b0 % BPB == 0 && f == old(f) && logged == old(logged) && Tracing() && Held(ops) == held
        invariant InUse(f.disk, sb, b0)
      {
        BitmapAt(sb, b0);
        var m := sb.bmapstart + b0 / BPB;
        var bp := Bread(m);
        var bi := FirstClear(bp, if sb.size - b0 < BPB then sb.size - b0 else BPB);
        InUseMore(f.disk, sb, b0, bi, bp);
        if bi < BPB && b0 + bi < sb.size {
          b := b0 + bi;
          Unheld(f.disk, sb, b, held);
          Take(b, bp, held);
          return true, b;
        }
        Brelse(m);
        assert held + {m} - {m} == held;
        b0 := b0 + BPB;
      }
      return false, 0;
    }

    /** Mark block b in the held bitmap buffer, log and release it, then bzero the block. */
    method Take(b: nat, bp: Block, ghost held: set<nat>)
      requires SizesOk(f, sb) && b < sb.size && Tracing() && bp == f.disk[BitmapBlock(sb, b)]
      requires Held(ops) == held + {BitmapBlock(sb, b)} && |held| <= 1 && b !in held && BitmapBlock(sb, b) !in held
      requires sb.inodestart <= b && BitmapBlock(sb, b) < sb.size
      modifies `f, `logged, `ops
      ensures Tracing() && Held(ops) == held
      ensures f == old(f).(disk := AllocDisk(old(f).disk, sb, b))
      ensures logged == old(logged) + {BitmapBlock(sb, b), b}
    {
      hide Trace, Held, SetBit;
      var m := BitmapBlock(sb, b);
      LogWrite(m, SetBit(bp, b % BPB, true));
      Brelse(m);
      assert held + {m} - {m} == held;
      var _ := Bread(b);
      LogWrite(b, ZeroBlock());
      Brelse(b);
      assert held + {b} - {b} == held;
    }

    /** bmap for a slot of ip->addrs. */
    method MapAddr(i: nat, k: nat, ghost own: map<nat, Owner>)
      returns (ok: bool, addr: nat, ghost own': map<nat, Owner>, ghost bits: set<nat>)
      requires SizesOk(f, sb) && FsOk(f, sb, own) && i < sb.ninodes && k <= NDIRECT && Idle()
      modifies `f, `logged, `ops
      ensures Idle()
      ensures !ok ==> Full(f, sb) && old(f).ino[i].addrs[k] == 0
      ensures ok ==> Mapped(old(f), f, sb, own, own', i, k, addr) && addr == f.ino[i].addrs[k] != 0
      ensures ok ==> logged <= old(logged) + bits + {addr} && |bits| <= Missing(old(f), i, k)
      ensures old(f).ino[i].addrs[k] != 0 ==> logged == old(logged)
    {
      hide Allocated, Extends, AllocDisk, FsOk, Trace, Held;
      ghost var f0 := f;
      addr := f.ino[i].addrs[k];
      assert Ptr(f.disk, f.ino[i], k) == addr;
      if addr != 0 {
        MappedRefl(f, sb, own, i, k);
        return true, addr, own, {};
      }
      own', bits := own, {};
      MetaInUse(f, sb, own);
      ok, addr := Balloc();
      if ok {
        AllocAddr(f0, sb, own, i, k, addr);
        f := SetAddr(f, i, k, addr);
        own', bits := own[addr := (i, k)], {BitmapBlock(sb, addr)};
        AllocatedOk(f0, f, sb, own, i, k, addr);
        AllocatedExtends(f0, f, sb, own, i, k, addr);
      }
    }

    /** bmap for an entry of the indirect block, whose buffer is held meanwhile. */
    method MapEntry(i: nat, j: nat, ghost own: map<nat, Owner>)
      returns (ok: bool, addr: nat, ghost own': map<nat, Owner>, ghost bits: set<nat>)
      requires SizesOk(f, sb) && FsOk(f, sb, own) && i < sb.ninodes && j < NINDIRECT && f.ino[i].addrs[NDIRECT] != 0
      requires Idle()
      modifies `f, `logged, `ops
      ensures ok ==> Idle()
      ensures !ok ==> Full(f, sb) && Ptr(old(f).disk, old(f).ino[i], NDIRECT + 1 + j) == 0
      ensures ok ==> Mapped(old(f), f, sb, own, own', i, NDIRECT + 1 + j, addr) && f.ino == old(f).ino
      ensures ok ==> logged <= old(logged) + bits + {addr} + Indirect(f, i)
      ensures ok ==> |bits| <= Missing(old(f), i, NDIRECT + 1 + j)
      ensures Ptr(old(f).disk, old(f).ino[i], NDIRECT + 1 + j) != 0 ==> logged == old(logged)
    {
      hide Mapped, FsOk, Full, BitOf, AllocDisk, Ptr, Trace, Held, InUse;
      ghost var f0 := f;
      IndirectOwned(f, sb, own, i);
      EntryIs(f, i, j);
      var ind := f.ino[i].addrs[NDIRECT];
      var a := Bread(ind);
      addr := Word(a, j);
      if addr != 0 {
        MappedRefl(f, sb, own, i, NDIRECT + 1 + j);
        Brelse(ind);
        return true, addr, own, {};
      }
      own', bits := own, {};
      MetaInUse(f, sb, own);
      IndirectInUse(f, sb, own, i);
      ok, addr := Balloc();
      if ok {
        own', bits := StoreNew(f0, i, j, addr, own);
      }
    }

    /** Store a newly allocated block number in the indirect block and release it. */
    method StoreNew(ghost f0: Fs, i: nat, j: nat, addr: nat, ghost own: map<nat, Owner>)
      returns (ghost own': map<nat, Owner>, ghost bits: set<nat>)
      requires SizesOk(f0, sb) && FsOk(f0, sb, own) && i < sb.ninodes && j < NINDIRECT && f0.ino[i].addrs[NDIRECT] != 0
      requires Ptr(f0.disk, f0.ino[i], NDIRECT + 1 + j) == 0
      requires addr < sb.size && !BitOf(f0.disk, sb, addr) && f == f0.(disk := AllocDisk(f0.disk, sb, addr))
      requires Tracing() && Held(ops) == {f0.ino[i].addrs[NDIRECT]}
      modifies `f, `logged, `ops
      ensures Idle()
      ensures Mapped(f0, f, sb, own, own', i, NDIRECT + 1 + j, addr) && f.ino == f0.ino
      ensures logged == old(logged) + {f.ino[i].addrs[NDIRECT]} && bits == {BitmapBlock(sb, addr)}
    {
      hide Allocated, Extends, AllocDisk, FsOk, Ptr, SetWord, Trace, Held, BitOf;
      AllocEntry(f0, sb, own, i, j, addr);
      var ind := f.ino[i].addrs[NDIRECT];
      LogWrite(ind, SetWord(f.disk[ind], j, addr));
      Brelse(ind);
      own', bits := own[addr := (i, NDIRECT + 1 + j)], {BitmapBlock(sb, addr)};
      AllocatedOk(f0, f, sb, own, i, NDIRECT + 1 + j, addr);
      AllocatedExtends(f0, f, sb, own, i, NDIRECT + 1 + j, addr);
    }

    /** bmap: the block of file block bn, allocated if there is none. */
    method Bmap(i: nat, bn: nat, ghost own: map<nat, Owner>)
      returns (ok: bool, addr: nat, ghost own': map<nat, Owner>, ghost bits: set<nat>)
      requires SizesOk(f, sb) && FsOk(f, sb, own) && i < sb.ninodes && bn < MAXFILE && Idle()
      modifies `f, `logged, `ops
      ensures ok ==> Idle()
      ensures !ok ==> Full(f, sb) && Ptr(old(f).disk, old(f).ino[i], SlotOf(bn)) == 0
      ensures ok ==> Mapped(old(f), f, sb, own, own', i, SlotOf(bn), addr)
      ensures ok ==> logged <= old(logged) + bits + {addr} + Indirect(f, i)
      ensures ok ==> |bits| <= MayTake(old(f), i, bn)
      ensures Ptr(old(f).disk, old(f).ino[i], SlotOf(bn)) != 0 ==> logged == old(logged)
    {
      hide Mapped, FsOk, Missing, Full, Trace, Held;
      if bn < NDIRECT {
        ok, addr, own', bits := MapAddr(i, bn, own);
      } else {
        ok, addr, own', bits := MapIndirect(i, bn - NDIRECT, own);
      }
    }

    method MapIndirect(i: nat, j: nat, ghost own: map<nat, Owner>)
      returns (ok: bool, addr: nat, ghost own': map<nat, Owner>, ghost bits: set<nat>)
      requires SizesOk(f, sb) && FsOk(f, sb, own) && i < sb.ninodes && j < NINDIRECT && Idle()
      modifies `f, `logged, `ops
      ensures ok ==> Idle()
      ensures !ok ==> Full(f, sb) && Ptr(old(f).disk, old(f).ino[i], NDIRECT + 1 + j) == 0
      ensures ok ==> Mapped(old(f), f, sb, own, own', i, NDIRECT + 1 + j, addr)
      ensures ok ==> logged <= old(logged) + bits + {addr} + Indirect(f, i)
      ensures ok ==> |bits| <= Missing(old(f), i, NDIRECT + 1 + j) + Missing(old(f), i, NDIRECT)
      ensures Ptr(old(f).disk, old(f).ino[i], NDIRECT + 1 + j) != 0 ==> logged == old(logged)
    {
      hide Mapped, FsOk, Missing, Full, Ptr, Trace, Held;
      ghost var f0 := f;
      ghost var own1, bits1;
      ok, addr, own1, bits1 := MapAddr(i, NDIRECT, own);
      own', bits := own1, bits1;
      NoIndirect(f0, sb, own, i, j);
      if ok {
        ghost var f1 := f;
        MappedOk(f0, f1, sb, own, own1, i, NDIRECT, addr);
        ok, addr, own', bits := MapEntry(i, j, own1);
        MapBoth(f0, f1, sb, own, own1, i, j, f1.ino[i].addrs[NDIRECT]);
        if ok {
          MappedTrans(f0, f1, f, sb, own, own1, own', i, j, addr);
          bits := bits + bits1;
        }
      }
    }
  }

  lemma MetaInUse(f: Fs, sb: Super, own: map<nat, Owner>)
    requires FsOk(f, sb, own)
    ensures SizesOk(f, sb) && InUse(f.disk, sb, sb.data)
  {
    hide Ptr, BitOf;
  }

  lemma IndirectInUse(f: Fs, sb: Super, own: map<nat, Owner>, i: nat)
    requires FsOk(f, sb, own) && i < |f.ino| && f.ino[i].addrs[NDIRECT] != 0
    ensures var ind := f.ino[i].addrs[NDIRECT]; sb.data <= ind < sb.size && BitOf(f.disk, sb, ind)
  {
    IndirectOwned(f, sb, own, i);
    hide Ptr, BitOf;
  }

  /** The outcome of bmap: slot k of inode i holds addr. A slot that was in use is left alone. */
  ghost predicate Mapped(f: Fs, g: Fs, sb: Super, own: map<nat, Owner>, own': map<nat, Owner>, i: nat, k: nat,
                         addr: nat) {
    && FsOk(g, sb, own') && Extends(f, g, sb, own, own', i) && k < NSLOT
    && addr == Ptr(g.disk, g.ino[i], k) != 0
    && (Ptr(f.disk, f.ino[i], k) != 0 ==> g == f && own' == own)
  }

  /** The slot is empty (1) or in use (0). */
  ghost function Missing(f: Fs, i: nat, k: nat): nat
    requires i < |f.ino| && InodeOk(f.ino[i]) && k < NSLOT
  {
    if Ptr(f.disk, f.ino[i], k) == 0 then 1 else 0
  }

  /** How many blocks bmap may have to allocate. */
  ghost function MayTake(f: Fs, i: nat, bn: nat): nat
    requires i < |f.ino| && InodeOk(f.ino[i]) && bn < MAXFILE
  {
    Missing(f, i, SlotOf(bn)) + if bn < NDIRECT then 0 else Missing(f, i, NDIRECT)
  }

  lemma MappedRefl(f: Fs, sb: Super, own: map<nat, Owner>, i: nat, k: nat)
    requires SizesOk(f, sb) && FsOk(f, sb, own) && i < sb.ninodes && k < NSLOT && Ptr(f.disk, f.ino[i], k) != 0
    ensures Mapped(f, f, sb, own, own, i, k, Ptr(f.disk, f.ino[i], k))
  {
    hide Extends;
    ExtendsRefl(f, sb, own, i);
  }

  lemma EntryIs(f: Fs, i: nat, j: nat)
    requires i < |f.ino| && InodeOk(f.ino[i]) && j < NINDIRECT && 0 < f.ino[i].addrs[NDIRECT] < |f.disk|
    ensures Ptr(f.disk, f.ino[i], NDIRECT + 1 + j) == Word(f.disk[f.ino[i].addrs[NDIRECT]], j)
  {
  }

  lemma MappedOk(f: Fs, g: Fs, sb: Super, own: map<nat, Owner>, own': map<nat, Owner>, i: nat, k: nat, addr: nat)
    requires Mapped(f, g, sb, own, own', i, k, addr)
    ensures FsOk(g, sb, own') && Extends(f, g, sb, own, own', i) && SizesOk(f, sb) && SizesOk(g, sb) && i < |g.ino|
  {
    hide FsOk, Ptr;
  }

  /** Without an indirect block no entry is in use. */
  lemma NoIndirect(f: Fs, sb: Super, own: map<nat, Owner>, i: nat, j: nat)
    requires FsOk(f, sb, own) && i < |f.ino| && j < NINDIRECT
    ensures f.ino[i].addrs[NDIRECT] == 0 ==> Ptr(f.disk, f.ino[i], NDIRECT + 1 + j) == 0
  {
  }

  lemma MapBoth(f: Fs, g: Fs, sb: Super, own: map<nat, Owner>, own': map<nat, Owner>, i: nat, j: nat, ind: nat)
    requires Mapped(f, g, sb, own, own', i, NDIRECT, ind) && j < NINDIRECT
    ensures i < |f.ino| && i < |g.ino| && InodeOk(f.ino[i]) && InodeOk(g.ino[i])
    ensures Ptr(f.disk, f.ino[i], NDIRECT + 1 + j) != 0 ==> g == f && own' == own
    ensures Missing(g, i, NDIRECT + 1 + j) <= Missing(f, i, NDIRECT + 1 + j)
  {
    hide FsOk;
  }

  lemma MappedTrans(f: Fs, g: Fs, h: Fs, sb: Super, own: map<nat, Owner>, own1: map<nat, Owner>, own2: map<nat, Owner>,
                    i: nat, j: nat, addr: nat)
    requires j < NINDIRECT && Mapped(g, h, sb, own1, own2, i, NDIRECT + 1 + j, addr)
    requires SizesOk(f, sb) && Extends(f, g, sb, own, own1, i)
    requires i < |f.ino| && InodeOk(f.ino[i]) && (Ptr(f.disk, f.ino[i], NDIRECT + 1 + j) != 0 ==> g == f && own1 == own)
    ensures Mapped(f, h, sb, own, own2, i, NDIRECT + 1 + j, addr)
  {
    hide FsOk, Ptr, Extends;
    assert SizesOk(f, sb);
    ExtendsTrans(f, g, h, sb, own, own1, own2, i);
  }

  lemma AllocatedOk(f: Fs, g: Fs, sb: Super, own: map<nat, Owner>, i: nat, k: nat, b: nat)
    requires Allocated(f, g, sb, own, i, k, b)
    ensures FsOk(g, sb, own[b := (i, k)]) && |g.disk| == |f.disk| && |g.ino| == |f.ino| && b != 0
    ensures i < |f.ino| && k < NSLOT ==> InodeOk(g.ino[i]) && Ptr(g.disk, g.ino[i], k) == b
  {
    hide Ptr, PtrsOwned, BitsExact;
    assert b in own[b := (i, k)];
  }
}

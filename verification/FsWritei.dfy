/** writei (xv6/fs.c) refines an update of the file's bytes, keeps the file free of holes and
    writes the inode through, within a budget of log blocks. */
module FsWritei {
  import opened Numbers
  import opened Blocks
  import opened FsModel
  import opened FsInode
  import opened FsTrace
  import opened FsFile
  import opened FsBytes
  import opened FsWrite
  import opened FsReadWrite

  // ------------------------------------------------------------------------------------
  // The loop
  // ------------------------------------------------------------------------------------

  /** done bytes have been copied in. */
  ghost predicate Writing(f: Fs, g: Fs, sb: Super, own': map<nat, Owner>, i: nat, off: nat, src: seq<byte>, done: nat,
                          was: set<nat>, logged: set<nat>, t: Tally) {
    && SizesOk(f, sb) && SizesOk(g, sb) && i < sb.ninodes && done <= |src|
    && Wrote(f, g, sb, own', i, off, src[..done])
    && Logs(f, g, i, was, logged, t) && Paced(f, i, off, done, |src|, t)
    && (NoHoles(f, i) && off + |src| <= f.ino[i].size ==> g.ino == f.ino)
  }

  lemma WritingStart(f: Fs, sb: Super, own: map<nat, Owner>, i: nat, off: nat, src: seq<byte>, was: set<nat>)
    requires SizesOk(f, sb) && FsOk(f, sb, own) && i < sb.ninodes
    ensures Writing(f, f, sb, own, i, off, src, 0, was, was, Tally({}, {}, 0, 0))
  {
    hide Wrote, Ptr, FsOk;
    WriteStart(f, sb, own, i, off);
    assert src[..0] == [];
  }

  lemma WritingTurn(f: Fs, g: Fs, h: Fs, sb: Super, own: map<nat, Owner>, own': map<nat, Owner>, i: nat, off: nat,
                    src: seq<byte>, done: nat, was: set<nat>, logged: set<nat>, t: Tally,
                    b: nat, c: nat, logged': set<nat>, bits: set<nat>)
    requires SizesOk(h, sb) && Writing(f, g, sb, own, i, off, src, done, was, logged, t)
    requires done < |src| && off + |src| <= MAXBYTES && off <= f.ino[i].size
    requires c == Min(|src| - done, BSIZE - (off + done) % BSIZE)
    requires Mapped(g, h, sb, own, own', i, SlotOf((off + done) / BSIZE), b)
    requires logged' <= logged + bits + {b} + Indirect(h, i) && |bits| <= MayTake(g, i, (off + done) / BSIZE)
    ensures b < |h.disk|
    ensures var t' := Tally(t.data + {b}, t.bits + bits, t.turns + 1,
                            t.news + Missing(g, i, SlotOf((off + done) / BSIZE)));
            Writing(f, Store(h, b, Splice(h.disk[b], (off + done) % BSIZE, src[done..done + c])), sb, own', i, off, src,
                    done + c, was, logged', t')
  {
    hide Mapped, Wrote, Logs, Paced, Missing, MayTake, Splice, Indirect, Ptr;
    var bn := (off + done) / BSIZE;
    var t' := Tally(t.data + {b}, t.bits + bits, t.turns + 1, t.news + Missing(g, i, SlotOf(bn)));
    var s, u := src[..done], src[done..done + c];
    assert s + u == src[..done + c] && Turn(off, s, u);
    WriteTurn(f, g, h, sb, own, own', i, off, s, u, b);
    var r := Store(h, b, Splice(h.disk[b], (off + done) % BSIZE, u));
    LogsTurn(f, g, h, sb, own, own', i, bn, b, was, logged, logged', bits, t);
    LogsSame(f, h, r, sb, own', i, SlotOf(bn), b, was, logged', t');
    WroteKept(f, g, sb, own, i, off, s);
    PacedTurn(f, g, sb, i, off, done, |src|, c, t, t');
    if NoHoles(f, i) && off + |src| <= f.ino[i].size {
      NoGrowth(f, g, h, sb, own, own', i, bn, b);
    }
  }

  lemma WroteKept(f: Fs, g: Fs, sb: Super, own': map<nat, Owner>, i: nat, off: nat, s: seq<byte>)
    requires Wrote(f, g, sb, own', i, off, s)
    ensures Kept(f, g, sb, i)
  {
  }

  /** Storing a data block leaves the count as it is. */
  lemma LogsSame(f: Fs, h: Fs, r: Fs, sb: Super, own: map<nat, Owner>, i: nat, k: nat, b: nat, was: set<nat>,
                 logged: set<nat>, t: Tally)
    requires SizesOk(f, sb) && SizesOk(h, sb) && SizesOk(r, sb) && i < sb.ninodes && Logs(f, h, i, was, logged, t)
    requires r.ino == h.ino
    ensures Logs(f, r, i, was, logged, t)
  {
  }

  /** The copy loop of writei. */
  method CopyIn(fs: FileSystem, i: nat, src: seq<byte>, off: nat, ghost own: map<nat, Owner>)
    returns (ok: bool, ghost own': map<nat, Owner>, ghost t: Tally)
    requires SizesOk(fs.f, fs.sb) && FsOk(fs.f, fs.sb, own) && i < fs.sb.ninodes
    requires off + |src| <= MAXBYTES && off <= fs.f.ino[i].size && fs.Idle()
    modifies fs`f, fs`logged, fs`ops
    ensures !ok ==> Full(fs.f, fs.sb)
    ensures ok ==> fs.Idle()
    ensures ok ==> Writing(old(fs.f), fs.f, fs.sb, own', i, off, src, |src|, old(fs.logged), fs.logged, t)
  {
    hide FsOk, Mapped, Wrote, Logs, Paced, Missing, MayTake, Splice, Indirect, Full, Ptr, Trace, Held, Writing;
    ghost var f0, was := fs.f, fs.logged;
    var tot := 0;
    own', t := own, Tally({}, {}, 0, 0);
    WritingStart(f0, fs.sb, own, i, off, src, was);
    while tot < |src|
      invariant tot <= |src| && SizesOk(fs.f, fs.sb) && FsOk(fs.f, fs.sb, own')
      invariant Writing(f0, fs.f, fs.sb, own', i, off, src, tot, was, fs.logged, t) && fs.Idle()
    {
      ghost var f1, own1, logged1 := fs.f, own', fs.logged;
      var b;
      ghost var bits;
      ok, b, own', bits := fs.Bmap(i, (off + tot) / BSIZE, own');
      if !ok {
        return;
      }
      var m := Min(|src| - tot, BSIZE - (off + tot) % BSIZE);
      ghost var f2 := fs.f;
      MappedOk(f1, f2, fs.sb, own1, own', i, SlotOf((off + tot) / BSIZE), b);
      WritingTurn(f0, f1, f2, fs.sb, own1, own', i, off, src, tot, was, logged1, t, b, m, fs.logged + {b}, bits);
      MappedHome(f1, f2, fs.sb, own1, own', i, SlotOf((off + tot) / BSIZE), b);
      var bp := fs.Bread(b);
      fs.LogWrite(b, Splice(bp, (off + tot) % BSIZE, src[tot..tot + m]));
      fs.Brelse(b);
      t := Tally(t.data + {b}, t.bits + bits, t.turns + 1, t.news + Missing(f1, i, SlotOf((off + tot) / BSIZE)));
      tot := tot + m;
      WritingOk(f0, fs.f, fs.sb, own', i, off, src, tot, was, fs.logged, t);
    }
    return true, own', t;
  }

  lemma MappedHome(f: Fs, g: Fs, sb: Super, own: map<nat, Owner>, own': map<nat, Owner>, i: nat, k: nat, b: nat)
    requires Mapped(f, g, sb, own, own', i, k, b)
    ensures |g.disk| == sb.size && sb.inodestart <= b < sb.size
  {
    hide Ptr, BitOf;
    assert b == Ptr(g.disk, g.ino[i], k) && b in own';
  }

  lemma WritingOk(f: Fs, g: Fs, sb: Super, own': map<nat, Owner>, i: nat, off: nat, src: seq<byte>, done: nat,
                  was: set<nat>, logged: set<nat>, t: Tally)
    requires Writing(f, g, sb, own', i, off, src, done, was, logged, t)
    ensures SizesOk(f, sb) && SizesOk(g, sb) && FsOk(g, sb, own') && i < sb.ninodes && g.ino[i].size == f.ino[i].size
    ensures Logs(f, g, i, was, logged, t) && Paced(f, i, off, done, |src|, t)
  {
    hide Wrote, Logs, Paced, Ptr, FsOk;
    WroteOk(f, g, sb, own', i, off, src[..done]);
  }

  // ------------------------------------------------------------------------------------
  // The end of writei
  // ------------------------------------------------------------------------------------

  function SetSize(f: Fs, i: nat, size: uint): Fs
    requires i < |f.ino|
  {
    f.(ino := f.ino[i := f.ino[i].(size := size)])
  }

  lemma SizeKeeps(f: Fs, sb: Super, own: map<nat, Owner>, i: nat, size: uint)
    requires SizesOk(f, sb) && FsOk(f, sb, own) && i < sb.ninodes
    ensures var g := SetSize(f, i, size);
            && SizesOk(g, sb) && FsOk(g, sb, own)
            && (forall j, k :: 0 <= j < |f.ino| && 0 <= k < NSLOT ==>
                  Ptr(g.disk, g.ino[j], k) == Ptr(f.disk, f.ino[j], k))
            && (forall j, p :: 0 <= j < |f.ino| && 0 <= p < MAXBYTES ==> ByteAt(g, j, p) == ByteAt(f, j, p))
  {
    var g := SetSize(f, i, size);
    assert forall j, k :: 0 <= j < |f.ino| && 0 <= k < NSLOT ==> Ptr(g.disk, g.ino[j], k) == Ptr(f.disk, f.ino[j], k);
    hide Ptr, BitOf;
  }

  /** iupdate changes no pointer and no byte. */
  lemma IupdateBytes(f: Fs, sb: Super, own: map<nat, Owner>, i: nat)
    requires SizesOk(f, sb) && FsOk(f, sb, own) && i < sb.ninodes
    ensures var g := Iupdate(f, sb, i);
            && (forall j, k :: 0 <= j < |f.ino| && 0 <= k < NSLOT ==>
                  Ptr(g.disk, f.ino[j], k) == Ptr(f.disk, f.ino[j], k))
            && (forall j, p :: 0 <= j < |f.ino| && 0 <= p < MAXBYTES ==> ByteAt(g, j, p) == ByteAt(f, j, p))
  {
    hide Ptr, BitOf, Encode;
    IupdateKeeps(f, sb, own, i);
    PtrsKept(f, Iupdate(f, sb, i).disk, sb, own);
  }

  /** writei from f to g: the inode's bytes [off, off + |s|) become s, the file grows to cover
      them, and nothing else changes in any file. */
  ghost predicate Written(f: Fs, g: Fs, sb: Super, own': map<nat, Owner>, i: nat, off: nat, s: seq<byte>) {
    && SizesOk(f, sb) && SizesOk(g, sb) && FsOk(g, sb, own') && i < sb.ninodes
    && Updated(f, g, i, off, s)
    && g.ino[i] == f.ino[i].(addrs := g.ino[i].addrs, size := g.ino[i].size)
    && g.ino[i].size == (if s == [] then f.ino[i].size else Max(f.ino[i].size, off + |s|))
    && (forall j :: 0 <= j < sb.ninodes && j != i ==> g.ino[j] == f.ino[j])
  }

  /** What writei keeps besides the bytes: no holes and inodes written through. */
  ghost predicate Sound(f: Fs, g: Fs, sb: Super, i: nat) {
    && SizesOk(f, sb) && SizesOk(g, sb) && i < sb.ninodes
    && (NoHoles(f, i) ==> NoHoles(g, i))
    && (NoHoles(f, i) && WrittenThrough(f, sb, i) ==> WrittenThrough(g, sb, i))
    && (forall j :: 0 <= j < sb.ninodes && j != i ==>
          NoHoles(g, j) == NoHoles(f, j) && OnDisk(g, sb, j) == OnDisk(f, sb, j))
  }

  lemma KeptOnDisk(f: Fs, g: Fs, sb: Super, i: nat)
    requires Kept(f, g, sb, i)
    ensures forall j :: 0 <= j < sb.ninodes ==> OnDisk(g, sb, j) == OnDisk(f, sb, j)
  {
    hide Decode, Ptr;
    forall j | 0 <= j < sb.ninodes
      ensures OnDisk(g, sb, j) == OnDisk(f, sb, j)
    {
      assert j / IPB <= (sb.ninodes - 1) / IPB;
    }
  }

  lemma KeptHoles(f: Fs, g: Fs, sb: Super, i: nat)
    requires Kept(f, g, sb, i)
    ensures forall j :: 0 <= j < sb.ninodes && j != i ==> NoHoles(g, j) == NoHoles(f, j)
    ensures NoHoles(f, i) ==> NoHoles(g, i)
  {
    hide Ptr;
  }

  /** A write that does not grow the file. */
  lemma EndShort(f: Fs, g: Fs, sb: Super, own': map<nat, Owner>, i: nat, off: nat, src: seq<byte>, was: set<nat>,
                 logged: set<nat>, t: Tally)
    requires Writing(f, g, sb, own', i, off, src, |src|, was, logged, t) && off <= f.ino[i].size
    requires src == [] || off + |src| <= f.ino[i].size
    ensures Written(f, g, sb, own', i, off, src) && Sound(f, g, sb, i)
  {
    hide Ptr, FsOk, Updated, Logs, Paced, NoHoles, Decode, Covered;
    assert src[..|src|] == src;
    KeptOnDisk(f, g, sb, i);
    KeptHoles(f, g, sb, i);
  }

  function Grown(g: Fs, sb: Super, i: nat, size: uint): Fs
    requires SizesOk(g, sb) && i < sb.ninodes
  {
    Iupdate(SetSize(g, i, size), sb, i)
  }

  lemma GrownKeeps(g: Fs, sb: Super, own: map<nat, Owner>, i: nat, size: uint)
    requires SizesOk(g, sb) && FsOk(g, sb, own) && i < sb.ninodes
    ensures var h := Grown(g, sb, i, size);
            && SizesOk(h, sb) && FsOk(h, sb, own) && WrittenThrough(h, sb, i) && h.ino == SetSize(g, i, size).ino
            && (forall j :: 0 <= j < sb.ninodes && j != i ==> OnDisk(h, sb, j) == OnDisk(g, sb, j))
            && (forall j, k :: 0 <= j < |g.ino| && 0 <= k < NSLOT ==>
                  Ptr(h.disk, h.ino[j], k) == Ptr(g.disk, g.ino[j], k))
            && (forall j, p :: 0 <= j < |g.ino| && 0 <= p < MAXBYTES ==> ByteAt(h, j, p) == ByteAt(g, j, p))
  {
    hide Ptr, ByteAt, FsOk, Encode, Decode;
    SizeKeeps(g, sb, own, i, size);
    IupdateKeeps(SetSize(g, i, size), sb, own, i);
    IupdateBytes(SetSize(g, i, size), sb, own, i);
  }

  lemma GrownHoles(f: Fs, g: Fs, h: Fs, sb: Super, i: nat, off: nat, n: nat)
    requires Kept(f, g, sb, i) && SizesOk(h, sb) && Covered(g, i, off, n)
    requires off <= f.ino[i].size < off + n <= MAXBYTES
    requires forall j, k :: 0 <= j < |g.ino| && 0 <= k < NSLOT ==> Ptr(h.disk, h.ino[j], k) == Ptr(g.disk, g.ino[j], k)
    requires h.ino[i].size == off + n && forall j :: 0 <= j < |g.ino| && j != i ==> h.ino[j] == g.ino[j]
    ensures NoHoles(f, i) ==> NoHoles(h, i)
    ensures forall j :: 0 <= j < sb.ninodes && j != i ==> NoHoles(h, j) == NoHoles(f, j)
  {
    hide Ptr, LayoutOk, InodeOk;
    if NoHoles(f, i) {
      forall bn | 0 <= bn < MAXFILE && bn * BSIZE < h.ino[i].size
        ensures Ptr(h.disk, h.ino[i], SlotOf(bn)) != 0
      {
        if bn * BSIZE >= f.ino[i].size {
          assert (bn * BSIZE) / BSIZE == bn;
        }
      }
    }
  }

  /** A write past the end: the size is set and the inode written through. */
  lemma EndLong(f: Fs, g: Fs, sb: Super, own': map<nat, Owner>, i: nat, off: nat, src: seq<byte>, was: set<nat>,
                logged: set<nat>, t: Tally)
    requires Writing(f, g, sb, own', i, off, src, |src|, was, logged, t)
    requires off <= f.ino[i].size < off + |src| <= MAXBYTES
    ensures var h := Grown(g, sb, i, off + |src|); Written(f, h, sb, own', i, off, src) && Sound(f, h, sb, i)
  {
    hide Ptr, FsOk, ByteAt, Logs, Paced, NoHoles, OnDisk, Grown;
    assert src[..|src|] == src;
    var h := Grown(g, sb, i, off + |src|);
    GrownKeeps(g, sb, own', i, off + |src|);
    KeptOnDisk(f, g, sb, i);
    GrownHoles(f, g, h, sb, i, off, |src|);
  }

  /** Log blocks a writei needs: the data blocks and a bitmap block for each new one, then the
      indirect block, its bitmap block and the inode's block. */
  function Budget(off: nat, n: nat): nat {
    Touched(off, n) + Fresh(off, n) + 3
  }

  lemma LogsFit(f: Fs, g: Fs, sb: Super, i: nat, off: nat, n: nat, was: set<nat>, logged: set<nat>, t: Tally)
    requires SizesOk(f, sb) && SizesOk(g, sb) && i < sb.ninodes && NoHoles(f, i)
    requires Logs(f, g, i, was, logged, t) && Paced(f, i, off, n, n, t)
    ensures |t.data + t.bits + Indirect(g, i) + {InodeBlock(sb, i)}| <= Budget(off, n)
  {
    hide NoHoles, Ptr;
    assert |t.data + t.bits| <= |t.data| + |t.bits|;
    assert |t.data + t.bits + Indirect(g, i)| <= |t.data + t.bits| + 1;
    assert |t.data + t.bits + Indirect(g, i) + {InodeBlock(sb, i)}| <= |t.data + t.bits + Indirect(g, i)| + 1;
    assert t.turns <= Touched(off, n);
  }

  /** iupdate. */
  method UpdateInode(fs: FileSystem, i: nat)
    requires SizesOk(fs.f, fs.sb) && i < fs.sb.ninodes && fs.Idle()
    modifies fs`f, fs`logged, fs`ops
    ensures fs.Idle() && fs.f == Iupdate(old(fs.f), fs.sb, i) && fs.logged == old(fs.logged) + {InodeBlock(fs.sb, i)}
  {
    hide Trace, Held, Encode;
    var m := InodeBlock(fs.sb, i);
    assert i / IPB <= (fs.sb.ninodes - 1) / IPB;
    var bp := fs.Bread(m);
    fs.LogWrite(m, Encode(bp, i % IPB, fs.f.ino[i]));
    fs.Brelse(m);
  }

  /** writei. ok is false when balloc panics. */
  method Writei(fs: FileSystem, i: nat, src: seq<byte>, off: uint, ghost own: map<nat, Owner>)
    returns (ok: bool, r: int, ghost own': map<nat, Owner>, ghost extra: set<nat>)
    requires SizesOk(fs.f, fs.sb) && FsOk(fs.f, fs.sb, own) && i < fs.sb.ninodes && fs.f.ino[i].typ != T_DEV
    requires |src| <= UINT_MAX && fs.Idle()
    modifies fs`f, fs`logged, fs`ops
    ensures !ok ==> Full(fs.f, fs.sb)
    ensures ok ==> fs.Idle()
    ensures ok ==> (r == -1 <==> off > old(fs.f.ino[i].size) || off + |src| > MAXBYTES)
    ensures ok && r == -1 ==> fs.f == old(fs.f) && fs.logged == old(fs.logged) && own' == own
    ensures ok && r != -1 ==>
              r == |src| && Written(old(fs.f), fs.f, fs.sb, own', i, off, src) && Sound(old(fs.f), fs.f, fs.sb, i)
    ensures ok && r != -1 ==> fs.logged <= old(fs.logged) + extra
    ensures ok && r != -1 && NoHoles(old(fs.f), i) ==> |extra| <= Budget(off, |src|)
  {
    hide FsOk, Writing, Written, Sound, NoHoles, Iupdate, Logs, Paced, Full, Trace, Held;
    ghost var f0, was := fs.f, fs.logged;
    if off > fs.f.ino[i].size || off + |src| > UINT_MAX {
      return true, -1, own, {};
    }
    if off + |src| > MAXBYTES {
      return true, -1, own, {};
    }
    ghost var t;
    ok, own', t := CopyIn(fs, i, src, off, own);
    extra := {};
    if !ok {
      return false, 0, own', {};
    }
    ghost var g := fs.f;
    WritingOk(f0, g, fs.sb, own', i, off, src, |src|, was, fs.logged, t);
    assert fs.logged <= was + t.data + t.bits + Indirect(g, i) by { LogsWithin(f0, g, fs.sb, i, was, fs.logged, t); }
    extra := t.data + t.bits + Indirect(g, i) + {InodeBlock(fs.sb, i)};
    if NoHoles(f0, i) {
      LogsFit(f0, g, fs.sb, i, off, |src|, was, fs.logged, t);
    }
    if |src| > 0 && off + |src| > fs.f.ino[i].size {
      EndLong(f0, g, fs.sb, own', i, off, src, was, fs.logged, t);
      fs.f := SetSize(fs.f, i, off + |src|);
      UpdateInode(fs, i);
    } else {
      EndShort(f0, g, fs.sb, own', i, off, src, was, fs.logged, t);
    }
    return true, |src|, own', extra;
  }

  lemma LogsWithin(f: Fs, g: Fs, sb: Super, i: nat, was: set<nat>, logged: set<nat>, t: Tally)
    requires SizesOk(f, sb) && SizesOk(g, sb) && i < sb.ninodes && Logs(f, g, i, was, logged, t)
    ensures logged <= was + t.data + t.bits + Indirect(g, i)
  {
  }
}

/** The log over the buffer cache (xv6/log.c over xv6/bio.c): commit and recovery as the source
    runs them through bread, bwrite and brelse. */
module LogSystem {
  import opened Blocks
  import opened Bio
  import opened RedoLog

  /** Nobody holds the buffer of block b. */
  predicate Unlocked(c: Cache, b: nat) {
    forall i :: 0 <= i < |c.buf| && Live(c.buf[i], b) ==> !c.buf[i].locked
  }

  ghost predicate Dirty(c: Cache, b: nat) {
    exists i :: 0 <= i < |c.buf| && Live(c.buf[i], b) && c.buf[i].dirty
  }

  /** Block y can be read while another block is held: its buffer cannot be recycled, or two
      buffers can. */
  ghost predicate Room(c: Cache, y: nat) {
    && (exists i :: 0 <= i < |c.buf| && Recyclable(c.buf[i]))
    && (Pinned(c, y) || exists i, j :: 0 <= i < j < |c.buf| && Recyclable(c.buf[i]) && Recyclable(c.buf[j]))
  }

  ghost predicate Pinned(c: Cache, y: nat) {
    exists k :: 0 <= k < |c.buf| && Live(c.buf[k], y) && !Recyclable(c.buf[k])
  }

  lemma CanRead(c: Cache, b: nat)
    requires Coherent(c) && Unlocked(c, b)
    requires Cached(c, b) || exists i :: 0 <= i < |c.buf| && Recyclable(c.buf[i])
    ensures CanGet(c, b)
  {
    if !Cached(c, b) {
      var i :| 0 <= i < |c.buf| && Recyclable(c.buf[i]);
      assert i in c.lru;
    }
  }

  /** What bringing block dst to value v through the cache does: bread, modify, bwrite, brelse. */
  ghost predicate Stored(c: Cache, d: Cache, dst: nat, v: Block)
    requires dst < |c.disk|
  {
    && Coherent(d) && |d.disk| == |c.disk| && |d.buf| == |c.buf|
    && d.disk == c.disk[dst := v]
    && d.writes == c.writes + [(dst, v)]
    && ReadsAs(c, d, dst, v) && FlagsKept(c, d, dst)
  }

  ghost predicate ReadsAs(c: Cache, d: Cache, dst: nat, v: Block) {
    |d.disk| == |c.disk| &&
    forall z :: 0 <= z < |c.disk| ==> Logical(d, z) == if z == dst then v else Logical(c, z)
  }

  ghost predicate FlagsKept(c: Cache, d: Cache, dst: nat) {
    && |d.buf| == |c.buf|
    && (forall z :: Dirty(d, z) <==> Dirty(c, z) && z != dst)
    && (forall z :: Unlocked(c, z) ==> Unlocked(d, z))
    && (forall i :: 0 <= i < |c.buf| && Recyclable(c.buf[i]) ==> Recyclable(d.buf[i]))
    && HeldSame(c, d)
  }

  /** The same buffers are held, and those are untouched. */
  ghost predicate HeldSame(c: Cache, d: Cache) {
    && |d.buf| == |c.buf|
    && forall i :: 0 <= i < |c.buf| ==>
         d.buf[i].refcnt == c.buf[i].refcnt && if c.buf[i].locked then d.buf[i] == c.buf[i] else !d.buf[i].locked
  }

  /** Two buffers held at once. */
  ghost predicate Both(c: Cache, d: Cache, x: nat, y: nat, i: nat, j: nat) {
    && Coherent(c) && Coherent(d) && d.disk == c.disk && d.writes == c.writes && |d.buf| == |c.buf|
    && x < |c.disk| && y < |c.disk| && x != y && i < |c.buf| && j < |c.buf| && i != j
    && (forall k :: 0 <= k < |c.buf| && k != i && k != j ==> d.buf[k] == c.buf[k])
    && (forall z :: 0 <= z < |c.disk| ==> Logical(d, z) == Logical(c, z))
    && Taken(c.buf[i], d.buf[i], x, c.disk[x]) && Taken(c.buf[j], d.buf[j], y, c.disk[y])
    && d.buf[i].data == Logical(c, x) && d.buf[j].data == Logical(c, y)
  }

  lemma StillRoom(c: Cache, d: Cache, x: nat, y: nat, i: nat)
    requires Coherent(c) && Coherent(d) && x < |c.disk| && x != y
    requires SameBut(c, d, i) && Taken(c.buf[i], d.buf[i], x, c.disk[x]) && Room(c, y) && Unlocked(c, y)
    ensures CanGet(d, y)
  {
    assert Unlocked(d, y);
    if Pinned(c, y) {
      var k :| 0 <= k < |c.buf| && Live(c.buf[k], y) && !Recyclable(c.buf[k]);
      FindIs(d, k, y);
    } else {
      var k, l :| 0 <= k < l < |c.buf| && Recyclable(c.buf[k]) && Recyclable(c.buf[l]);
      assert Recyclable(d.buf[if k == i then l else k]);
    }
    CanRead(d, y);
  }

  lemma TakeBoth(c: Cache, x: nat, y: nat) returns (d: Cache, i: nat, j: nat)
    requires Coherent(c) && x < |c.disk| && y < |c.disk| && x != y
    requires Unlocked(c, x) && Unlocked(c, y) && Room(c, y)
    ensures CanGet(c, x) && i == Slot(c, x)
    ensures var c1 := Bread(c, x); Shaped(c1) && CanGet(c1, y) && j == Slot(c1, y) && d == Bread(c1, y)
    ensures Both(c, d, x, y, i, j)
  {
    hide Bread, Slot, CanGet, Logical, BufsOk, Clean;
    CanRead(c, x);
    BreadKeeps(c, x);
    i := Slot(c, x);
    var c1 := Bread(c, x);
    StillRoom(c, c1, x, y, i);
    BreadKeeps(c1, y);
    j := Slot(c1, y);
    d := Bread(c1, y);
    assert i != j;
  }

  /** Copy buffer r into buffer w, write w to disk and release both. */
  function CopyOut(d: Cache, r: nat, w: nat): Cache
    requires r < |d.buf| && w < |d.buf| && r != w && d.buf[w].blockno < |d.disk|
    requires d.buf[r].refcnt > 0 && d.buf[w].refcnt > 0
  {
    Brelse(Brelse(Bwrite(Modify(d, w, d.buf[r].data), w), r), w)
  }

  lemma CopyOutLogical(d: Cache, r: nat, w: nat)
    requires Coherent(d) && r < |d.buf| && w < |d.buf| && r != w && d.buf[r].locked && d.buf[w].locked
    requires d.buf[r].dev != 0 && d.buf[w].dev != 0
    requires d.buf[r].dirty || d.buf[r].data == d.disk[d.buf[r].blockno]
    ensures var e, dst := CopyOut(d, r, w), d.buf[w].blockno;
            && Coherent(e) && |e.buf| == |d.buf|
            && e.disk == d.disk[dst := d.buf[r].data] && e.writes == d.writes + [(dst, d.buf[r].data)]
            && (forall z :: 0 <= z < |d.disk| ==> Logical(e, z) == if z == dst then d.buf[r].data else Logical(d, z))
            && (forall k :: 0 <= k < |d.buf| && k != r && k != w ==> e.buf[k] == d.buf[k])
            && e.buf[r] == d.buf[r].(locked := false, refcnt := d.buf[r].refcnt - 1)
            && e.buf[w] ==
                 d.buf[w].(locked := false, refcnt := d.buf[w].refcnt - 1, data := d.buf[r].data, dirty := false)
  {
    var data := d.buf[r].data;
    ModifyKeeps(d, w, data);
    var c3 := Modify(d, w, data);
    BwriteKeeps(c3, w);
    var c4 := Bwrite(c3, w);
    assert c4.buf[r] == d.buf[r] && d.buf[r].blockno != d.buf[w].blockno;
    BrelseKeeps(c4, r);
    var c5 := Brelse(c4, r);
    BrelseKeeps(c5, w);
    hide Logical, Shaped, BufsOk, Clean;
  }

  /** A buffer before bread and after brelse of block b. */
  predicate Returned(was: Buf, now: Buf, b: nat, written: bool) {
    && Live(now, b) && !now.locked && now.refcnt == was.refcnt && now.dirty == (was.dirty && !written)
    && (was.dirty ==> Live(was, b)) && (!Live(was, b) ==> Recyclable(was)) && !was.locked
  }

  lemma CopyFlags(c: Cache, e: Cache, r: nat, w: nat, src: nat, dst: nat)
    requires BufsOk(c) && |e.buf| == |c.buf| && r < |c.buf| && w < |c.buf| && r != w && src != dst
    requires forall k :: 0 <= k < |c.buf| && k != r && k != w ==> e.buf[k] == c.buf[k]
    requires Returned(c.buf[r], e.buf[r], src, false) && Returned(c.buf[w], e.buf[w], dst, true)
    requires BufsOk(e)
    ensures FlagsKept(c, e, dst)
  {
    forall z
      ensures Dirty(e, z) <==> Dirty(c, z) && z != dst
    {
      if Dirty(e, z) {
        var k :| 0 <= k < |e.buf| && Live(e.buf[k], z) && e.buf[k].dirty;
        assert Live(c.buf[k], z) && c.buf[k].dirty;
      }
      if Dirty(c, z) && z != dst {
        var k :| 0 <= k < |c.buf| && Live(c.buf[k], z) && c.buf[k].dirty;
        assert Live(e.buf[k], z) && e.buf[k].dirty;
      }
    }
  }

  lemma CopyDone(c: Cache, d: Cache, src: nat, dst: nat, r: nat, w: nat)
    requires Both(c, d, src, dst, r, w)
    ensures Stored(c, CopyOut(d, r, w), dst, Logical(c, src))
  {
    CopyOutLogical(d, r, w);
    var e := CopyOut(d, r, w);
    assert Returned(c.buf[r], e.buf[r], src, false) && Returned(c.buf[w], e.buf[w], dst, true);
    hide CopyOut, Logical, Shaped, Clean, BufsOk, FlagsKept;
    CopyFlags(c, e, r, w, src, dst);
  }

  lemma BothSwap(c: Cache, d: Cache, x: nat, y: nat, i: nat, j: nat)
    requires Both(c, d, x, y, i, j)
    ensures Both(c, d, y, x, j, i)
  {
  }

  /** Store v in a held buffer, write it and release it. */
  function PutOut(d: Cache, i: nat, v: Block): Cache
    requires i < |d.buf| && d.buf[i].blockno < |d.disk| && d.buf[i].refcnt > 0
  {
    Brelse(Bwrite(Modify(d, i, v), i), i)
  }

  lemma PutOutLogical(d: Cache, i: nat, v: Block)
    requires Coherent(d) && i < |d.buf| && d.buf[i].locked && d.buf[i].dev != 0
    ensures var e, dst := PutOut(d, i, v), d.buf[i].blockno;
            && Coherent(e) && |e.buf| == |d.buf|
            && e.disk == d.disk[dst := v] && e.writes == d.writes + [(dst, v)]
            && (forall z :: 0 <= z < |d.disk| ==> Logical(e, z) == if z == dst then v else Logical(d, z))
            && (forall k :: 0 <= k < |d.buf| && k != i ==> e.buf[k] == d.buf[k])
            && e.buf[i] == d.buf[i].(locked := false, refcnt := d.buf[i].refcnt - 1, data := v, dirty := false)
  {
    ModifyKeeps(d, i, v);
    BwriteKeeps(Modify(d, i, v), i);
    BrelseKeeps(Bwrite(Modify(d, i, v), i), i);
    hide Logical, Shaped, BufsOk, Clean;
  }

  lemma PutFlags(c: Cache, e: Cache, w: nat, dst: nat)
    requires BufsOk(c) && |e.buf| == |c.buf| && w < |c.buf|
    requires forall k :: 0 <= k < |c.buf| && k != w ==> e.buf[k] == c.buf[k]
    requires Returned(c.buf[w], e.buf[w], dst, true) && BufsOk(e)
    ensures FlagsKept(c, e, dst)
  {
    forall z
      ensures Dirty(e, z) <==> Dirty(c, z) && z != dst
    {
      if Dirty(e, z) {
        var k :| 0 <= k < |e.buf| && Live(e.buf[k], z) && e.buf[k].dirty;
        assert Live(c.buf[k], z) && c.buf[k].dirty;
      }
      if Dirty(c, z) && z != dst {
        var k :| 0 <= k < |c.buf| && Live(c.buf[k], z) && c.buf[k].dirty;
        assert Live(e.buf[k], z) && e.buf[k].dirty;
      }
    }
  }

  lemma PutDone(c: Cache, b: nat, v: Block)
    requires Coherent(c) && b < |c.disk| && CanGet(c, b)
    ensures var d, i := Bio.Bread(c, b), Slot(c, b);
            i < |d.buf| && d.buf[i].blockno < |d.disk| && d.buf[i].refcnt > 0 &&
            d.buf[i].data == Logical(c, b) && Stored(c, PutOut(d, i, v), b, v)
  {
    BreadKeeps(c, b);
    var d, i := Bio.Bread(c, b), Slot(c, b);
    hide Bio.Bread, Slot, CanGet;
    PutOutLogical(d, i, v);
    var e := PutOut(d, i, v);
    assert Returned(c.buf[i], e.buf[i], b, true);
    hide PutOut, Logical, Shaped, Clean, BufsOk, FlagsKept;
    PutFlags(c, e, i, b);
  }

  // ------------------------------------------------------------------------------------
  // A commit in progress
  // ------------------------------------------------------------------------------------

  /** The disk and its history after k writes of the commit that started in c0. */
  ghost predicate Wrote(c: Cache, c0: Cache, g: Region, lh: seq<nat>, data: seq<Block>, k: nat)
    requires Tx(c0.disk, g, lh, data) && k <= 2 * |lh| + 2
  {
    && c.disk == CommitDisk(c0.disk, g, lh, data, k)
    && c.writes == c0.writes + CommitWrites(c0.disk, g, lh, data)[..k]
  }

  ghost predicate HasRoom(c: Cache) {
    exists i :: 0 <= i < |c.buf| && Recyclable(c.buf[i])
  }

  /** Nobody holds a log block or a block of the transaction. */
  ghost predicate Quiet(c: Cache, g: Region, lh: seq<nat>) {
    forall b :: InLog(g, b) || b in lh ==> Unlocked(c, b)
  }

  /** No block outside the log reads differently. */
  ghost predicate ReadsSame(c: Cache, c0: Cache, g: Region) {
    |c.disk| == |c0.disk| && forall b :: 0 <= b < |c.disk| && !InLog(g, b) ==> Logical(c, b) == Logical(c0, b)
  }

  /** The first k log blocks read as the transaction's data. */
  ghost predicate LogHolds(c: Cache, g: Region, data: seq<Block>, k: nat) {
    && g.start + |data| < |c.disk|
    && forall b :: g.start < b <= g.start + |data| && b <= g.start + k ==> Logical(c, b) == data[b - g.start - 1]
  }

  /** The cache at that point: no block outside the log reads differently, the log blocks
      written read as the transaction's data, and the blocks not yet installed are dirty. */
  ghost predicate Pending(c: Cache, c0: Cache, g: Region, lh: seq<nat>, data: seq<Block>, k: nat) {
    && Coherent(c) && HasRoom(c) && Quiet(c, g, lh) && ReadsSame(c, c0, g) && LogHolds(c, g, data, k)
    && DirtyFrom(c, lh, k) && HeldSame(c0, c)
  }

  /** Exactly the blocks whose home write is not among the first k writes are dirty. */
  ghost predicate DirtyFrom(c: Cache, lh: seq<nat>, k: nat) {
    forall b :: Dirty(c, b) <==> k <= IndexOf(lh, b) + |lh| + 1 <= 2 * |lh|
  }

  lemma DirtyNext(c: Cache, d: Cache, lh: seq<nat>, t: nat)
    requires t < |lh| && forall i, j :: 0 <= i < j < |lh| ==> lh[i] != lh[j]
    requires DirtyFrom(c, lh, |lh| + 1 + t) && forall b :: Dirty(d, b) <==> Dirty(c, b) && b != lh[t]
    ensures DirtyFrom(d, lh, |lh| + 2 + t)
  {
    forall b
      ensures Dirty(d, b) <==> |lh| + 2 + t <= IndexOf(lh, b) + |lh| + 1 <= 2 * |lh|
    {
      IndexNext(lh, t, b);
    }
  }

  lemma DirtyPinned(c: Cache, b: nat)
    requires Dirty(c, b)
    ensures Pinned(c, b)
  {
  }

  /** A buffer that is neither held nor dirty reads as the disk. */
  lemma CleanLogical(c: Cache, b: nat)
    requires Coherent(c) && b < |c.disk| && Unlocked(c, b) && !Dirty(c, b)
    ensures Logical(c, b) == c.disk[b]
  {
  }

  lemma WroteNext(c: Cache, d: Cache, c0: Cache, g: Region, lh: seq<nat>, data: seq<Block>, k: nat)
    requires Tx(c0.disk, g, lh, data) && k < 2 * |lh| + 2 && Wrote(c, c0, g, lh, data, k)
    requires var w := CommitWrites(c0.disk, g, lh, data)[k];
             w.0 < |c.disk| && d.disk == c.disk[w.0 := w.1] && d.writes == c.writes + [w]
    ensures Wrote(d, c0, g, lh, data, k + 1)
  {
    hide CommitWrites, DiskOk, TxOk, PutHeader, HeaderOf, Word;
    var ws := CommitWrites(c0.disk, g, lh, data);
    ApplyNext(c0.disk, ws, k);
    assert ws[..k + 1] == ws[..k] + [ws[k]];
  }

  lemma StoredRoom(c: Cache, d: Cache, dst: nat, v: Block)
    requires dst < |c.disk| && Stored(c, d, dst, v) && HasRoom(c)
    ensures HasRoom(d) && Coherent(d)
  {
    hide Coherent, Logical, Dirty, Unlocked;
    var i :| 0 <= i < |c.buf| && Recyclable(c.buf[i]);
    assert Recyclable(d.buf[i]);
  }

  lemma StoredQuiet(c: Cache, d: Cache, dst: nat, v: Block, g: Region, lh: seq<nat>)
    requires dst < |c.disk| && Stored(c, d, dst, v) && Quiet(c, g, lh)
    ensures Quiet(d, g, lh)
  {
    hide Coherent, Logical, Dirty, Unlocked;
  }

  lemma StoredReads(c: Cache, d: Cache, dst: nat, v: Block, c0: Cache, g: Region)
    requires dst < |c.disk| && Stored(c, d, dst, v) && ReadsSame(c, c0, g)
    requires InLog(g, dst) || (dst < |c0.disk| && v == Logical(c0, dst))
    ensures ReadsSame(d, c0, g)
  {
    hide Coherent, Logical, Dirty, Unlocked;
  }

  lemma StoredLog(c: Cache, d: Cache, dst: nat, v: Block, g: Region, data: seq<Block>, k: nat)
    requires dst < |c.disk| && Stored(c, d, dst, v) && LogHolds(c, g, data, k)
    ensures k < |data| && dst == g.start + 1 + k && v == data[k] ==> LogHolds(d, g, data, k + 1)
    ensures !(g.start < dst <= g.start + |data|) && k >= |data| ==> LogHolds(d, g, data, k + 1)
  {
    hide Coherent, Logical, Dirty, Unlocked;
  }

  lemma StoredHeld(c: Cache, d: Cache, dst: nat, v: Block, c0: Cache)
    requires dst < |c.disk| && Stored(c, d, dst, v) && HeldSame(c0, c)
    ensures HeldSame(c0, d)
  {
    hide Coherent, Logical, Dirty, Unlocked;
  }

  lemma StoredDirty(c: Cache, d: Cache, dst: nat, v: Block)
    requires dst < |c.disk| && Stored(c, d, dst, v)
    ensures forall b :: Dirty(d, b) <==> Dirty(c, b) && b != dst
  {
    hide Coherent, Logical, Dirty, Unlocked;
  }

  lemma PendingLog(c: Cache, d: Cache, c0: Cache, g: Region, lh: seq<nat>, data: seq<Block>, k: nat)
    requires Tx(c0.disk, g, lh, data) && k < |lh| && Pending(c, c0, g, lh, data, k)
    requires |c.disk| == |c0.disk| && Stored(c, d, g.start + 1 + k, data[k])
    ensures Pending(d, c0, g, lh, data, k + 1)
  {
    var dst, v := g.start + 1 + k, data[k];
    StoredDirty(c, d, dst, v);
    DirtyLog(c, d, g, lh, k);
    hide Stored, HasRoom, Quiet, ReadsSame, LogHolds, DirtyFrom, HeldSame, Coherent, Logical, Dirty, Unlocked;
    StoredRoom(c, d, dst, v);
    StoredHeld(c, d, dst, v, c0);
    StoredQuiet(c, d, dst, v, g, lh);
    StoredReads(c, d, dst, v, c0, g);
    StoredLog(c, d, dst, v, g, data, k);
  }

  /** Writing a log block leaves the set of dirty blocks alone. */
  lemma DirtyLog(c: Cache, d: Cache, g: Region, lh: seq<nat>, k: nat)
    requires k < |lh| && DirtyFrom(c, lh, k) && forall b :: Dirty(d, b) <==> Dirty(c, b) && b != g.start + 1 + k
    requires |lh| < g.size && forall i :: 0 <= i < |lh| ==> !InLog(g, lh[i])
    ensures DirtyFrom(d, lh, k + 1)
  {
    hide Dirty;
  }

  lemma PendingInstall(c: Cache, d: Cache, c0: Cache, g: Region, lh: seq<nat>, data: seq<Block>, t: nat)
    requires Tx(c0.disk, g, lh, data) && t < |lh| && Pending(c, c0, g, lh, data, |lh| + 1 + t)
    requires |c.disk| == |c0.disk| && Stored(c, d, lh[t], data[t]) && Logical(c0, lh[t]) == data[t]
    ensures Pending(d, c0, g, lh, data, |lh| + 2 + t)
  {
    var dst, v := lh[t], data[t];
    StoredDirty(c, d, dst, v);
    hide Stored, HasRoom, Quiet, ReadsSame, LogHolds, DirtyFrom, HeldSame, Coherent, Logical, Dirty, Unlocked;
    DirtyNext(c, d, lh, t);
    StoredRoom(c, d, dst, v);
    StoredHeld(c, d, dst, v, c0);
    StoredQuiet(c, d, dst, v, g, lh);
    StoredReads(c, d, dst, v, c0, g);
    StoredLog(c, d, dst, v, g, data, |lh| + 1 + t);
  }

  lemma PendingHead(c: Cache, d: Cache, c0: Cache, g: Region, lh: seq<nat>, data: seq<Block>, k: nat, v: Block)
    requires Tx(c0.disk, g, lh, data) && (k == |lh| || k == 2 * |lh| + 1) && Pending(c, c0, g, lh, data, k)
    requires |c.disk| == |c0.disk| && Stored(c, d, g.start, v)
    ensures Pending(d, c0, g, lh, data, k + 1)
  {
    var dst := g.start;
    StoredDirty(c, d, dst, v);
    DirtyHead(c, d, g, lh, k);
    hide Stored, HasRoom, Quiet, ReadsSame, LogHolds, DirtyFrom, HeldSame, Coherent, Logical, Dirty, Unlocked;
    StoredRoom(c, d, dst, v);
    StoredHeld(c, d, dst, v, c0);
    StoredQuiet(c, d, dst, v, g, lh);
    StoredReads(c, d, dst, v, c0, g);
    StoredLog(c, d, dst, v, g, data, k);
  }

  lemma DirtyHead(c: Cache, d: Cache, g: Region, lh: seq<nat>, k: nat)
    requires (k == |lh| || k == 2 * |lh| + 1) && 0 < g.size
    requires DirtyFrom(c, lh, k) && forall b :: Dirty(d, b) <==> Dirty(c, b) && b != g.start
    requires forall i :: 0 <= i < |lh| ==> !InLog(g, lh[i])
    ensures DirtyFrom(d, lh, k + 1)
  {
    hide Dirty;
  }

  /** What the loops of a commit rely on at write k. */
  ghost predicate Committing(c: Cache, c0: Cache, g: Region, lh: seq<nat>, data: seq<Block>, k: nat) {
    && Tx(c0.disk, g, lh, data) && k <= 2 * |lh| + 2 && |c.disk| == |c0.disk|
    && Wrote(c, c0, g, lh, data, k) && Pending(c, c0, g, lh, data, k)
    && forall t :: 0 <= t < |lh| ==> Logical(c0, lh[t]) == data[t]
  }

  lemma LogReady(c: Cache, c0: Cache, g: Region, lh: seq<nat>, data: seq<Block>, k: nat)
    requires Committing(c, c0, g, lh, data, k) && k < |lh|
    ensures var x, y := g.start + 1 + k, lh[k];
            && Coherent(c) && x < |c.disk| && y < |c.disk| && x != y
            && Unlocked(c, x) && Unlocked(c, y) && Room(c, y) && |data| == |lh| && Logical(c, y) == data[k]
  {
    assert IndexOf(lh, lh[k]) < |lh|;
    assert Dirty(c, lh[k]);
    hide Coherent, Logical, Unlocked, Recyclable, Dirty, Wrote;
    DirtyPinned(c, lh[k]);
  }

  lemma LogDone(c: Cache, d: Cache, c0: Cache, g: Region, lh: seq<nat>, data: seq<Block>, k: nat)
    requires k < |lh| == |data| && g.start + 1 + k < |c.disk|
    requires Stored(c, d, g.start + 1 + k, data[k]) && Committing(c, c0, g, lh, data, k)
    ensures Committing(d, c0, g, lh, data, k + 1)
  {
    hide Coherent, Logical, Unlocked, Recyclable, Dirty, Wrote, Pending, ReadsAs, FlagsKept, PutHeader, HeaderOf, Word;
    CommitWriteIs(c0.disk, g, lh, data, k);
    PendingLog(c, d, c0, g, lh, data, k);
    WroteNext(c, d, c0, g, lh, data, k);
  }

  lemma InstallReady(c: Cache, c0: Cache, g: Region, lh: seq<nat>, data: seq<Block>, t: nat)
    requires t < |lh| && Committing(c, c0, g, lh, data, |lh| + 1 + t)
    ensures var x, y := g.start + 1 + t, lh[t];
            && Coherent(c) && x < |c.disk| && y < |c.disk| && x != y
            && Unlocked(c, x) && Unlocked(c, y) && Room(c, y) && |data| == |lh| && Logical(c, x) == data[t]
  {
    hide Coherent, Logical, Unlocked, Recyclable, Dirty, Wrote;
    IndexNext(lh, t, lh[t]);
    assert Dirty(c, lh[t]);
    DirtyPinned(c, lh[t]);
  }

  lemma InstallDone(c: Cache, d: Cache, c0: Cache, g: Region, lh: seq<nat>, data: seq<Block>, t: nat)
    requires t < |lh| == |data| && lh[t] < |c.disk|
    requires Stored(c, d, lh[t], data[t]) && Committing(c, c0, g, lh, data, |lh| + 1 + t)
    ensures Committing(d, c0, g, lh, data, |lh| + 2 + t)
  {
    hide Coherent, Logical, Unlocked, Recyclable, Dirty, Wrote, Pending, ReadsAs, FlagsKept, PutHeader, HeaderOf, Word;
    CommitWriteIs(c0.disk, g, lh, data, |lh| + 1 + t);
    PendingInstall(c, d, c0, g, lh, data, t);
    WroteNext(c, d, c0, g, lh, data, |lh| + 1 + t);
  }

  lemma HeadReady(c: Cache, c0: Cache, g: Region, lh: seq<nat>, data: seq<Block>, k: nat)
    requires Committing(c, c0, g, lh, data, k) && (k == |lh| || k == 2 * |lh| + 1)
    ensures Coherent(c) && g.start < |c.disk| && CanGet(c, g.start) && Logical(c, g.start) == c.disk[g.start]
    ensures |lh| <= LOGSIZE && forall i :: 0 <= i < |lh| ==> lh[i] <= UINT_MAX
    ensures g.start < |c0.disk|
    ensures c.disk[g.start] == if k == |lh| then c0.disk[g.start] else PutHeader(c0.disk[g.start], lh)
  {
    CommitPrefix(c0.disk, g, lh, data, k, g.start);
    hide PutHeader, HeaderOf, Word, CommitDisk, CommitWrites;
    assert IndexOf(lh, g.start) == |lh|;
    assert !Dirty(c, g.start);
    CleanLogical(c, g.start);
    CanRead(c, g.start);
  }

  lemma HeadDone(c: Cache, d: Cache, c0: Cache, g: Region, lh: seq<nat>, data: seq<Block>, k: nat)
    requires k == |lh| || k == 2 * |lh| + 1
    requires g.start < |c0.disk| && g.start < |c.disk| && |lh| <= LOGSIZE
    requires forall i :: 0 <= i < |lh| ==> lh[i] <= UINT_MAX
    requires Committing(c, c0, g, lh, data, k)
    requires var head := PutHeader(c0.disk[g.start], lh);
             Stored(c, d, g.start, if k == |lh| then head else PutHeader(head, []))
    ensures Committing(d, c0, g, lh, data, k + 1)
  {
    hide Coherent, Logical, Unlocked, Recyclable, Dirty, Wrote, Pending, ReadsAs, FlagsKept, PutHeader, HeaderOf, Word;
    CommitWriteIs(c0.disk, g, lh, data, k);
    var head := PutHeader(c0.disk[g.start], lh);
    PendingHead(c, d, c0, g, lh, data, k, if k == |lh| then head else PutHeader(head, []));
    WroteNext(c, d, c0, g, lh, data, k);
  }

  lemma CommitTrace(c: Cache, c0: Cache, g: Region, lh: seq<nat>, data: seq<Block>)
    requires Committing(c, c0, g, lh, data, 2 * |lh| + 2)
    ensures Tx(c0.disk, g, lh, data) && c.writes == c0.writes + CommitWrites(c0.disk, g, lh, data)
  {
    hide Pending, Logical, CommitDisk;
    var ws := CommitWrites(c0.disk, g, lh, data);
    assert ws[..2 * |lh| + 2] == ws;
  }

  // ------------------------------------------------------------------------------------
  // A recovery in progress
  // ------------------------------------------------------------------------------------

  /** Every buffer can be recycled: nothing is held and nothing waits for a commit. */
  ghost predicate Idle(c: Cache) {
    Coherent(c) && |c.buf| >= 2 && forall i :: 0 <= i < |c.buf| ==> Recyclable(c.buf[i])
  }

  /** The cache after k writes of the recovery of disk d0. */
  ghost predicate Recovering(c: Cache, d0: seq<Block>, g: Region, k: nat) {
    && DiskOk(d0, g) && k <= |HeaderOf(d0[g.start])| + 1 && Idle(c)
    && c.disk == RecoverDisk(d0, g, k) && c.writes == RecoverWrites(d0, g)[..k]
  }

  lemma IdleReads(c: Cache, b: nat)
    requires Idle(c) && b < |c.disk|
    ensures Coherent(c) && Unlocked(c, b) && CanGet(c, b) && Room(c, b) && Logical(c, b) == c.disk[b]
  {
    assert Recyclable(c.buf[0]) && Recyclable(c.buf[1]);
    CanRead(c, b);
    CleanLogical(c, b);
  }

  lemma StoredIdle(c: Cache, d: Cache, dst: nat, v: Block)
    requires dst < |c.disk| && Stored(c, d, dst, v) && Idle(c)
    ensures Idle(d)
  {
    hide Coherent, ReadsAs, Dirty, Unlocked;
  }

  lemma RecoverReady(c: Cache, d0: seq<Block>, g: Region, lh: seq<nat>, k: nat)
    requires DiskOk(d0, g) && Recovering(c, d0, g, k) && lh == HeaderOf(d0[g.start]) && k <= |lh|
    ensures Idle(c) && |c.disk| == |d0| && g.start < |c.disk|
    ensures k < |lh| ==> lh[k] < |c.disk| && g.start + 1 + k < |c.disk| && lh[k] != g.start + 1 + k
    ensures k < |lh| ==> c.disk[g.start + 1 + k] == d0[g.start + 1 + k]
    ensures c.disk[g.start] == d0[g.start]
  {
    hide Idle, PutHeader, Word, RecoverWrites, HeaderOf;
    RecoverPrefix(d0, g, k, g.start);
    if k < |lh| {
      RecoverPrefix(d0, g, k, g.start + 1 + k);
      assert IndexOf(lh, g.start + 1 + k) == |lh|;
    }
    hide RecoverDisk;
  }

  lemma RecoverStep(c: Cache, d0: seq<Block>, g: Region, lh: seq<nat>, k: nat)
    requires DiskOk(d0, g) && lh == HeaderOf(d0[g.start]) && k < |lh| && Recovering(c, d0, g, k)
    ensures var x, y := g.start + 1 + k, lh[k];
            && Coherent(c) && x < |c.disk| && y < |c.disk| && x != y
            && Unlocked(c, x) && Unlocked(c, y) && Room(c, y)
            && RecoverWrites(d0, g)[k] == (y, Logical(c, x))
  {
    hide Recovering, HeaderOf, Word, RecoverWrites, Idle, Coherent, Unlocked, Room, Logical;
    RecoverReady(c, d0, g, lh, k);
    RecoverWriteIs(d0, g, k);
    IdleReads(c, g.start + 1 + k);
    IdleReads(c, lh[k]);
  }

  lemma RecoverClear(c: Cache, d0: seq<Block>, g: Region)
    requires DiskOk(d0, g) && Recovering(c, d0, g, |HeaderOf(d0[g.start])|)
    ensures Coherent(c) && g.start < |c.disk| && CanGet(c, g.start)
    ensures RecoverWrites(d0, g)[|HeaderOf(d0[g.start])|] == (g.start, PutHeader(Logical(c, g.start), []))
  {
    var lh := HeaderOf(d0[g.start]);
    hide Recovering, HeaderOf, Word, RecoverWrites, Idle, Unlocked, Room, Logical, PutHeader;
    RecoverReady(c, d0, g, lh, |lh|);
    RecoverWriteIs(d0, g, |lh|);
    IdleReads(c, g.start);
  }

  lemma RecoverDone(c: Cache, d: Cache, d0: seq<Block>, g: Region, k: nat)
    requires Recovering(c, d0, g, k) && k <= |HeaderOf(d0[g.start])|
    requires var w := RecoverWrites(d0, g)[k]; w.0 < |c.disk| && Stored(c, d, w.0, w.1)
    ensures Recovering(d, d0, g, k + 1)
  {
    hide Coherent, ReadsAs, FlagsKept, PutHeader, Word, HeaderOf;
    var ws := RecoverWrites(d0, g);
    ApplyNext(d0, ws, k);
    assert ws[..k + 1] == ws[..k] + [ws[k]];
    hide RecoverWrites;
    StoredIdle(c, d, ws[k].0, ws[k].1);
  }

  /** bread and brelse without a change in between. */
  lemma ReadOnly(c: Cache, b: nat)
    requires Idle(c) && b < |c.disk|
    ensures CanGet(c, b)
    ensures var d, i := Bio.Bread(c, b), Slot(c, b);
            && i < |d.buf| && d.buf[i].refcnt > 0 && d.buf[i].data == c.disk[b]
            && Idle(Bio.Brelse(d, i)) && Bio.Brelse(d, i).disk == c.disk && Bio.Brelse(d, i).writes == c.writes
            && |Bio.Brelse(d, i).buf| == |c.buf|
  {
    IdleReads(c, b);
    BreadKeeps(c, b);
    var d, i := Bio.Bread(c, b), Slot(c, b);
    assert Recyclable(c.buf[i]);
    hide Bio.Bread, Slot, CanGet, Logical;
    BrelseKeeps(d, i);
    var e := Bio.Brelse(d, i);
    assert forall k :: 0 <= k < |e.buf| ==> Recyclable(e.buf[k]);
  }
}

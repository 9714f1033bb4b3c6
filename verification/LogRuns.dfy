/** Runs of the log over the cache: any sequence of reads, logged updates, releases, commits and
    crashes behaves like two plain disks, a current one and a durable one that a commit
    replaces at once. */
module LogRuns {
  import opened Blocks
  import opened Bio
  import opened RedoLog
  import opened LogSystem

  /** The plain disks: current is what readers see, durable what a crash leaves. held is the
      set of blocks whose buffers somebody holds, logged the blocks updated since the last
      commit. */
  datatype Spec = Spec(durable: seq<Block>, current: seq<Block>, held: set<nat>, logged: seq<nat>)

  /** Open is bread; Update is a change of the held buffer followed by log_write; Close is
      brelse. A crash stops the machine after the first k disk writes of a commit (none if
      k is 0), and the recoveries that follow crash after cuts[i] writes each. */
  datatype Op = Open(b: nat) | Update(b: nat, v: Block) | Close(b: nat) | Commit | Crash(k: nat, cuts: seq<nat>)

  function ToSet(s: seq<nat>): set<nat> {
    set x | x in s
  }

  /** A block the file system may use. */
  predicate Home(s: Spec, g: Region, b: nat) {
    b < |s.current| && b <= UINT_MAX && !InLog(g, b)
  }

  /** bget's panic: block b is not cached and no buffer can be recycled. */
  predicate NoBuffers(s: Spec, b: nat, nbuf: nat) {
    b !in s.held + ToSet(s.logged) && |s.held + ToSet(s.logged)| >= nbuf
  }

  predicate CanCommit(s: Spec, nbuf: nat) {
    && s.held * ToSet(s.logged) == {}
    && |s.held + ToSet(s.logged)| < nbuf
  }

  /** The calls that do not sleep or panic. */
  predicate Enabled(s: Spec, op: Op, g: Region, nbuf: nat) {
    match op
    case Open(b) => Home(s, g, b) && b !in s.held && !NoBuffers(s, b, nbuf)
    case Update(b, v) => b in s.held && |s.logged| < LOGSIZE && |s.logged| < g.size - 1
    case Close(b) => b in s.held
    case Commit => CanCommit(s, nbuf)
    case Crash(k, cuts) => k == 0 || (CanCommit(s, nbuf) && s.logged != [] && k <= 2 * |s.logged| + 2)
  }

  function Next(s: Spec, op: Op): Spec {
    match op
    case Open(b) => s.(held := s.held + {b})
    case Update(b, v) =>
      if b < |s.current| then
        s.(current := s.current[b := v], logged := if b in s.logged then s.logged else s.logged + [b])
      else s
    case Close(b) => s.(held := s.held - {b})
    case Commit => s.(durable := s.current, logged := [])
    case Crash(k, cuts) =>
      var d := if k <= |s.logged| then s.durable else s.current;
      Spec(d, d, {}, [])
  }

  // ------------------------------------------------------------------------------------
  // The kernel's state behind a plain state
  // ------------------------------------------------------------------------------------

  ghost predicate LogEmpty(d: seq<Block>, g: Region) {
    DiskOk(d, g) && HeaderOf(d[g.start]) == []
  }

  /** Every reference is a holder's, nobody holds a log block, and a holder's change is logged. */
  ghost predicate HeldOk(c: Cache, g: Region) {
    forall i :: 0 <= i < |c.buf| ==>
      && c.buf[i].refcnt == (if c.buf[i].locked then 1 else 0)
      && (c.buf[i].locked ==> c.buf[i].dev != 0 && !InLog(g, c.buf[i].blockno))
      && (c.buf[i].locked && !c.buf[i].dirty ==>
            c.buf[i].blockno < |c.disk| && c.buf[i].data == c.disk[c.buf[i].blockno])
  }

  ghost predicate HeldAre(c: Cache, held: set<nat>) {
    forall b :: b in held <==> exists i :: 0 <= i < |c.buf| && Live(c.buf[i], b) && c.buf[i].locked
  }

  ghost predicate Shows(c: Cache, g: Region, s: Spec) {
    && |s.durable| == |s.current| == |c.disk|
    && forall b :: 0 <= b < |c.disk| && !InLog(g, b) ==> s.durable[b] == c.disk[b] && s.current[b] == Logical(c, b)
  }

  /** The cache c with in-memory header lh stands for the plain state s. */
  ghost predicate Abs(c: Cache, lh: seq<nat>, g: Region, s: Spec) {
    && Coherent(c) && |c.buf| >= 2 && LogEmpty(c.disk, g) && TxOk(lh, g, |c.disk|) && DirtyFrom(c, lh, 0)
    && HeldOk(c, g) && HeldAre(c, s.held) && s.logged == lh && Shows(c, g, s)
  }

  // ------------------------------------------------------------------------------------
  // Room in the cache
  // ------------------------------------------------------------------------------------

  /** A buffer that cannot be recycled holds a block that is held or logged. */
  lemma BusyBlock(c: Cache, lh: seq<nat>, g: Region, s: Spec, i: nat)
    requires Abs(c, lh, g, s) && i < |c.buf| && !Recyclable(c.buf[i])
    ensures c.buf[i].dev != 0 && c.buf[i].blockno in s.held + ToSet(s.logged)
  {
    hide Logical, Shows, LogEmpty, TxOk;
    var b := c.buf[i].blockno;
    if c.buf[i].dirty {
      assert Live(c.buf[i], b);
      assert Dirty(c, b);
      assert IndexOf(lh, b) < |lh|;
      assert lh[IndexOf(lh, b)] == b;
    } else {
      assert c.buf[i].locked && Live(c.buf[i], b);
    }
  }

  /** bget never runs out of buffers while fewer blocks are held or logged than there are
      buffers. */
  lemma RoomLeft(c: Cache, lh: seq<nat>, g: Region, s: Spec)
    requires Abs(c, lh, g, s) && |s.held + ToSet(s.logged)| < |c.buf|
    ensures HasRoom(c)
  {
    if !HasRoom(c) {
      var busy := s.held + ToSet(s.logged);
      forall i | 0 <= i < |c.buf|
        ensures c.buf[i].dev != 0 && c.buf[i].blockno in busy
      {
        BusyBlock(c, lh, g, s, i);
      }
      Pigeonhole(c.buf, busy);
    }
  }

  lemma {:induction false} Pigeonhole(buf: seq<Buf>, blocks: set<nat>)
    requires forall i :: 0 <= i < |buf| ==> buf[i].dev != 0 && buf[i].blockno in blocks
    requires forall i, j :: 0 <= i < j < |buf| && buf[i].dev != 0 && buf[j].dev != 0 ==>
               buf[i].blockno != buf[j].blockno
    ensures |buf| <= |blocks|
  {
    if buf != [] {
      var b := buf[0].blockno;
      Pigeonhole(buf[1..], blocks - {b});
    }
  }

  // ------------------------------------------------------------------------------------
  // bread
  // ------------------------------------------------------------------------------------

  lemma UnlockedHome(c: Cache, lh: seq<nat>, g: Region, s: Spec, b: nat)
    requires Abs(c, lh, g, s) && (b !in s.held || InLog(g, b))
    ensures Unlocked(c, b)
  {
    hide Coherent, Logical, Shows, LogEmpty, TxOk, DirtyFrom;
  }

  lemma OpenCan(c: Cache, lh: seq<nat>, g: Region, s: Spec, b: nat)
    requires Abs(c, lh, g, s) && Enabled(s, Open(b), g, |c.buf|)
    ensures Shaped(c) && CanGet(c, b) && b < |c.disk|
  {
    hide Coherent, HeldOk, HeldAre, Shows, CanGet;
    CoherentOf(c, lh, g, s);
    NoBuffersIff(c, lh, g, s, b);
    assert |s.current| == |c.disk| by { SizeOf(c, lh, g, s); }
  }

  lemma CoherentOf(c: Cache, lh: seq<nat>, g: Region, s: Spec)
    requires Abs(c, lh, g, s)
    ensures Coherent(c) && Shaped(c)
  {
    hide Shows, HeldOk, HeldAre, LogEmpty, TxOk, DirtyFrom;
  }

  lemma SizeOf(c: Cache, lh: seq<nat>, g: Region, s: Spec)
    requires Abs(c, lh, g, s)
    ensures |s.current| == |c.disk|
  {
    hide Coherent, HeldOk, HeldAre, LogEmpty, TxOk, DirtyFrom;
  }

  /** Blocks in busy buffers are no more than the buffers, and fewer if one is not busy. */
  lemma {:induction false} BusyCount(buf: seq<Buf>, blocks: set<nat>)
    requires forall b :: b in blocks ==> exists i :: 0 <= i < |buf| && Live(buf[i], b) && !Recyclable(buf[i])
    ensures |blocks| <= |buf|
    ensures (exists i :: 0 <= i < |buf| && Recyclable(buf[i])) ==> |blocks| < |buf|
  {
    if buf == [] {
      assert forall b :: b !in blocks;
      assert blocks == {};
    } else {
      var here := if Recyclable(buf[0]) then {} else {buf[0].blockno};
      var rest := blocks - here;
      forall b | b in rest
        ensures exists i :: 0 <= i < |buf[1..]| && Live(buf[1..][i], b) && !Recyclable(buf[1..][i])
      {
        var i :| 0 <= i < |buf| && Live(buf[i], b) && !Recyclable(buf[i]);
        assert i > 0 && buf[1..][i - 1] == buf[i];
      }
      BusyCount(buf[1..], rest);
      assert |blocks| <= |rest| + |here|;
      if i :| 0 <= i < |buf| && Recyclable(buf[i]) && i > 0 {
        assert Recyclable(buf[1..][i - 1]);
      }
    }
  }

  /** A held or logged block has a buffer that cannot be recycled. */
  lemma BlockBusy(c: Cache, lh: seq<nat>, g: Region, s: Spec, b: nat)
    requires Abs(c, lh, g, s) && b in s.held + ToSet(s.logged)
    ensures exists i :: 0 <= i < |c.buf| && Live(c.buf[i], b) && !Recyclable(c.buf[i])
  {
    hide Logical, Shows, LogEmpty, TxOk;
    if b in s.held {
      var i :| 0 <= i < |c.buf| && Live(c.buf[i], b) && c.buf[i].locked;
      assert !Recyclable(c.buf[i]);
    } else {
      IndexLess(lh, b);
      assert Dirty(c, b);
      var i :| 0 <= i < |c.buf| && Live(c.buf[i], b) && c.buf[i].dirty;
      assert !Recyclable(c.buf[i]);
    }
  }

  /** bget has a buffer to recycle exactly while fewer blocks are held or logged than there are
      buffers. */
  lemma RoomIff(c: Cache, lh: seq<nat>, g: Region, s: Spec)
    requires Abs(c, lh, g, s)
    ensures HasRoom(c) <==> |s.held + ToSet(s.logged)| < |c.buf|
  {
    hide Abs;
    if HasRoom(c) {
      forall b | b in s.held + ToSet(s.logged)
        ensures exists i :: 0 <= i < |c.buf| && Live(c.buf[i], b) && !Recyclable(c.buf[i])
      {
        BlockBusy(c, lh, g, s, b);
      }
      BusyCount(c.buf, s.held + ToSet(s.logged));
    } else if |s.held + ToSet(s.logged)| < |c.buf| {
      RoomLeft(c, lh, g, s);
    }
  }

  lemma CachedIff(c: Cache, b: nat)
    ensures Cached(c, b) <==> exists i :: 0 <= i < |c.buf| && Live(c.buf[i], b)
  {
  }

  lemma GetIff(c: Cache, b: nat)
    requires Coherent(c) && Unlocked(c, b)
    ensures CanGet(c, b) <==> Cached(c, b) || HasRoom(c)
  {
    if Cached(c, b) || HasRoom(c) {
      CanRead(c, b);
    } else {
      assert Victim(c, |c.lru|) < 0;
    }
  }

  /** bread of a block nobody holds panics exactly when as many other blocks are held or logged as there
      are buffers. */
  lemma NoBuffersIff(c: Cache, lh: seq<nat>, g: Region, s: Spec, b: nat)
    requires Abs(c, lh, g, s) && b !in s.held
    ensures Shaped(c) && (!CanGet(c, b) <==> NoBuffers(s, b, |c.buf|))
  {
    hide Abs, CanGet, Coherent, Shaped, HasRoom, Cached;
    CoherentOf(c, lh, g, s);
    UnlockedHome(c, lh, g, s, b);
    RoomIff(c, lh, g, s);
    GetIff(c, b);
    CachedIff(c, b);
    if b in s.held + ToSet(s.logged) {
      BlockBusy(c, lh, g, s, b);
    } else if !HasRoom(c) {
      forall i | 0 <= i < |c.buf|
        ensures !Live(c.buf[i], b)
      {
        AllBusy(c, i);
        BusyBlock(c, lh, g, s, i);
      }
    }
  }

  lemma AllBusy(c: Cache, i: nat)
    requires i < |c.buf| && !HasRoom(c)
    ensures !Recyclable(c.buf[i])
  {
  }

  lemma TakenDirty(c: Cache, d: Cache, i: nat, b: nat, v: Block)
    requires |d.buf| == |c.buf| && i < |c.buf| && Taken(c.buf[i], d.buf[i], b, v)
    requires forall j :: 0 <= j < |c.buf| && j != i ==> d.buf[j] == c.buf[j]
    ensures forall z :: Dirty(d, z) <==> Dirty(c, z)
  {
    forall z
      ensures Dirty(d, z) <==> Dirty(c, z)
    {
      if Dirty(c, z) {
        var k :| 0 <= k < |c.buf| && Live(c.buf[k], z) && c.buf[k].dirty;
        assert Live(d.buf[k], z) && d.buf[k].dirty;
      }
      if Dirty(d, z) {
        var k :| 0 <= k < |d.buf| && Live(d.buf[k], z) && d.buf[k].dirty;
        assert Live(c.buf[k], z) && c.buf[k].dirty;
      }
    }
  }

  lemma TakenHeld(c: Cache, d: Cache, i: nat, b: nat, g: Region, held: set<nat>)
    requires |d.buf| == |c.buf| && d.disk == c.disk && i < |c.buf| && b < |c.disk|
    requires Taken(c.buf[i], d.buf[i], b, c.disk[b])
    requires forall j :: 0 <= j < |c.buf| && j != i ==> d.buf[j] == c.buf[j]
    requires HeldOk(c, g) && HeldAre(c, held) && !InLog(g, b)
    ensures HeldOk(d, g) && HeldAre(d, held + {b})
  {
    forall z
      ensures z in held + {b} <==> exists k :: 0 <= k < |d.buf| && Live(d.buf[k], z) && d.buf[k].locked
    {
      if z in held {
        var k :| 0 <= k < |c.buf| && Live(c.buf[k], z) && c.buf[k].locked;
        assert Live(d.buf[k], z) && d.buf[k].locked;
      }
      if z == b {
        assert Live(d.buf[i], z) && d.buf[i].locked;
      }
    }
  }

  /** bread returns the block's last value. */
  lemma OpenStep(c: Cache, lh: seq<nat>, g: Region, s: Spec, b: nat)
    requires Abs(c, lh, g, s) && Enabled(s, Open(b), g, |c.buf|)
    ensures CanGet(c, b) && b < |c.disk| && Slot(c, b) < |c.buf|
    ensures var d, i := Bread(c, b), Slot(c, b);
            && Abs(d, lh, g, Next(s, Open(b))) && |d.buf| == |c.buf|
            && Live(d.buf[i], b) && d.buf[i].locked && d.buf[i].data == s.current[b]
  {
    hide Coherent, Bread, Slot, CanGet, LogEmpty, TxOk, HeldOk, HeldAre, Logical, Dirty;
    OpenCan(c, lh, g, s, b);
    BreadKeeps(c, b);
    var d, i := Bread(c, b), Slot(c, b);
    TakenDirty(c, d, i, b, c.disk[b]);
    TakenHeld(c, d, i, b, g, s.held);
  }

  // ------------------------------------------------------------------------------------
  // log_write and brelse
  // ------------------------------------------------------------------------------------

  /** The holder's change followed by log_write. */
  function LogIt(c: Cache, i: nat, v: Block): Cache
    requires i < |c.buf|
  {
    c.(buf := c.buf[i := c.buf[i].(data := v, dirty := true)])
  }

  function Absorb(lh: seq<nat>, b: nat): seq<nat> {
    if b in lh then lh else lh + [b]
  }

  lemma LogItReads(c: Cache, i: nat, v: Block)
    requires Coherent(c) && i < |c.buf| && c.buf[i].locked && c.buf[i].dev != 0
    ensures Coherent(LogIt(c, i, v)) && ReadsAs(c, LogIt(c, i, v), c.buf[i].blockno, v)
  {
    ModifyKeeps(c, i, v);
    var m, d := Modify(c, i, v), LogIt(c, i, v);
    assert BufsOk(d);
    forall z | 0 <= z < |c.disk|
      ensures Logical(d, z) == Logical(m, z)
    {
      if Live(c.buf[i], z) {
        FindIs(d, i, z);
        FindIs(m, i, z);
      } else {
        LogicalElsewhere(m, d, i, z);
      }
    }
  }

  lemma {:induction false} IndexLess(lh: seq<nat>, b: nat)
    ensures IndexOf(lh, b) < |lh| <==> b in lh
  {
    if b in lh {
      var i :| 0 <= i < |lh| && lh[i] == b;
    }
  }

  lemma LogItDirty(c: Cache, i: nat, v: Block, lh: seq<nat>)
    requires i < |c.buf| && c.buf[i].dev != 0 && DirtyFrom(c, lh, 0)
    ensures DirtyFrom(LogIt(c, i, v), Absorb(lh, c.buf[i].blockno), 0)
  {
    var d, b := LogIt(c, i, v), c.buf[i].blockno;
    var lh' := Absorb(lh, b);
    forall z
      ensures Dirty(d, z) <==> IndexOf(lh', z) < |lh'|
    {
      IndexLess(lh, z);
      IndexLess(lh', z);
      assert Dirty(c, z) <==> z in lh;
      if z == b {
        assert Live(d.buf[i], z) && d.buf[i].dirty;
      } else if Dirty(c, z) {
        var k :| 0 <= k < |c.buf| && Live(c.buf[k], z) && c.buf[k].dirty;
        assert Live(d.buf[k], z) && d.buf[k].dirty;
      }
    }
  }

  lemma LogItHeld(c: Cache, i: nat, v: Block, g: Region, held: set<nat>)
    requires i < |c.buf| && c.buf[i].locked && HeldOk(c, g) && HeldAre(c, held)
    ensures HeldOk(LogIt(c, i, v), g) && HeldAre(LogIt(c, i, v), held)
  {
    var d := LogIt(c, i, v);
    assert forall k :: 0 <= k < |c.buf| ==>
             d.buf[k].locked == c.buf[k].locked && d.buf[k].dev == c.buf[k].dev && d.buf[k].blockno == c.buf[k].blockno;
  }

  lemma UpdateStep(c: Cache, lh: seq<nat>, g: Region, s: Spec, i: nat, v: Block)
    requires i < |c.buf| && c.buf[i].locked && Abs(c, lh, g, s)
    requires |lh| < LOGSIZE && |lh| < g.size - 1 && c.buf[i].blockno <= UINT_MAX
    ensures Abs(LogIt(c, i, v), Absorb(lh, c.buf[i].blockno), g, Next(s, Update(c.buf[i].blockno, v)))
  {
    hide Logical, Dirty, LogEmpty, DirtyFrom, HeldAre;
    var b := c.buf[i].blockno;
    assert c.buf[i].dev != 0 && b < |c.disk| && !InLog(g, b);
    LogItReads(c, i, v);
    LogItDirty(c, i, v, lh);
    LogItHeld(c, i, v, g, s.held);
    hide Coherent, HeldOk;
  }

  lemma CloseHeld(c: Cache, i: nat, g: Region, held: set<nat>)
    requires BufsOk(c) && i < |c.buf| && c.buf[i].locked && HeldOk(c, g) && HeldAre(c, held)
    ensures c.buf[i].refcnt > 0 && HeldOk(Brelse(c, i), g) && HeldAre(Brelse(c, i), held - {c.buf[i].blockno})
  {
    var d, b := Brelse(c, i), c.buf[i].blockno;
    forall z
      ensures z in held - {b} <==> exists k :: 0 <= k < |d.buf| && Live(d.buf[k], z) && d.buf[k].locked
    {
      if z in held && z != b {
        var k :| 0 <= k < |c.buf| && Live(c.buf[k], z) && c.buf[k].locked;
        assert Live(d.buf[k], z) && d.buf[k].locked;
      }
    }
  }

  lemma CloseDirty(c: Cache, i: nat)
    requires i < |c.buf| && c.buf[i].refcnt > 0
    ensures forall z :: Dirty(Brelse(c, i), z) <==> Dirty(c, z)
  {
    var d := Brelse(c, i);
    assert forall k :: 0 <= k < |c.buf| ==>
             d.buf[k].dirty == c.buf[k].dirty && d.buf[k].dev == c.buf[k].dev && d.buf[k].blockno == c.buf[k].blockno;
  }

  lemma CloseStep(c: Cache, lh: seq<nat>, g: Region, s: Spec, i: nat)
    requires i < |c.buf| && c.buf[i].locked && Abs(c, lh, g, s)
    ensures c.buf[i].refcnt > 0 && Abs(Brelse(c, i), lh, g, Next(s, Close(c.buf[i].blockno)))
  {
    hide Logical, Dirty, LogEmpty, HeldAre;
    BrelseKeeps(c, i);
    CloseHeld(c, i, g, s.held);
    CloseDirty(c, i);
    hide Coherent, HeldOk;
  }

  // ------------------------------------------------------------------------------------
  // commit
  // ------------------------------------------------------------------------------------

  /** The data of the transaction: what the logged blocks read as. */
  function DataOf(c: Cache, lh: seq<nat>): (data: seq<Block>)
    requires forall t :: 0 <= t < |lh| ==> lh[t] < |c.disk|
    ensures |data| == |lh| && forall t :: 0 <= t < |lh| ==> data[t] == Logical(c, lh[t])
  {
    seq(|lh|, t requires 0 <= t < |lh| => Logical(c, lh[t]))
  }

  lemma CommitQuiet(c: Cache, lh: seq<nat>, g: Region, s: Spec)
    requires Abs(c, lh, g, s) && CanCommit(s, |c.buf|)
    ensures Quiet(c, g, lh)
  {
    hide Coherent, LogEmpty, TxOk, DirtyFrom, HeldOk, HeldAre, Shows, Unlocked;
    forall b | InLog(g, b) || b in lh
      ensures Unlocked(c, b)
    {
      assert b in s.held && b in ToSet(s.logged) ==> b in s.held * ToSet(s.logged);
      UnlockedHome(c, lh, g, s, b);
    }
  }

  lemma WroteNone(c: Cache, g: Region, lh: seq<nat>, data: seq<Block>)
    requires Tx(c.disk, g, lh, data)
    ensures Wrote(c, c, g, lh, data, 0)
  {
    hide DiskOk, TxOk;
    assert CommitWrites(c.disk, g, lh, data)[..0] == [];
  }

  lemma CommitStart(c: Cache, lh: seq<nat>, g: Region, s: Spec)
    requires Abs(c, lh, g, s) && CanCommit(s, |c.buf|) && lh != []
    ensures forall t :: 0 <= t < |lh| ==> lh[t] < |c.disk|
    ensures Committing(c, c, g, lh, DataOf(c, lh), 0)
  {
    hide Coherent, DirtyFrom, HeldOk, HeldAre, Shows, Logical, HasRoom, Quiet, Wrote, HeaderOf;
    RoomLeft(c, lh, g, s);
    CommitQuiet(c, lh, g, s);
    WroteNone(c, g, lh, DataOf(c, lh));
  }

  lemma NotDirtyReads(c: Cache, g: Region, b: nat)
    requires Coherent(c) && HeldOk(c, g) && b < |c.disk| && !Dirty(c, b)
    ensures Logical(c, b) == c.disk[b]
  {
  }

  /** The disk after a commit: every block outside the log as readers saw it. */
  lemma CommitInPlace(c: Cache, lh: seq<nat>, g: Region, s: Spec, b: nat)
    requires Abs(c, lh, g, s) && lh != [] && b < |c.disk| && !InLog(g, b)
    ensures Tx(c.disk, g, lh, DataOf(c, lh))
    ensures CommitDisk(c.disk, g, lh, DataOf(c, lh), 2 * |lh| + 2)[b] == Logical(c, b)
  {
    var data := DataOf(c, lh);
    CommitPrefix(c.disk, g, lh, data, 2 * |lh| + 2, b);
    hide CommitDisk, Logical, HeaderOf, Word, PutHeader;
    if IndexOf(lh, b) == |lh| {
      assert !Dirty(c, b);
      NotDirtyReads(c, g, b);
    }
  }

  lemma HeldAfter(c: Cache, d: Cache, lh: seq<nat>, g: Region, s: Spec)
    requires Abs(c, lh, g, s) && CanCommit(s, |c.buf|) && lh != [] && HeldSame(c, d) && |d.disk| == |c.disk|
    requires forall b :: 0 <= b < |c.disk| && !InLog(g, b) ==> d.disk[b] == Logical(c, b)
    ensures HeldOk(d, g) && HeldAre(d, s.held)
  {
    forall i | 0 <= i < |d.buf| && d.buf[i].locked
      ensures d.buf[i].data == d.disk[d.buf[i].blockno]
    {
      var b := c.buf[i].blockno;
      FindIs(c, i, b);
    }
    assert forall b, i :: 0 <= i < |c.buf| ==>
      (Live(d.buf[i], b) && d.buf[i].locked <==> Live(c.buf[i], b) && c.buf[i].locked);
  }

  /** The finished commit leaves an empty log. */
  lemma CommitEmpties(c: Cache, lh: seq<nat>, g: Region, data: seq<Block>)
    requires LogEmpty(c.disk, g) && Tx(c.disk, g, lh, data)
    ensures LogEmpty(CommitDisk(c.disk, g, lh, data, 2 * |lh| + 2), g)
  {
    hide CommitDisk, HeaderOf, Effective, AfterAll, TxOk;
    CommitStands(c.disk, g, lh, data, 2 * |lh| + 2);
  }

  lemma LogOf(c: Cache, lh: seq<nat>, g: Region, s: Spec)
    requires Abs(c, lh, g, s)
    ensures LogEmpty(c.disk, g) && forall t :: 0 <= t < |lh| ==> lh[t] < |c.disk|
  {
    hide Coherent, HeldOk, HeldAre, Shows, DirtyFrom, LogEmpty;
  }

  lemma CommitDiskIs(d: Cache, c: Cache, lh: seq<nat>, g: Region, s: Spec)
    requires Abs(c, lh, g, s) && lh != [] && |d.disk| == |c.disk|
    requires Tx(c.disk, g, lh, DataOf(c, lh)) && Wrote(d, c, g, lh, DataOf(c, lh), 2 * |lh| + 2)
    ensures LogEmpty(d.disk, g)
    ensures forall b :: 0 <= b < |c.disk| && !InLog(g, b) ==> d.disk[b] == Logical(c, b)
  {
    hide Logical, Abs, CommitDisk, CommitWrites, DataOf, LogEmpty, Tx;
    LogOf(c, lh, g, s);
    CommitEmpties(c, lh, g, DataOf(c, lh));
    forall b | 0 <= b < |c.disk| && !InLog(g, b)
      ensures d.disk[b] == Logical(c, b)
    {
      CommitInPlace(c, lh, g, s, b);
    }
  }

  lemma NothingDirty(d: Cache, lh: seq<nat>)
    requires DirtyFrom(d, lh, 2 * |lh| + 2)
    ensures DirtyFrom(d, [], 0)
  {
    hide Dirty;
  }

  /** A finished commit: readers see what they saw, and the disk holds it. */
  lemma CommitStep(d: Cache, c: Cache, lh: seq<nat>, g: Region, s: Spec)
    requires Abs(c, lh, g, s) && CanCommit(s, |c.buf|) && lh != []
    requires forall t :: 0 <= t < |lh| ==> lh[t] < |c.disk|
    requires Committing(d, c, g, lh, DataOf(c, lh), 2 * |lh| + 2)
    ensures Abs(d, [], g, Next(s, Commit)) && |d.buf| == |c.buf|
  {
    hide Logical, HeldOk, HeldAre, Coherent, DirtyFrom, LogEmpty, Wrote, Quiet, LogHolds, HasRoom;
    CommitDiskIs(d, c, lh, g, s);
    HeldAfter(c, d, lh, g, s);
    NothingDirty(d, lh);
  }

  lemma CommitNothing(c: Cache, g: Region, s: Spec)
    requires Abs(c, [], g, s)
    ensures Abs(c, [], g, Next(s, Commit))
  {
    forall b | 0 <= b < |c.disk| && !InLog(g, b)
      ensures c.disk[b] == Logical(c, b)
    {
      NotDirtyReads(c, g, b);
    }
    hide Logical, HeldOk, HeldAre, Coherent, DirtyFrom, LogEmpty;
  }

  // ------------------------------------------------------------------------------------
  // crash and recovery
  // ------------------------------------------------------------------------------------

  /** The disk a crash leaves after k writes of a commit. */
  function CrashDisk(c: Cache, lh: seq<nat>, g: Region, k: nat): seq<Block>
    requires forall t :: 0 <= t < |lh| ==> lh[t] < |c.disk|
    requires k > 0 ==> Tx(c.disk, g, lh, DataOf(c, lh)) && k <= 2 * |lh| + 2
  {
    if k == 0 then c.disk else CommitDisk(c.disk, g, lh, DataOf(c, lh), k)
  }

  lemma AfterIsCurrent(c: Cache, lh: seq<nat>, g: Region, s: Spec, b: nat)
    requires Abs(c, lh, g, s) && b < |c.disk| && !InLog(g, b)
    ensures After(c.disk, lh, DataOf(c, lh), b) == s.current[b]
  {
    hide Logical, HeldOk, HeldAre, LogEmpty, Coherent;
    if IndexOf(lh, b) == |lh| {
      assert !Dirty(c, b);
      NotDirtyReads(c, g, b);
    }
  }

  lemma StandsSame(d: seq<Block>, g: Region, t: seq<Block>, u: seq<Block>)
    requires Stands(d, g, t) && |u| == |t| && forall b :: 0 <= b < |t| && !InLog(g, b) ==> u[b] == t[b]
    ensures Stands(d, g, u)
  {
    hide DiskOk, Effective;
  }

  lemma CrashStands(c: Cache, lh: seq<nat>, g: Region, s: Spec, k: nat)
    requires Abs(c, lh, g, s) && (k == 0 || (lh != [] && k <= 2 * |lh| + 2))
    ensures forall t :: 0 <= t < |lh| ==> lh[t] < |c.disk|
    ensures k > 0 ==> Tx(c.disk, g, lh, DataOf(c, lh))
    ensures Stands(CrashDisk(c, lh, g, k), g, if k <= |lh| then s.durable else s.current)
  {
    hide Logical, HeldOk, HeldAre, CommitDisk, HeaderOf, Word, Coherent, DirtyFrom, Stands;
    if k == 0 {
      BeforeHeader(c.disk, c.disk, g);
      StandsSame(c.disk, g, c.disk, s.durable);
    } else {
      var data, e := DataOf(c, lh), CrashDisk(c, lh, g, k);
      CommitStands(c.disk, g, lh, data, k);
      if k <= |lh| {
        StandsSame(e, g, c.disk, s.durable);
      } else {
        forall b | 0 <= b < |c.disk| && !InLog(g, b)
          ensures s.current[b] == AfterAll(c.disk, lh, data)[b]
        {
          AfterIsCurrent(c, lh, g, s, b);
        }
        StandsSame(e, g, AfterAll(c.disk, lh, data), s.current);
      }
    }
  }

  lemma CrashReady(c: Cache, lh: seq<nat>, g: Region, s: Spec, k: nat, cuts: seq<nat>)
    requires Abs(c, lh, g, s) && Enabled(s, Crash(k, cuts), g, |c.buf|)
    ensures |c.buf| >= 2 && forall t :: 0 <= t < |lh| ==> lh[t] < |c.disk|
    ensures k > 0 ==> k <= 2 * |lh| + 2 && Tx(c.disk, g, lh, DataOf(c, lh))
    ensures DiskOk(CrashDisk(c, lh, g, k), g)
    ensures var e := Crashed(CrashDisk(c, lh, g, k), g, cuts);
            DiskOk(e, g) && Stands(e, g, if k <= |s.logged| then s.durable else s.current)
  {
    hide Coherent, HeldOk, HeldAre, DirtyFrom, Shows, LogEmpty, TxOk, Crashed, CrashDisk, Effective;
    CrashStands(c, lh, g, s, k);
    CrashedStands(CrashDisk(c, lh, g, k), g, cuts, if k <= |s.logged| then s.durable else s.current);
  }

  /** A kernel that has booted and recovered. */
  lemma BootStep(d: Cache, d0: seq<Block>, g: Region, target: seq<Block>)
    requires Stands(d0, g, target) && Recovering(d, d0, g, |HeaderOf(d0[g.start])| + 1)
    ensures Abs(d, [], g, Spec(target, target, {}, []))
  {
    RecoveredIs(d0, g, target);
    assert d.disk == Recovered(d0, g);
    hide Stands, RecoverDisk, Recovered, RecoverWrites, HeaderOf, Word, Logical;
    forall b | 0 <= b < |d.disk|
      ensures Logical(d, b) == d.disk[b]
    {
      IdleReads(d, b);
    }
    assert forall i :: 0 <= i < |d.buf| ==> Recyclable(d.buf[i]);
    assert forall b :: !Dirty(d, b);
  }

  /** binit: every buffer unused, the last one initialised at the front of the list. */
  function Boot(d: seq<Block>, nbuf: nat): Cache {
    Cache(d, seq(nbuf, _ => Buf(0, 0, false, false, 0, false, ZeroBlock())),
          seq(nbuf, i requires 0 <= i < nbuf => nbuf - 1 - i), [])
  }

  lemma BootIdle(d: seq<Block>, nbuf: nat)
    requires nbuf >= 2
    ensures Idle(Boot(d, nbuf))
  {
    var c := Boot(d, nbuf);
    forall i | 0 <= i < nbuf
      ensures i in c.lru
    {
      assert c.lru[nbuf - 1 - i] == i;
    }
  }

  lemma HeldBuffer(c: Cache, lh: seq<nat>, g: Region, s: Spec, b: nat)
    requires Abs(c, lh, g, s) && b in s.held
    ensures var i := Find(c.buf, b); i < |c.buf| && c.buf[i].locked && c.buf[i].blockno == b < |c.disk|
  {
    hide Logical, Shows, LogEmpty, TxOk, DirtyFrom;
    var i :| 0 <= i < |c.buf| && Live(c.buf[i], b) && c.buf[i].locked;
    FindIs(c, i, b);
  }

  // ------------------------------------------------------------------------------------
  // Runs of the plain disks
  // ------------------------------------------------------------------------------------

  function RunSpec(s: Spec, ops: seq<Op>): Spec {
    if ops == [] then s
    else
      var n := |ops| - 1;
      Next(RunSpec(s, ops[..n]), ops[n])
  }

  predicate AllEnabled(s: Spec, ops: seq<Op>, g: Region, nbuf: nat) {
    forall i :: 0 <= i < |ops| ==> Enabled(RunSpec(s, ops[..i]), ops[i], g, nbuf)
  }

  /** What the reads of a run return: the last value written, or the durable one after a
      crash. */
  function Reads(s: Spec, ops: seq<Op>): seq<Block> {
    if ops == [] then []
    else
      var n := |ops| - 1;
      var was, op := RunSpec(s, ops[..n]), ops[n];
      Reads(s, ops[..n]) + if op.Open? && op.b < |was.current| then [was.current[op.b]] else []
  }

  lemma SameSize(s: Spec, op: Op)
    requires |s.durable| == |s.current|
    ensures |Next(s, op).durable| == |Next(s, op).current| == |s.current|
  {
  }

  lemma AbsFacts(c: Cache, lh: seq<nat>, g: Region, s: Spec)
    requires Abs(c, lh, g, s)
    ensures Coherent(c) && s.logged == lh && |s.durable| == |s.current| == |c.disk|
  {
  }
}

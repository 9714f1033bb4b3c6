/** log.c and bio.c as methods on the kernel's cache and in-memory log header. */
module LogKernel {
  import opened Blocks
  import opened Bio
  import opened RedoLog
  import opened LogSystem
  import opened LogRuns

  /** The two scans of bget: forward for the block, then backward for a buffer to recycle. */
  method FindBuffer(c: Cache, b: nat) returns (i: nat, hit: bool)
    requires Coherent(c) && CanGet(c, b)
    ensures i == Slot(c, b) && hit == Cached(c, b)
  {
    var k := 0;
    while k < |c.lru| && !Live(c.buf[c.lru[k]], b)
      invariant 0 <= k <= |c.lru|
      invariant forall j :: 0 <= j < k ==> !Live(c.buf[c.lru[j]], b)
    {
      k := k + 1;
    }
    if k < |c.lru| {
      FindIs(c, c.lru[k], b);
      return c.lru[k], true;
    }
    assert forall j :: 0 <= j < |c.buf| ==> j in c.lru && !Live(c.buf[j], b);
    FindNone(c, b);
    i := FindVictim(c);
    hit := false;
  }

  method FindVictim(c: Cache) returns (i: nat)
    requires Shaped(c) && Victim(c, |c.lru|) >= 0
    ensures i == Victim(c, |c.lru|)
  {
    var k := |c.lru| - 1;
    while !Recyclable(c.buf[c.lru[k]])
      invariant 0 <= k < |c.lru| && Victim(c, k + 1) == Victim(c, |c.lru|)
      decreases k
    {
      k := k - 1;
    }
    i := c.lru[k];
  }

  /** The loop of log_write: where the block is logged, or the end of the list. */
  method FindLogged(lh: seq<nat>, b: nat) returns (i: nat)
    ensures i == IndexOf(lh, b)
  {
    i := 0;
    while i < |lh| && lh[i] != b
      invariant 0 <= i <= |lh| && forall j :: 0 <= j < i ==> lh[j] != b
    {
      i := i + 1;
    }
    var t := IndexOf(lh, b);
    assert !(t < i) && !(i < t);
  }

  /** The loop of read_head. */
  method ParseHeader(b: Block) returns (lh: seq<nat>)
    requires HeaderOk(b)
    ensures lh == HeaderOf(b)
  {
    lh := [];
    var n := 0;
    while n < Word(b, 0)
      invariant 0 <= n <= Word(b, 0) && lh == HeaderOf(b)[..n]
    {
      lh := lh + [Word(b, n + 1)];
      n := n + 1;
    }
  }

  class Kernel {
    const g: Region
    var c: Cache
    // log.lh: the blocks logged since the last commit
    var lh: seq<nat>

    constructor (g: Region, c: Cache)
      ensures this.g == g && this.c == c && lh == []
    {
      this.g, this.c, lh := g, c, [];
    }

    method Bread(b: nat) returns (i: nat)
      requires Coherent(c) && b < |c.disk| && CanGet(c, b)
      modifies this`c
      ensures i == Slot(old(c), b) && c == Bio.Bread(old(c), b)
    {
      var hit;
      i, hit := FindBuffer(c, b);
      var buf := c.buf[i];
      buf := if hit then buf.(refcnt := buf.refcnt + 1)
             else buf.(dev := 1, blockno := b, valid := false, dirty := false, refcnt := 1);
      if !buf.valid {
        buf := buf.(data := c.disk[b], valid := true);
      }
      c := c.(buf := c.buf[i := buf.(locked := true)]);
    }

    method Brelse(i: nat)
      requires i < |c.buf| && c.buf[i].refcnt > 0
      modifies this`c
      ensures c == Bio.Brelse(old(c), i)
    {
      var b := c.buf[i].(locked := false, refcnt := c.buf[i].refcnt - 1);
      c := c.(buf := c.buf[i := b]);
      if b.refcnt == 0 {
        c := c.(lru := ToFront(c.lru, i));
      }
    }

    /** The body of write_log's loop: copy block y into log block x. */
    method LogOne(x: nat, y: nat)
      requires Coherent(c) && x < |c.disk| && y < |c.disk| && x != y
      requires Unlocked(c, x) && Unlocked(c, y) && Room(c, y)
      modifies this`c
      ensures Stored(old(c), c, x, Logical(old(c), y))
    {
      ghost var c0 := c;
      ghost var d, i, j := TakeBoth(c, x, y);
      BothSwap(c0, d, x, y, i, j);
      CopyDone(c0, d, y, x, j, i);
      BreadKeeps(c0, x);
      hide Bio.Bread, Slot, Stored, Both, CanGet, Coherent;
      var to := Bread(x);
      var from := Bread(y);
      assert to == i && from == j && c == d;
      c := Modify(c, to, c.buf[from].data);
      c := Bwrite(c, to);
      Brelse(from);
      Brelse(to);
    }

    /** The body of install_trans's loop: copy log block x into block y. */
    method InstallOne(x: nat, y: nat)
      requires Coherent(c) && x < |c.disk| && y < |c.disk| && x != y
      requires Unlocked(c, x) && Unlocked(c, y) && Room(c, y)
      modifies this`c
      ensures Stored(old(c), c, y, Logical(old(c), x)) && |c.buf| == |old(c).buf|
    {
      ghost var c0 := c;
      ghost var d, i, j := TakeBoth(c, x, y);
      CopyDone(c0, d, x, y, i, j);
      BreadKeeps(c0, x);
      hide Bio.Bread, Slot, Stored, Both, CanGet, Coherent;
      var lbuf := Bread(x);
      var dbuf := Bread(y);
      assert lbuf == i && dbuf == j && c == d;
      c := Modify(c, dbuf, c.buf[lbuf].data);
      c := Bwrite(c, dbuf);
      Brelse(lbuf);
      Brelse(dbuf);
    }

    /** write_head. */
    method WriteHead()
      requires Coherent(c) && g.start < |c.disk| && CanGet(c, g.start)
      requires |lh| <= LOGSIZE && forall i :: 0 <= i < |lh| ==> lh[i] <= UINT_MAX
      modifies this`c
      ensures Stored(old(c), c, g.start, PutHeader(Logical(old(c), g.start), lh)) && |c.buf| == |old(c).buf|
    {
      PutDone(c, g.start, PutHeader(Logical(c, g.start), lh));
      hide Bio.Bread, Slot, Stored, CanGet, Coherent, PutHeader;
      var i := Bread(g.start);
      c := Modify(c, i, PutHeader(c.buf[i].data, lh));
      c := Bwrite(c, i);
      Brelse(i);
    }

    /** write_log. */
    method WriteLog(ghost c0: Cache, ghost data: seq<Block>)
      requires c == c0 && Committing(c, c0, g, lh, data, 0)
      modifies this`c
      ensures Committing(c, c0, g, lh, data, |lh|)
    {
      hide Committing, Coherent, Unlocked, Room, Logical, Stored;
      var tail := 0;
      while tail < |lh|
        invariant 0 <= tail <= |lh| && Committing(c, c0, g, lh, data, tail)
      {
        ghost var d := c;
        LogReady(c, c0, g, lh, data, tail);
        LogOne(g.start + tail + 1, lh[tail]);
        LogDone(d, c, c0, g, lh, data, tail);
        tail := tail + 1;
      }
    }

    /** install_trans, called from commit. */
    method InstallTrans(ghost c0: Cache, ghost data: seq<Block>)
      requires Committing(c, c0, g, lh, data, |lh| + 1)
      modifies this`c
      ensures Committing(c, c0, g, lh, data, 2 * |lh| + 1)
    {
      hide Committing, Coherent, Unlocked, Room, Logical, Stored;
      var tail := 0;
      while tail < |lh|
        invariant 0 <= tail <= |lh| && Committing(c, c0, g, lh, data, |lh| + 1 + tail)
      {
        ghost var d := c;
        InstallReady(c, c0, g, lh, data, tail);
        InstallOne(g.start + tail + 1, lh[tail]);
        InstallDone(d, c, c0, g, lh, data, tail);
        tail := tail + 1;
      }
    }

    /** read_head. */
    method ReadHead()
      requires Idle(c) && g.start < |c.disk| && HeaderOk(c.disk[g.start])
      modifies this
      ensures Idle(c) && c.disk == old(c).disk && c.writes == old(c).writes
      ensures lh == HeaderOf(c.disk[g.start]) && |c.buf| == |old(c).buf|
    {
      ReadOnly(c, g.start);
      hide Idle, Bio.Bread, Slot, CanGet, Bio.Brelse;
      assert Coherent(c);
      var i := Bread(g.start);
      lh := ParseHeader(c.buf[i].data);
      Brelse(i);
    }

    /** install_trans, called from recover_from_log. */
    method Reinstall(ghost d0: seq<Block>)
      requires DiskOk(d0, g) && Recovering(c, d0, g, 0) && lh == HeaderOf(d0[g.start])
      modifies this`c
      ensures Recovering(c, d0, g, |lh|) && |c.buf| == |old(c).buf|
    {
      hide Recovering, Coherent, Unlocked, Room, Logical, Stored, HeaderOf;
      var tail := 0;
      while tail < |lh|
        invariant 0 <= tail <= |lh| && Recovering(c, d0, g, tail) && |c.buf| == |old(c).buf|
      {
        ghost var d := c;
        RecoverStep(c, d0, g, lh, tail);
        InstallOne(g.start + tail + 1, lh[tail]);
        RecoverDone(d, c, d0, g, tail);
        tail := tail + 1;
      }
    }

    /** recover_from_log: its disk writes are those of a recovery, in that order. */
    method RecoverFromLog()
      requires Idle(c) && DiskOk(c.disk, g) && c.writes == []
      modifies this
      ensures Recovering(c, old(c).disk, g, |HeaderOf(old(c).disk[g.start])| + 1) && lh == []
      ensures |c.buf| == |old(c).buf|
    {
      ghost var d0 := c.disk;
      ghost var n := |HeaderOf(d0[g.start])|;
      ReadHead();
      assert Recovering(c, d0, g, 0);
      hide Recovering, Coherent, Unlocked, Room, Logical, Stored, HeaderOf, Idle, PutHeader;
      Reinstall(d0);
      ghost var d := c;
      RecoverClear(c, d0, g);
      lh := [];
      WriteHead();
      RecoverDone(d, c, d0, g, n);
    }

    /** log_write, after the caller's change of b->data: absorb the block or append it, and pin
        the buffer. */
    method LogWrite(i: nat, v: Block)
      requires i < |c.buf| && |lh| < LOGSIZE && |lh| < g.size - 1
      modifies this
      ensures c == LogIt(old(c), i, v) && lh == Absorb(old(lh), old(c).buf[i].blockno)
    {
      c := Modify(c, i, v);
      var b := c.buf[i].blockno;
      var t := FindLogged(lh, b);
      IndexLess(lh, b);
      if t < |lh| {
        lh := lh[t := b];
      } else {
        lh := lh + [b];
      }
      c := c.(buf := c.buf[i := c.buf[i].(dirty := true)]);
    }

    /** The four phases of commit. */
    method CommitAll(ghost c0: Cache, ghost data: seq<Block>)
      requires c == c0 && Committing(c, c0, g, lh, data, 0)
      modifies this
      ensures Committing(c, c0, g, old(lh), data, 2 * |old(lh)| + 2) && lh == []
    {
      hide Committing, Stored, Coherent, Logical, PutHeader, CanGet;
      ghost var lh0 := lh;
      WriteLog(c0, data);
      ghost var c1 := c;
      HeadReady(c, c0, g, lh, data, |lh|);
      WriteHead();
      HeadDone(c1, c, c0, g, lh, data, |lh|);
      InstallTrans(c0, data);
      c1 := c;
      HeadReady(c, c0, g, lh, data, 2 * |lh| + 1);
      lh := [];
      WriteHead();
      HeadDone(c1, c, c0, g, lh0, data, 2 * |lh0| + 1);
    }

    /** commit: its disk writes are CommitWrites, in order, and it makes current durable. */
    method Commit(ghost s: Spec)
      requires Abs(c, lh, g, s) && CanCommit(s, |c.buf|)
      modifies this
      ensures Abs(c, lh, g, Next(s, Op.Commit)) && |c.buf| == |old(c).buf|
      ensures forall t :: 0 <= t < |old(lh)| ==> old(lh)[t] < |old(c).disk|
      ensures old(lh) != [] ==>
                && Tx(old(c).disk, g, old(lh), DataOf(old(c), old(lh)))
                && c.writes == old(c).writes + CommitWrites(old(c).disk, g, old(lh), DataOf(old(c), old(lh)))
      ensures old(lh) == [] ==> c == old(c)
    {
      hide Abs, Committing, Next, Tx;
      if |lh| > 0 {
        ghost var c0, lh0 := c, lh;
        CommitStart(c, lh, g, s);
        ghost var data := DataOf(c, lh);
        CommitAll(c0, data);
        CommitStep(c, c0, lh0, g, s);
        CommitTrace(c, c0, g, lh0, data);
      } else {
        CommitNothing(c, g, s);
      }
    }

    /** The machine stops after k writes of a commit, recoveries stop after cuts[i] writes each,
        and the last boot recovers. */
    method Crash(k: nat, cuts: seq<nat>, ghost s: Spec)
      requires Abs(c, lh, g, s) && Enabled(s, Op.Crash(k, cuts), g, |c.buf|)
      modifies this
      ensures Abs(c, lh, g, Next(s, Op.Crash(k, cuts))) && |c.buf| == |old(c).buf|
    {
      hide Abs, Stands, Recovering, Idle, DiskOk, Tx, CrashDisk, Crashed, Enabled;
      CrashReady(c, lh, g, s, k, cuts);
      var e := Crashed(CrashDisk(c, lh, g, k), g, cuts);
      BootIdle(e, |c.buf|);
      c := Boot(e, |c.buf|);
      RecoverFromLog();
      BootStep(c, e, g, if k <= |s.logged| then s.durable else s.current);
    }

    /** One call; r is what it reads. */
    method Step(op: Op, ghost s: Spec) returns (r: seq<Block>)
      requires Abs(c, lh, g, s) && Enabled(s, op, g, |c.buf|) && |s.current| <= UINT_MAX
      modifies this
      ensures Abs(c, lh, g, Next(s, op)) && |c.buf| == |old(c).buf|
      ensures r == if op.Open? && op.b < |s.current| then [s.current[op.b]] else []
    {
      hide Abs, Bio.Bread, Slot, CanGet, Coherent;
      AbsFacts(c, lh, g, s);
      r := [];
      match op {
        case Open(b) =>
          OpenStep(c, lh, g, s, b);
          var i := Bread(b);
          r := [c.buf[i].data];
        case Update(b, v) =>
          HeldBuffer(c, lh, g, s, b);
          var i := Find(c.buf, b);
          UpdateStep(c, lh, g, s, i, v);
          LogWrite(i, v);
        case Close(b) =>
          HeldBuffer(c, lh, g, s, b);
          var i := Find(c.buf, b);
          CloseStep(c, lh, g, s, i);
          Brelse(i);
        case Commit =>
          Commit(s);
        case Crash(k, cuts) =>
          Crash(k, cuts, s);
      }
    }
  }

  /** Any run of calls and crashes: every read returns what the plain disks return, and the
      kernel stands for their state at the end. */
  method Run(kernel: Kernel, ops: seq<Op>, ghost s: Spec) returns (out: seq<Block>)
    requires Abs(kernel.c, kernel.lh, kernel.g, s) && AllEnabled(s, ops, kernel.g, |kernel.c.buf|)
    requires |s.current| <= UINT_MAX
    modifies kernel
    ensures Abs(kernel.c, kernel.lh, kernel.g, RunSpec(s, ops)) && out == Reads(s, ops)
    ensures |kernel.c.buf| == old(|kernel.c.buf|)
  {
    hide Abs, Enabled, Next;
    out := [];
    var n := 0;
    ghost var nbuf := |kernel.c.buf|;
    while n < |ops|
      invariant 0 <= n <= |ops| && |kernel.c.buf| == nbuf && |RunSpec(s, ops[..n]).current| <= UINT_MAX
      invariant Abs(kernel.c, kernel.lh, kernel.g, RunSpec(s, ops[..n])) && out == Reads(s, ops[..n])
    {
      assert ops[..n + 1][..n] == ops[..n];
      AbsFacts(kernel.c, kernel.lh, kernel.g, RunSpec(s, ops[..n]));
      SameSize(RunSpec(s, ops[..n]), ops[n]);
      var r := kernel.Step(ops[n], RunSpec(s, ops[..n]));
      out := out + r;
      n := n + 1;
    }
    assert ops[..n] == ops;
  }
}

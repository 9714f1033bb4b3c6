/** The buffer cache (xv6/bio.c) over a disk that writes single blocks atomically
    (xv6/memide.c): each operation as a function of the cache, and what it keeps. */
module Bio {
  import opened Blocks

  /** struct buf. dev is zero until the buffer is first used; there is one device. */
  datatype Buf = Buf(dev: nat, blockno: nat, valid: bool, dirty: bool, refcnt: nat, locked: bool, data: Block)

  /** bcache and the disk. lru lists the buffers, most recently used first; writes is the
      history of block writes the disk has performed. */
  datatype Cache = Cache(disk: seq<Block>, buf: seq<Buf>, lru: seq<nat>, writes: seq<(nat, Block)>)

  predicate Live(b: Buf, blockno: nat) {
    b.dev != 0 && b.blockno == blockno
  }

  predicate Recyclable(b: Buf) {
    b.refcnt == 0 && !b.dirty
  }

  predicate Shaped(c: Cache) {
    && |c.lru| == |c.buf|
    && (forall i :: 0 <= i < |c.lru| ==> c.lru[i] < |c.buf|)
    && (forall i, j :: 0 <= i < j < |c.lru| ==> c.lru[i] != c.lru[j])
    && (forall i :: 0 <= i < |c.buf| ==> i in c.lru)
  }

  /** One live buffer per block, a block number the disk has, and no lock without a reference. */
  predicate BufsOk(c: Cache) {
    && (forall i, j :: 0 <= i < j < |c.buf| && c.buf[i].dev != 0 && c.buf[j].dev != 0 ==>
          c.buf[i].blockno != c.buf[j].blockno)
    && (forall i :: 0 <= i < |c.buf| ==>
          && (c.buf[i].dev != 0 ==> c.buf[i].blockno < |c.disk|)
          && (c.buf[i].dev == 0 ==> c.buf[i].refcnt == 0 && !c.buf[i].dirty && !c.buf[i].valid)
          && (c.buf[i].locked ==> c.buf[i].refcnt > 0 && c.buf[i].valid)
          && (c.buf[i].dirty ==> c.buf[i].valid))
  }

  /** A buffer nobody holds is the disk's block unless it waits for a commit. */
  predicate Clean(c: Cache)
    requires BufsOk(c)
  {
    forall i :: 0 <= i < |c.buf| && c.buf[i].dev != 0 && c.buf[i].valid && !c.buf[i].dirty && !c.buf[i].locked ==>
      c.buf[i].data == c.disk[c.buf[i].blockno]
  }

  predicate Coherent(c: Cache) {
    Shaped(c) && BufsOk(c) && Clean(c)
  }

  /** The buffer that holds a block, or |c.buf|. */
  function Find(buf: seq<Buf>, blockno: nat): (i: nat)
    ensures i <= |buf|
    ensures i < |buf| ==> Live(buf[i], blockno)
    ensures forall j :: 0 <= j < i ==> !Live(buf[j], blockno)
  {
    if buf == [] || Live(buf[0], blockno) then 0 else 1 + Find(buf[1..], blockno)
  }

  predicate Cached(c: Cache, blockno: nat) {
    Find(c.buf, blockno) < |c.buf|
  }

  /** What a reader sees: the buffer if the block is cached and valid, else the disk. */
  function Logical(c: Cache, blockno: nat): Block
    requires blockno < |c.disk|
  {
    var i := Find(c.buf, blockno);
    if i < |c.buf| && c.buf[i].valid then c.buf[i].data else c.disk[blockno]
  }

  /** The least recently used recyclable buffer: the last one in lru order. */
  function Victim(c: Cache, n: nat): (r: int)
    requires Shaped(c) && n <= |c.lru|
    ensures r < |c.buf|
    ensures r >= 0 ==> Recyclable(c.buf[r]) && exists k :: 0 <= k < n && c.lru[k] == r && forall j :: k < j < n ==>
              !Recyclable(c.buf[c.lru[j]])
    ensures r < 0 ==> forall j :: 0 <= j < n ==> !Recyclable(c.buf[c.lru[j]])
  {
    if n == 0 then -1
    else if Recyclable(c.buf[c.lru[n - 1]]) then c.lru[n - 1]
    else Victim(c, n - 1)
  }

  /** bget can return: the block is cached and its lock free, or some buffer can be recycled. */
  predicate CanGet(c: Cache, blockno: nat)
    requires Shaped(c)
  {
    if Cached(c, blockno) then !c.buf[Find(c.buf, blockno)].locked
    else Victim(c, |c.lru|) >= 0
  }

  /** The buffer bget picks. */
  function Slot(c: Cache, blockno: nat): (i: nat)
    requires Shaped(c) && CanGet(c, blockno)
    ensures i < |c.buf|
  {
    if Cached(c, blockno) then Find(c.buf, blockno) else Victim(c, |c.lru|)
  }

  /** bget, then iderw unless the buffer is valid. */
  function Bread(c: Cache, blockno: nat): (r: Cache)
    requires Shaped(c) && CanGet(c, blockno) && blockno < |c.disk|
  {
    var i := Slot(c, blockno);
    var b := c.buf[i];
    var got := if Cached(c, blockno) then b.(refcnt := b.refcnt + 1)
               else b.(dev := 1, blockno := blockno, valid := false, dirty := false, refcnt := 1);
    var filled := if got.valid then got else got.(data := c.disk[blockno], valid := true);
    c.(buf := c.buf[i := filled.(locked := true)])
  }

  /** The holder's stores into b->data. */
  function Modify(c: Cache, i: nat, data: Block): Cache
    requires i < |c.buf|
  {
    c.(buf := c.buf[i := c.buf[i].(data := data)])
  }

  function Bwrite(c: Cache, i: nat): Cache
    requires i < |c.buf| && c.buf[i].blockno < |c.disk|
  {
    var b := c.buf[i];
    c.(disk := c.disk[b.blockno := b.data], buf := c.buf[i := b.(dirty := false, valid := true)],
       writes := c.writes + [(b.blockno, b.data)])
  }

  function ToFront(lru: seq<nat>, i: nat): seq<nat> {
    [i] + Without(lru, i)
  }

  function Without(lru: seq<nat>, i: nat): (r: seq<nat>)
    ensures forall x :: x in r <==> x in lru && x != i
  {
    if lru == [] then [] else if lru[0] == i then Without(lru[1..], i) else [lru[0]] + Without(lru[1..], i)
  }

  function Brelse(c: Cache, i: nat): Cache
    requires i < |c.buf| && c.buf[i].refcnt > 0
  {
    var b := c.buf[i];
    c.(buf := c.buf[i := b.(locked := false, refcnt := b.refcnt - 1)],
       lru := if b.refcnt == 1 then ToFront(c.lru, i) else c.lru)
  }

  lemma FindIs(c: Cache, i: nat, blockno: nat)
    requires BufsOk(c) && i < |c.buf| && Live(c.buf[i], blockno)
    ensures Find(c.buf, blockno) == i
  {
  }

  lemma FindNone(c: Cache, blockno: nat)
    requires forall i :: 0 <= i < |c.buf| ==> !Live(c.buf[i], blockno)
    ensures Find(c.buf, blockno) == |c.buf|
  {
  }

  /** A cache that differs from another in buffer i only, and holds the same block there. */
  lemma LogicalElsewhere(c: Cache, d: Cache, i: nat, x: nat)
    requires BufsOk(c) && BufsOk(d) && |c.buf| == |d.buf| && i < |c.buf| && x < |c.disk| == |d.disk|
    requires forall j :: 0 <= j < |c.buf| && j != i ==> d.buf[j] == c.buf[j]
    requires !Live(c.buf[i], x) && !Live(d.buf[i], x) && d.disk[x] == c.disk[x]
    ensures Logical(d, x) == Logical(c, x)
  {
    var k := Find(c.buf, x);
    if k < |c.buf| {
      FindIs(d, k, x);
    } else {
      FindNone(d, x);
    }
  }

  /** A buffer before and after bread of block b. */
  predicate Taken(was: Buf, now: Buf, b: nat, ondisk: Block) {
    && Live(now, b) && now.locked && now.valid && now.dirty == was.dirty && now.refcnt == was.refcnt + 1
    && (was.dirty ==> Live(was, b)) && (!Live(was, b) ==> Recyclable(was)) && !was.locked
    && (now.dirty || now.data == ondisk)
  }

  /** Only the buffer contents and flags of buffer i differ, and no block reads differently. */
  ghost predicate SameBut(c: Cache, d: Cache, i: nat) {
    && d.disk == c.disk && d.writes == c.writes && |d.buf| == |c.buf| && i < |c.buf|
    && (forall j :: 0 <= j < |c.buf| && j != i ==> d.buf[j] == c.buf[j])
    && (forall x :: 0 <= x < |c.disk| ==> Logical(d, x) == Logical(c, x))
  }

  /** bread returns the block's current contents in a locked buffer, and changes neither the
      disk nor what any block reads as. A dirty buffer is not recycled. */
  lemma BreadKeeps(c: Cache, blockno: nat)
    requires Coherent(c) && blockno < |c.disk| && CanGet(c, blockno)
    ensures var d, i := Bread(c, blockno), Slot(c, blockno);
            && Coherent(d) && SameBut(c, d, i)
            && Taken(c.buf[i], d.buf[i], blockno, c.disk[blockno]) && d.buf[i].data == Logical(c, blockno)
  {
    var d, i := Bread(c, blockno), Slot(c, blockno);
    assert BufsOk(d);
    FindIs(d, i, blockno);
    forall x | 0 <= x < |c.disk|
      ensures Logical(d, x) == Logical(c, x)
    {
      BreadLogical(c, blockno, x);
    }
  }

  lemma BreadLogical(c: Cache, blockno: nat, x: nat)
    requires Coherent(c) && blockno < |c.disk| && CanGet(c, blockno) && x < |c.disk|
    requires BufsOk(Bread(c, blockno))
    ensures Logical(Bread(c, blockno), x) == Logical(c, x)
  {
    var d, i := Bread(c, blockno), Slot(c, blockno);
    FindIs(d, i, blockno);
    if x == blockno {
    } else if Live(c.buf[i], x) {
      FindIs(c, i, x);
      assert !Cached(c, blockno);
      FindNone(d, x);
    } else {
      LogicalElsewhere(c, d, i, x);
    }
  }

  lemma ModifyKeeps(c: Cache, i: nat, data: Block)
    requires Coherent(c) && i < |c.buf| && c.buf[i].locked
    ensures var d := Modify(c, i, data);
            && Coherent(d) && d.buf[i] == c.buf[i].(data := data)
            && (forall x :: 0 <= x < |c.disk| ==>
                  Logical(d, x) == if x == c.buf[i].blockno then data else Logical(c, x))
  {
    var d := Modify(c, i, data);
    assert BufsOk(d);
    forall x | 0 <= x < |c.disk|
      ensures Logical(d, x) == if x == c.buf[i].blockno then data else Logical(c, x)
    {
      if x == c.buf[i].blockno {
        FindIs(d, i, x);
      } else {
        LogicalElsewhere(c, d, i, x);
      }
    }
  }

  lemma BwriteKeeps(c: Cache, i: nat)
    requires Coherent(c) && i < |c.buf| && c.buf[i].locked
    ensures var b := c.buf[i];
            var d := Bwrite(c, i);
            && Coherent(d) && d.disk == c.disk[b.blockno := b.data] && d.buf[i] == b.(dirty := false)
            && (forall x :: 0 <= x < |c.disk| ==> Logical(d, x) == Logical(c, x))
  {
    var d := Bwrite(c, i);
    assert BufsOk(d);
    forall x | 0 <= x < |c.disk|
      ensures Logical(d, x) == Logical(c, x)
    {
      if x == c.buf[i].blockno {
        FindIs(d, i, x);
        FindIs(c, i, x);
      } else {
        LogicalElsewhere(c, d, i, x);
      }
    }
  }

  lemma {:induction false} WithoutShape(lru: seq<nat>, i: nat)
    requires forall k, j :: 0 <= k < j < |lru| ==> lru[k] != lru[j]
    ensures var r := Without(lru, i);
            && (forall k, j :: 0 <= k < j < |r| ==> r[k] != r[j])
            && |r| == if i in lru then |lru| - 1 else |lru|
  {
    if lru != [] {
      WithoutShape(lru[1..], i);
      var rest, r := lru[1..], Without(lru[1..], i);
      assert lru[0] !in rest;
      var s := Without(lru, i);
      assert s == if lru[0] == i then r else [lru[0]] + r;
      hide Without;
      forall k, j | 0 <= k < j < |s|
        ensures s[k] != s[j]
      {
        assert lru[0] != i && k == 0 ==> s[j] == r[j - 1] && r[j - 1] in r;
      }
    }
  }

  /** brelse of a buffer whose changes were logged or written. */
  lemma BrelseKeeps(c: Cache, i: nat)
    requires Coherent(c) && i < |c.buf| && c.buf[i].locked
    requires c.buf[i].dirty || c.buf[i].data == c.disk[c.buf[i].blockno]
    ensures var d := Brelse(c, i);
            && Coherent(d) && !d.buf[i].locked && d.buf[i].refcnt == c.buf[i].refcnt - 1
            && (forall x :: 0 <= x < |c.disk| ==> Logical(d, x) == Logical(c, x))
  {
    var d := Brelse(c, i);
    WithoutShape(c.lru, i);
    if c.buf[i].refcnt == 1 {
      var r := Without(c.lru, i);
      assert forall x :: x in d.lru <==> x == i || x in r;
      assert forall k :: 0 <= k < |r| ==> r[k] in r;
    }
    assert Shaped(d);
    assert BufsOk(d);
    forall x | 0 <= x < |c.disk|
      ensures Logical(d, x) == Logical(c, x)
    {
      if Live(c.buf[i], x) {
        FindIs(d, i, x);
        FindIs(c, i, x);
      } else {
        LogicalElsewhere(c, d, i, x);
      }
    }
  }
}

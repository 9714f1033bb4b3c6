/** The order in which the buffer cache recycles (xv6/bio.c), over every run of bread, stores, log_write,
    bwrite and brelse: the buffer taken is the one nobody has used for the longest time. */
module BioRuns {
  import opened Blocks
  import opened Bio
  import opened LogRuns

  datatype Use = Get(b: nat) | Put(i: nat, v: Block) | Log(i: nat, v: Block) | Flush(i: nat) | Release(i: nat)

  /** bget returns, and the rest is by a holder; changes that are released have been logged or written. */
  predicate Possible(c: Cache, u: Use)
    requires Shaped(c)
  {
    match u
    case Get(b) => b < |c.disk| && CanGet(c, b)
    case Put(i, _) => i < |c.buf| && c.buf[i].locked
    case Log(i, _) => i < |c.buf| && c.buf[i].locked
    case Flush(i) => i < |c.buf| && c.buf[i].locked
    case Release(i) =>
      && i < |c.buf| && c.buf[i].locked && c.buf[i].blockno < |c.disk|
      && (c.buf[i].dirty || c.buf[i].data == c.disk[c.buf[i].blockno])
  }

  function Do(c: Cache, u: Use): Cache
    requires Coherent(c) && Possible(c, u)
  {
    match u
    case Get(b) => Bread(c, b)
    case Put(i, v) => Modify(c, i, v)
    case Log(i, v) => LogIt(c, i, v)
    case Flush(i) => Bwrite(c, i)
    case Release(i) => Brelse(c, i)
  }

  lemma DoKeeps(c: Cache, u: Use)
    requires Coherent(c) && Possible(c, u)
    ensures Coherent(Do(c, u)) && |Do(c, u).buf| == |c.buf|
  {
    match u
    case Get(b) => BreadKeeps(c, b);
    case Put(i, v) => ModifyKeeps(c, i, v);
    case Log(i, v) => LogItReads(c, i, v);
    case Flush(i) => BwriteKeeps(c, i);
    case Release(i) => BrelseKeeps(c, i);
  }

  /** A run of a cache, one state more than uses. */
  predicate IsRun(states: seq<Cache>, uses: seq<Use>, d: seq<Block>, nbuf: nat) {
    && |states| == |uses| + 1 && states[0] == Boot(d, nbuf) && nbuf >= 2
    && forall k :: 0 <= k < |uses| ==>
         Coherent(states[k]) && Possible(states[k], uses[k]) && states[k + 1] == Do(states[k], uses[k])
  }

  /** When each buffer was last given up by its last user: the number of the brelse, and before that the
      turn in which binit put it in the list. */
  function Idled(states: seq<Cache>, uses: seq<Use>, nbuf: nat): (r: seq<int>)
    requires |states| == |uses| + 1
    ensures |r| == nbuf
  {
    if uses == [] then seq(nbuf, i => i - nbuf)
    else
      var n := |uses| - 1;
      var r, u := Idled(states[..n + 1], uses[..n], nbuf), uses[n];
      if u.Release? && u.i < |states[n].buf| && u.i < nbuf && states[n].buf[u.i].refcnt == 1 then r[u.i := n] else r
  }

  /** Most recent first. */
  predicate ByTime(lru: seq<nat>, times: seq<int>) {
    && (forall j :: 0 <= j < |lru| ==> lru[j] < |times|)
    && (forall j, k :: 0 <= j < k < |lru| ==> times[lru[j]] > times[lru[k]])
  }

  lemma {:induction false} WithoutByTime(lru: seq<nat>, times: seq<int>, i: nat)
    requires ByTime(lru, times)
    ensures ByTime(Without(lru, i), times)
  {
    if lru != [] {
      WithoutByTime(lru[1..], times, i);
      var r, s := Without(lru[1..], i), Without(lru, i);
      assert s == if lru[0] == i then r else [lru[0]] + r;
      hide Without;
      forall k | 0 <= k < |r|
        ensures times[lru[0]] > times[r[k]]
      {
        assert r[k] in r;
        var m :| 0 <= m < |lru| - 1 && lru[1..][m] == r[k];
      }
    }
  }

  lemma FrontByTime(lru: seq<nat>, times: seq<int>, i: nat, now: int)
    requires ByTime(lru, times) && i < |times| && forall k :: 0 <= k < |times| ==> times[k] < now
    ensures ByTime(ToFront(lru, i), times[i := now])
  {
    WithoutByTime(lru, times, i);
    var r := Without(lru, i);
    assert forall k :: 0 <= k < |r| ==> r[k] in r;
  }

  /** In every run the list is in the order of last use. */
  lemma {:induction false} InOrder(states: seq<Cache>, uses: seq<Use>, d: seq<Block>, nbuf: nat)
    requires IsRun(states, uses, d, nbuf)
    ensures var c, times := states[|uses|], Idled(states, uses, nbuf);
            && Coherent(c) && |c.buf| == nbuf && ByTime(c.lru, times)
            && forall k :: 0 <= k < nbuf ==> times[k] < |uses|
  {
    hide Coherent, Without, Bread, Modify, LogIt, Bwrite, CanGet;
    if uses == [] {
      BootIdle(d, nbuf);
      assert Coherent(Boot(d, nbuf));
    } else {
      var n := |uses| - 1;
      var c, u, times := states[n], uses[n], Idled(states[..n + 1], uses[..n], nbuf);
      InOrder(states[..n + 1], uses[..n], d, nbuf);
      DoKeeps(c, u);
      UseOrder(c, u, times, n);
    }
  }

  /** One use moves a buffer to the front exactly when its last user gives it up. */
  lemma UseOrder(c: Cache, u: Use, times: seq<int>, now: nat)
    requires Coherent(c) && Possible(c, u) && |times| == |c.buf| && ByTime(c.lru, times)
    requires forall k :: 0 <= k < |times| ==> times[k] < now
    ensures ByTime(Do(c, u).lru,
                   if u.Release? && c.buf[u.i].refcnt == 1 then times[u.i := now] else times)
  {
    if u.Release? {
      FrontByTime(c.lru, times, u.i, now);
    }
  }

  /** In every run: a block that is not cached gets the buffer that, of those nobody uses and no commit
      needs, was given up the longest time ago; a cached block keeps its buffer. */
  lemma TakesOldest(states: seq<Cache>, uses: seq<Use>, d: seq<Block>, nbuf: nat, b: nat)
    requires IsRun(states, uses, d, nbuf)
    ensures var c, times := states[|uses|], Idled(states, uses, nbuf);
            && Shaped(c) && |c.buf| == nbuf
            && (CanGet(c, b) ==>
                  var i := Slot(c, b);
                  if exists j :: 0 <= j < nbuf && Live(c.buf[j], b) then Live(c.buf[i], b)
                  else
                    && Recyclable(c.buf[i])
                    && forall j :: 0 <= j < nbuf && Recyclable(c.buf[j]) && j != i ==> times[i] < times[j])
  {
    InOrder(states, uses, d, nbuf);
    var c, times := states[|uses|], Idled(states, uses, nbuf);
    hide Idled, IsRun, BufsOk, Clean;
    if CanGet(c, b) && !Cached(c, b) {
      VictimOldest(c, times);
    }
  }

  lemma VictimOldest(c: Cache, times: seq<int>)
    requires Shaped(c) && |times| == |c.buf| && ByTime(c.lru, times) && Victim(c, |c.lru|) >= 0
    ensures var i := Victim(c, |c.lru|);
            forall j :: 0 <= j < |c.buf| && Recyclable(c.buf[j]) && j != i ==> times[i] < times[j]
  {
    var i := Victim(c, |c.lru|);
    var k :| 0 <= k < |c.lru| && c.lru[k] == i && forall m :: k < m < |c.lru| ==> !Recyclable(c.buf[c.lru[m]]);
    forall j | 0 <= j < |c.buf| && Recyclable(c.buf[j]) && j != i
      ensures times[i] < times[j]
    {
      assert j in c.lru;
      var m :| 0 <= m < |c.lru| && c.lru[m] == j;
      assert m < k;
    }
  }
}

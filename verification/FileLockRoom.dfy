/** When lock_it succeeds (linux-1.0.0/fs/locks.c): its answer on a sorted group, told from the group it
    would have to leave and from the free list. */
module FileLockRoom {
  import opened FileLocks

  // ------------------------------------------------------------------------------------
  // Sorted and merged groups are normal forms
  // ------------------------------------------------------------------------------------

  ghost predicate SameBytes(s: seq<FileLock>, t: seq<FileLock>) {
    forall b, y :: Covers(s, b, y) <==> Covers(t, b, y)
  }

  lemma SortedTail(s: seq<FileLock>, c: FileLock)
    requires Sorted(s, c) && s != []
    ensures Sorted(s[1..], c)
    ensures forall b, y :: Covers(s[1..], b, y) <==> Covers(s, b, y) && b > s[0].end
  {
    forall b, y
      ensures Covers(s[1..], b, y) <==> Covers(s, b, y) && b > s[0].end
    {
      if Covers(s[1..], b, y) {
        var i :| 0 <= i < |s[1..]| && s[1..][i].typ == y && InRange(s[1..][i], b);
        assert s[i + 1] == s[1..][i] && Before(s[0], s[i + 1]);
      }
      if Covers(s, b, y) && b > s[0].end {
        var i :| 0 <= i < |s| && s[i].typ == y && InRange(s[i], b);
        assert s[1..][i - 1] == s[i];
      }
    }
  }

  /** An equal group starts no later, and its first lock reaches no further. */
  lemma FirstStart(s: seq<FileLock>, t: seq<FileLock>, c: FileLock)
    requires Sorted(s, c) && Sorted(t, c) && SameBytes(s, t) && s != []
    ensures t != [] && t[0].start <= s[0].start
  {
    assert InRange(s[0], s[0].start) && Covers(s, s[0].start, s[0].typ);
    var i :| 0 <= i < |t| && t[i].typ == s[0].typ && InRange(t[i], s[0].start);
    assert i > 0 ==> Before(t[0], t[i]);
  }

  lemma FirstEnd(s: seq<FileLock>, t: seq<FileLock>, c: FileLock)
    requires Sorted(s, c) && Sorted(t, c) && SameBytes(s, t) && s != [] && t != [] && s[0].start == t[0].start
    ensures s[0].typ == t[0].typ && t[0].end <= s[0].end
  {
    var b := t[0].start;
    assert InRange(t[0], b) && Covers(t, b, t[0].typ);
    var i :| 0 <= i < |s| && s[i].typ == t[0].typ && InRange(s[i], b);
    assert i > 0 ==> Before(s[0], s[i]);
    if s[0].end < t[0].end {
      var x := s[0].end + 1;
      assert InRange(t[0], x) && Covers(t, x, t[0].typ);
    }
  }

  /** Two sorted and merged groups that hold the same bytes are the same. */
  lemma {:induction false} NormalForm(s: seq<FileLock>, t: seq<FileLock>, c: FileLock)
    requires Sorted(s, c) && Sorted(t, c) && SameBytes(s, t)
    ensures s == t
  {
    if s == [] {
      if t != [] {
        FirstStart(t, s, c);
      }
    } else {
      FirstStart(s, t, c);
      FirstStart(t, s, c);
      FirstEnd(s, t, c);
      FirstEnd(t, s, c);
      assert s[0] == t[0];
      SortedTail(s, c);
      SortedTail(t, c);
      hide Sorted, Covers;
      NormalForm(s[1..], t[1..], c);
      assert s == [s[0]] + s[1..] && t == [t[0]] + t[1..];
    }
  }

  // ------------------------------------------------------------------------------------
  // The answer
  // ------------------------------------------------------------------------------------

  /** An unlock of bytes none of which is locked. */
  ghost predicate NoneHeld(g: seq<FileLock>, c: FileLock) {
    c.typ == UnLck && !exists b, t :: InRange(c, b) && Covers(g, b, t)
  }

  /** t is the group the request must leave. */
  ghost predicate Target(t: seq<FileLock>, g: seq<FileLock>, c: FileLock) {
    Sorted(t, c) && Updated(t, g, c)
  }

  /** A lock of another type inside the request, before every lock of its type that touches it. */
  ghost predicate Swallows(g: seq<FileLock>, c: FileLock) {
    exists j :: 0 <= j < |g| && SwallowsAt(g, c, j)
  }

  ghost predicate SwallowsAt(g: seq<FileLock>, c: FileLock, j: nat)
    requires j < |g|
  {
    && g[j].typ != c.typ && g[j].start >= c.start
    && forall i :: 0 <= i < |g| && g[i].typ == c.typ && g[i].end >= c.start - 1 ==> j < i
  }

  /** The table has entries for the result: the group to be left is at most free entries longer. A request
      that wraps takes one entry, or the entry of a lock it swallows. */
  ghost predicate Room(g: seq<FileLock>, c: FileLock, free: nat) {
    if Wraps(g, c) then free > 0 || Swallows(g, c)
    else exists t :: Target(t, g, c) && |t| <= |g| + free
  }

  lemma TargetOnly(s: seq<FileLock>, t: seq<FileLock>, g: seq<FileLock>, c: FileLock)
    requires Target(s, g, c) && Target(t, g, c)
    ensures s == t
  {
    hide Sorted, Covers;
    assert SameBytes(s, t);
    NormalForm(s, t, c);
  }

  /** The entries lock_it has to take from the free list once the walk has ended. */
  function Needed(w: Cursor): nat {
    (if w.added then 0 else 1) + if w.left == |w.done| then 1 else 0
  }

  lemma FinishAnswers(w: Cursor, free: nat)
    requires Closed(w)
    ensures var st := Finish(w, free).status;
            && (st == EInval <==> !w.added && w.c.typ == UnLck)
            && (st == ENoLck <==> !(!w.added && w.c.typ == UnLck) && free < Needed(w))
    ensures Finish(w, free).status == Success ==>
              |Finish(w, free).group| == |w.done| + |w.rest| + Needed(w)
  {
  }

  /** Without a wrapping sum the walk needs as many entries as the group grows by. */
  lemma NeededIs(w: Cursor, g: seq<FileLock>, c: FileLock, m: nat, k: nat) returns (t: seq<FileLock>)
    requires Sorted(g, c) && Request(c) && Stop(w, g, c, m, k, false) && Closed(w)
    requires !(!w.added && w.c.typ == UnLck)
    ensures Target(t, g, c) && |t| == |w.done| + |w.rest| + Needed(w)
  {
    hide Stop, Sorted, Finish, Updated;
    FinishAnswers(w, Needed(w));
    t := Finish(w, Needed(w)).group;
    FinishUpdates(w, g, c, m, k, Needed(w));
  }

  /** A walk that got stuck has taken an entry exactly if it swallowed a lock. */
  lemma StuckNeeds(w: Cursor, g: seq<FileLock>, c: FileLock, m: nat, k: nat)
    requires Sorted(g, c) && Request(c) && Stop(w, g, c, m, k, true) && Closed(w)
    ensures c.typ != UnLck && w.c == c && Needed(w) == (if w.added then 0 else 1)
    ensures w.added <==> Swallows(g, c)
    ensures !w.added ==> |w.done| + |w.rest| == |g|
  {
    assert g[k].typ == c.typ && c.typ != UnLck;
    assert w.added <==> m < k;
    if m < k {
      assert SwallowsAt(g, c, m);
    }
    if Swallows(g, c) {
      var j :| 0 <= j < |g| && SwallowsAt(g, c, j);
      assert m <= j < k;
    }
  }

  lemma WalkEnds(g: seq<FileLock>, c: FileLock) returns (m: nat, k: nat, stuck: bool)
    requires Sorted(g, c) && Request(c)
    ensures NoUnLck(g) && Stop(Scan(Start(g, c)), g, c, m, k, stuck) && (stuck <==> Wraps(g, c))
  {
    var w0 := Start(g, c);
    assert Shape(w0, g, c, 0, 0);
    m, k, stuck := ScanShape(w0, g, c, 0, 0);
    StuckIsWrap(Scan(w0), g, c, m, k, stuck);
  }

  lemma StopType(w: Cursor, g: seq<FileLock>, c: FileLock, m: nat, k: nat, stuck: bool)
    requires Stop(w, g, c, m, k, stuck)
    ensures w.c.typ == c.typ
  {
  }

  /** lock_it on a sorted group: EINVAL for an unlock of nothing, ENOLCK exactly when the table has no room
      for the result, and success in every other case. */
  lemma LockGroupAnswers(g: seq<FileLock>, c: FileLock, free: nat)
    requires Sorted(g, c) && Request(c)
    ensures NoUnLck(g)
    ensures LockGroup(g, c, free).status ==
            if NoneHeld(g, c) then EInval else if Room(g, c, free) then Success else ENoLck
  {
    var m, k, stuck := WalkEnds(g, c);
    var w := Scan(Start(g, c));
    var f := free + (|g| - |w.done| - |w.rest|);
    StopType(w, g, c, m, k, stuck);
    FinishAnswers(w, f);
    if c.typ == UnLck {
      UnlockNothing(g, c, free);
    }
    hide Stop, Sorted, Scan, Finish, Updated, Wraps, Swallows, Closed;
    if !NoneHeld(g, c) {
      if stuck {
        StuckNeeds(w, g, c, m, k);
      } else {
        var t := NeededIs(w, g, c, m, k);
        assert f < Needed(w) <==> |t| > |g| + free;
        forall s | Target(s, g, c)
          ensures s == t
        {
          TargetOnly(s, t, g, c);
        }
      }
    }
  }

  /** The same with the group in hand. */
  lemma LockGroupFits(g: seq<FileLock>, c: FileLock, free: nat, t: seq<FileLock>)
    requires Sorted(g, c) && Request(c) && !Wraps(g, c) && Target(t, g, c)
    ensures NoUnLck(g)
    ensures LockGroup(g, c, free).status == ENoLck <==> !NoneHeld(g, c) && |t| > |g| + free
    ensures LockGroup(g, c, free).status == Success ==> LockGroup(g, c, free).group == t
  {
    LockGroupAnswers(g, c, free);
    LockGroupUpdates(g, c, free);
    hide Sorted, Updated, Wraps, LockGroup;
    assert LockGroup(g, c, free).status == Success ==> Target(LockGroup(g, c, free).group, g, c);
    forall s | Target(s, g, c)
      ensures s == t
    {
      TargetOnly(s, t, g, c);
    }
  }
}

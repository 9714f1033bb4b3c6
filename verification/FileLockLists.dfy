/** The lock list of one file (linux-1.0.0/fs/locks.c): lock_it and fcntl_remove_locks on the whole
    list, and the conflicts between owners. */
module FileLockLists {
  import opened FileLocks

  predicate Entry(l: FileLock) {
    l.owner != 0 && l.typ != UnLck && 0 <= l.start && l.end <= OFFSET_MAX
  }

  predicate Entries(list: seq<FileLock>) {
    forall i :: 0 <= i < |list| ==> Entry(list[i])
  }

  /** The locks of each (owner, fd) stand together. */
  predicate Grouped(list: seq<FileLock>) {
    forall i, j, k :: 0 <= i < j < k < |list| && SameKey(list[i], list[k]) ==> SameKey(list[i], list[j])
  }

  /** Each group is sorted, disjoint and merged. */
  predicate GroupsSorted(list: seq<FileLock>) {
    && (forall i :: 0 <= i < |list| ==> list[i].start <= list[i].end)
    && (forall i, j :: 0 <= i < j < |list| && SameKey(list[i], list[j]) ==> Before(list[i], list[j]))
  }

  /** No byte is write-locked by one (owner, fd) while another holds it. */
  ghost predicate Safe(list: seq<FileLock>) {
    forall i, j, b :: 0 <= i < |list| && 0 <= j < |list| && !SameKey(list[i], list[j]) ==>
      InRange(list[i], b) && InRange(list[j], b) ==> list[i].typ == RdLck && list[j].typ == RdLck
  }

  /** d's owner holds byte b with type t. */
  ghost predicate Held(list: seq<FileLock>, d: FileLock, b: int, t: LockType) {
    exists i :: 0 <= i < |list| && SameKey(list[i], d) && list[i].typ == t && InRange(list[i], b)
  }

  /** The position where the search for c's group stops. */
  function First(list: seq<FileLock>, c: FileLock): (r: nat)
    ensures r <= |list|
    ensures forall i :: 0 <= i < r ==> !SameKey(list[i], c)
    ensures r < |list| ==> SameKey(list[r], c)
  {
    if list == [] || SameKey(list[0], c) then 0 else 1 + First(list[1..], c)
  }

  /** The length of the group at the front of the list. */
  function Length(list: seq<FileLock>, c: FileLock): (r: nat)
    ensures r <= |list|
    ensures forall i :: 0 <= i < r ==> SameKey(list[i], c)
    ensures r < |list| ==> !SameKey(list[r], c)
  {
    if list == [] || !SameKey(list[0], c) then 0 else 1 + Length(list[1..], c)
  }

  function Pre(list: seq<FileLock>, c: FileLock): (r: seq<FileLock>)
    ensures forall i :: 0 <= i < |r| ==> !SameKey(r[i], c)
  {
    list[..First(list, c)]
  }

  function Own(list: seq<FileLock>, c: FileLock): (r: seq<FileLock>)
    ensures forall i :: 0 <= i < |r| ==> SameKey(r[i], c)
  {
    var rest := list[First(list, c)..];
    rest[..Length(rest, c)]
  }

  function Post(list: seq<FileLock>, c: FileLock): seq<FileLock> {
    var rest := list[First(list, c)..];
    rest[Length(rest, c)..]
  }

  lemma Split(list: seq<FileLock>, c: FileLock)
    ensures list == Pre(list, c) + Own(list, c) + Post(list, c)
    ensures Post(list, c) != [] ==> !SameKey(Post(list, c)[0], c)
    ensures Own(list, c) == [] ==> Post(list, c) == []
  {
    hide SameKey;
    assert Own(list, c) == [] ==> First(list, c) == |list|;
  }

  /** In a grouped list the group found is the whole group. */
  lemma SplitGrouped(list: seq<FileLock>, c: FileLock)
    requires Grouped(list)
    ensures forall i :: 0 <= i < |Post(list, c)| ==> !SameKey(Post(list, c)[i], c)
  {
    Split(list, c);
    var p, o, q := Pre(list, c), Own(list, c), Post(list, c);
    hide Pre, Own, Post;
    if q != [] {
      var n := |p| + |o|;
      assert SameKey(o[|o| - 1], c) && list[n - 1] == o[|o| - 1] && list[n] == q[0];
      forall i | 0 <= i < |q|
        ensures !SameKey(q[i], c)
      {
        assert list[n + i] == q[i];
        assert !SameKey(list[n - 1], list[n]);
      }
    }
  }

  datatype ListOutcome = ListOutcome(status: Status, list: seq<FileLock>, free: nat)

  function LockIt(list: seq<FileLock>, c: FileLock, free: nat): (r: ListOutcome)
    requires Entries(list)
    ensures |r.list| + r.free == |list| + free
  {
    Split(list, c);
    assert forall i :: 0 <= i < |Own(list, c)| ==> Own(list, c)[i] == list[|Pre(list, c)| + i];
    var r := LockGroup(Own(list, c), c, free);
    ListOutcome(r.status, Pre(list, c) + r.group + Post(list, c), r.free)
  }

  function RemoveLocks(list: seq<FileLock>, c: FileLock): seq<FileLock> {
    Pre(list, c) + Post(list, c)
  }

  // ------------------------------------------------------------------------------------
  // lock_it on a list
  // ------------------------------------------------------------------------------------

  lemma HeldConcat(s: seq<FileLock>, t: seq<FileLock>, d: FileLock, b: int, y: LockType)
    ensures Held(s + t, d, b, y) <==> Held(s, d, b, y) || Held(t, d, b, y)
  {
    if Held(s, d, b, y) {
      var i :| 0 <= i < |s| && SameKey(s[i], d) && s[i].typ == y && InRange(s[i], b);
      assert (s + t)[i] == s[i];
    }
    if Held(t, d, b, y) {
      var i :| 0 <= i < |t| && SameKey(t[i], d) && t[i].typ == y && InRange(t[i], b);
      assert (s + t)[|s| + i] == t[i];
    }
  }

  lemma HeldGroup(g: seq<FileLock>, c: FileLock, d: FileLock, b: int, t: LockType)
    requires forall i :: 0 <= i < |g| ==> SameKey(g[i], c)
    ensures Held(g, d, b, t) <==> SameKey(c, d) && Covers(g, b, t)
  {
    if SameKey(c, d) && Covers(g, b, t) {
      var i :| 0 <= i < |g| && g[i].typ == t && InRange(g[i], b);
      assert SameKey(g[i], d);
    }
  }

  ghost predicate All(s: seq<FileLock>, c: FileLock) {
    forall i :: 0 <= i < |s| ==> SameKey(s[i], c)
  }

  ghost predicate None(s: seq<FileLock>, c: FileLock) {
    forall i :: 0 <= i < |s| ==> !SameKey(s[i], c)
  }

  lemma OthersGrouped(p: seq<FileLock>, o: seq<FileLock>, q: seq<FileLock>, c: FileLock)
    requires Grouped(p + o + q) && None(p, c) && All(o, c) && None(q, c) && (o == [] ==> q == [])
    ensures Grouped(p) && Grouped(q)
    ensures forall i, k :: 0 <= i < |p| && 0 <= k < |q| ==> !SameKey(p[i], q[k])
  {
    var list := p + o + q;
    assert forall i :: 0 <= i < |p| ==> list[i] == p[i];
    forall i, j, k | 0 <= i < j < k < |q| && SameKey(q[i], q[k])
      ensures SameKey(q[i], q[j])
    {
      var n := |p| + |o|;
      assert list[n + i] == q[i] && list[n + j] == q[j] && list[n + k] == q[k];
    }
    forall i, k | 0 <= i < |p| && 0 <= k < |q|
      ensures !SameKey(p[i], q[k])
    {
      assert list[|p|] == o[0] && list[|p| + |o| + k] == q[k];
      assert !SameKey(list[i], list[|p|]);
    }
  }

  lemma GroupedConcat(p: seq<FileLock>, g: seq<FileLock>, q: seq<FileLock>, c: FileLock)
    requires Grouped(p) && Grouped(q) && None(p, c) && All(g, c) && None(q, c)
    requires forall i, k :: 0 <= i < |p| && 0 <= k < |q| ==> !SameKey(p[i], q[k])
    ensures Grouped(p + g + q)
  {
    var list := p + g + q;
    forall i, j, k | 0 <= i < j < k < |list| && SameKey(list[i], list[k])
      ensures SameKey(list[i], list[j])
    {
      var n := |p| + |g|;
      if k < |p| {
        assert SameKey(p[i], p[j]);
      } else if i >= n {
        assert SameKey(q[i - n], q[j - n]);
      }
    }
  }

  lemma ReplacedGrouped(list: seq<FileLock>, c: FileLock, g: seq<FileLock>)
    requires Grouped(list) && All(g, c)
    ensures Grouped(Pre(list, c) + g + Post(list, c))
  {
    Split(list, c);
    SplitGrouped(list, c);
    OthersGrouped(Pre(list, c), Own(list, c), Post(list, c), c);
    GroupedConcat(Pre(list, c), g, Post(list, c), c);
  }

  /** What every call keeps, whatever the requests. */
  ghost predicate Sound(list: seq<FileLock>) {
    Entries(list) && Grouped(list) && Safe(list)
  }

  predicate NoConflict(list: seq<FileLock>, c: FileLock) {
    forall i :: 0 <= i < |list| ==> !Conflict(c, list[i])
  }

  lemma OwnLoose(list: seq<FileLock>, c: FileLock)
    requires Entries(list)
    ensures NoUnLck(Own(list, c)) && forall i :: 0 <= i < |Own(list, c)| ==> Loose(Own(list, c)[i], c)
  {
    var o := Own(list, c);
    forall i | 0 <= i < |o|
      ensures Entry(o[i])
    {
      assert o[i] == list[First(list, c) + i];
    }
  }

  /** A byte of l that c's owner held before is safe against every other owner; a byte it
      asks for is safe because the scan found no conflict. */
  lemma FitSafe(l: FileLock, o: FileLock, list: seq<FileLock>, c: FileLock, b: int)
    requires Sound(list) && Request(c) && NoConflict(list, c) && o in list && !SameKey(o, c)
    requires Loose(l, c) && Within(l, Own(list, c), c) && InRange(l, b) && InRange(o, b)
    ensures l.typ == RdLck && o.typ == RdLck
  {
    var k :| 0 <= k < |list| && list[k] == o;
    var own := Own(list, c);
    if Covers(own, b, l.typ) {
      var i :| 0 <= i < |own| && own[i].typ == l.typ && InRange(own[i], b);
      assert list[First(list, c) + i] == own[i];
      assert SameKey(own[i], c) && !SameKey(own[i], list[k]);
    } else {
      assert Overlap(c, o) && !Conflict(c, list[k]);
    }
  }

  lemma SafeConcat(p: seq<FileLock>, g: seq<FileLock>, q: seq<FileLock>, list: seq<FileLock>, c: FileLock)
    requires Sound(list) && Request(c) && NoConflict(list, c)
    requires AllFit(g, Own(list, c), c)
    requires None(p, c) && None(q, c)
    requires forall i :: 0 <= i < |p| ==> p[i] in list
    requires forall i :: 0 <= i < |q| ==> q[i] in list
    ensures Safe(p + g + q)
  {
    var list' := p + g + q;
    forall i, j, b | 0 <= i < |list'| && 0 <= j < |list'| && !SameKey(list'[i], list'[j]) &&
                     InRange(list'[i], b) && InRange(list'[j], b)
      ensures list'[i].typ == RdLck && list'[j].typ == RdLck
    {
      var l, o := list'[i], list'[j];
      assert l in p || l in g || l in q;
      assert o in p || o in g || o in q;
      if l in g && o !in g {
        FitSafe(l, o, list, c, b);
      } else if o in g && l !in g {
        FitSafe(o, l, list, c, b);
      }
    }
  }

  /** Whatever the owner's group looks like, and wrapping or not, a request without a conflict
      leaves the list safe. */
  lemma LockItSound(list: seq<FileLock>, c: FileLock, free: nat)
    requires Sound(list) && Request(c) && c.owner != 0 && NoConflict(list, c)
    ensures Sound(LockIt(list, c, free).list)
  {
    OwnLoose(list, c);
    LockGroupBounded(Own(list, c), c, free);
    Split(list, c);
    SplitGrouped(list, c);
    var g := LockGroup(Own(list, c), c, free).group;
    ReplacedGrouped(list, c, g);
    SafeConcat(Pre(list, c), g, Post(list, c), list, c);
    EntriesConcat(Pre(list, c), g, Post(list, c), list, c);
    hide LockGroup, Pre, Own, Post, Safe, Grouped, Entries, AllFit;
  }

  lemma EntriesConcat(p: seq<FileLock>, g: seq<FileLock>, q: seq<FileLock>, list: seq<FileLock>, c: FileLock)
    requires Entries(list) && c.owner != 0 && AllFit(g, Own(list, c), c)
    requires forall i :: 0 <= i < |p| ==> p[i] in list
    requires forall i :: 0 <= i < |q| ==> q[i] in list
    ensures Entries(p + g + q)
  {
    hide Within, Own;
    assert forall i :: 0 <= i < |g| ==> Entry(g[i]);
  }

  lemma RemoveLocksSound(list: seq<FileLock>, c: FileLock)
    requires Sound(list)
    ensures Sound(RemoveLocks(list, c))
  {
    hide Pre, Own, Post, Grouped;
    Split(list, c);
    ReplacedGrouped(list, c, []);
    assert RemoveLocks(list, c) == Pre(list, c) + [] + Post(list, c);
    var list' := RemoveLocks(list, c);
    assert forall i :: 0 <= i < |list'| ==> list'[i] in list;
    hide RemoveLocks;
  }

  /** The per-byte update of a request: the bytes of c now have c's type for c's owner, and
      every other byte and owner is as before. */
  ghost predicate Applied(list': seq<FileLock>, list: seq<FileLock>, c: FileLock) {
    forall d, b, t :: Held(list', d, b, t) <==>
      if SameKey(c, d) && InRange(c, b) then t == c.typ && t != UnLck else Held(list, d, b, t)
  }

  ghost predicate Cleared(list': seq<FileLock>, list: seq<FileLock>, c: FileLock) {
    forall d, b, t :: Held(list', d, b, t) <==> !SameKey(c, d) && Held(list, d, b, t)
  }

  lemma HeldNone(s: seq<FileLock>, c: FileLock, d: FileLock, b: int, t: LockType)
    requires None(s, c) && SameKey(c, d)
    ensures !Held(s, d, b, t)
  {
    assert forall i :: 0 <= i < |s| ==> !SameKey(s[i], c);
  }

  lemma HeldSplit(list: seq<FileLock>, c: FileLock, g: seq<FileLock>, d: FileLock, b: int, t: LockType)
    requires Grouped(list) && All(g, c)
    ensures Held(Pre(list, c) + g + Post(list, c), d, b, t)
            <==> if SameKey(c, d) then Covers(g, b, t) else Held(list, d, b, t)
  {
    var p, o, q := Pre(list, c), Own(list, c), Post(list, c);
    Split(list, c);
    SplitGrouped(list, c);
    hide Pre, Own, Post, Grouped;
    HeldConcat(p + g, q, d, b, t);
    HeldConcat(p, g, d, b, t);
    HeldConcat(p + o, q, d, b, t);
    HeldConcat(p, o, d, b, t);
    HeldGroup(g, c, d, b, t);
    HeldGroup(o, c, d, b, t);
    if SameKey(c, d) {
      HeldNone(p, c, d, b, t);
      HeldNone(q, c, d, b, t);
    }
  }

  lemma OwnSorted(list: seq<FileLock>, c: FileLock)
    requires Entries(list) && GroupsSorted(list)
    ensures Sorted(Own(list, c), c)
  {
    OwnLoose(list, c);
    var n, o := First(list, c), Own(list, c);
    assert forall i :: 0 <= i < |o| ==> o[i] == list[n + i];
    forall i, j | 0 <= i < j < |o|
      ensures Before(o[i], o[j])
    {
      assert SameKey(list[n + i], list[n + j]);
    }
  }

  lemma GroupInside(p: seq<FileLock>, g: seq<FileLock>, q: seq<FileLock>, c: FileLock)
    requires GroupsSorted(p + g + q) && All(g, c) && forall i :: 0 <= i < |g| ==> Loose(g[i], c)
    ensures Sorted(g, c)
  {
    var list := p + g + q;
    assert forall i :: 0 <= i < |g| ==> list[|p| + i] == g[i];
    forall i, j | 0 <= i < j < |g|
      ensures Before(g[i], g[j])
    {
      assert SameKey(list[|p| + i], list[|p| + j]);
    }
  }

  lemma GroupsOutside(p: seq<FileLock>, o: seq<FileLock>, q: seq<FileLock>, c: FileLock)
    requires GroupsSorted(p + o + q)
    ensures GroupsSorted(p + q)
  {
    var list, list' := p + o + q, p + q;
    forall i | 0 <= i < |list'|
      ensures list'[i] == list[if i < |p| then i else i + |o|]
    {
    }
  }

  lemma GroupsAround(p: seq<FileLock>, g: seq<FileLock>, q: seq<FileLock>, c: FileLock)
    requires GroupsSorted(p + q) && None(p, c) && None(q, c) && All(g, c) && Sorted(g, c)
    ensures GroupsSorted(p + g + q)
  {
    var rest, list := p + q, p + g + q;
    var n := |p| + |g|;
    forall i | 0 <= i < |list|
      ensures if |p| <= i < n then list[i] == g[i - |p|] else list[i] == rest[if i < |p| then i else i - |g|]
      ensures |p| <= i < n <==> SameKey(list[i], c)
    {
      assert i < |p| ==> list[i] == p[i];
      assert i >= n ==> list[i] == q[i - n];
    }
    forall i, j | 0 <= i < j < |list| && SameKey(list[i], list[j])
      ensures Before(list[i], list[j])
    {
      if |p| <= i < n {
        assert |p| <= j < n;
      } else {
        assert !(|p| <= j < n);
      }
    }
  }

  lemma GroupsSortedConcat(p: seq<FileLock>, o: seq<FileLock>, g: seq<FileLock>, q: seq<FileLock>, c: FileLock)
    requires GroupsSorted(p + o + q) && None(p, c) && None(q, c) && All(g, c)
    requires forall i :: 0 <= i < |g| ==> Loose(g[i], c)
    ensures GroupsSorted(p + g + q) <==> Sorted(g, c)
  {
    hide GroupsSorted, Sorted;
    if GroupsSorted(p + g + q) { GroupInside(p, g, q, c); }
    if Sorted(g, c) {
      GroupsOutside(p, o, q, c);
      GroupsAround(p, g, q, c);
    }
  }

  /** lock_it refines the per-byte update on one list. */
  lemma LockItUpdates(list: seq<FileLock>, c: FileLock, free: nat)
    requires Entries(list) && Grouped(list) && GroupsSorted(list) && Request(c) && c.owner != 0
    ensures var r := LockIt(list, c, free);
            && (r.status != Success ==> r.list == list && r.free == free)
            && (r.status == Success ==> (GroupsSorted(r.list) <==> !Wraps(Own(list, c), c)))
            && (r.status == Success && !Wraps(Own(list, c), c) ==> Applied(r.list, list, c))
  {
    Split(list, c);
    SplitGrouped(list, c);
    OwnLoose(list, c);
    OwnSorted(list, c);
    var r := LockGroup(Own(list, c), c, free);
    LockGroupUpdates(Own(list, c), c, free);
    LockGroupBounded(Own(list, c), c, free);
    assert All(r.group, c);
    if r.status == Success {
      GroupsSortedConcat(Pre(list, c), Own(list, c), r.group, Post(list, c), c);
      if !Wraps(Own(list, c), c) {
        forall d, b, t
          ensures Held(LockIt(list, c, free).list, d, b, t) <==>
            if SameKey(c, d) && InRange(c, b) then t == c.typ && t != UnLck else Held(list, d, b, t)
        {
          HeldSplit(list, c, r.group, d, b, t);
          HeldSplit(list, c, Own(list, c), d, b, t);
        }
      }
    }
  }

  /** fcntl_remove_locks drops every lock of the closing (owner, fd) and no other. */
  lemma RemoveLocksClears(list: seq<FileLock>, c: FileLock)
    requires Entries(list) && Grouped(list)
    ensures Cleared(RemoveLocks(list, c), list, c)
    ensures GroupsSorted(list) ==> GroupsSorted(RemoveLocks(list, c))
  {
    Split(list, c);
    SplitGrouped(list, c);
    assert RemoveLocks(list, c) == Pre(list, c) + [] + Post(list, c);
    forall d, b, t
      ensures Held(RemoveLocks(list, c), d, b, t) <==> !SameKey(c, d) && Held(list, d, b, t)
    {
      HeldSplit(list, c, [], d, b, t);
    }
    if GroupsSorted(list) {
      GroupsSortedConcat(Pre(list, c), Own(list, c), [], Post(list, c), c);
    }
  }
}

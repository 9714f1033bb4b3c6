/** Record locks of fcntl (linux-1.0.0/fs/locks.c): the walk of lock_it over one owner's
    group of locks, as a function on sequences, and what it does to each byte.

    A list keeps every owner's locks together; the locks of one (owner, fd) are its group.
    Offsets are 32-bit signed integers, so adding one to OFFSET_MAX wraps. */
module FileLocks {

  const OFFSET_MAX := 0x7fffffff

  datatype LockType = RdLck | WrLck | UnLck

  datatype FileLock = FileLock(owner: nat, fd: nat, typ: LockType, start: int, end: int)

  datatype Status = Success | EInval | ENoLck

  /** Signed 32-bit wrap-around. */
  function Wrap32(x: int): (r: int)
    ensures -0x80000000 <= r <= OFFSET_MAX
    ensures -0x80000000 <= x <= OFFSET_MAX ==> r == x
    ensures OFFSET_MAX < x <= 2 * OFFSET_MAX + 1 ==> r < 0
  {
    (x + 0x80000000) % 0x100000000 - 0x80000000
  }

  predicate SameKey(a: FileLock, b: FileLock) {
    a.owner == b.owner && a.fd == b.fd
  }

  predicate InRange(l: FileLock, b: int) {
    l.start <= b <= l.end
  }

  predicate Overlap(a: FileLock, b: FileLock) {
    a.end >= b.start && b.end >= a.start
  }

  /** sys blocks the request c. */
  predicate Conflict(c: FileLock, sys: FileLock) {
    !SameKey(c, sys) && Overlap(c, sys) &&
    match c.typ
    case RdLck => sys.typ != RdLck
    case WrLck => true
    case UnLck => false
  }

  /** A request as copy_flock builds it. */
  predicate Request(c: FileLock) {
    0 <= c.start <= c.end <= OFFSET_MAX
  }

  ghost predicate Covers(g: seq<FileLock>, b: int, t: LockType) {
    exists i :: 0 <= i < |g| && g[i].typ == t && InRange(g[i], b)
  }

  // ------------------------------------------------------------------------------------
  // The walk
  // ------------------------------------------------------------------------------------

  /** The variables of lock_it's second loop. done and rest are the group before and from
      *before on. slot is the position in done that caller points to once it is an entry of
      the list (-1 while it is the local request), left the position of the lock cut on its
      right (-1: none), and right says that the first lock of rest is cut on its left. */
  datatype Cursor = Cursor(done: seq<FileLock>, rest: seq<FileLock>, c: FileLock,
                           added: bool, slot: int, left: int, right: bool)

  function Start(g: seq<FileLock>, c: FileLock): Cursor {
    Cursor([], g, c, false, -1, -1, false)
  }

  function Hull(a: FileLock, b: FileLock): FileLock {
    a.(start := if a.start > b.start then b.start else a.start,
       end := if a.end < b.end then b.end else a.end)
  }

  predicate Usable(w: Cursor) {
    && (w.added && w.c.typ != UnLck ==> 0 <= w.slot < |w.done|)
    && w.left < |w.done|
  }

  /** One pass over the first lock of rest: the new cursor, and whether the loop breaks. */
  function Pass(w: Cursor): (r: (Cursor, bool))
    requires w.rest != [] && Usable(w) && w.rest[0].typ != UnLck
    ensures !r.1 ==> Usable(r.0) && r.0.rest == w.rest[1..] && r.0.right == w.right
    ensures r.1 ==>
              (r.0.left >= |w.done| ==> r.0.left == |w.done| && r.0.right) && r.0.done == w.done && r.0.rest == w.rest
    ensures |r.0.done| <= |w.done| + 1 && r.0.c.typ == w.c.typ
  {
    var fl := w.rest[0];
    var tail := w.rest[1..];
    if w.c.typ == fl.typ then
      if fl.end < w.c.start - 1 then
        (w.(done := w.done + [fl], rest := tail), false)
      else if fl.start > Wrap32(w.c.end + 1) then
        (w, true)
      else
        var c := Hull(w.c, fl);
        if w.added then
          (w.(done := w.done[w.slot := Hull(w.done[w.slot], fl)], rest := tail, c := c), false)
        else
          (w.(done := w.done + [Hull(fl, w.c)], rest := tail, c := c, added := true, slot := |w.done|), false)
    else if fl.end < w.c.start then
      (w.(done := w.done + [fl], rest := tail), false)
    else if fl.start > w.c.end then
      (w, true)
    else
      var added := w.added || w.c.typ == UnLck;
      var left := if fl.start < w.c.start then |w.done| else w.left;
      if fl.end > w.c.end then
        (w.(added := added, left := left, right := true), true)
      else if fl.start >= w.c.start then
        if added then
          (w.(rest := tail, added := added), false)
        else
          (w.(done := w.done + [fl.(start := w.c.start, end := w.c.end, typ := w.c.typ)],
              rest := tail, added := true, slot := |w.done|), false)
      else
        (w.(done := w.done + [fl], rest := tail, added := added, left := left), false)
  }

  predicate NoUnLck(g: seq<FileLock>) {
    forall i :: 0 <= i < |g| ==> g[i].typ != UnLck
  }

  predicate Closed(w: Cursor) {
    w.left <= |w.done| && (w.right ==> w.rest != []) && (w.left == |w.done| ==> w.right)
  }

  function Scan(w: Cursor): (v: Cursor)
    requires Usable(w) && NoUnLck(w.rest) && !w.right
    ensures Closed(v) && |v.done| + |v.rest| <= |w.done| + |w.rest|
    decreases |w.rest|
  {
    if w.rest == [] then w
    else
      var (w', stop) := Pass(w);
      if stop then w' else Scan(w')
  }

  datatype Outcome = Outcome(status: Status, group: seq<FileLock>, free: nat)

  /** The locks before the request, the left one cut. When one lock sticks out on both
      sides, its left part is a new entry. */
  function Head(w: Cursor): seq<FileLock>
    requires Closed(w)
  {
    var low := w.c.start - 1;
    if w.left == |w.done| then w.done + [w.rest[0].(end := low)]
    else if w.left >= 0 then w.done[w.left := w.done[w.left].(end := low)]
    else w.done
  }

  function NewEntry(w: Cursor): seq<FileLock> {
    if w.added then [] else [w.c]
  }

  /** The locks after the request, the right one cut. */
  function Tail(w: Cursor): seq<FileLock>
    requires Closed(w)
  {
    if w.right then [w.rest[0].(start := Wrap32(w.c.end + 1))] + w.rest[1..] else w.rest
  }

  /** lock_it after its loops: insert the request if no entry took it, cut the locks on both
      sides, and give up without a change when the free list runs out. */
  function Finish(w: Cursor, free: nat): (r: Outcome)
    requires Closed(w)
    ensures |r.group| + r.free == |w.done| + |w.rest| + free
  {
    if !w.added && w.c.typ == UnLck then
      Outcome(EInval, w.done + w.rest, free)
    else
      var needed := |NewEntry(w)| + if w.left == |w.done| then 1 else 0;
      if free < needed then
        Outcome(ENoLck, w.done + w.rest, free)
      else
        Outcome(Success, Head(w) + NewEntry(w) + Tail(w), free - needed)
  }

  // ------------------------------------------------------------------------------------
  // Any group: what the owner holds grows only by the request
  // ------------------------------------------------------------------------------------

  /** Every byte of l is one the owner held with l's type, or one it asks for. */
  ghost predicate Within(l: FileLock, g: seq<FileLock>, c: FileLock) {
    forall b :: InRange(l, b) ==> Covers(g, b, l.typ) || (l.typ == c.typ && InRange(c, b))
  }

  /** l belongs to c's owner and ends by OFFSET_MAX; it may be empty. */
  predicate Loose(l: FileLock, c: FileLock) {
    SameKey(l, c) && l.typ != UnLck && 0 <= l.start && l.end <= OFFSET_MAX
  }

  ghost predicate AllFit(s: seq<FileLock>, g: seq<FileLock>, c: FileLock) {
    forall i :: 0 <= i < |s| ==> Loose(s[i], c) && Within(s[i], g, c)
  }

  ghost predicate Bounded(w: Cursor, g: seq<FileLock>, c: FileLock) {
    && Request(w.c) && w.c.typ == c.typ && SameKey(w.c, c) && Within(w.c, g, c)
    && AllFit(w.done, g, c) && AllFit(w.rest, g, c)
    && (w.slot >= 0 <==> w.added && c.typ != UnLck)
    && (w.slot >= 0 ==> w.slot < |w.done| && w.done[w.slot] == w.c)
    && (w.left >= 0 ==> w.left != w.slot)
    && (0 <= w.left < |w.done| ==> w.done[w.left].end >= w.c.start)
    && w.left <= |w.done| && (w.left == |w.done| ==> w.right)
    && (w.right ==> w.rest != [] && w.rest[0].start <= w.c.end < w.rest[0].end && w.c.start <= w.rest[0].end)
  }

  lemma HullWithin(a: FileLock, b: FileLock, g: seq<FileLock>, c: FileLock)
    requires Within(a, g, c) && Within(b, g, c) && a.typ == b.typ
    requires a.start <= a.end && b.end >= a.start - 1 && b.start <= a.end + 1
    ensures Within(Hull(a, b), g, c)
  {
    forall x | InRange(Hull(a, b), x)
      ensures Covers(g, x, a.typ) || (a.typ == c.typ && InRange(c, x))
    {
      assert InRange(a, x) || InRange(b, x);
    }
  }

  lemma CutWithin(l: FileLock, s: int, e: int, g: seq<FileLock>, c: FileLock)
    requires Within(l, g, c) && l.start <= s && e <= l.end
    ensures Within(l.(start := s, end := e), g, c)
  {
    assert forall b :: InRange(l.(start := s, end := e), b) ==> InRange(l, b);
  }

  lemma PassSameBounded(w: Cursor, g: seq<FileLock>, c: FileLock)
    requires Bounded(w, g, c) && w.rest != [] && !w.right && w.c.typ == w.rest[0].typ
    ensures Bounded(Pass(w).0, g, c)
    ensures !Pass(w).0.right
  {
    var fl := w.rest[0];
    if fl.end >= w.c.start - 1 && fl.start <= Wrap32(w.c.end + 1) {
      HullWithin(w.c, fl, g, c);
      assert Hull(fl, w.c) == Hull(w.c, fl);
    }
  }

  lemma PassBounded(w: Cursor, g: seq<FileLock>, c: FileLock)
    requires Bounded(w, g, c) && w.rest != [] && !w.right
    ensures Bounded(Pass(w).0, g, c)
    ensures !Pass(w).1 ==> !Pass(w).0.right
  {
    if w.c.typ == w.rest[0].typ {
      PassSameBounded(w, g, c);
    }
  }

  lemma {:induction false} ScanBounded(w: Cursor, g: seq<FileLock>, c: FileLock)
    requires Bounded(w, g, c) && !w.right
    ensures Bounded(Scan(w), g, c)
    decreases |w.rest|
  {
    if w.rest != [] {
      PassBounded(w, g, c);
      if !Pass(w).1 {
        ScanBounded(Pass(w).0, g, c);
      }
    }
  }

  lemma HeadTailBounded(w: Cursor, g: seq<FileLock>, c: FileLock)
    requires Bounded(w, g, c)
    ensures AllFit(Head(w), g, c) && AllFit(Tail(w), g, c)
  {
    if w.right {
      CutWithin(w.rest[0], w.c.end + 1, w.rest[0].end, g, c);
    }
    if w.left == |w.done| {
      CutWithin(w.rest[0], w.rest[0].start, w.c.start - 1, g, c);
    } else if w.left >= 0 {
      CutWithin(w.done[w.left], w.done[w.left].start, w.c.start - 1, g, c);
    }
  }

  lemma FinishBounded(w: Cursor, free: nat, g: seq<FileLock>, c: FileLock)
    requires Bounded(w, g, c)
    ensures AllFit(Finish(w, free).group, g, c)
  {
    HeadTailBounded(w, g, c);
    assert AllFit(NewEntry(w), g, c) || c.typ == UnLck;
  }

  // ------------------------------------------------------------------------------------
  // A sorted group: the walk refines a per-byte update
  // ------------------------------------------------------------------------------------

  predicate Before(a: FileLock, b: FileLock) {
    a.end < b.start && (a.typ == b.typ ==> a.end + 1 < b.start)
  }

  /** The group of c's owner: sorted, disjoint, and merged where two locks of one type touch. */
  predicate Sorted(g: seq<FileLock>, c: FileLock) {
    && (forall i :: 0 <= i < |g| ==> Loose(g[i], c) && g[i].start <= g[i].end)
    && (forall i, j :: 0 <= i < j < |g| ==> Before(g[i], g[j]))
  }

  /** The request runs to OFFSET_MAX and the owner has a lock of the same type that touches
      it: the sum fl_end + 1 in lock_it then wraps. */
  ghost predicate Wraps(g: seq<FileLock>, c: FileLock) {
    c.end == OFFSET_MAX && exists i :: 0 <= i < |g| && g[i].typ == c.typ && g[i].end >= c.start - 1
  }

  /** How the walk stands on a sorted group: it passed g[..m], put the request over g[m..k]
      and has g[k..] before it. */
  ghost predicate Shape(w: Cursor, g: seq<FileLock>, c: FileLock, m: nat, k: nat) {
    && m <= k <= |g| && w.rest == g[k..]
    && w.done == g[..m] + (if w.slot >= 0 then [w.c] else [])
    && (w.slot == -1 || w.slot == m)
    && (w.slot >= 0 <==> w.added && c.typ != UnLck)
    && Request(w.c) && w.c.typ == c.typ && SameKey(w.c, c)
    && w.c.start <= c.start && c.end <= w.c.end
    && (w.slot == -1 || c.end == OFFSET_MAX ==> w.c == c)
    && (m < k ==> w.added) && (w.slot >= 0 ==> m < k) && (w.added ==> m < k || w.left >= 0 || w.right)
    && (w.left == -1 || (w.left == m - 1 && w.c.start == c.start && g[w.left].typ != c.typ
                         && g[w.left].start < c.start <= g[w.left].end <= c.end))
    && (w.left >= 0 && c.typ == UnLck ==> w.added)
    && (forall i :: 0 <= i < m && i != w.left ==> Before(g[i], w.c))
    && (forall i :: m <= i < k ==> w.c.start <= g[i].start && g[i].end <= w.c.end)
    && (forall i :: m <= i < k ==> if g[i].typ == c.typ then c.end < OFFSET_MAX
                                   else c.start <= g[i].start && g[i].end <= c.end)
    && (w.c.start < c.start ==> m < k && g[m].typ == c.typ && g[m].start == w.c.start && g[m].end >= c.start - 1)
    && (w.c.end > c.end ==> m < k && g[k - 1].typ == c.typ && g[k - 1].end == w.c.end && g[k - 1].start <= c.end + 1)
  }

  /** Where the walk ends: past the group, before a later lock, at a lock that sticks out on
      the right, or stuck at a lock it should have merged. */
  ghost predicate Stop(w: Cursor, g: seq<FileLock>, c: FileLock, m: nat, k: nat, stuck: bool) {
    && Shape(if w.left == |w.done| then w.(left := -1) else w, g, c, m, k)
    && (w.left == |w.done| ==> w.right && m == k < |g| && w.slot == -1 && g[k].start < c.start)
    && (w.right ==> k < |g| && g[k].typ != c.typ && g[k].start <= w.c.end < g[k].end && (c.typ == UnLck ==> w.added))
    && (w.right && w.left != |w.done| ==> c.start <= g[k].start)
    && (stuck ==>
          k < |g| && !w.right && g[k].typ == c.typ && w.c == c && c.end == OFFSET_MAX && g[k].end >= c.start - 1)
    && (!stuck && !w.right && k < |g| ==> Before(w.c, g[k]))
  }

  ghost predicate Walking(w: Cursor, g: seq<FileLock>, c: FileLock, m: nat, k: nat) {
    Sorted(g, c) && Request(c) && Shape(w, g, c, m, k) && !w.right && k < |g|
  }

  lemma PassBefore(w: Cursor, g: seq<FileLock>, c: FileLock, m: nat, k: nat)
    requires Walking(w, g, c, m, k) && !Pass(w).1
    requires Before(g[k], w.c) || (g[k].typ != c.typ && g[k].end >= w.c.start > g[k].start)
    ensures m == k && Shape(Pass(w).0, g, c, m + 1, k + 1) && !Pass(w).0.right
  {
    assert w.rest[0] == g[k] && w.rest[1..] == g[k + 1..];
    assert m == k;
    assert Pass(w).0.done == g[..m + 1];
  }

  lemma PassMergeFirst(w: Cursor, g: seq<FileLock>, c: FileLock, m: nat, k: nat)
    requires Walking(w, g, c, m, k) && !Pass(w).1 && g[k].typ == c.typ && !Before(g[k], w.c) && !w.added
    ensures Shape(Pass(w).0, g, c, m, k + 1) && !Pass(w).0.right
  {
    assert w.rest[0] == g[k] && w.rest[1..] == g[k + 1..];
    assert m == k && w.c == c;
    assert Pass(w).0.done == g[..m] + [Pass(w).0.c];
  }

  lemma PassMergeNext(w: Cursor, g: seq<FileLock>, c: FileLock, m: nat, k: nat)
    requires Walking(w, g, c, m, k) && !Pass(w).1 && g[k].typ == c.typ && !Before(g[k], w.c) && w.added
    ensures Shape(Pass(w).0, g, c, m, k + 1) && !Pass(w).0.right
  {
    assert w.rest[0] == g[k] && w.rest[1..] == g[k + 1..];
    var v := Pass(w).0;
    assert g[k - 1].end < g[k].start && w.c.start <= g[k - 1].start;
    assert v.c.start == w.c.start;
    assert v.done == g[..m] + [v.c];
  }

  lemma PassReplace(w: Cursor, g: seq<FileLock>, c: FileLock, m: nat, k: nat)
    requires Walking(w, g, c, m, k) && !Pass(w).1 && g[k].typ != c.typ
    requires w.c.start <= g[k].start && w.c.start <= g[k].end
    ensures Shape(Pass(w).0, g, c, m, k + 1) && !Pass(w).0.right
  {
    assert w.rest[0] == g[k] && w.rest[1..] == g[k + 1..];
    if !w.added && c.typ != UnLck {
      assert Pass(w).0.done == g[..m] + [w.c];
    }
  }

  lemma PassStop(w: Cursor, g: seq<FileLock>, c: FileLock, m: nat, k: nat)
    requires Walking(w, g, c, m, k) && Pass(w).1
    ensures Stop(Pass(w).0, g, c, m, k, g[k].typ == c.typ && w.c.end == OFFSET_MAX)
  {
    assert w.rest[0] == g[k];
  }

  lemma PassShape(w: Cursor, g: seq<FileLock>, c: FileLock, m: nat, k: nat) returns (m': nat)
    requires Walking(w, g, c, m, k) && !Pass(w).1
    ensures Shape(Pass(w).0, g, c, m', k + 1) && !Pass(w).0.right
  {
    var fl := g[k];
    m' := m;
    if Before(fl, w.c) || (fl.typ != c.typ && fl.end >= w.c.start > fl.start) {
      PassBefore(w, g, c, m, k);
      m' := m + 1;
    } else if fl.typ == c.typ {
      if w.added { PassMergeNext(w, g, c, m, k); } else { PassMergeFirst(w, g, c, m, k); }
    } else {
      PassReplace(w, g, c, m, k);
    }
  }

  lemma EndShape(w: Cursor, g: seq<FileLock>, c: FileLock, m: nat, k: nat)
    requires Shape(w, g, c, m, k) && !w.right
    ensures Usable(w) && k <= |g| && (w.rest == [] <==> k == |g|)
    ensures k < |g| ==> w.rest[0] == g[k]
    ensures k == |g| ==> Stop(w, g, c, m, k, false)
  {
  }

  lemma {:induction false} ScanShape(w: Cursor, g: seq<FileLock>, c: FileLock, m: nat, k: nat)
    returns (m': nat, k': nat, stuck: bool)
    requires Sorted(g, c) && Request(c) && Shape(w, g, c, m, k) && !w.right
    requires NoUnLck(w.rest) && Usable(w)
    ensures Stop(Scan(w), g, c, m', k', stuck)
    decreases |w.rest|
  {
    hide Pass, Shape, Stop, Sorted, Before;
    EndShape(w, g, c, m, k);
    if k == |g| {
      m', k', stuck := m, k, false;
    } else if Pass(w).1 {
      PassStop(w, g, c, m, k);
      m', k', stuck := m, k, g[k].typ == c.typ && w.c.end == OFFSET_MAX;
    } else {
      var m2 := PassShape(w, g, c, m, k);
      m', k', stuck := ScanShape(Pass(w).0, g, c, m2, k + 1);
    }
  }

  /** The walk gets stuck exactly on a request that wraps. */
  lemma StuckIsWrap(w: Cursor, g: seq<FileLock>, c: FileLock, m: nat, k: nat, stuck: bool)
    requires Sorted(g, c) && Request(c) && Stop(w, g, c, m, k, stuck)
    ensures stuck <==> Wraps(g, c)
  {
    if Wraps(g, c) {
      var i :| 0 <= i < |g| && g[i].typ == c.typ && g[i].end >= c.start - 1;
      assert !(i < m) && !(m <= i < k);
    }
  }

  /** What the finished group looks like: the locks below the request, the request itself,
      and the locks above it. */
  function Low(w: Cursor, g: seq<FileLock>, m: nat): seq<FileLock>
    requires m <= |g| && (w.left >= m ==> m < |g|)
  {
    var e := w.c.start - 1;
    if w.left >= m then g[..m] + [g[m].(end := e)]
    else if w.left >= 0 then g[..m][w.left := g[w.left].(end := e)]
    else g[..m]
  }

  function Mid(c: FileLock): seq<FileLock> {
    if c.typ == UnLck then [] else [c]
  }

  function High(w: Cursor, g: seq<FileLock>, k: nat): seq<FileLock>
    requires k <= |g| && (w.right ==> k < |g|)
  {
    if w.right then [g[k].(start := w.c.end + 1)] + g[k + 1..] else g[k..]
  }

  lemma HeadIsLow(w: Cursor, g: seq<FileLock>, m: nat)
    requires m <= |g| && Closed(w) && (w.left >= m ==> m < |g|)
    requires w.done == g[..m] + (if w.slot >= 0 then [w.c] else [])
    requires w.left < m || (w.left == m && w.slot < 0 && w.rest[0] == g[m])
    ensures Head(w) == Low(w, g, m) + (if w.slot >= 0 then [w.c] else [])
  {
    if 0 <= w.left < m {
      assert w.done[w.left] == g[w.left];
    }
  }

  lemma TailIsHigh(w: Cursor, g: seq<FileLock>, c: FileLock, m: nat, k: nat, stuck: bool)
    requires Sorted(g, c) && Stop(w, g, c, m, k, stuck) && Closed(w)
    ensures Tail(w) == High(w, g, k)
  {
    assert w.right ==> w.rest[0] == g[k] && w.rest[1..] == g[k + 1..] && Wrap32(w.c.end + 1) == w.c.end + 1;
  }

  lemma FinishIs(w: Cursor, low: seq<FileLock>, high: seq<FileLock>, free: nat)
    requires Closed(w) && Tail(w) == high && Head(w) == low + (if w.slot >= 0 then [w.c] else [])
    requires w.slot >= 0 <==> w.added && w.c.typ != UnLck
    ensures Finish(w, free).status == Success ==> Finish(w, free).group == low + Mid(w.c) + high
  {
    hide Head, Tail;
    if w.slot >= 0 {
      assert low + [w.c] + [] + high == low + [w.c] + high;
    }
  }

  lemma FinishShape(w: Cursor, g: seq<FileLock>, c: FileLock, m: nat, k: nat, stuck: bool, free: nat)
    requires Sorted(g, c) && Request(c) && Stop(w, g, c, m, k, stuck) && Closed(w)
    ensures Finish(w, free).status == Success ==> Finish(w, free).group == Low(w, g, m) + Mid(w.c) + High(w, g, k)
  {
    HeadIsLow(w, g, m);
    TailIsHigh(w, g, c, m, k, stuck);
    FinishIs(w, Low(w, g, m), High(w, g, k), free);
  }

  /** low is g below c: whole locks, the last one perhaps cut. */
  ghost predicate IsBelow(low: seq<FileLock>, g: seq<FileLock>, c: FileLock) {
    && |low| <= |g|
    && (forall i :: 0 <= i < |low| ==>
          low[i] == g[i].(end := low[i].end) && g[i].start <= low[i].end <= g[i].end && Before(low[i], c)
          && (low[i].end < g[i].end ==> low[i].end == c.start - 1))
    && (forall i :: |low| <= i < |g| ==> g[i].start >= c.start)
  }

  /** high is g above c. */
  ghost predicate IsAbove(high: seq<FileLock>, g: seq<FileLock>, c: FileLock) {
    var k := |g| - |high|;
    && k >= 0
    && (forall j :: 0 <= j < |high| ==>
          high[j] == g[k + j].(start := high[j].start) && g[k + j].start <= high[j].start <= g[k + j].end
          && Before(c, high[j])
          && (g[k + j].start < high[j].start ==> high[j].start == c.end + 1))
    && (forall i :: 0 <= i < k ==> g[i].end <= c.end)
  }

  lemma LowIsBelow(w: Cursor, g: seq<FileLock>, c: FileLock, m: nat, k: nat)
    requires Sorted(g, c) && Request(c) && Stop(w, g, c, m, k, false)
    ensures IsBelow(Low(w, g, m), g, w.c)
  {
  }

  lemma HighIsAbove(w: Cursor, g: seq<FileLock>, c: FileLock, m: nat, k: nat)
    requires Sorted(g, c) && Request(c) && Stop(w, g, c, m, k, false)
    ensures IsAbove(High(w, g, k), g, w.c)
  {
  }

  lemma BelowKeeps(low: seq<FileLock>, g: seq<FileLock>, c: FileLock, d: FileLock)
    requires Sorted(g, d) && IsBelow(low, g, c)
    ensures Sorted(low, d)
    ensures forall b, t :: b < c.start ==> (Covers(low, b, t) <==> Covers(g, b, t))
    ensures forall b, t :: b >= c.start ==> !Covers(low, b, t)
  {
    forall b, t | b < c.start && Covers(g, b, t)
      ensures Covers(low, b, t)
    {
      var i :| 0 <= i < |g| && g[i].typ == t && InRange(g[i], b);
      assert low[i].typ == t && InRange(low[i], b);
    }
  }

  lemma AboveKeeps(high: seq<FileLock>, g: seq<FileLock>, c: FileLock, d: FileLock)
    requires Sorted(g, d) && IsAbove(high, g, c)
    ensures Sorted(high, d)
    ensures forall b, t :: b > c.end ==> (Covers(high, b, t) <==> Covers(g, b, t))
    ensures forall b, t :: b <= c.end ==> !Covers(high, b, t)
  {
    var k := |g| - |high|;
    forall i, j | 0 <= i < j < |high|
      ensures Before(high[i], high[j])
    {
      assert Before(g[k + i], g[k + j]);
    }
    forall b, t | b > c.end && Covers(g, b, t)
      ensures Covers(high, b, t)
    {
      var i :| 0 <= i < |g| && g[i].typ == t && InRange(g[i], b);
      assert high[i - k].typ == t && InRange(high[i - k], b);
    }
    forall b, t | Covers(high, b, t)
      ensures b > c.end && Covers(g, b, t)
    {
      var i :| 0 <= i < |high| && high[i].typ == t && InRange(high[i], b);
      assert g[k + i].typ == t && InRange(g[k + i], b);
    }
  }

  /** One byte of the group after the request c. */
  ghost predicate Updated(g': seq<FileLock>, g: seq<FileLock>, c: FileLock) {
    forall b, t :: Covers(g', b, t) <==> if InRange(c, b) then t == c.typ && t != UnLck else Covers(g, b, t)
  }

  lemma CoversConcat(s: seq<FileLock>, t: seq<FileLock>, b: int, y: LockType)
    ensures Covers(s + t, b, y) <==> Covers(s, b, y) || Covers(t, b, y)
  {
    if Covers(s, b, y) {
      var i :| 0 <= i < |s| && s[i].typ == y && InRange(s[i], b);
      assert (s + t)[i] == s[i];
    }
    if Covers(t, b, y) {
      var i :| 0 <= i < |t| && t[i].typ == y && InRange(t[i], b);
      assert (s + t)[|s| + i] == t[i];
    }
  }

  /** Bytes the walk added to the request were already held with its type. */
  lemma GrownCovered(w: Cursor, g: seq<FileLock>, c: FileLock, m: nat, k: nat, stuck: bool, b: int, t: LockType)
    requires Sorted(g, c) && Request(c) && Stop(w, g, c, m, k, stuck)
    requires InRange(w.c, b) && !InRange(c, b)
    ensures c.typ != UnLck && (Covers(g, b, t) <==> t == c.typ)
  {
    var i := if b < c.start then m else k - 1;
    assert g[i].typ == c.typ && InRange(g[i], b);
  }

  lemma ByteUpdated(low: seq<FileLock>, high: seq<FileLock>, r: FileLock, g: seq<FileLock>, c: FileLock,
                    b: int, t: LockType)
    requires r.typ == c.typ && r.start <= c.start <= c.end <= r.end
    requires if b < r.start then Covers(low, b, t) <==> Covers(g, b, t) else !Covers(low, b, t)
    requires if b > r.end then Covers(high, b, t) <==> Covers(g, b, t) else !Covers(high, b, t)
    requires InRange(r, b) && !InRange(c, b) ==> c.typ != UnLck && (Covers(g, b, t) <==> t == c.typ)
    ensures Covers(low + Mid(r) + high, b, t)
            <==> if InRange(c, b) then t == c.typ && t != UnLck else Covers(g, b, t)
  {
    CoversConcat(low + Mid(r), high, b, t);
    CoversConcat(low, Mid(r), b, t);
    assert r.typ != UnLck ==> Mid(r)[0] == r;
  }

  lemma FinishUpdates(w: Cursor, g: seq<FileLock>, c: FileLock, m: nat, k: nat, free: nat)
    requires Sorted(g, c) && Request(c) && Stop(w, g, c, m, k, false) && Closed(w)
    requires Finish(w, free).status == Success
    ensures Sorted(Finish(w, free).group, c) && Updated(Finish(w, free).group, g, c)
  {
    var low, high := Low(w, g, m), High(w, g, k);
    assert SameKey(w.c, c) && Request(w.c) && w.c.typ == c.typ && w.c.start <= c.start && c.end <= w.c.end;
    FinishShape(w, g, c, m, k, false, free);
    LowIsBelow(w, g, c, m, k);
    HighIsAbove(w, g, c, m, k);
    hide Stop, Low, High, Finish;
    BelowKeeps(low, g, w.c, c);
    AboveKeeps(high, g, w.c, c);
    SortedConcat(low, high, w.c, c);
    hide Sorted, IsBelow, IsAbove;
    forall b, t
      ensures Covers(low + Mid(w.c) + high, b, t)
              <==> if InRange(c, b) then t == c.typ && t != UnLck else Covers(g, b, t)
    {
      if InRange(w.c, b) && !InRange(c, b) {
        GrownCovered(w, g, c, m, k, false, b, t);
      }
      ByteUpdated(low, high, w.c, g, c, b, t);
    }
  }

  lemma SortedConcat(low: seq<FileLock>, high: seq<FileLock>, c: FileLock, d: FileLock)
    requires Sorted(low, d) && Sorted(high, d) && Request(c) && SameKey(c, d)
    requires forall i :: 0 <= i < |low| ==> Before(low[i], c)
    requires forall i :: 0 <= i < |high| ==> Before(c, high[i])
    ensures Sorted(low + Mid(c) + high, d)
  {
  }

  // ------------------------------------------------------------------------------------
  // lock_it on one group
  // ------------------------------------------------------------------------------------

  function LockGroup(g: seq<FileLock>, c: FileLock, free: nat): (r: Outcome)
    requires NoUnLck(g)
    ensures |r.group| + r.free == |g| + free
  {
    var w := Scan(Start(g, c));
    Finish(w, free + (|g| - |w.done| - |w.rest|))
  }

  /** On any group at all, lock_it leaves the owner with bytes it held or asked for. */
  lemma LockGroupBounded(g: seq<FileLock>, c: FileLock, free: nat)
    requires Request(c) && NoUnLck(g) && forall i :: 0 <= i < |g| ==> Loose(g[i], c)
    ensures AllFit(LockGroup(g, c, free).group, g, c)
  {
    forall i | 0 <= i < |g|
      ensures Within(g[i], g, c)
    {
      assert forall b :: InRange(g[i], b) ==> Covers(g, b, g[i].typ);
    }
    ScanBounded(Start(g, c), g, c);
    var w := Scan(Start(g, c));
    FinishBounded(w, free + (|g| - |w.done| - |w.rest|), g, c);
  }

  /** The refinement: a failed call changes nothing; a successful one sets every byte of the
      request and no other, and keeps the group sorted unless fl_end + 1 wraps. */
  lemma LockGroupUpdates(g: seq<FileLock>, c: FileLock, free: nat)
    requires Sorted(g, c) && Request(c)
    ensures var r := LockGroup(g, c, free);
            && (r.status != Success ==> r.group == g && r.free == free)
            && (r.status == Success ==> (Sorted(r.group, c) <==> !Wraps(g, c)))
            && (r.status == Success && !Wraps(g, c) ==> Updated(r.group, g, c))
  {
    var w0 := Start(g, c);
    assert Shape(w0, g, c, 0, 0);
    var m, k, stuck := ScanShape(w0, g, c, 0, 0);
    var w := Scan(w0);
    var f := free + (|g| - |w.done| - |w.rest|);
    StuckIsWrap(w, g, c, m, k, stuck);
    hide Stop, Shape, Sorted, Scan, Updated, Wraps;
    if Finish(w, f).status != Success {
      FinishFails(w, g, c, m, k, stuck, f);
    } else if stuck {
      FinishStuck(w, g, c, m, k, f);
    } else {
      FinishUpdates(w, g, c, m, k, f);
    }
  }

  lemma FinishFails(w: Cursor, g: seq<FileLock>, c: FileLock, m: nat, k: nat, stuck: bool, free: nat)
    requires Stop(w, g, c, m, k, stuck) && Closed(w) && Finish(w, free).status != Success
    ensures Finish(w, free).group == g && |w.done| + |w.rest| == |g| && Finish(w, free).free == free
  {
    assert m == k && w.slot == -1;
    assert w.done + w.rest == g;
  }

  lemma FinishStuck(w: Cursor, g: seq<FileLock>, c: FileLock, m: nat, k: nat, free: nat)
    requires Sorted(g, c) && Request(c) && Stop(w, g, c, m, k, true) && Closed(w)
    requires Finish(w, free).status == Success
    ensures !Sorted(Finish(w, free).group, c)
  {
    FinishShape(w, g, c, m, k, true, free);
    var low, high := Low(w, g, m), High(w, g, k);
    assert high[0] == g[k];
    var r := low + Mid(c) + high;
    assert r[|low|] == c && r[|low| + 1] == g[k] && !Before(c, g[k]);
  }

  lemma TouchedWhenAdded(w: Cursor, g: seq<FileLock>, c: FileLock, m: nat, k: nat)
    requires Sorted(g, c) && Request(c) && c.typ == UnLck && Stop(w, g, c, m, k, false)
    ensures w.added ==> exists b, t :: InRange(c, b) && Covers(g, b, t)
    ensures !w.added ==> forall i :: 0 <= i < |g| ==> Before(g[i], c) || Before(c, g[i])
  {
    if w.added {
      var i := if m < k then m else if 0 <= w.left < m then w.left else k;
      var b := if g[i].start < c.start then c.start else g[i].start;
      assert InRange(g[i], b) && InRange(c, b);
      assert Covers(g, b, g[i].typ);
    } else {
      assert m == k && !w.right && w.left == -1;
      forall i | k <= i < |g|
        ensures Before(c, g[i])
      {
        assert i == k || Before(g[k], g[i]);
      }
    }
  }

  /** F_UNLCK fails with EINVAL exactly when no byte of the range is locked. */
  lemma UnlockNothing(g: seq<FileLock>, c: FileLock, free: nat)
    requires Sorted(g, c) && Request(c) && c.typ == UnLck
    ensures LockGroup(g, c, free).status == EInval
            <==> !exists b, t :: InRange(c, b) && Covers(g, b, t)
  {
    var w0 := Start(g, c);
    assert Shape(w0, g, c, 0, 0);
    var m, k, stuck := ScanShape(w0, g, c, 0, 0);
    var w := Scan(w0);
    StuckIsWrap(w, g, c, m, k, stuck);
    assert w.c.typ == UnLck;
    TouchedWhenAdded(w, g, c, m, k);
    hide Scan, Stop, Head, Tail, Sorted, Shape;
  }

  /** locks.c:307 on a request to the end of the file, the case of l_len == 0. */
  lemma WrapExample()
    ensures var held := FileLock(1, 3, RdLck, 0, 9);
            var wanted := FileLock(1, 3, RdLck, 5, OFFSET_MAX);
            && Sorted([held], wanted)
            && LockGroup([held], wanted, 1).status == Success
            && LockGroup([held], wanted, 1).group == [wanted, held]
            && !Sorted([wanted, held], wanted)
  {
    var held := FileLock(1, 3, RdLck, 0, 9);
    var wanted := FileLock(1, 3, RdLck, 5, OFFSET_MAX);
    var w := Start([held], wanted);
    assert Pass(w) == (w, true);
    assert Scan(w) == w;
    assert Finish(w, 1).group == [wanted, held];
    assert !Before([wanted, held][0], [wanted, held][1]);
  }
}

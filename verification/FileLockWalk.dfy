/** lock_it, the scan of fcntl_setlk and fcntl_remove_locks (linux-1.0.0/fs/locks.c) as the loops
    of the source, on the table of entries. The pointers before, caller, left and right are
    positions in the file's list; caller is -1 while it is the request itself. */
module FileLockWalk {
  import opened FileLocks
  import opened FileLockLists
  import opened FileLockTable

  /** What lock_it's loop keeps about caller: it is the request or, once it points into the
      list, the entry at slot. */
  predicate Tidy(w: Cursor, c: FileLock) {
    && Usable(w) && NoUnLck(w.rest) && !w.right && -1 <= w.left
    && Request(w.c) && SameKey(w.c, c) && w.c.typ == c.typ
    && (if w.added && c.typ != UnLck then 0 <= w.slot < |w.done| && w.done[w.slot] == w.c
        else w.slot == -1 && w.c == c)
    && (forall i :: 0 <= i < |w.rest| ==> SameKey(w.rest[i], c) && Entry(w.rest[i]))
  }

  lemma PassTidy(w: Cursor, c: FileLock)
    requires Tidy(w, c) && w.rest != []
    ensures !Pass(w).1 ==> Tidy(Pass(w).0, c)
  {
  }

  lemma FirstIs(list: seq<FileLock>, c: FileLock, n: nat)
    requires n <= |list| && (forall i :: 0 <= i < n ==> !SameKey(list[i], c)) && (n < |list| ==> SameKey(list[n], c))
    ensures First(list, c) == n
  {
    var f := First(list, c);
    assert !(f < n) && !(n < f);
  }

  lemma PutRest<T>(p: seq<T>, d: seq<T>, r: seq<T>, q: seq<T>, x: T)
    requires r != []
    ensures (p + d + r + q)[|p| + |d| := x] == p + d + ([x] + r[1..]) + q
  {
  }

  lemma PutDone<T>(p: seq<T>, d: seq<T>, r: seq<T>, q: seq<T>, k: nat, x: T)
    requires k < |d|
    ensures (p + d + r + q)[|p| + k := x] == p + d[k := x] + r + q
  {
  }

  lemma DropRest<T>(p: seq<T>, d: seq<T>, r: seq<T>, q: seq<T>)
    requires r != []
    ensures var s, n := p + d + r + q, |p| + |d|; s[..n] + s[n + 1..] == p + d + r[1..] + q
  {
    var s, n := p + d + r + q, |p| + |d|;
    assert s[n + 1..] == r[1..] + q;
  }

  lemma NextRest<T>(p: seq<T>, d: seq<T>, r: seq<T>, q: seq<T>)
    requires r != []
    ensures p + d + r + q == p + (d + [r[0]]) + r[1..] + q
  {
  }

  lemma InsertMiddle<T>(p: seq<T>, d: seq<T>, r: seq<T>, q: seq<T>, x: T)
    ensures var s, n := p + d + r + q, |p| + |d|; s[..n] + [x] + s[n..] == p + (d + [x]) + r + q
  {
  }

  // ------------------------------------------------------------------------------------
  // The loops of lock_it on the table
  // ------------------------------------------------------------------------------------

  /** The lists of all other files. */
  type Rest = map<nat, seq<FileLock>>

  /** The local variables of lock_it's second loop. */
  datatype Locals = Locals(before: nat, c: FileLock, added: bool, caller: int, left: int, right: int)

  /** The file's list, the number of free entries and the locals stand for cursor w. */
  ghost predicate Matches(list: seq<FileLock>, free: nat, x: Locals, pre: seq<FileLock>, w: Cursor,
                          post: seq<FileLock>, total: nat) {
    && list == pre + w.done + w.rest + post
    && x.before == |pre| + |w.done|
    && x.c == w.c && x.added == w.added
    && x.caller == (if w.slot >= 0 then |pre| + w.slot else -1)
    && x.left == (if w.left >= 0 then |pre| + w.left else -1)
    && x.right == (if w.right then x.before else -1)
    && free + |w.done| + |w.rest| == total
  }

  /** caller points into the list already: the store through caller agrees with the one through fl,
      and fl's entry is freed. */
  method Absorb(lt: LockTable, inode: nat, x: Locals, both: FileLock, ghost list: seq<FileLock>, ghost free: nat,
                ghost o: Rest, ghost pre: seq<FileLock>, ghost w: Cursor, ghost rest: seq<FileLock>,
                ghost post: seq<FileLock>)
    requires lt.On(inode, list, free, o) && list == pre + w.done + rest + post && rest != [] && both.owner != 0
    requires 0 <= w.slot < |w.done| && x.caller == |pre| + w.slot && x.before == |pre| + |w.done|
    modifies lt, lt.table
    ensures lt.On(inode, pre + w.done[w.slot := both] + rest[1..] + post, free + 1, o)
  {
    hide LockTable.On;
    PutDone(pre, w.done, rest, post, w.slot, both);
    DropRest(pre, w.done[w.slot := both], rest, post);
    lt.Store(inode, x.caller, both, list, free, o);
    lt.FreeLock(inode, x.before, list[x.caller := both], free, o);
  }

  /** One turn of the second loop on a lock of the same type; stop is the break. */
  method PassSame(lt: LockTable, inode: nat, x: Locals, ghost list: seq<FileLock>, ghost free: nat, ghost o: Rest,
                  ghost pre: seq<FileLock>, ghost w: Cursor, ghost post: seq<FileLock>, ghost total: nat)
    returns (y: Locals, stop: bool, ghost list': seq<FileLock>, ghost free': nat)
    requires lt.On(inode, list, free, o)
    requires Usable(w) && !w.right && -1 <= w.left && -1 <= w.slot
    requires w.rest != [] && w.rest[0].typ == x.c.typ != UnLck && SameKey(w.c, w.rest[0])
    requires if w.added then 0 <= w.slot < |w.done| && w.done[w.slot] == w.c else w.slot == -1
    requires Matches(list, free, x, pre, w, post, total)
    modifies lt, lt.table
    ensures lt.On(inode, list', free', o)
    ensures Matches(list', free', y, pre, Pass(w).0, post, total) && stop == Pass(w).1
  {
    hide LockTable.On;
    y, stop, list', free' := x, false, list, free;
    var before := x.before;
    assert list[before] == w.rest[0];
    var fl := lt.Get(inode, before, list, free, o);
    if fl.end < x.c.start - 1 {
      NextRest(pre, w.done, w.rest, post);
      y := y.(before := before + 1);
      return;
    }
    if fl.start > Wrap32(x.c.end + 1) {
      stop := true;
      return;
    }
    var both := Hull(fl, x.c);
    assert both == Hull(x.c, fl);
    PutRest(pre, w.done, w.rest, post, both);
    ghost var rest := [both] + w.rest[1..];
    lt.Store(inode, before, both, list', free', o);
    list' := list'[before := both];
    y := y.(c := both.(owner := x.c.owner, fd := x.c.fd));
    if x.added {
      Absorb(lt, inode, x, both, list', free', o, pre, w, rest, post);
      list', free' := pre + w.done[w.slot := both] + rest[1..] + post, free' + 1;
      return;
    }
    NextRest(pre, w.done, rest, post);
    y := y.(caller := before, added := true, before := before + 1);
  }

  /** One turn on a lock of another type. */
  method PassOther(lt: LockTable, inode: nat, x: Locals, ghost list: seq<FileLock>, ghost free: nat, ghost o: Rest,
                   ghost pre: seq<FileLock>, ghost w: Cursor, ghost post: seq<FileLock>, ghost total: nat)
    returns (y: Locals, stop: bool, ghost list': seq<FileLock>, ghost free': nat)
    requires lt.On(inode, list, free, o)
    requires Usable(w) && !w.right && -1 <= w.left && -1 <= w.slot
    requires w.rest != [] && w.rest[0].typ != x.c.typ && w.rest[0].typ != UnLck && SameKey(w.c, w.rest[0])
    requires Matches(list, free, x, pre, w, post, total)
    modifies lt, lt.table
    ensures lt.On(inode, list', free', o)
    ensures Matches(list', free', y, pre, Pass(w).0, post, total) && stop == Pass(w).1
  {
    hide LockTable.On;
    y, stop, list', free' := x, false, list, free;
    var before := x.before;
    assert list[before] == w.rest[0];
    var fl := lt.Get(inode, before, list, free, o);
    if fl.end < x.c.start {
      NextRest(pre, w.done, w.rest, post);
      y := y.(before := before + 1);
      return;
    }
    if fl.start > x.c.end {
      stop := true;
      return;
    }
    if x.c.typ == UnLck {
      y := y.(added := true);
    }
    if fl.start < x.c.start {
      y := y.(left := before);
    }
    if fl.end > x.c.end {
      y, stop := y.(right := before), true;
      return;
    }
    if fl.start >= x.c.start {
      if y.added {
        DropRest(pre, w.done, w.rest, post);
        lt.FreeLock(inode, before, list', free', o);
        list', free' := list'[..before] + list'[before + 1..], free' + 1;
        return;
      }
      var taken := fl.(start := x.c.start, end := x.c.end, typ := x.c.typ);
      PutRest(pre, w.done, w.rest, post, taken);
      NextRest(pre, w.done, [taken] + w.rest[1..], post);
      lt.Store(inode, before, taken, list', free', o);
      list' := list'[before := taken];
      y := y.(caller := before, added := true, before := before + 1);
      return;
    }
    NextRest(pre, w.done, w.rest, post);
    y := y.(before := before + 1);
  }

  lemma Regroup<T>(p: seq<T>, a: seq<T>, b: seq<T>, c: seq<T>, q: seq<T>)
    ensures p + (a + b) + c + q == p + a + (b + c) + q == p + (a + b + c) + q
  {
    assert a + (b + c) == a + b + c;
    assert p + a + (b + c) == p + (a + (b + c));
    assert p + (a + b) + c == p + (a + b + c);
  }

  /** The stores through right and left at the end of lock_it. */
  method Cut(lt: LockTable, inode: nat, c: FileLock, left: int, right: int, ghost list: seq<FileLock>, ghost free: nat,
             ghost o: Rest, ghost pre: seq<FileLock>, ghost head: seq<FileLock>, ghost entry: seq<FileLock>,
             ghost rest: seq<FileLock>, ghost post: seq<FileLock>)
    requires lt.On(inode, list, free, o) && list == pre + (head + entry + rest) + post
    requires right < 0 || (rest != [] && right == |pre| + |head + entry|)
    requires left < 0 || |pre| <= left < |pre| + |head|
    modifies lt.table
    ensures var head' := if left < 0 then head else head[left - |pre| := head[left - |pre|].(end := c.start - 1)];
            var rest' := if right < 0 then rest else [rest[0].(start := Wrap32(c.end + 1))] + rest[1..];
            lt.On(inode, pre + (head' + entry + rest') + post, free, o)
  {
    hide LockTable.On;
    ghost var list' := list;
    Regroup(pre, head, entry, rest, post);
    ghost var rest' := rest;
    if right >= 0 {
      PutRest(pre, head + entry, rest, post, rest[0].(start := Wrap32(c.end + 1)));
      assert list'[right] == rest[0];
      var fl := lt.Get(inode, right, list', free, o);
      lt.Store(inode, right, fl.(start := Wrap32(c.end + 1)), list', free, o);
      list' := list'[right := fl.(start := Wrap32(c.end + 1))];
      rest' := [rest[0].(start := Wrap32(c.end + 1))] + rest[1..];
    }
    Regroup(pre, head, entry, rest', post);
    if left >= 0 {
      ghost var k := left - |pre|;
      ghost var l := head[k].(end := c.start - 1);
      PutDone(pre, head, entry + rest', post, k, l);
      assert list'[left] == head[k];
      var fl := lt.Get(inode, left, list', free, o);
      lt.Store(inode, left, fl.(end := c.start - 1), list', free, o);
      list' := list'[left := fl.(end := c.start - 1)];
      Regroup(pre, head[k := l], entry, rest', post);
    }
  }

  /** Out of entries: take the request out again. */
  method GiveBack(lt: LockTable, inode: nat, x: Locals, ghost list: seq<FileLock>, ghost free: nat, ghost o: Rest,
                  ghost pre: seq<FileLock>, ghost w: Cursor, ghost post: seq<FileLock>)
    requires x.before == |pre| + |w.done| && x.added == w.added
    requires lt.On(inode, list, free, o) && list == pre + (w.done + NewEntry(w) + w.rest) + post
    modifies lt, lt.table
    ensures lt.On(inode, pre + (w.done + w.rest) + post, free + |NewEntry(w)|, o)
  {
    hide LockTable.On;
    ghost var entry := NewEntry(w);
    Regroup(pre, w.done, [], w.rest, post);
    assert w.done + [] == w.done;
    if !x.added {
      Regroup(pre, w.done, entry, w.rest, post);
      DropRest(pre, w.done, entry + w.rest, post);
      assert (entry + w.rest)[1..] == w.rest;
      lt.FreeLock(inode, x.before, list, free, o);
    }
  }

  /** The request lies inside one lock of another type: its left part needs an entry too. */
  method SplitLock(lt: LockTable, inode: nat, x: Locals, ghost list: seq<FileLock>, ghost free: nat, ghost o: Rest,
                   ghost pre: seq<FileLock>, ghost w: Cursor, ghost post: seq<FileLock>) returns (ok: bool)
    requires Closed(w) && w.left == |w.done| && x.before == |pre| + |w.done| && x.c == w.c && x.added == w.added
    requires lt.On(inode, list, free, o) && list == pre + (w.done + NewEntry(w) + w.rest) + post
    modifies lt, lt.table
    ensures ok <==> free > 0
    ensures if ok then lt.On(inode, pre + (Head(w) + NewEntry(w) + Tail(w)) + post, free - 1, o)
            else lt.On(inode, list, free, o)
  {
    hide LockTable.On;
    hide NewEntry, Head, Tail;
    SplitParts(w);
    ghost var entry := NewEntry(w);
    var before := x.before;
    var right := before + if x.added then 0 else 1;
    Regroup(pre, w.done, entry, w.rest, post);
    assert list[right] == w.rest[0];
    InsertMiddle(pre, w.done, entry + w.rest, post, w.rest[0]);
    var fl := lt.Get(inode, right, list, free, o);
    ok := lt.AllocLock(inode, before, fl, list, free, o);
    if ok {
      ghost var head := w.done + [w.rest[0]];
      Regroup(pre, head, entry, w.rest, post);
      Cut(lt, inode, x.c, before, right + 1, list[..before] + [fl] + list[before..], free - 1, o,
          pre, head, entry, w.rest, post);
    }
  }

  lemma SplitParts(w: Cursor)
    requires Closed(w) && w.left == |w.done|
    ensures w.rest != [] && |NewEntry(w)| == (if w.added then 0 else 1)
    ensures (w.done + [w.rest[0]])[|w.done| := w.rest[0].(end := w.c.start - 1)] == Head(w)
    ensures Tail(w) == [w.rest[0].(start := Wrap32(w.c.end + 1))] + w.rest[1..]
  {
  }

  /** The request's own entry, if no entry of the list took it. */
  method Place(lt: LockTable, inode: nat, x: Locals, ghost list: seq<FileLock>, ghost free: nat, ghost o: Rest,
               ghost pre: seq<FileLock>, ghost w: Cursor, ghost post: seq<FileLock>, ghost total: nat)
    returns (ok: bool)
    requires lt.On(inode, list, free, o) && Matches(list, free, x, pre, w, post, total) && x.c.owner != 0
    modifies lt, lt.table
    ensures ok <==> x.added || free > 0
    ensures if ok then lt.On(inode, pre + (w.done + NewEntry(w) + w.rest) + post, free - |NewEntry(w)|, o)
            else lt.On(inode, list, free, o)
  {
    hide LockTable.On;
    ok := true;
    Regroup(pre, w.done, NewEntry(w), w.rest, post);
    if x.added {
      assert w.done + [] == w.done;
    } else {
      InsertMiddle(pre, w.done, w.rest, post, x.c);
      ok := lt.AllocLock(inode, x.before, x.c, list, free, o);
    }
  }

  /** The part of lock_it after the loops. */
  method Conclude(lt: LockTable, inode: nat, x: Locals, ghost list: seq<FileLock>, ghost free: nat, ghost o: Rest,
                  ghost pre: seq<FileLock>, ghost w: Cursor, ghost post: seq<FileLock>, ghost total: nat)
    returns (status: Status)
    requires lt.On(inode, list, free, o)
    requires Matches(list, free, x, pre, w, post, total) && Closed(w) && x.c.owner != 0
    modifies lt, lt.table
    ensures var r := Finish(w, free); status == r.status && lt.On(inode, pre + r.group + post, r.free, o)
  {
    hide LockTable.On;
    Regroup(pre, w.done, [], w.rest, post);
    assert w.done + [] == w.done;
    if !x.added && x.c.typ == UnLck {
      return EInval;
    }
    var ok := Place(lt, inode, x, list, free, o, pre, w, post, total);
    if !ok {
      return ENoLck;
    }
    ghost var placed, left := pre + (w.done + NewEntry(w) + w.rest) + post, free - |NewEntry(w)|;
    if x.right >= 0 && x.left == x.right {
      ok := SplitLock(lt, inode, x, placed, left, o, pre, w, post);
      if !ok {
        GiveBack(lt, inode, x, placed, left, o, pre, w, post);
        return ENoLck;
      }
    } else {
      var right := if x.right >= 0 && !x.added then x.right + 1 else x.right;
      Cut(lt, inode, x.c, x.left, right, placed, left, o, pre, w.done, NewEntry(w), w.rest, post);
    }
    return Success;
  }

  /** The first loop of lock_it and fcntl_remove_locks. */
  method FindFirst(lt: LockTable, inode: nat, request: FileLock, ghost list: seq<FileLock>, ghost free: nat,
                   ghost o: Rest)
    returns (before: nat)
    requires lt.On(inode, list, free, o)
    ensures before == First(list, request)
  {
    hide LockTable.On;
    before := 0;
    lt.CountIs(inode, list, free, o);
    while before < lt.Count(inode)
      invariant 0 <= before <= |list|
      invariant forall i :: 0 <= i < before ==> !SameKey(list[i], request)
    {
      var fl := lt.Get(inode, before, list, free, o);
      if SameKey(fl, request) {
        break;
      }
      before := before + 1;
    }
    FirstIs(list, request, before);
  }

  /** The second loop: it ends where the walk ends. */
  method WalkGroup(lt: LockTable, inode: nat, before: nat, request: FileLock, ghost list: seq<FileLock>,
                   ghost free: nat,
                   ghost o: Rest, ghost pre: seq<FileLock>, ghost own: seq<FileLock>, ghost post: seq<FileLock>)
    returns (x: Locals, ghost list': seq<FileLock>, ghost free': nat)
    requires lt.On(inode, list, free, o)
    requires list == pre + own + post && before == |pre| && Tidy(Start(own, request), request)
    requires post != [] ==> !SameKey(post[0], request)
    modifies lt, lt.table
    ensures lt.On(inode, list', free', o)
    ensures Matches(list', free', x, pre, Scan(Start(own, request)), post, free + |own|)
    ensures x.c.owner == request.owner
  {
    hide LockTable.On;
    hide Pass;
    ghost var w := Start(own, request);
    x, list', free' := Locals(before, request, false, -1, -1, -1), list, free;
    var stop := false;
    while !stop
      invariant lt.On(inode, list', free', o)
      invariant Matches(list', free', x, pre, w, post, free + |own|) && x.c.owner == request.owner
      invariant if stop then w == Scan(Start(own, request))
                else Tidy(w, request) && Scan(w) == Scan(Start(own, request))
      decreases !stop, |w.rest|
    {
      InGroup(list', request, pre, w, post, x.before);
      lt.CountIs(inode, list', free', o);
      if x.before >= lt.Count(inode) {
        break;
      }
      var fl := lt.Get(inode, x.before, list', free', o);
      if !SameKey(fl, request) {
        break;
      }
      PassTidy(w, request);
      PassKey(w);
      if x.c.typ == fl.typ {
        x, stop, list', free' := PassSame(lt, inode, x, list', free', o, pre, w, post, free + |own|);
      } else {
        x, stop, list', free' := PassOther(lt, inode, x, list', free', o, pre, w, post, free + |own|);
      }
      w := Pass(w).0;
    }
  }

  lemma PassKey(w: Cursor)
    requires w.rest != [] && Usable(w) && w.rest[0].typ != UnLck
    ensures Pass(w).0.c.owner == w.c.owner
  {
  }

  /** lock_it on the table: status, list and free entries are those of the walk over the owner's
      group, every entry stays on one list, and no other file's list changes. */
  method LockIt(lt: LockTable, inode: nat, request: FileLock, ghost list: seq<FileLock>, ghost free: nat, ghost o: Rest)
    returns (status: Status)
    requires lt.On(inode, list, free, o) && Entries(list) && Request(request) && request.owner != 0
    modifies lt, lt.table
    ensures var r := FileLockLists.LockIt(list, request, free);
            status == r.status && lt.On(inode, r.list, r.free, o)
  {
    hide LockTable.On;
    var before := FindFirst(lt, inode, request, list, free, o);
    Split(list, request);
    OwnTidy(list, request);
    ghost var pre, own, post := Pre(list, request), Own(list, request), Post(list, request);
    var x;
    ghost var list', free';
    x, list', free' := WalkGroup(lt, inode, before, request, list, free, o, pre, own, post);
    status := Conclude(lt, inode, x, list', free', o, pre, Scan(Start(own, request)), post, free + |own|);
  }

  lemma OwnTidy(list: seq<FileLock>, c: FileLock)
    requires Entries(list) && Request(c)
    ensures Tidy(Start(Own(list, c), c), c)
  {
    OwnLoose(list, c);
    var n, o := First(list, c), Own(list, c);
    assert forall i :: 0 <= i < |o| ==> o[i] == list[n + i];
  }

  /** The loop guard tests that the group is not exhausted. */
  lemma InGroup(list: seq<FileLock>, c: FileLock, pre: seq<FileLock>, w: Cursor, post: seq<FileLock>, before: nat)
    requires list == pre + w.done + w.rest + post && before == |pre| + |w.done| && Tidy(w, c)
    requires post != [] ==> !SameKey(post[0], c)
    ensures before < |list| && SameKey(list[before], c) <==> w.rest != []
    ensures w.rest != [] ==> list[before] == w.rest[0]
  {
    if w.rest != [] {
      assert list[before] == w.rest[0];
    } else if post != [] {
      assert list[before] == post[0];
    }
  }

  /** The scan of fcntl_setlk: the first lock that blocks the request, or none. */
  method FindConflict(lt: LockTable, inode: nat, c: FileLock, ghost list: seq<FileLock>, ghost free: nat, ghost o: Rest)
    returns (i: nat)
    requires lt.On(inode, list, free, o)
    ensures i <= |list| && (i < |list| ==> Conflict(c, list[i])) && NoConflict(list[..i], c)
    ensures i == |list| <==> NoConflict(list, c)
  {
    hide LockTable.On;
    i := 0;
    lt.CountIs(inode, list, free, o);
    while i < lt.Count(inode)
      invariant 0 <= i <= |list| && forall j :: 0 <= j < i ==> !Conflict(c, list[j])
    {
      var fl := lt.Get(inode, i, list, free, o);
      if Conflict(c, fl) {
        break;
      }
      i := i + 1;
    }
  }

  /** fcntl_remove_locks on the table. */
  method RemoveLocks(lt: LockTable, inode: nat, c: FileLock, ghost list: seq<FileLock>, ghost free: nat, ghost o: Rest)
    requires lt.On(inode, list, free, o)
    modifies lt, lt.table
    ensures |FileLockLists.RemoveLocks(list, c)| <= |list|
    ensures lt.On(inode, FileLockLists.RemoveLocks(list, c), free + |list| - |FileLockLists.RemoveLocks(list, c)|, o)
  {
    hide LockTable.On, Pre, Own, Post, First, FileLockLists.RemoveLocks;
    var before := FindFirst(lt, inode, c, list, free, o);
    RemoveParts(list, c);
    ghost var pre, own, post := Pre(list, c), Own(list, c), Post(list, c);
    ghost var list', free': nat := list, free;
    ghost var rest := own;
    while true
      invariant lt.On(inode, list', free', o)
      invariant before == |pre| && list' == pre + rest + post && All(rest, c)
      invariant free' + |list'| == free + |list|
      decreases |rest|
    {
      FrontOf(pre, rest, post, c);
      lt.CountIs(inode, list', free', o);
      if before >= lt.Count(inode) {
        break;
      }
      var fl := lt.Get(inode, before, list', free', o);
      if !SameKey(fl, c) {
        break;
      }
      lt.FreeLock(inode, before, list', free', o);
      list', free' := list'[..before] + list'[before + 1..], free' + 1;
      rest := rest[1..];
    }
    assert pre + [] == pre;
  }

  lemma RemoveParts(list: seq<FileLock>, c: FileLock)
    ensures list == Pre(list, c) + Own(list, c) + Post(list, c) && |Pre(list, c)| == First(list, c)
    ensures Post(list, c) != [] ==> !SameKey(Post(list, c)[0], c)
    ensures FileLockLists.RemoveLocks(list, c) == Pre(list, c) + Post(list, c) && All(Own(list, c), c)
  {
    Split(list, c);
  }

  lemma FrontOf(p: seq<FileLock>, r: seq<FileLock>, q: seq<FileLock>, c: FileLock)
    requires All(r, c) && (q != [] ==> !SameKey(q[0], c))
    ensures var s := p + r + q;
            && (|p| < |s| && SameKey(s[|p|], c) <==> r != [])
            && (r != [] ==> s[..|p|] + s[|p| + 1..] == p + r[1..] + q)
  {
    var s := p + r + q;
    if r != [] {
      assert s[|p|] == r[0];
    } else if q != [] {
      assert s[|p|] == q[0];
    }
  }
}

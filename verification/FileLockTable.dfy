/** The table of lock entries (linux-1.0.0/fs/locks.c): a fixed array whose entries are linked
    into the free list or into the list of one file. The lists are sequences of positions in
    the table; an entry's fields change in place. */
module FileLockTable {
  import opened FileLocks

  predicate NoDup(s: seq<nat>) {
    forall i, j :: 0 <= i < j < |s| ==> s[i] != s[j]
  }

  predicate Inside(list: seq<nat>, n: nat) {
    forall k :: 0 <= k < |list| ==> list[k] < n
  }

  /** The locks on a list, in order. */
  function View(t: seq<FileLock>, list: seq<nat>): (v: seq<FileLock>)
    requires Inside(list, |t|)
    ensures |v| == |list| && forall k :: 0 <= k < |list| ==> v[k] == t[list[k]]
  {
    seq(|list|, k requires 0 <= k < |list| => t[list[k]])
  }

  /** list is the list of file who, or the free list if who is negative. */
  ghost predicate ListOk(t: seq<FileLock>, home: seq<int>, list: seq<nat>, who: int)
    requires |home| == |t|
  {
    && NoDup(list) && Inside(list, |t|)
    && forall k :: 0 <= k < |list| ==> home[list[k]] == who && (t[list[k]].owner == 0 <==> who < 0)
  }

  ghost predicate Listed(s: nat, free: seq<nat>, lists: map<nat, seq<nat>>, who: int) {
    if who < 0 then s in free
    else var i: nat := who; i in lists && s in lists[i]
  }

  /** Every entry is on exactly one list, and once; home names the list it is on. The entries of
      the free list, and no others, have no owner. */
  ghost predicate TableOk(t: seq<FileLock>, free: seq<nat>, lists: map<nat, seq<nat>>, home: seq<int>) {
    && |home| == |t|
    && ListOk(t, home, free, -1)
    && (forall i :: i in lists ==> ListOk(t, home, lists[i], i))
    && (forall s :: 0 <= s < |t| ==> Listed(s, free, lists, home[s]))
  }

  function InsertAt(list: seq<nat>, pos: nat, x: nat): seq<nat>
    requires pos <= |list|
  {
    list[..pos] + [x] + list[pos..]
  }

  function RemoveAt(list: seq<nat>, pos: nat): seq<nat>
    requires pos < |list|
  {
    list[..pos] + list[pos + 1..]
  }

  lemma StoreOk(t: seq<FileLock>, free: seq<nat>, lists: map<nat, seq<nat>>, home: seq<int>,
                inode: nat, k: nat, l: FileLock)
    requires TableOk(t, free, lists, home) && inode in lists && k < |lists[inode]| && l.owner != 0
    ensures var t' := t[lists[inode][k] := l];
            && TableOk(t', free, lists, home)
            && View(t', lists[inode]) == View(t, lists[inode])[k := l]
            && forall i :: i in lists && i != inode ==> View(t', lists[i]) == View(t, lists[i])
  {
  }

  lemma InsertNoDup(list: seq<nat>, pos: nat, x: nat)
    requires NoDup(list) && pos <= |list| && forall k :: 0 <= k < |list| ==> list[k] != x
    ensures NoDup(InsertAt(list, pos, x))
  {
  }

  lemma AllocListed(t: seq<FileLock>, free: seq<nat>, lists: map<nat, seq<nat>>, home: seq<int>, inode: nat, pos: nat)
    requires |home| == |t| && inode in lists && pos <= |lists[inode]| && free != [] && free[0] < |t|
    requires forall s :: 0 <= s < |t| ==> Listed(s, free, lists, home[s])
    ensures var lists' := lists[inode := InsertAt(lists[inode], pos, free[0])];
            var home' := home[free[0] := inode];
            forall s :: 0 <= s < |t| ==> Listed(s, free[1..], lists', home'[s])
  {
    var slot, list := free[0], lists[inode];
    assert list == list[..pos] + list[pos..] && free == [slot] + free[1..];
    assert forall s :: s in list ==> s in InsertAt(list, pos, slot);
  }

  lemma AllocOk(t: seq<FileLock>, free: seq<nat>, lists: map<nat, seq<nat>>, home: seq<int>,
                inode: nat, pos: nat, l: FileLock)
    requires TableOk(t, free, lists, home) && inode in lists && pos <= |lists[inode]| && l.owner != 0 && free != []
    ensures free[0] < |t| && |home| == |t|
    ensures var slot := free[0];
            var t', lists' := t[slot := l], lists[inode := InsertAt(lists[inode], pos, slot)];
            && TableOk(t', free[1..], lists', home[slot := inode])
            && View(t', lists'[inode]) == View(t, lists[inode])[..pos] + [l] + View(t, lists[inode])[pos..]
            && forall i :: i in lists && i != inode ==> View(t', lists[i]) == View(t, lists[i])
  {
    var slot := free[0];
    var list := lists[inode];
    var t', lists' := t[slot := l], lists[inode := InsertAt(list, pos, slot)];
    var home' := home[slot := inode];
    hide Listed, ListOk;
    Unlinked(t, home, free, lists[inode], inode);
    AllocListed(t, free, lists, home, inode, pos);
    AllocFree(t, home, free, inode, l);
    AllocHere(t, home, free, list, inode, pos, l);
    forall i | i in lists && i != inode
      ensures ListOk(t', home', lists[i], i) && View(t', lists[i]) == View(t, lists[i])
    {
      AllocOther(t, home, free, lists[i], i, inode, l);
    }
  }

  /** The first free slot is on no list of locks. */
  lemma Unlinked(t: seq<FileLock>, home: seq<int>, free: seq<nat>, list: seq<nat>, who: nat)
    requires |home| == |t| && ListOk(t, home, free, -1) && ListOk(t, home, list, who) && free != []
    ensures free[0] < |t| && forall k :: 0 <= k < |list| ==> list[k] != free[0]
  {
  }

  lemma AllocFree(t: seq<FileLock>, home: seq<int>, free: seq<nat>, inode: nat, l: FileLock)
    requires |home| == |t| && ListOk(t, home, free, -1) && free != [] && free[0] < |t|
    ensures ListOk(t[free[0] := l], home[free[0] := inode], free[1..], -1)
  {
  }

  lemma AllocHere(t: seq<FileLock>, home: seq<int>, free: seq<nat>, list: seq<nat>, inode: nat, pos: nat, l: FileLock)
    requires |home| == |t| && ListOk(t, home, free, -1) && ListOk(t, home, list, inode) && free != [] && free[0] < |t|
    requires pos <= |list| && l.owner != 0
    ensures var t', list' := t[free[0] := l], InsertAt(list, pos, free[0]);
            && ListOk(t', home[free[0] := inode], list', inode)
            && View(t', list') == View(t, list)[..pos] + [l] + View(t, list)[pos..]
  {
    Unlinked(t, home, free, list, inode);
    InsertNoDup(list, pos, free[0]);
  }

  lemma AllocOther(t: seq<FileLock>, home: seq<int>, free: seq<nat>, list: seq<nat>, i: nat, inode: nat, l: FileLock)
    requires |home| == |t| && ListOk(t, home, free, -1) && ListOk(t, home, list, i) && free != [] && free[0] < |t|
    ensures var t' := t[free[0] := l];
            ListOk(t', home[free[0] := inode], list, i) && View(t', list) == View(t, list)
  {
    Unlinked(t, home, free, list, i);
  }

  lemma FreeListed(t: seq<FileLock>, free: seq<nat>, lists: map<nat, seq<nat>>, home: seq<int>, inode: nat, pos: nat)
    requires |home| == |t| && inode in lists && pos < |lists[inode]| && lists[inode][pos] < |t|
    requires forall s :: 0 <= s < |t| ==> Listed(s, free, lists, home[s])
    ensures var slot := lists[inode][pos];
            var free', lists', home' := [slot] + free, lists[inode := RemoveAt(lists[inode], pos)], home[slot := -1];
            forall s :: 0 <= s < |t| ==> Listed(s, free', lists', home'[s])
  {
    var list := lists[inode];
    var slot := list[pos];
    assert list == list[..pos] + [slot] + list[pos + 1..];
    var free', lists', home' := [slot] + free, lists[inode := RemoveAt(list, pos)], home[slot := -1];
    forall s | 0 <= s < |t|
      ensures Listed(s, free', lists', home'[s])
    {
      if s != slot {
        assert Listed(s, free, lists, home[s]);
      }
    }
  }

  lemma FreeOk(t: seq<FileLock>, free: seq<nat>, lists: map<nat, seq<nat>>, home: seq<int>, inode: nat, pos: nat)
    requires TableOk(t, free, lists, home) && inode in lists && pos < |lists[inode]|
    ensures var slot := lists[inode][pos];
            var t', lists' := t[slot := t[slot].(owner := 0)], lists[inode := RemoveAt(lists[inode], pos)];
            && TableOk(t', [slot] + free, lists', home[slot := -1])
            && View(t', lists'[inode]) == View(t, lists[inode])[..pos] + View(t, lists[inode])[pos + 1..]
            && forall i :: i in lists && i != inode ==> View(t', lists[i]) == View(t, lists[i])
  {
    var list := lists[inode];
    var slot := list[pos];
    var t', lists' := t[slot := t[slot].(owner := 0)], lists[inode := RemoveAt(list, pos)];
    var home' := home[slot := -1];
    FreeListed(t, free, lists, home, inode, pos);
    hide Listed;
    assert list == list[..pos] + [slot] + list[pos + 1..];
    assert ListOk(t', home', [slot] + free, -1);
    assert ListOk(t', home', lists'[inode], inode);
  }

  lemma StartOk(t: seq<FileLock>, free: seq<nat>, home: seq<int>)
    requires |t| == |free| == |home| && forall s :: 0 <= s < |t| ==> t[s].owner == 0 && free[s] == s && home[s] == -1
    ensures TableOk(t, free, map[], home)
  {
    forall s | 0 <= s < |t|
      ensures Listed(s, free, map[], home[s])
    {
      assert free[s] in free;
    }
  }

  lemma NewListOk(t: seq<FileLock>, free: seq<nat>, lists: map<nat, seq<nat>>, home: seq<int>, inode: nat)
    requires TableOk(t, free, lists, home) && inode !in lists
    ensures TableOk(t, free, lists[inode := []], home)
  {
    forall s | 0 <= s < |t|
      ensures Listed(s, free, lists[inode := []], home[s])
    {
      assert Listed(s, free, lists, home[s]);
    }
  }

  class LockTable {
    const table: array<FileLock>
    var free: seq<nat>
    var lists: map<nat, seq<nat>>
    ghost var home: seq<int>

    ghost predicate Valid()
      reads this, table
    {
      TableOk(table[..], free, lists, home)
    }

    /** The locks of a file; a file that was never locked has none. */
    ghost function Locks(inode: nat): seq<FileLock>
      requires Valid()
      reads this, table
    {
      if inode in lists then View(table[..], lists[inode]) else []
    }

    /** The lists of all files but inode are those of o. */
    ghost predicate Others(inode: nat, o: map<nat, seq<FileLock>>)
      requires Valid()
      reads this, table
    {
      forall i :: i != inode ==> Locks(i) == if i in o then o[i] else []
    }

    /** Every entry is on one list; file inode has the locks of list, n entries are free, and the
        other files have the locks of o. */
    ghost predicate On(inode: nat, list: seq<FileLock>, n: nat, o: map<nat, seq<FileLock>>)
      reads this, table
    {
      Valid() && Locks(inode) == list && |free| == n && Others(inode, o)
    }

    /** fcntl_init_locks. */
    constructor (n: nat)
      ensures Valid() && fresh(table) && |free| == n && forall i :: Locks(i) == []
    {
      table := new FileLock[n](_ => FileLock(0, 0, UnLck, 0, 0));
      free := seq(n, i => i);
      lists := map[];
      home := seq(n, _ => -1);
      new;
      StartOk(table[..], free, home);
    }

    /** How many locks the file has. */
    function Count(inode: nat): nat
      reads this
    {
      if inode in lists then |lists[inode]| else 0
    }

    lemma CountIs(inode: nat, list: seq<FileLock>, n: nat, o: map<nat, seq<FileLock>>)
      requires On(inode, list, n, o)
      ensures Count(inode) == |list| && |free| == n
    {
    }

    /** The entry a list pointer points to. It has an owner, so free_lock does not panic on it. */
    method Get(inode: nat, k: nat, ghost list: seq<FileLock>, ghost n: nat, ghost o: map<nat, seq<FileLock>>)
      returns (l: FileLock)
      requires On(inode, list, n, o) && k < |list|
      ensures l == list[k] && l.owner != 0
    {
      l := table[lists[inode][k]];
    }

    /** A store through a pointer to the entry at position k of a file's list. */
    method Store(inode: nat, k: nat, l: FileLock, ghost list: seq<FileLock>, ghost n: nat, ghost o: map<nat,
                 seq<FileLock>>)
      requires On(inode, list, n, o) && k < |list| && l.owner != 0
      modifies table
      ensures On(inode, list[k := l], n, o)
    {
      StoreOk(table[..], free, lists, home, inode, k, l);
      ghost var t := table[..];
      var slot := lists[inode][k];
      table[slot] := l;
      assert table[..] == t[slot := l];
      hide TableOk;
    }

    /** alloc_lock: take an entry off the free list and link it in at position pos. */
    method AllocLock(inode: nat, pos: nat, l: FileLock,
                     ghost list: seq<FileLock>, ghost n: nat, ghost o: map<nat, seq<FileLock>>) returns (ok: bool)
      requires On(inode, list, n, o) && pos <= |list| && l.owner != 0
      modifies this, table
      ensures ok <==> n > 0
      ensures if ok then On(inode, list[..pos] + [l] + list[pos..], n - 1, o) else On(inode, list, n, o)
    {
      hide TableOk, InsertAt;
      if free == [] {
        return false;
      }
      if inode !in lists {
        NewListOk(table[..], free, lists, home, inode);
        lists := lists[inode := []];
      }
      AllocOk(table[..], free, lists, home, inode, pos, l);
      ghost var t := table[..];
      var slot := free[0];
      free := free[1..];
      table[slot] := l;
      lists := lists[inode := InsertAt(lists[inode], pos, slot)];
      home := home[slot := inode];
      assert table[..] == t[slot := l];
      return true;
    }

    /** free_lock: unlink the entry at position pos and push it on the free list. */
    method FreeLock(inode: nat, pos: nat, ghost list: seq<FileLock>, ghost n: nat, ghost o: map<nat, seq<FileLock>>)
      requires On(inode, list, n, o) && pos < |list|
      modifies this, table
      ensures On(inode, list[..pos] + list[pos + 1..], n + 1, o)
    {
      FreeOk(table[..], free, lists, home, inode, pos);
      ghost var t := table[..];
      var slot := lists[inode][pos];
      lists := lists[inode := RemoveAt(lists[inode], pos)];
      free := [slot] + free;
      table[slot] := table[slot].(owner := 0);
      home := home[slot := -1];
      assert table[..] == t[slot := t[slot].(owner := 0)];
      hide TableOk;
    }
  }
}

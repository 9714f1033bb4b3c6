/** fcntl_setlk and fcntl_remove_locks (linux-1.0.0/fs/locks.c) run on the table of entries: any
    sequence of calls gives the replies and lists of FileLockRuns, with every entry on one list. */
module FileLockCalls {
  import opened FileLocks
  import opened FileLockLists
  import opened FileLockRuns
  import opened FileLockTable
  import FileLockWalk

  /** Every table entry is on exactly one list, and the lists are those of s. */
  ghost predicate Is(lt: LockTable, s: State)
    reads lt, lt.table
  {
    lt.Valid() && |lt.free| == s.free && forall i :: lt.Locks(i) == ListOf(s, i)
  }

  lemma IsOn(lt: LockTable, s: State, inode: nat)
    requires Is(lt, s)
    ensures lt.On(inode, ListOf(s, inode), s.free, s.lists)
  {
    hide TableOk;
  }

  lemma OnIs(lt: LockTable, s: State, inode: nat, list: seq<FileLock>, free: nat)
    requires lt.On(inode, list, free, s.lists)
    ensures Is(lt, Put(s, inode, list, free))
  {
    hide TableOk;
    var s' := Put(s, inode, list, free);
    forall i
      ensures lt.Locks(i) == ListOf(s', i)
    {
    }
  }

  method FcntlSetlk(lt: LockTable, f: File, owner: nat, fd: nat, wait: bool, l: Flock,
                    ghost s: State) returns (reply: Reply)
    requires Is(lt, s) && AllEntries(s) && owner != 0
    modifies lt, lt.table
    ensures var r := Step(s, Call.SetLk(f, owner, fd, wait, l)); Is(lt, r.0) && reply == r.1
  {
    hide LockTable.On, Is, Prepare, LockIt, NoConflict, Put, ListOf;
    var p := Prepare(f, l, owner, fd);
    if p.Refused? {
      return p.reply;
    }
    IsOn(lt, s, f.inode);
    ghost var list := ListOf(s, f.inode);
    CountOf(lt, s, f.inode);
    var i := FileLockWalk.FindConflict(lt, f.inode, p.lock, list, s.free, s.lists);
    if i < lt.Count(f.inode) {
      return if wait then Sleeps else EAgain;
    }
    var status := FileLockWalk.LockIt(lt, f.inode, p.lock, list, s.free, s.lists);
    ghost var r := LockIt(list, p.lock, s.free);
    OnIs(lt, s, f.inode, r.list, r.free);
    return Answer(status);
  }

  lemma CountOf(lt: LockTable, s: State, inode: nat)
    requires Is(lt, s)
    ensures lt.Count(inode) == |ListOf(s, inode)|
  {
    IsOn(lt, s, inode);
    lt.CountIs(inode, ListOf(s, inode), s.free, s.lists);
  }

  method FcntlRemoveLocks(lt: LockTable, inode: nat, owner: nat, fd: nat, ghost s: State)
    requires Is(lt, s) && AllEntries(s)
    modifies lt, lt.table
    ensures Is(lt, Step(s, Call.Close(inode, owner, fd)).0)
  {
    hide LockTable.On, Is, RemoveLocks, Put, ListOf;
    IsOn(lt, s, inode);
    ghost var list := ListOf(s, inode);
    FileLockWalk.RemoveLocks(lt, inode, Key(owner, fd), list, s.free, s.lists);
    ghost var list' := RemoveLocks(list, Key(owner, fd));
    OnIs(lt, s, inode, list', s.free + |list| - |list'|);
  }

  /** The reply to call k: that of the state the calls before it leave. */
  ghost function ReplyTo(n: nat, calls: seq<Call>, k: nat): Reply
    requires Named(calls) && k < |calls|
  {
    RunEntries(n, calls[..k]);
    Step(Run(n, calls[..k]), calls[k]).1
  }

  /** Any sequence of set, unlock and close by any owners, on a table of n entries. */
  method RunCalls(n: nat, calls: seq<Call>) returns (lt: LockTable, replies: seq<Reply>)
    requires Named(calls)
    ensures Is(lt, Run(n, calls)) && |replies| == |calls|
    ensures forall k :: 0 <= k < |calls| ==> replies[k] == ReplyTo(n, calls, k)
  {
    hide Is, Step, StateSound;
    lt := new LockTable(n);
    replies := [];
    StartIs(lt, n);
    var k := 0;
    assert calls[..0] == [];
    while k < |calls|
      invariant 0 <= k <= |calls| && |replies| == k && fresh(lt) && fresh(lt.table)
      invariant Is(lt, Run(n, calls[..k]))
      invariant forall m :: 0 <= m < k ==> replies[m] == ReplyTo(n, calls, m)
    {
      ghost var s := Run(n, calls[..k]);
      RunEntries(n, calls[..k]);
      RunMore(n, calls, k);
      var reply := DoCall(lt, calls[k], s);
      replies := replies + [reply];
      k := k + 1;
    }
    assert calls[..k] == calls;
  }

  method DoCall(lt: LockTable, call: Call, ghost s: State) returns (reply: Reply)
    requires Is(lt, s) && AllEntries(s) && call.owner != 0
    modifies lt, lt.table
    ensures Is(lt, Step(s, call).0) && reply == Step(s, call).1
  {
    hide Is, Prepare, LockIt, NoConflict, RemoveLocks, Put;
    match call {
      case SetLk(f, owner, fd, wait, l) =>
        reply := FcntlSetlk(lt, f, owner, fd, wait, l, s);
      case Close(inode, owner, fd) =>
        FcntlRemoveLocks(lt, inode, owner, fd, s);
        reply := Done;
    }
  }

  lemma StartIs(lt: LockTable, n: nat)
    requires lt.Valid() && |lt.free| == n && forall i :: lt.Locks(i) == []
    ensures Is(lt, State(map[], n))
  {
  }

  lemma RunEntries(n: nat, calls: seq<Call>)
    requires Named(calls)
    ensures AllEntries(Run(n, calls))
  {
  }

  lemma RunMore(n: nat, calls: seq<Call>, k: nat)
    requires Named(calls) && k < |calls|
    ensures AllEntries(Run(n, calls[..k])) && Run(n, calls[..k + 1]) == Step(Run(n, calls[..k]), calls[k]).0
  {
    hide Step, AllEntries;
    assert calls[..k + 1][..k] == calls[..k];
    RunEntries(n, calls[..k]);
  }
}

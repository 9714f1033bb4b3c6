/** fcntl_setlk and fcntl_remove_locks (linux-1.0.0/fs/locks.c) as calls on the lock lists of
    all files, and what holds after any sequence of calls by any number of owners. */
module FileLockRuns {
  import opened FileLocks
  import opened FileLockLists
  import opened FileLockRoom

  type int32 = x: int | -0x80000000 <= x <= 0x7fffffff

  /** struct flock; typ and whence hold whatever the user passed. */
  datatype Flock = Flock(typ: int, whence: int, start: int32, len: int32)

  datatype File = File(inode: nat, regular: bool, canRead: bool, canWrite: bool, pos: int32, size: int32)

  datatype Reply = Done | EBadF | EInvalid | EAgain | ENoLocks | Sleeps

  const F_RDLCK := 0
  const F_WRLCK := 1
  const F_UNLCK := 2
  const F_EXLCK := 4
  const F_SHLCK := 8

  datatype Prepared = Refused(reply: Reply) | Wanted(lock: FileLock)

  function Base(f: File, whence: int): int32 {
    if whence == 0 then 0 else if whence == 1 then f.pos else f.size
  }

  /** A regular file, a known type and origin, and a range that starts at or above 0. The sum is a 32-bit
      word. */
  predicate WellFormed(f: File, l: Flock) {
    var sum := l.start + if l.whence == 1 then f.pos else if l.whence == 2 then f.size else 0;
    && f.regular && l.typ in {F_RDLCK, F_WRLCK, F_UNLCK, F_EXLCK, F_SHLCK} && l.whence in {0, 1, 2} && l.len >= 0
    && (0 <= sum <= OFFSET_MAX || sum < -0x80000000)
  }

  /** The file is open for the kind of lock asked for. */
  predicate OpenFor(f: File, typ: int) {
    && (typ == F_RDLCK ==> f.canRead) && (typ == F_WRLCK ==> f.canWrite)
    && (typ in {F_SHLCK, F_EXLCK} ==> f.canRead || f.canWrite)
  }

  /** copy_flock and the mode checks of fcntl_setlk. */
  function Prepare(f: File, l: Flock, owner: nat, fd: nat): (p: Prepared)
    ensures p.Wanted? ==> Request(p.lock) && p.lock.owner == owner && p.lock.fd == fd
    ensures p == Refused(EInvalid) <==> !WellFormed(f, l)
    ensures p == Refused(EBadF) <==> WellFormed(f, l) && !OpenFor(f, l.typ)
    ensures p.Wanted? <==> WellFormed(f, l) && OpenFor(f, l.typ)
    // The range asked for starts at base + l_start and has l_len bytes; zero, and a length
    // that runs past OFFSET_MAX, mean all bytes to OFFSET_MAX. The sum is a 32-bit word: one above
    // OFFSET_MAX is refused, one below the smallest word comes out 2^32 higher.
    ensures p.Wanted? ==>
              var sum := l.start + if l.whence == 1 then f.pos else if l.whence == 2 then f.size else 0;
              var s := if sum < -0x80000000 then sum + 0x1_0000_0000 else sum;
              && 0 <= s == p.lock.start
              && p.lock.end == if l.len == 0 || s + l.len - 1 > OFFSET_MAX then OFFSET_MAX else s + l.len - 1
    // A shared or read lock becomes a read lock, an exclusive or write lock a write lock.
    ensures p.Wanted? ==> match p.lock.typ
                          case RdLck => l.typ in {F_RDLCK, F_SHLCK} && (f.canRead || (l.typ == F_SHLCK && f.canWrite))
                          case WrLck => l.typ in {F_WRLCK, F_EXLCK} && (f.canWrite || (l.typ == F_EXLCK && f.canRead))
                          case UnLck => l.typ == F_UNLCK
  {
    if !f.regular || l.typ !in {F_RDLCK, F_WRLCK, F_UNLCK, F_EXLCK, F_SHLCK} then Refused(EInvalid)
    else if l.whence !in {0, 1, 2} then Refused(EInvalid)
    else
      var start := Wrap32(Base(f, l.whence) + l.start);
      if start < 0 || l.len < 0 then Refused(EInvalid)
      else
        var last := Wrap32(Wrap32(start + l.len) - 1);
        var end := if l.len == 0 || last < 0 then OFFSET_MAX else last;
        var lock := FileLock(owner, fd, UnLck, start, end);
        if l.typ == F_RDLCK then if f.canRead then Wanted(lock.(typ := RdLck)) else Refused(EBadF)
        else if l.typ == F_WRLCK then if f.canWrite then Wanted(lock.(typ := WrLck)) else Refused(EBadF)
        else if l.typ == F_SHLCK then if f.canRead || f.canWrite then Wanted(lock.(typ := RdLck)) else Refused(EBadF)
        else if l.typ == F_EXLCK then if f.canRead || f.canWrite then Wanted(lock.(typ := WrLck)) else Refused(EBadF)
        else Wanted(lock)
  }

  /** The lists of all files, and how many table entries are on the free list. */
  datatype State = State(lists: map<nat, seq<FileLock>>, free: nat)

  function ListOf(s: State, inode: nat): seq<FileLock> {
    if inode in s.lists then s.lists[inode] else []
  }

  function Put(s: State, inode: nat, list: seq<FileLock>, free: nat): (s': State)
    ensures forall i :: ListOf(s', i) == if i == inode then list else ListOf(s, i)
  {
    State(s.lists[inode := list], free)
  }

  ghost predicate AllEntries(s: State) {
    forall i :: Entries(ListOf(s, i))
  }

  /** A call. With wait set (F_SETLKW) a conflict puts the caller to sleep; when it wakes it
      makes the same call again. */
  datatype Call = SetLk(file: File, owner: nat, fd: nat, wait: bool, flock: Flock)
                | Close(inode: nat, owner: nat, fd: nat)

  function Answer(st: Status): Reply {
    match st case Success => Done case EInval => EInvalid case ENoLck => ENoLocks
  }

  function Key(owner: nat, fd: nat): FileLock {
    FileLock(owner, fd, UnLck, 0, 0)
  }

  ghost function Step(s: State, call: Call): (r: (State, Reply))
    requires AllEntries(s)
  {
    match call
    case SetLk(f, owner, fd, wait, l) =>
      var p := Prepare(f, l, owner, fd);
      if p.Refused? then (s, p.reply)
      else
        var list := ListOf(s, f.inode);
        if !NoConflict(list, p.lock) then (s, if wait then Sleeps else EAgain)
        else
          var o := LockIt(list, p.lock, s.free);
          (Put(s, f.inode, o.list, o.free), Answer(o.status))
    case Close(inode, owner, fd) =>
      var list := ListOf(s, inode);
      var list' := RemoveLocks(list, Key(owner, fd));
      Split(list, Key(owner, fd));
      (Put(s, inode, list', s.free + |list| - |list'|), Done)
  }

  predicate Named(calls: seq<Call>) {
    forall i :: 0 <= i < |calls| ==> calls[i].owner != 0
  }

  ghost predicate StateSound(s: State) {
    AllEntries(s) && forall i :: Sound(ListOf(s, i))
  }

  lemma StepSound(s: State, call: Call)
    requires StateSound(s) && call.owner != 0
    ensures AllEntries(s) && StateSound(Step(s, call).0)
  {
    hide Prepare, LockIt, NoConflict, RemoveLocks, Own;
    match call
    case SetLk(f, owner, fd, wait, l) =>
      var p := Prepare(f, l, owner, fd);
      if p.Wanted? && NoConflict(ListOf(s, f.inode), p.lock) {
        LockItSound(ListOf(s, f.inode), p.lock, s.free);
      }
    case Close(inode, owner, fd) =>
      RemoveLocksSound(ListOf(s, inode), Key(owner, fd));
  }

  /** The state after a sequence of calls on an empty table. */
  ghost function Run(free: nat, calls: seq<Call>): (s: State)
    requires Named(calls)
    ensures StateSound(s)
  {
    if calls == [] then State(map[], free)
    else
      var n := |calls| - 1;
      var s := Run(free, calls[..n]);
      StepSound(s, calls[n]);
      Step(s, calls[n]).0
  }

  /** After any calls, no byte of any file is write-locked by one (owner, fd) while another
      holds it: also when requests wrap. */
  lemma NoTwoOwners(free: nat, calls: seq<Call>, inode: nat, d: FileLock, e: FileLock, b: int, t: LockType)
    requires Named(calls) && !SameKey(d, e)
    requires Held(ListOf(Run(free, calls), inode), d, b, WrLck)
    ensures !Held(ListOf(Run(free, calls), inode), e, b, t)
  {
    var list := ListOf(Run(free, calls), inode);
    assert Sound(list);
    var i :| 0 <= i < |list| && SameKey(list[i], d) && list[i].typ == WrLck && InRange(list[i], b);
    assert forall j :: 0 <= j < |list| && SameKey(list[j], e) ==> !SameKey(list[i], list[j]);
  }

  // ------------------------------------------------------------------------------------
  // The meaning of a run
  // ------------------------------------------------------------------------------------

  /** A call that lock_it grants only without a wrapping sum: the range ends before OFFSET_MAX, or the owner
      has no lock of its type that touches it. */
  ghost predicate Fits(s: State, call: Call)
    requires AllEntries(s)
  {
    call.SetLk? && Step(s, call).1 == Done ==>
      var p := Prepare(call.file, call.flock, call.owner, call.fd);
      p.Wanted? ==> !Wraps(Own(ListOf(s, call.file.inode), p.lock), p.lock)
  }

  ghost predicate AllFits(free: nat, calls: seq<Call>)
    requires Named(calls)
  {
    forall i :: 0 <= i < |calls| ==> Fits(Run(free, calls[..i]), calls[i])
  }

  /** The type byte b of a file has for (owner, fd) after the calls: the type in the last
      granted request that names the byte, and none after a close. */
  ghost function LastGranted(free: nat, calls: seq<Call>, inode: nat, owner: nat, fd: nat, b: int): LockType
    requires Named(calls)
  {
    if calls == [] then UnLck
    else
      var n := |calls| - 1;
      var call := calls[n];
      var before := LastGranted(free, calls[..n], inode, owner, fd, b);
      if call.owner != owner || call.fd != fd then before
      else if call.Close? then if call.inode == inode then UnLck else before
      else
        var p := Prepare(call.file, call.flock, owner, fd);
        if call.file.inode == inode && p.Wanted? && InRange(p.lock, b) && Step(Run(free, calls[..n]), call).1 == Done
        then p.lock.typ else before
  }

  ghost predicate StateSorted(s: State) {
    forall i :: GroupsSorted(ListOf(s, i))
  }

  /** One granted request changes one list by its per-byte update; every other reply to
      fcntl_setlk leaves all lists alone. */
  lemma SetLkStep(s: State, call: Call)
    requires StateSound(s) && StateSorted(s) && call.SetLk? && call.owner != 0 && Fits(s, call)
    ensures var (s', reply) := Step(s, call);
            && StateSorted(s')
            && (reply != Done ==> forall i :: ListOf(s', i) == ListOf(s, i))
            && (reply == Done ==>
                  var p := Prepare(call.file, call.flock, call.owner, call.fd);
                  && p.Wanted?
                  && Applied(ListOf(s', call.file.inode), ListOf(s, call.file.inode), p.lock)
                  && forall i :: i != call.file.inode ==> ListOf(s', i) == ListOf(s, i))
  {
    hide Prepare, LockIt, Own, Applied, Wraps, GroupsSorted, NoConflict, Grouped, Entries, Safe, Put, ListOf;
    var p := Prepare(call.file, call.flock, call.owner, call.fd);
    if p.Wanted? && NoConflict(ListOf(s, call.file.inode), p.lock) {
      LockItUpdates(ListOf(s, call.file.inode), p.lock, s.free);
    }
  }

  /** Another (owner, fd) holds a byte of the range so that the request cannot be granted. */
  ghost predicate Blocked(list: seq<FileLock>, c: FileLock) {
    c.typ != UnLck &&
    exists d, b, t :: Held(list, d, b, t) && !SameKey(c, d) && InRange(c, b) && (c.typ == WrLck || t == WrLck)
  }

  lemma BlockedIff(list: seq<FileLock>, c: FileLock)
    requires Entries(list) && GroupsSorted(list) && Request(c)
    ensures NoConflict(list, c) <==> !Blocked(list, c)
  {
    if !NoConflict(list, c) {
      var i :| 0 <= i < |list| && Conflict(c, list[i]);
      var b := if list[i].start < c.start then c.start else list[i].start;
      assert InRange(list[i], b) && InRange(c, b);
      assert Held(list, list[i], b, list[i].typ);
    }
    if Blocked(list, c) {
      var d, b, t :| Held(list, d, b, t) && !SameKey(c, d) && InRange(c, b) && (c.typ == WrLck || t == WrLck);
      var i :| 0 <= i < |list| && SameKey(list[i], d) && list[i].typ == t && InRange(list[i], b);
      assert Conflict(c, list[i]);
    }
  }

  /** An unlock of bytes the caller holds no lock on. */
  ghost predicate Pointless(list: seq<FileLock>, c: FileLock) {
    c.typ == UnLck && !exists b, t :: Held(list, c, b, t) && InRange(c, b)
  }

  lemma PointlessIff(list: seq<FileLock>, c: FileLock)
    requires Grouped(list)
    ensures NoneHeld(Own(list, c), c) <==> Pointless(list, c)
  {
    Split(list, c);
    forall b, t
      ensures Held(list, c, b, t) <==> Covers(Own(list, c), b, t)
    {
      HeldSplit(list, c, Own(list, c), c, b, t);
    }
    hide Own, Held, Covers, Grouped;
  }

  /** What fcntl_setlk answers: it is granted exactly when the arguments are good, the file is open for it,
      no other (owner, fd) holds a byte against it, an unlock has something to unlock, and the table has
      entries for the result. */
  lemma SetLkReply(s: State, call: Call)
    requires StateSound(s) && StateSorted(s) && call.SetLk? && call.owner != 0
    ensures AllEntries(s)
    ensures var p := Prepare(call.file, call.flock, call.owner, call.fd);
            var list := ListOf(s, call.file.inode);
            Step(s, call).1 ==
            if !WellFormed(call.file, call.flock) then EInvalid
            else if !OpenFor(call.file, call.flock.typ) then EBadF
            else if Blocked(list, p.lock) then if call.wait then Sleeps else EAgain
            else if Pointless(list, p.lock) then EInvalid
            else if Room(Own(list, p.lock), p.lock, s.free) then Done
            else ENoLocks
  {
    hide Prepare, WellFormed, OpenFor, Own, Room, Blocked, Pointless, NoneHeld, Entries, Grouped, Safe, GroupsSorted;
    hide Put, NoConflict, LockGroup;
    var p := Prepare(call.file, call.flock, call.owner, call.fd);
    var list := ListOf(s, call.file.inode);
    assert Sound(list) && GroupsSorted(list);
    if p.Wanted? {
      BlockedIff(list, p.lock);
      PointlessIff(list, p.lock);
      OwnSorted(list, p.lock);
      LockGroupAnswers(Own(list, p.lock), p.lock, s.free);
    }
  }

  /** In every run whose requests so far fit, the answer to the next one. */
  lemma RunReply(free: nat, calls: seq<Call>, call: Call)
    requires Named(calls) && AllFits(free, calls) && call.SetLk? && call.owner != 0
    ensures var s := Run(free, calls);
            var p := Prepare(call.file, call.flock, call.owner, call.fd);
            var list := ListOf(s, call.file.inode);
            Step(s, call).1 == Done <==>
              && p.Wanted? && !Blocked(list, p.lock) && !Pointless(list, p.lock)
              && Room(Own(list, p.lock), p.lock, s.free)
  {
    RunSorted(free, calls);
    hide Step, StateSorted, Prepare, Blocked, Pointless, Room, Own;
    SetLkReply(Run(free, calls), call);
  }

  lemma CloseStep(s: State, call: Call)
    requires StateSound(s) && StateSorted(s) && call.Close?
    ensures var s' := Step(s, call).0;
            && StateSorted(s')
            && Cleared(ListOf(s', call.inode), ListOf(s, call.inode), Key(call.owner, call.fd))
            && forall i :: i != call.inode ==> ListOf(s', i) == ListOf(s, i)
  {
    hide GroupsSorted, Cleared, RemoveLocks, Grouped, Entries, Safe, Put, ListOf;
    RemoveLocksClears(ListOf(s, call.inode), Key(call.owner, call.fd));
  }

  lemma {:induction false} RunSorted(free: nat, calls: seq<Call>)
    requires Named(calls) && AllFits(free, calls)
    ensures StateSorted(Run(free, calls))
  {
    hide StateSorted, Step;
    if calls == [] {
      RunEmptySorted(free);
    } else {
      var n := |calls| - 1;
      PrefixFits(free, calls);
      RunSorted(free, calls[..n]);
      if calls[n].Close? {
        CloseStep(Run(free, calls[..n]), calls[n]);
      } else {
        SetLkStep(Run(free, calls[..n]), calls[n]);
      }
    }
  }

  lemma RunEmptySorted(free: nat)
    ensures StateSorted(Run(free, []))
  {
  }

  lemma PrefixFits(free: nat, calls: seq<Call>)
    requires Named(calls) && AllFits(free, calls) && calls != []
    ensures AllFits(free, calls[..|calls| - 1])
  {
    var front := calls[..|calls| - 1];
    forall i | 0 <= i < |front|
      ensures Fits(Run(free, front[..i]), front[i])
    {
      assert front[..i] == calls[..i];
    }
  }

  /** One byte of one owner across one call. */
  lemma StepMeaning(s: State, call: Call, inode: nat, owner: nat, fd: nat, b: int, t: LockType)
    requires StateSound(s) && StateSorted(s) && call.owner != 0 && Fits(s, call) && t != UnLck
    ensures var (s', reply) := Step(s, call);
            var was := Held(ListOf(s, inode), Key(owner, fd), b, t);
            Held(ListOf(s', inode), Key(owner, fd), b, t)
            <==> if call.owner != owner || call.fd != fd then was
                 else if call.Close? then was && call.inode != inode
                 else
                   var p := Prepare(call.file, call.flock, owner, fd);
                   if call.file.inode == inode && p.Wanted? && InRange(p.lock, b) && reply == Done
                   then p.lock.typ == t else was
  {
    if call.Close? { CloseStep(s, call); } else { SetLkStep(s, call); }
    hide Step, Held, Prepare, StateSorted, StateSound, ListOf, Put, Fits;
  }

  /** In a run without wrapping requests, a byte has exactly the type last granted. */
  lemma {:induction false} RunMeaning(free: nat, calls: seq<Call>, inode: nat, owner: nat, fd: nat, b: int, t: LockType)
    requires Named(calls) && AllFits(free, calls) && t != UnLck
    ensures Held(ListOf(Run(free, calls), inode), Key(owner, fd), b, t)
            <==> LastGranted(free, calls, inode, owner, fd, b) == t
  {
    if calls != [] {
      var n := |calls| - 1;
      PrefixFits(free, calls);
      RunMeaning(free, calls[..n], inode, owner, fd, b, t);
      RunSorted(free, calls[..n]);
      hide Step, Held, Prepare, StateSorted, StateSound, ListOf, Put;
      StepMeaning(Run(free, calls[..n]), calls[n], inode, owner, fd, b, t);
    }
  }
}

/** begin_op, log_write and end_op (xv6/log.c) by any number of processes in any interleaving:
    the log never overflows, and an operation lies in one commit. */
module LogSpace {
  import opened Numbers
  import opened RedoLog

  const MAXOPBLOCKS := 10

  /** A file system call between begin_op and end_op: the commit it began under and the
      blocks it has logged. */
  datatype Call = Call(epoch: nat, wrote: set<nat>)

  /** log.lh as a set, the calls counted by log.outstanding, log.committing, and how many
      commits have finished. */
  datatype Log = Log(blocks: set<nat>, calls: seq<Call>, committing: bool, epoch: nat)

  datatype Action = Begin | LogWrite(i: nat, b: nat) | End(i: nat) | FinishCommit

  const Init := Log({}, [], false, 0)

  /** log_write's check "too big a transaction", for a log region of size blocks. */
  predicate TooBig(s: Log, size: nat) {
    |s.blocks| >= LOGSIZE || |s.blocks| >= size - 1
  }

  /** The caller logs at most MAXOPBLOCKS different blocks. */
  predicate WithinBudget(s: Log, i: nat, b: nat)
    requires i < |s.calls|
  {
    |s.calls[i].wrote + {b}| <= MAXOPBLOCKS
  }

  predicate Enabled(s: Log, a: Action, size: nat) {
    match a
    case Begin => !s.committing && |s.blocks| + (|s.calls| + 1) * MAXOPBLOCKS <= LOGSIZE
    case LogWrite(i, b) => i < |s.calls| && WithinBudget(s, i, b) && !TooBig(s, size)
    case End(i) => i < |s.calls|
    case FinishCommit => s.committing
  }

  function Remove(calls: seq<Call>, i: nat): seq<Call>
    requires i < |calls|
  {
    calls[..i] + calls[i + 1..]
  }

  function Next(s: Log, a: Action): Log
    requires a.LogWrite? || a.End? ==> a.i < |s.calls|
  {
    match a
    case Begin => s.(calls := s.calls + [Call(s.epoch, {})])
    case LogWrite(i, b) =>
      s.(blocks := s.blocks + {b}, calls := s.calls[i := s.calls[i].(wrote := s.calls[i].wrote + {b})])
    case End(i) => s.(calls := Remove(s.calls, i), committing := |s.calls| == 1)
    case FinishCommit => Log({}, s.calls, false, s.epoch + 1)
  }

  /** The blocks the calls in progress may still add. */
  function Reserved(calls: seq<Call>): int {
    if calls == [] then 0 else MAXOPBLOCKS - |calls[0].wrote| + Reserved(calls[1..])
  }

  ghost predicate Inv(s: Log) {
    && |s.blocks| + Reserved(s.calls) <= LOGSIZE
    && (s.committing ==> s.calls == [])
    && forall i :: 0 <= i < |s.calls| ==>
         |s.calls[i].wrote| <= MAXOPBLOCKS && s.calls[i].wrote <= s.blocks && s.calls[i].epoch == s.epoch
  }

  lemma {:induction false} ReservedConcat(x: seq<Call>, y: seq<Call>)
    ensures Reserved(x + y) == Reserved(x) + Reserved(y)
  {
    if x == [] {
      assert x + y == y;
    } else {
      assert (x + y)[1..] == x[1..] + y;
      ReservedConcat(x[1..], y);
    }
  }

  lemma ReservedOne(c: Call)
    ensures Reserved([c]) == MAXOPBLOCKS - |c.wrote|
  {
  }

  lemma ReservedSplit(calls: seq<Call>, i: nat)
    requires i < |calls|
    ensures Reserved(calls) == Reserved(calls[..i]) + (MAXOPBLOCKS - |calls[i].wrote|) + Reserved(calls[i + 1..])
    ensures Reserved(Remove(calls, i)) == Reserved(calls) - (MAXOPBLOCKS - |calls[i].wrote|)
  {
    hide Reserved;
    ReservedOne(calls[i]);
    assert calls == calls[..i] + ([calls[i]] + calls[i + 1..]);
    ReservedConcat(calls[..i], [calls[i]] + calls[i + 1..]);
    ReservedConcat([calls[i]], calls[i + 1..]);
    ReservedConcat(calls[..i], calls[i + 1..]);
  }

  lemma {:induction false} ReservedBounds(calls: seq<Call>)
    requires forall i :: 0 <= i < |calls| ==> |calls[i].wrote| <= MAXOPBLOCKS
    ensures 0 <= Reserved(calls) <= MAXOPBLOCKS * |calls|
    ensures Reserved(calls) == 0 ==> forall i :: 0 <= i < |calls| ==> |calls[i].wrote| == MAXOPBLOCKS
  {
    if calls != [] {
      ReservedBounds(calls[1..]);
    }
  }

  lemma ReservedUpdate(calls: seq<Call>, i: nat, c: Call)
    requires i < |calls|
    ensures Reserved(calls[i := c]) == Reserved(calls) + |calls[i].wrote| - |c.wrote|
  {
    var calls' := calls[i := c];
    ReservedSplit(calls, i);
    ReservedSplit(calls', i);
    assert calls'[..i] == calls[..i] && calls'[i + 1..] == calls[i + 1..];
  }

  lemma LogWriteInv(s: Log, i: nat, b: nat, size: nat)
    requires Inv(s) && Enabled(s, LogWrite(i, b), size)
    ensures Inv(Next(s, LogWrite(i, b)))
  {
    var w := s.calls[i].wrote;
    ReservedUpdate(s.calls, i, s.calls[i].(wrote := w + {b}));
    assert b in w ==> w + {b} == w;
    assert b in s.blocks ==> s.blocks + {b} == s.blocks;
    hide Reserved;
  }

  lemma EndInv(s: Log, i: nat, size: nat)
    requires Inv(s) && i < |s.calls|
    ensures Inv(Next(s, End(i)))
  {
    ReservedSplit(s.calls, i);
    var rest := Remove(s.calls, i);
    assert forall k :: 0 <= k < |rest| ==> rest[k] == s.calls[if k < i then k else k + 1];
    hide Reserved;
  }

  lemma StepInv(s: Log, a: Action, size: nat)
    requires Inv(s) && Enabled(s, a, size)
    ensures Inv(Next(s, a))
  {
    ReservedBounds(s.calls);
    match a
    case Begin =>
      ReservedConcat(s.calls, [Call(s.epoch, {})]);
    case LogWrite(i, b) =>
      LogWriteInv(s, i, b, size);
    case End(i) =>
      EndInv(s, i, size);
    case FinishCommit =>
  }

  // ------------------------------------------------------------------------------------
  // Runs
  // ------------------------------------------------------------------------------------

  /** The states of an interleaving. */
  ghost predicate IsRun(states: seq<Log>, size: nat) {
    && states != [] && states[0] == Init
    && forall i :: 0 <= i < |states| - 1 ==> Steps(states[i], states[i + 1], size)
  }

  ghost predicate Steps(s: Log, t: Log, size: nat) {
    exists a :: Enabled(s, a, size) && t == Next(s, a)
  }

  ghost predicate Reachable(s: Log, size: nat) {
    exists states :: IsRun(states, size) && states[|states| - 1] == s
  }

  lemma {:induction false} RunInv(states: seq<Log>, size: nat)
    requires IsRun(states, size)
    ensures Inv(states[|states| - 1])
  {
    var n := |states| - 1;
    if n > 0 {
      assert IsRun(states[..n], size);
      RunInv(states[..n], size);
      assert Steps(states[n - 1], states[n], size);
      var a :| Enabled(states[n - 1], a, size) && states[n] == Next(states[n - 1], a);
      StepInv(states[n - 1], a, size);
    }
  }

  /** In every interleaving: the header holds all logged blocks, nobody is inside a call during
      a commit, so end_op never finds log.committing set, and every block a call has logged is
      in the commit the call began under. */
  lemma LogNeverOverflows(s: Log, size: nat)
    requires Reachable(s, size)
    ensures |s.blocks| <= LOGSIZE
    ensures s.committing ==> s.calls == []
    ensures forall i :: 0 <= i < |s.calls| ==> s.calls[i].wrote <= s.blocks && s.calls[i].epoch == s.epoch
  {
    var states :| IsRun(states, size) && states[|states| - 1] == s;
    RunInv(states, size);
    ReservedBounds(s.calls);
  }

  // ------------------------------------------------------------------------------------
  // Every operation is committed
  // ------------------------------------------------------------------------------------

  /** With no operation in progress, what has been logged is being committed. */
  ghost predicate Closing(s: Log) {
    s.calls == [] && s.blocks != {} ==> s.committing
  }

  lemma {:induction false} RunClosing(states: seq<Log>, size: nat)
    requires IsRun(states, size)
    ensures Closing(states[|states| - 1])
  {
    var n := |states| - 1;
    if n > 0 {
      assert IsRun(states[..n], size);
      RunClosing(states[..n], size);
      assert Steps(states[n - 1], states[n], size);
    }
  }

  /** In every interleaving: a log that holds blocks while nobody is inside an operation is committing. */
  lemma NothingForgotten(s: Log, size: nat)
    requires Reachable(s, size) && s.calls == [] && s.blocks != {}
    ensures s.committing && Enabled(s, FinishCommit, size)
  {
    var states :| IsRun(states, size) && states[|states| - 1] == s;
    RunClosing(states, size);
  }

  /** begin_op waits only for operations in progress or a commit. */
  lemma BeginWaitsFor(s: Log, size: nat)
    requires Reachable(s, size) && !Enabled(s, Begin, size)
    ensures s.committing || s.calls != []
  {
    if !s.committing && s.calls == [] && s.blocks != {} {
      NothingForgotten(s, size);
    }
  }

  /** end_op takes one operation away and leaves the log alone; a commit begins exactly when it was the last
      one in progress. */
  lemma EndCommits(s: Log, i: nat, size: nat)
    requires Reachable(s, size) && Enabled(s, End(i), size)
    ensures var t := Next(s, End(i));
            && !s.committing && (t.committing <==> t.calls == [])
            && multiset(t.calls) == multiset(s.calls) - multiset{s.calls[i]}
            && t.blocks == s.blocks && t.epoch == s.epoch
  {
    LogNeverOverflows(s, size);
    var calls := s.calls;
    assert calls == calls[..i] + [calls[i]] + calls[i + 1..];
  }

  /** Within an epoch the log only grows, and epochs only count up. */
  lemma {:induction false} EpochGrows(states: seq<Log>, size: nat, i: nat, j: nat)
    requires IsRun(states, size) && i <= j < |states|
    ensures states[i].epoch <= states[j].epoch
    ensures states[i].epoch == states[j].epoch ==> states[i].blocks <= states[j].blocks
    decreases j - i
  {
    if i < j {
      EpochGrows(states, size, i, j - 1);
      assert Steps(states[j - 1], states[j - 1 + 1], size);
    }
  }

  lemma RunPrefix(states: seq<Log>, size: nat, i: nat)
    requires IsRun(states, size) && i < |states|
    ensures Reachable(states[i], size)
  {
    var s := states[..i + 1];
    forall k | 0 <= k < |s| - 1
      ensures Steps(s[k], s[k + 1], size)
    {
      assert Steps(states[k], states[k + 1], size);
    }
    assert IsRun(s, size) && s[|s| - 1] == states[i];
  }

  /** In every run: a block that operation k has logged at one moment is in the log when the commit that
      ends the operation's epoch finishes, and until then nothing empties the log. */
  lemma LoggedCommitted(states: seq<Log>, size: nat, i: nat, k: nat, b: nat, j: nat)
    requires IsRun(states, size) && i <= j && j + 1 < |states|
    requires k < |states[i].calls| && b in states[i].calls[k].wrote
    requires states[j].epoch == states[i].calls[k].epoch < states[j + 1].epoch
    ensures b in states[j].blocks && states[j].committing && states[j].calls == []
  {
    RunPrefix(states, size, i);
    LogNeverOverflows(states[i], size);
    EpochGrows(states, size, i, j);
    RunPrefix(states, size, j);
    LogNeverOverflows(states[j], size);
    assert Steps(states[j], states[j + 1], size);
  }

  // ------------------------------------------------------------------------------------
  // The panic in log_write
  // ------------------------------------------------------------------------------------

  /** No reachable call that keeps its budget is refused a block that is new to the log. */
  ghost predicate NeverRefused(size: nat) {
    forall s, i, b :: Reachable(s, size) && 0 <= i < |s.calls| && WithinBudget(s, i, b) && b !in s.blocks ==>
      !TooBig(s, size)
  }

  /** With room in the region, a log_write within budget panics exactly when the log is full. It is then
      on an absorbed block, and every call in progress has logged its whole budget. */
  lemma RefusedIff(s: Log, size: nat, i: nat, b: nat)
    requires size > LOGSIZE && Reachable(s, size) && i < |s.calls| && WithinBudget(s, i, b)
    ensures TooBig(s, size) <==> |s.blocks| == LOGSIZE
    ensures TooBig(s, size) ==> b in s.blocks && forall k :: 0 <= k < |s.calls| ==> |s.calls[k].wrote| == MAXOPBLOCKS
  {
    var states :| IsRun(states, size) && states[|states| - 1] == s;
    RunInv(states, size);
    ReservedBounds(s.calls);
    var w := s.calls[i].wrote;
    assert b !in w ==> |w + {b}| == |w| + 1;
  }

  function Between(lo: nat, hi: nat): (r: set<nat>)
    requires lo <= hi
    ensures |r| == hi - lo && forall x: nat :: x in r <==> lo <= x < hi
    decreases hi - lo
  {
    if lo == hi then {} else Between(lo, hi - 1) + {hi - 1}
  }

  /** Call j of three that have logged blocks 0 to m - 1, ten by each in turn. */
  function Part(m: nat, j: nat): Call {
    Call(0, Between(Min(m, 10 * j), Min(m, 10 * j + 10)))
  }

  function Filled(m: nat): Log {
    Log(Between(0, m), [Part(m, 0), Part(m, 1), Part(m, 2)], false, 0)
  }

  lemma PartNext(m: nat, j: nat)
    ensures if m / 10 == j then Part(m + 1, j) == Call(0, Part(m, j).wrote + {m}) else Part(m + 1, j) == Part(m, j)
    ensures Part(m, j).epoch == 0
    ensures m / 10 == j ==> |Part(m, j).wrote| == m % 10 && m !in Part(m, j).wrote
  {
  }

  lemma FilledCalls(m: nat)
    requires m <= 29
    ensures Filled(m).calls[m / 10] == Part(m, m / 10)
    ensures Filled(m).calls[m / 10 := Part(m + 1, m / 10)] == Filled(m + 1).calls
  {
    hide Part, Between;
    PartNext(m, 0);
    PartNext(m, 1);
    PartNext(m, 2);
  }

  /** The next block goes to call m / 10, within its budget. */
  lemma FilledNext(m: nat)
    requires m <= 29
    ensures |Filled(m).calls| == 3 && WithinBudget(Filled(m), m / 10, m) && m !in Filled(m).blocks
    ensures |Filled(m).blocks| == m
    ensures Next(Filled(m), LogWrite(m / 10, m)) == Filled(m + 1)
  {
    hide Part, Between;
    PartNext(m, m / 10);
    FilledCalls(m);
    assert Filled(m).blocks + {m} == Between(0, m + 1);
  }

  lemma Extend(s: Log, a: Action, size: nat)
    requires Reachable(s, size) && Enabled(s, a, size)
    ensures Reachable(Next(s, a), size)
  {
    var states :| IsRun(states, size) && states[|states| - 1] == s;
    var longer := states + [Next(s, a)];
    forall i | 0 <= i < |longer| - 1
      ensures Steps(longer[i], longer[i + 1], size)
    {
      if i < |states| - 1 {
        assert Steps(states[i], states[i + 1], size);
      }
    }
    assert IsRun(longer, size);
  }

  lemma StartReachable(size: nat)
    ensures Reachable(Filled(0), size)
  {
    assert IsRun([Init], size);
    assert Reachable(Init, size);
    hide Reachable;
    Extend(Init, Begin, size);
    Extend(Next(Init, Begin), Begin, size);
    Extend(Next(Next(Init, Begin), Begin), Begin, size);
    assert Next(Next(Next(Init, Begin), Begin), Begin) == Filled(0);
  }

  lemma {:induction false} FilledReachable(m: nat, size: nat)
    requires m <= 29 && m < size
    ensures Reachable(Filled(m), size)
  {
    if m == 0 {
      StartReachable(size);
    } else {
      hide Reachable, Filled;
      FilledReachable(m - 1, size);
      FilledNext(m - 1);
      Extend(Filled(m - 1), LogWrite((m - 1) / 10, m - 1), size);
    }
  }

  /** log_write never refuses a new block within budget exactly when the log region has more
      blocks than LOGSIZE. */
  lemma NeverRefusedIff(size: nat)
    requires size > 0
    ensures NeverRefused(size) <==> size > LOGSIZE
  {
    hide Reachable;
    if size > LOGSIZE {
      forall s, i, b | Reachable(s, size) && 0 <= i < |s.calls| && WithinBudget(s, i, b) && b !in s.blocks
        ensures !TooBig(s, size)
      {
        if TooBig(s, size) {
          RefusedIff(s, size, i, b);
        }
      }
    } else {
      var m := size - 1;
      FilledReachable(m, size);
      FilledNext(m);
    }
  }

  /** Three calls that have logged ten blocks each fill the log. One that logs its first block again
      keeps its budget and is refused: log_write looks at the length of the log before it looks for the
      block. */
  lemma AbsorbedRefused(size: nat)
    requires size > LOGSIZE
    ensures var s := Filled(30); Reachable(s, size) && WithinBudget(s, 0, 0) && 0 in s.blocks && TooBig(s, size)
  {
    hide Reachable, Filled, Part, Between;
    FilledReachable(29, size);
    FilledNext(29);
    Extend(Filled(29), LogWrite(2, 29), size);
    FilledFull();
  }

  lemma FilledFull()
    ensures var s := Filled(30); |s.calls| == 3 && WithinBudget(s, 0, 0) && 0 in s.blocks && |s.blocks| == LOGSIZE
  {
    hide Between;
    assert Part(30, 0).wrote == Between(0, 10);
    assert Between(0, 10) + {0} == Between(0, 10);
  }

  /** Whatever the size of the region, some reachable call within its budget is refused. */
  lemma RefusedSomewhere(size: nat)
    requires size > 0
    ensures exists s, i, b :: Reachable(s, size) && 0 <= i < |s.calls| && WithinBudget(s, i, b) && TooBig(s, size)
  {
    hide Reachable, Filled;
    if size > LOGSIZE {
      FilledFull();
      AbsorbedRefused(size);
    } else {
      FilledReachable(size - 1, size);
      FilledNext(size - 1);
      assert 0 <= (size - 1) / 10 < |Filled(size - 1).calls|;
    }
  }
}

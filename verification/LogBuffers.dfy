/** The buffers of operations on the log (xv6/log.c over xv6/bio.c) by any number of processes in any
    interleaving: exactly when bget can run out of them. */
module LogBuffers {
  import opened Numbers
  import opened RedoLog
  import opened LogSpace

  const NBUF := 30

  /** The log, and the buffers each operation in progress holds. */
  datatype State = State(log: Log, holds: seq<set<nat>>)

  /** A step of the log, a bread or a brelse by operation i. */
  datatype Act = Space(a: Action) | Read(i: nat, b: nat) | Release(i: nat, b: nat)

  function AllHeld(holds: seq<set<nat>>): set<nat> {
    if holds == [] then {} else AllHeld(holds[..|holds| - 1]) + holds[|holds| - 1]
  }

  /** The blocks whose buffers cannot be recycled. */
  function Pinned(s: State): set<nat> {
    s.log.blocks + AllHeld(s.holds)
  }

  /** bget's panic "no buffers". */
  predicate NoBuffers(s: State, b: nat) {
    b !in Pinned(s) && |Pinned(s)| >= NBUF
  }

  /** Operation i, which never holds more than h buffers, wants one that nobody holds. */
  predicate Wants(s: State, i: nat, b: nat, h: nat) {
    i < |s.holds| && |s.holds[i]| < h && b !in AllHeld(s.holds)
  }

  /** The steps that do not sleep or panic. log_write is by the buffer's holder, and an operation ends
      with none. */
  predicate CanDo(s: State, a: Act, size: nat, h: nat) {
    match a
    case Space(x) =>
      && Enabled(s.log, x, size) && |s.holds| == |s.log.calls|
      && (x.LogWrite? ==> x.b in s.holds[x.i]) && (x.End? ==> s.holds[x.i] == {})
    case Read(i, b) => Wants(s, i, b, h) && !NoBuffers(s, b)
    case Release(i, b) => i < |s.holds| && b in s.holds[i]
  }

  function Do(s: State, a: Act): State
    requires a.Space? && (a.a.LogWrite? || a.a.End?) ==> a.a.i < |s.log.calls| == |s.holds|
    requires !a.Space? ==> a.i < |s.holds|
  {
    match a
    case Space(x) =>
      State(Next(s.log, x),
            if x.Begin? then s.holds + [{}] else if x.End? then s.holds[..x.i] + s.holds[x.i + 1..] else s.holds)
    case Read(i, b) => s.(holds := s.holds[i := s.holds[i] + {b}])
    case Release(i, b) => s.(holds := s.holds[i := s.holds[i] - {b}])
  }

  ghost predicate Possible(run: seq<Act>, size: nat, h: nat)
    decreases |run|, 0
  {
    run == [] ||
    var was := run[..|run| - 1];
    Possible(was, size, h) && CanDo(After(was, size, h), run[|run| - 1], size, h)
  }

  ghost function After(run: seq<Act>, size: nat, h: nat): State
    requires Possible(run, size, h)
    decreases |run|, 1
  {
    if run == [] then State(Init, []) else Do(After(run[..|run| - 1], size, h), run[|run| - 1])
  }

  ghost predicate Reached(s: State, size: nat, h: nat) {
    exists run :: Possible(run, size, h) && After(run, size, h) == s
  }

  lemma Further(s: State, a: Act, size: nat, h: nat)
    requires Reached(s, size, h) && CanDo(s, a, size, h)
    ensures Reached(Do(s, a), size, h)
  {
    var run :| Possible(run, size, h) && After(run, size, h) == s;
    var more := run + [a];
    assert more[..|run|] == run;
    assert Possible(more, size, h) && After(more, size, h) == Do(s, a);
  }

  // ------------------------------------------------------------------------------------
  // Enough buffers
  // ------------------------------------------------------------------------------------

  /** The log's bound: LOGSIZE and the size of its region. */
  function Most(size: nat): nat
    requires size > 0
  {
    Min(LOGSIZE, size - 1)
  }

  ghost predicate Bounded(s: State, size: nat, h: nat)
    requires size > 0
  {
    && |s.holds| == |s.log.calls| <= 3 && |s.log.blocks| <= Most(size)
    && forall i :: 0 <= i < |s.holds| ==> |s.holds[i]| <= h
  }

  lemma StepBounded(s: State, a: Act, size: nat, h: nat)
    requires size > 0 && Bounded(s, size, h) && CanDo(s, a, size, h)
    ensures Bounded(Do(s, a), size, h)
  {
    if a.Space? && a.a.LogWrite? {
      assert |s.log.blocks + {a.a.b}| <= |s.log.blocks| + 1;
    } else if a.Read? {
      assert |s.holds[a.i] + {a.b}| <= |s.holds[a.i]| + 1;
    } else if a.Release? {
      assert s.holds[a.i] == s.holds[a.i] - {a.b} + {a.b};
      assert |s.holds[a.i]| == |s.holds[a.i] - {a.b}| + 1;
    }
  }

  lemma {:induction false} RunBounded(run: seq<Act>, size: nat, h: nat)
    requires size > 0 && Possible(run, size, h)
    ensures Bounded(After(run, size, h), size, h)
  {
    if run != [] {
      RunBounded(run[..|run| - 1], size, h);
      StepBounded(After(run[..|run| - 1], size, h), run[|run| - 1], size, h);
    }
  }

  lemma UnionSize(a: set<nat>, b: set<nat>)
    ensures |a + b| <= |a| + |b|
  {
    assert a + b == a + (b - a);
    assert |a + (b - a)| == |a| + |b - a|;
    assert b == (b - a) + b * a;
    assert |b| == |b - a| + |b * a|;
  }

  /** n times h. */
  function Times(n: nat, h: nat): nat {
    if n == 0 then 0 else Times(n - 1, h) + h
  }

  /** What is held, when operation i holds less than h and the others at most h. */
  lemma {:induction false} HeldSize(holds: seq<set<nat>>, h: nat, i: nat)
    requires forall k :: 0 <= k < |holds| ==> |holds[k]| <= if k == i then h - 1 else h
    requires h > 0
    ensures |AllHeld(holds)| <= Times(|holds|, h) - if i < |holds| then 1 else 0
  {
    if holds != [] {
      var n := |holds| - 1;
      HeldSize(holds[..n], h, i);
      UnionSize(AllHeld(holds[..n]), holds[n]);
    }
  }

  lemma Enough(s: State, size: nat, h: nat, i: nat, b: nat)
    requires size > 0 && h > 0 && Bounded(s, size, h) && Wants(s, i, b, h) && NoBuffers(s, b)
    ensures Most(size) + 3 * h > NBUF
  {
    HeldSize(s.holds, h, i);
    UnionSize(s.log.blocks, AllHeld(s.holds));
    assert Times(1, h) == h && Times(2, h) == 2 * h && Times(3, h) == 3 * h;
  }

  // ------------------------------------------------------------------------------------
  // Running out
  // ------------------------------------------------------------------------------------

  /** Three operations that have logged blocks 0 to m - 1 and hold no buffer. */
  function Idle(m: nat): State {
    State(Filled(m), [{}, {}, {}])
  }

  /** n operations have begun. */
  function Begun(n: nat): State
    requires n <= 3
  {
    State(Log({}, seq(n, _ => Call(0, {})), false, 0), seq(n, _ => {}))
  }

  lemma StartReached(size: nat, h: nat)
    ensures Reached(Idle(0), size, h)
  {
    assert Possible([], size, h) && After([], size, h) == State(Init, []) == Begun(0);
    hide Reached, Possible, After;
    BeginOne(0, size, h);
    BeginOne(1, size, h);
    BeginOne(2, size, h);
    assert Begun(3) == Idle(0) by { NothingFilled(); }
  }

  lemma BeginOne(n: nat, size: nat, h: nat)
    requires n < 3 && Reached(Begun(n), size, h)
    ensures Reached(Begun(n + 1), size, h)
  {
    hide Reached;
    Further(Begun(n), Space(Begin), size, h);
    assert Do(Begun(n), Space(Begin)) == Begun(n + 1);
  }

  lemma NothingFilled()
    ensures Begun(3) == Idle(0)
  {
    assert Part(0, 0) == Part(0, 1) == Part(0, 2) == Call(0, {});
  }

  /** bread, log_write and brelse of one more block. */
  lemma LogOneMore(m: nat, size: nat, h: nat)
    requires size > 0 && h > 0 && m < Most(size) && Reached(Idle(m), size, h)
    ensures Reached(Idle(m + 1), size, h)
  {
    hide Reached, Filled;
    FilledNext(m);
    var j := m / 10;
    var s := Idle(m);
    NoneHeld();
    Further(s, Read(j, m), size, h);
    var s1 := Do(s, Read(j, m));
    Further(s1, Space(LogWrite(j, m)), size, h);
    var s2 := Do(s1, Space(LogWrite(j, m)));
    Further(s2, Release(j, m), size, h);
    assert Do(s2, Release(j, m)) == Idle(m + 1);
  }

  lemma NoneHeld()
    ensures AllHeld([{}, {}, {}]) == {}
  {
    ThreeHeld({}, {}, {});
  }

  lemma {:induction false} IdleReached(m: nat, size: nat, h: nat)
    requires size > 0 && h > 0 && m <= Most(size)
    ensures Reached(Idle(m), size, h)
  {
    hide Reached, Idle;
    if m == 0 {
      StartReached(size, h);
    } else {
      IdleReached(m - 1, size, h);
      LogOneMore(m - 1, size, h);
    }
  }

  /** Operation j's share of r blocks from 1000 on, h for each operation in turn. */
  function Share(r: nat, h: nat, j: nat): set<nat> {
    var lo := if j == 0 then 0 else if j == 1 then h else 2 * h;
    Between(1000 + Min(r, lo), 1000 + Min(r, lo + h))
  }

  /** The same, holding r buffers more. */
  function Holding(m: nat, r: nat, h: nat): State {
    State(Filled(m), [Share(r, h, 0), Share(r, h, 1), Share(r, h, 2)])
  }

  lemma ThreeHeld(a: set<nat>, b: set<nat>, c: set<nat>)
    ensures AllHeld([a, b, c]) == a + b + c
  {
    assert [a, b, c][..2] == [a, b] && [a, b][..1] == [a] && [a][..0] == [];
    assert AllHeld([a]) == a && AllHeld([a, b]) == a + b;
  }

  lemma ShareSum(r: nat, h: nat)
    requires r <= 3 * h
    ensures Share(r, h, 0) + Share(r, h, 1) + Share(r, h, 2) == Between(1000, 1000 + r)
  {
    hide Between;
    forall x: nat
      ensures x in Share(r, h, 0) + Share(r, h, 1) + Share(r, h, 2) <==> x in Between(1000, 1000 + r)
    {
    }
  }

  lemma FilledBlocks(m: nat)
    ensures Filled(m).blocks == Between(0, m) && |Filled(m).calls| == 3
  {
  }

  lemma HoldingPinned(m: nat, r: nat, h: nat)
    requires m <= 30 && r <= 3 * h
    ensures AllHeld(Holding(m, r, h).holds) == Between(1000, 1000 + r)
    ensures |Pinned(Holding(m, r, h))| == m + r && 1000 + r !in Pinned(Holding(m, r, h))
  {
    hide Between, Share, Filled, AllHeld;
    FilledBlocks(m);
    ThreeHeld(Share(r, h, 0), Share(r, h, 1), Share(r, h, 2));
    ShareSum(r, h);
    assert Between(0, m) * Between(1000, 1000 + r) == {};
    assert |Between(0, m) + Between(1000, 1000 + r)| == m + r;
  }

  /** The operation whose turn it is. */
  function Turn(r: nat, h: nat): nat {
    if r < h then 0 else if r < 2 * h then 1 else 2
  }

  lemma ShareNext(r: nat, h: nat, k: nat)
    requires r < 3 * h && k < 3
    ensures Share(r + 1, h, k) == if k == Turn(r, h) then Share(r, h, k) + {1000 + r} else Share(r, h, k)
    ensures |Share(r, h, Turn(r, h))| < h
  {
    hide Between;
    if k == Turn(r, h) {
      assert Share(r + 1, h, k) == Share(r, h, k) + {1000 + r};
    }
  }

  lemma HoldNext(m: nat, r: nat, h: nat)
    requires r < 3 * h
    ensures Do(Holding(m, r, h), Read(Turn(r, h), 1000 + r)) == Holding(m, r + 1, h)
    ensures |Holding(m, r, h).holds[Turn(r, h)]| < h
  {
    hide Share, Filled;
    ShareNext(r, h, 0);
    ShareNext(r, h, 1);
    ShareNext(r, h, 2);
  }

  /** The operation whose turn it is takes one more. */
  lemma HoldOneMore(m: nat, r: nat, size: nat, h: nat)
    requires size > 0 && m <= 30 && r < 3 * h && m + r < NBUF && Reached(Holding(m, r, h), size, h)
    ensures Reached(Holding(m, r + 1, h), size, h)
  {
    hide Reached, Filled, Share, Between, Holding, Do, Pinned, AllHeld;
    HoldingPinned(m, r, h);
    HoldNext(m, r, h);
    assert |Holding(m, r, h).holds| == 3 by { ThreeOps(m, r, h); }
    Further(Holding(m, r, h), Read(Turn(r, h), 1000 + r), size, h);
  }

  lemma ThreeOps(m: nat, r: nat, h: nat)
    ensures |Holding(m, r, h).holds| == 3
  {
  }

  lemma {:induction false} HoldingReached(m: nat, r: nat, size: nat, h: nat)
    requires size > 0 && h > 0 && m <= Most(size) && r <= 3 * h && m + r <= NBUF
    ensures Reached(Holding(m, r, h), size, h)
  {
    hide Reached, Filled, Between, Holding;
    if r == 0 {
      IdleReached(m, size, h);
      HoldsNothing(m, h);
    } else {
      HoldingReached(m, r - 1, size, h);
      HoldOneMore(m, r - 1, size, h);
    }
  }

  lemma HoldsNothing(m: nat, h: nat)
    ensures Holding(m, 0, h) == Idle(m)
  {
    hide Filled;
    assert Share(0, h, 0) == Share(0, h, 1) == Share(0, h, 2) == {};
  }

  ghost predicate RunsOut(size: nat, h: nat) {
    exists s, i, b :: Reached(s, size, h) && Wants(s, i, b, h) && NoBuffers(s, b)
  }

  /** The cache full: the log at its bound, and the rest of the buffers held. */
  lemma OutOfBuffers(size: nat, h: nat)
    requires size > 0 && h > 0 && Most(size) + 3 * h > NBUF
    ensures RunsOut(size, h)
  {
    hide Reached, Filled, Between, Holding, Pinned, AllHeld;
    var m := Most(size);
    var r := NBUF - m;
    HoldingReached(m, r, size, h);
    HoldingPinned(m, r, h);
    HoldNext(m, r, h);
    ThreeOps(m, r, h);
    var s := Holding(m, r, h);
    assert Reached(s, size, h) && Wants(s, Turn(r, h), 1000 + r, h) && NoBuffers(s, 1000 + r);
  }

  /** With operations that hold up to h buffers each, some bread within the rules finds no buffer if and only
      if the blocks the log can hold and three operations' buffers are more than the cache has. */
  lemma RunsOutIff(size: nat, h: nat)
    requires size > 0 && h > 0
    ensures RunsOut(size, h) <==> Most(size) + 3 * h > NBUF
  {
    hide NoBuffers, Wants, Bounded, Possible, After;
    if Most(size) + 3 * h > NBUF {
      OutOfBuffers(size, h);
    } else if RunsOut(size, h) {
      var s, i, b :| Reached(s, size, h) && Wants(s, i, b, h) && NoBuffers(s, b);
      var run :| Possible(run, size, h) && After(run, size, h) == s;
      RunBounded(run, size, h);
      Enough(s, size, h, i, b);
    }
  }
}

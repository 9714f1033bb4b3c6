/** The timer list in place, and whole runs of it (linux-1.0.0/kernel/sched.c): which tick a timer
    fires on. */
module TimerRuns {
  import opened Timers

  /** Remaining times fit the 32-bit expires field. */
  ghost predicate Fits(list: seq<Timer>) {
    forall x :: Has(list, x) ==> Left(list, x) < WORD
  }

  /** do_timer: the head loses a tick, unless it is due already and the tick is lost. */
  function Ticked(list: seq<Timer>): seq<Timer> {
    if list == [] || list[0].expires == 0 then list else [list[0].(expires := list[0].expires - 1)] + list[1..]
  }

  predicate Loses(list: seq<Timer>) {
    list != [] && list[0].expires == 0
  }

  lemma TickLeft(list: seq<Timer>, x: nat)
    requires Has(list, x)
    ensures Has(Ticked(list), x) && Left(Ticked(list), x) == if Loses(list) then Left(list, x) else Left(list, x) - 1
    ensures !Loses(list) ==> Left(list, x) > 0
  {
    if !Loses(list) {
      var r := Ticked(list);
      assert r[1..] == list[1..];
      TailHas(list, x);
      TailHas(r, x);
    }
  }

  lemma TickHas(list: seq<Timer>, x: nat)
    ensures Has(Ticked(list), x) <==> Has(list, x)
  {
    if list != [] && list[0].expires > 0 {
      var r := Ticked(list);
      assert r[1..] == list[1..];
      TailHas(list, x);
      TailHas(r, x);
    }
  }

  /** Popping a due head leaves every other timer's ticks alone. */
  lemma PopLeft(list: seq<Timer>, x: nat)
    requires Once(list) && Loses(list) && Has(list, x) && x != list[0].id
    ensures Has(list[1..], x) && Left(list[1..], x) == Left(list, x)
  {
    TailHas(list, x);
  }

  // ------------------------------------------------------------------------------------
  // The list in place
  // ------------------------------------------------------------------------------------

  class TimerList {
    var list: seq<Timer>

    /** add_timer. */
    method AddTimer(id: nat, expires: nat)
      requires Once(list) && !Has(list, id)
      modifies this
      ensures list == Added(old(list), id, expires)
    {
      hide Added, Once, Has;
      ghost var was := list;
      var e: nat, k := expires, 0;
      assert was[0..] == was;
      while k < |list|
        invariant 0 <= k <= |list| && list == was
        invariant Added(was, id, expires) == was[..k] + Added(was[k..], id, e)
      {
        AddHere(was, id, k, e);
        if list[k].expires > e {
          list := list[..k] + [Timer(id, e), list[k].(expires := list[k].expires - e)] + list[k + 1..];
          return;
        }
        e := e - list[k].expires;
        k := k + 1;
      }
      AddEnd(was, id, e);
      list := list + [Timer(id, e)];
    }

    /** del_timer: 1 and the ticks that were left, or 0 when the timer is not on the list. The sums
        are 32-bit words. */
    method DelTimer(id: nat) returns (found: bool, expires: nat)
      requires Once(list) && Fits(list)
      modifies this
      ensures found <==> Has(old(list), id)
      ensures list == Removed(old(list), id) && (found ==> expires == Left(old(list), id))
    {
      hide Removed, Once, Fits, Left, Total;
      ghost var was := list;
      var k, sum := 0, 0;
      assert was[0..] == was && Total(was[..0]) == 0 by { TotalNone(); }
      while k < |list|
        invariant 0 <= k <= |list| && list == was && sum == Total(was[..k])
        invariant forall i :: 0 <= i < k ==> was[i].id != id
        invariant Removed(was, id) == was[..k] + Removed(was[k..], id)
      {
        RemoveHere(was, id, k);
        NoWrap(was, k);
        if list[k].id == id {
          expires := (list[k].expires + sum) % WORD;
          if k + 1 < |list| {
            var next := list[k + 1].(expires := (list[k + 1].expires + list[k].expires) % WORD);
            list := list[..k] + [next] + list[k + 2..];
          } else {
            list := list[..k];
          }
          return true, expires;
        }
        sum := (sum + list[k].expires) % WORD;
        k := k + 1;
      }
      RemoveEnd(was, id);
      return false, 0;
    }

    /** The head's share of a clock tick in do_timer. Every timer comes a tick closer, unless some timer
        is due already: then the tick is lost to all. */
    method DoTimer() returns (lost: bool)
      modifies this
      ensures lost <==> exists x :: Has(old(list), x) && Left(old(list), x) == 0
      ensures forall x :: Has(list, x) <==> Has(old(list), x)
      ensures forall x :: Has(list, x) ==> Left(list, x) == Left(old(list), x) - if lost then 0 else 1
      ensures list == Ticked(old(list))
    {
      TickAll(list);
      lost := false;
      if list != [] {
        if list[0].expires != 0 {
          list := [list[0].(expires := list[0].expires - 1)] + list[1..];
        } else {
          lost := true;
        }
      }
    }
  }

  lemma TickAll(list: seq<Timer>)
    ensures Loses(list) <==> exists x :: Has(list, x) && Left(list, x) == 0
    ensures forall x :: Has(Ticked(list), x) <==> Has(list, x)
    ensures forall x :: Has(list, x) ==> Left(Ticked(list), x) == Left(list, x) - if Loses(list) then 0 else 1
  {
    hide Ticked;
    forall x
      ensures Has(Ticked(list), x) <==> Has(list, x)
      ensures Has(list, x) ==> Left(Ticked(list), x) == Left(list, x) - if Loses(list) then 0 else 1
      ensures Has(list, x) && Left(list, x) == 0 ==> Loses(list)
    {
      hide Has, Left, Loses;
      TickHas(list, x);
      if Has(list, x) {
        TickLeft(list, x);
      }
    }
    if Loses(list) {
      assert Has(list, list[0].id) && Left(list, list[0].id) == 0;
    }
  }

  lemma AddHere(was: seq<Timer>, id: nat, k: nat, e: nat)
    requires k < |was|
    ensures was[k].expires > e ==>
              was[..k] + Added(was[k..], id, e) ==
              was[..k] + [Timer(id, e), was[k].(expires := was[k].expires - e)] + was[k + 1..]
    ensures was[k].expires <= e ==>
              was[..k] + Added(was[k..], id, e) == was[..k + 1] + Added(was[k + 1..], id, e - was[k].expires)
  {
    assert was[k..][1..] == was[k + 1..];
    assert was[..k + 1] == was[..k] + [was[k]];
  }

  lemma AddEnd(was: seq<Timer>, id: nat, e: nat)
    ensures was[..|was|] + Added(was[|was|..], id, e) == was + [Timer(id, e)]
  {
    assert was[|was|..] == [];
  }

  lemma TotalNone()
    ensures forall list: seq<Timer> :: Total(list[..0]) == 0
  {
  }

  lemma RemoveHere(was: seq<Timer>, id: nat, k: nat)
    requires k < |was|
    ensures was[k].id != id ==> was[..k] + Removed(was[k..], id) == was[..k + 1] + Removed(was[k + 1..], id)
    ensures was[k].id == id && k + 1 < |was| ==>
              was[..k] + Removed(was[k..], id) ==
              was[..k] + [was[k + 1].(expires := was[k + 1].expires + was[k].expires)] + was[k + 2..]
    ensures was[k].id == id && k + 1 == |was| ==> was[..k] + Removed(was[k..], id) == was[..k]
  {
    assert was[k..][1..] == was[k + 1..];
    assert was[..k + 1] == was[..k] + [was[k]];
    if k + 1 < |was| {
      assert was[k..][2..] == was[k + 2..];
    }
  }

  lemma RemoveEnd(was: seq<Timer>, id: nat)
    ensures was[..|was|] + Removed(was[|was|..], id) == was
  {
    assert was[|was|..] == [];
  }

  /** The running sum and the merged entry are remaining times, so they fit. */
  lemma NoWrap(was: seq<Timer>, k: nat)
    requires k < |was| && Once(was) && Fits(was)
    ensures Total(was[..k]) + was[k].expires == Total(was[..k + 1]) == Left(was, was[k].id) < WORD
    ensures k + 1 < |was| ==> was[k + 1].expires + was[k].expires < WORD
  {
    hide Once;
    LeftIs(was, k);
    TotalMore(was, k);
    assert Has(was, was[k].id);
    if k + 1 < |was| {
      LeftIs(was, k + 1);
      TotalMore(was, k + 1);
      assert Has(was, was[k + 1].id);
    }
  }

  lemma {:induction false} TotalMore(list: seq<Timer>, k: nat)
    requires k < |list|
    ensures Total(list[..k + 1]) == Total(list[..k]) + list[k].expires
  {
    if k == 0 {
      assert list[..1][1..] == [];
    } else {
      assert list[..k + 1][1..] == list[1..][..k] && list[..k][1..] == list[1..][..k - 1];
      TotalMore(list[1..], k - 1);
    }
  }

  // ------------------------------------------------------------------------------------
  // Runs
  // ------------------------------------------------------------------------------------

  /** When a timer was added, in ticks and lost ticks so far, and for how many ticks. */
  datatype Mark = Mark(ticks: nat, lost: nat, n: nat)

  datatype Fired = Fired(id: nat, mark: Mark, ticks: nat, lost: nat)

  datatype State = State(list: seq<Timer>, marks: map<nat, Mark>, ticks: nat, lost: nat, fired: seq<Fired>)

  /** Adding, deleting, a clock tick, and one turn of the drain; they interleave freely. */
  datatype Action = Add(id: nat, n: nat) | Del(id: nat) | Tick | Fire

  predicate Enabled(s: State, a: Action) {
    Possible(s.list, a)
  }

  predicate Possible(list: seq<Timer>, a: Action) {
    match a
    case Add(id, n) => !Has(list, id) && n < WORD
    case Del(id) => true
    case Tick => true
    case Fire => Loses(list)
  }

  ghost function Next(s: State, a: Action): State
    requires Enabled(s, a)
  {
    match a
    case Add(id, n) => s.(list := Added(s.list, id, n), marks := s.marks[id := Mark(s.ticks, s.lost, n)])
    case Del(id) => s.(list := Removed(s.list, id), marks := s.marks - {id})
    case Tick => s.(list := Ticked(s.list), ticks := s.ticks + 1, lost := s.lost + if Loses(s.list) then 1 else 0)
    case Fire =>
      var id := s.list[0].id;
      var m := if id in s.marks then s.marks[id] else Mark(0, 0, 0);
      s.(list := s.list[1..], marks := s.marks - {id}, fired := s.fired + [Fired(id, m, s.ticks, s.lost)])
  }

  /** A timer has its ticks less those counted since it was added. */
  ghost predicate Counted(s: State) {
    && Once(s.list) && Fits(s.list) && s.lost <= s.ticks
    && (forall x :: Has(s.list, x) <==> x in s.marks)
    && (forall x :: x in s.marks ==> CountedAt(s, x, s.marks[x]))
  }

  ghost predicate CountedAt(s: State, x: nat, m: Mark) {
    m.ticks <= s.ticks && m.lost <= s.lost && Left(s.list, x) + (s.ticks - m.ticks) == m.n + (s.lost - m.lost)
  }

  /** A timer fires once as many ticks have been counted as it was added for. */
  ghost predicate OnTime(s: State) {
    forall k :: 0 <= k < |s.fired| ==> FiredOk(s.fired[k])
  }

  predicate FiredOk(f: Fired) {
    f.mark.ticks <= f.ticks && f.mark.lost <= f.lost && f.ticks - f.mark.ticks == f.mark.n + (f.lost - f.mark.lost)
  }

  lemma AddCounts(s: State, a: Action)
    requires Counted(s) && Enabled(s, a) && a.Add?
    ensures Counted(Next(s, a))
  {
    hide Once, Added, Left, Has;
    var r := Next(s, a);
    AddOnce(s.list, a.id, a.n);
    forall x
      ensures Has(r.list, x) <==> x in r.marks
      ensures Has(r.list, x) ==> Left(r.list, x) < WORD && CountedAt(r, x, r.marks[x])
    {
      AddHas(s.list, a.id, a.n, x);
      if x == a.id || Has(s.list, x) {
        AddLeft(s.list, a.id, a.n, x);
        assert x != a.id ==> CountedAt(s, x, s.marks[x]);
      }
    }
  }

  lemma DelCounts(s: State, a: Action)
    requires Counted(s) && Enabled(s, a) && a.Del?
    ensures Counted(Next(s, a))
  {
    hide Once, Removed, Left, Has;
    var r := Next(s, a);
    RemoveHas(s.list, a.id, 0);
    forall x
      ensures Has(r.list, x) <==> x in r.marks
      ensures Has(r.list, x) ==> Left(r.list, x) < WORD && CountedAt(r, x, r.marks[x])
    {
      RemoveHas(s.list, a.id, x);
      if x != a.id && Has(s.list, x) {
        RemoveLeft(s.list, a.id, x);
        assert CountedAt(s, x, s.marks[x]);
      }
    }
  }

  lemma TickCounts(s: State)
    requires Counted(s)
    ensures Counted(Next(s, Tick))
  {
    var r := Next(s, Tick);
    assert Once(r.list);
    hide Once, Ticked, Left, Has, Loses;
    forall x
      ensures Has(r.list, x) <==> x in r.marks
      ensures Has(r.list, x) ==> Left(r.list, x) < WORD && CountedAt(r, x, r.marks[x])
    {
      TickHas(s.list, x);
      if Has(s.list, x) {
        TickLeft(s.list, x);
        assert CountedAt(s, x, s.marks[x]);
      }
    }
  }

  lemma FireCounts(s: State)
    requires Counted(s) && Enabled(s, Fire)
    ensures Counted(Next(s, Fire)) && FiredOk(Next(s, Fire).fired[|s.fired|])
  {
    var r, id := Next(s, Fire), s.list[0].id;
    assert Has(s.list, id) && Left(s.list, id) == 0;
    assert CountedAt(s, id, s.marks[id]);
    HeadOnce(s.list);
    hide Once, Left, Has;
    forall x
      ensures Has(r.list, x) <==> x in r.marks
      ensures Has(r.list, x) ==> Left(r.list, x) < WORD && CountedAt(r, x, r.marks[x])
    {
      TailHas(s.list, x);
      if x != id && Has(s.list, x) {
        PopLeft(s.list, x);
        assert CountedAt(s, x, s.marks[x]);
      }
    }
  }

  lemma StepCounts(s: State, a: Action)
    requires Counted(s) && OnTime(s) && Enabled(s, a)
    ensures Counted(Next(s, a)) && OnTime(Next(s, a))
  {
    hide Counted, Has, Once, Left, Added, Removed, FiredOk;
    match a {
      case Add(_, _) => AddCounts(s, a);
      case Del(_) => DelCounts(s, a);
      case Tick => TickCounts(s);
      case Fire => FireCounts(s);
    }
  }

  ghost predicate AllEnabled(s: State, run: seq<Action>)
    decreases run
  {
    run == [] || (Enabled(s, run[0]) && AllEnabled(Next(s, run[0]), run[1..]))
  }

  ghost function After(s: State, run: seq<Action>): State
    requires AllEnabled(s, run)
    decreases run
  {
    if run == [] then s else After(Next(s, run[0]), run[1..])
  }

  lemma {:induction false} RunCounts(s: State, run: seq<Action>)
    requires Counted(s) && OnTime(s) && AllEnabled(s, run)
    ensures Counted(After(s, run)) && OnTime(After(s, run))
    decreases run
  {
    hide Counted, OnTime, Next, Enabled;
    if run != [] {
      StepCounts(s, run[0]);
      RunCounts(Next(s, run[0]), run[1..]);
    }
  }

  /** In every run, a timer added for n ticks fires on exactly the n-th tick after it was added if
      and only if no tick was lost in between. */
  lemma FiresOnTime(run: seq<Action>, k: nat)
    requires AllEnabled(State([], map[], 0, 0, []), run) && k < |After(State([], map[], 0, 0, []), run).fired|
    ensures var f := After(State([], map[], 0, 0, []), run).fired[k];
            f.ticks - f.mark.ticks == f.mark.n <==> f.lost == f.mark.lost
  {
    StartCounts();
    RunCounts(State([], map[], 0, 0, []), run);
  }

  /** In every run, while no timer at the head is due, every timer still on the list has been counted
      fewer ticks than it was added for. */
  lemma NoneLate(run: seq<Action>, x: nat)
    requires AllEnabled(State([], map[], 0, 0, []), run)
    requires var s := After(State([], map[], 0, 0, []), run); Has(s.list, x) && !Loses(s.list)
    ensures var s := After(State([], map[], 0, 0, []), run);
            x in s.marks && (s.ticks - s.marks[x].ticks) - (s.lost - s.marks[x].lost) < s.marks[x].n
  {
    StartCounts();
    RunCounts(State([], map[], 0, 0, []), run);
    var s := After(State([], map[], 0, 0, []), run);
    TickLeft(s.list, x);
    assert CountedAt(s, x, s.marks[x]);
  }

  lemma StartCounts()
    ensures Counted(State([], map[], 0, 0, [])) && OnTime(State([], map[], 0, 0, []))
  {
    assert forall x :: !Has([], x);
  }

  /** The drain has run between any two ticks: no tick finds a due timer at the head. */
  ghost predicate Drained(s: State, run: seq<Action>)
    requires AllEnabled(s, run)
    decreases run
  {
    run == [] || ((run[0] == Tick ==> !Loses(s.list)) && Drained(Next(s, run[0]), run[1..]))
  }

  lemma {:induction false} DrainedLosesNone(s: State, run: seq<Action>)
    requires AllEnabled(s, run) && Drained(s, run)
    ensures After(s, run).lost == s.lost
    decreases run
  {
    hide Added, Removed;
    if run != [] {
      DrainedLosesNone(Next(s, run[0]), run[1..]);
    }
  }

  /** If the bottom half drains between ticks, every timer fires on the tick it was added for. */
  lemma DrainedOnTime(run: seq<Action>, k: nat)
    requires AllEnabled(State([], map[], 0, 0, []), run) && Drained(State([], map[], 0, 0, []), run)
    requires k < |After(State([], map[], 0, 0, []), run).fired|
    ensures var f := After(State([], map[], 0, 0, []), run).fired[k]; f.ticks == f.mark.ticks + f.mark.n
  {
    var s := State([], map[], 0, 0, []);
    DrainedLosesNone(s, run);
    FiredLost(s, run);
    StartCounts();
    RunCounts(s, run);
    assert FiredOk(After(s, run).fired[k]);
  }

  /** The lost ticks noted when a timer fires are no more than those of the whole run. */
  lemma {:induction false} FiredLost(s: State, run: seq<Action>)
    requires AllEnabled(s, run) && forall k :: 0 <= k < |s.fired| ==> s.fired[k].lost <= s.lost
    ensures forall k :: 0 <= k < |After(s, run).fired| ==> After(s, run).fired[k].lost <= After(s, run).lost
    decreases run
  {
    hide Added, Removed;
    if run != [] {
      FiredLost(Next(s, run[0]), run[1..]);
    }
  }

  // ------------------------------------------------------------------------------------
  // The drain
  // ------------------------------------------------------------------------------------

  /** What of acts can be done in turn from s: a timer on the list is not added again, and the drain is
      not entered twice. */
  ghost function Allowed(s: State, acts: seq<Action>): seq<Action>
    decreases acts
  {
    if acts == [] then []
    else if acts[0] != Fire && Enabled(s, acts[0]) then [acts[0]] + Allowed(Next(s, acts[0]), acts[1..])
    else Allowed(s, acts[1..])
  }

  lemma {:induction false} AllowedEnabled(s: State, acts: seq<Action>)
    ensures AllEnabled(s, Allowed(s, acts))
    decreases acts
  {
    hide Enabled, Next;
    if acts != [] {
      if acts[0] != Fire && Enabled(s, acts[0]) {
        var rest := Allowed(Next(s, acts[0]), acts[1..]);
        AllowedEnabled(Next(s, acts[0]), acts[1..]);
        assert ([acts[0]] + rest)[1..] == rest;
      } else {
        AllowedEnabled(s, acts[1..]);
      }
    }
  }

  /** The drain as actions: due timers fire until none is due. After each, its callback and whatever
      interrupts it do the next part of the script. */
  ghost function Drain(s: State, script: seq<seq<Action>>): seq<Action>
    decreases |script|, |s.list|
  {
    if !Loses(s.list) then []
    else if script == [] then [Fire] + Drain(Next(s, Fire), [])
    else
      var t := Next(s, Fire);
      var part := Allowed(t, script[0]);
      AllowedEnabled(t, script[0]);
      [Fire] + part + Drain(After(t, part), script[1..])
  }

  lemma {:induction false} AfterConcat(s: State, x: seq<Action>, y: seq<Action>)
    requires AllEnabled(s, x) && AllEnabled(After(s, x), y)
    ensures AllEnabled(s, x + y) && After(s, x + y) == After(After(s, x), y)
    decreases x
  {
    hide Enabled, Next;
    if x == [] {
      assert x + y == y;
    } else {
      assert (x + y)[1..] == x[1..] + y;
      AfterConcat(Next(s, x[0]), x[1..], y);
    }
  }

  lemma AfterOne(s: State, a: Action)
    requires Enabled(s, a)
    ensures AllEnabled(s, [a]) && After(s, [a]) == Next(s, a)
  {
    hide Enabled, Next;
    assert [a][1..] == [];
  }

  /** One action on the list in place. */
  method Act(t: TimerList, a: Action, ghost s: State)
    requires Counted(s) && t.list == s.list && Enabled(s, a)
    modifies t
    ensures t.list == Next(s, a).list
  {
    hide Once, Fits, Has, Added, Removed, Ticked;
    match a {
      case Add(id, n) => t.AddTimer(id, n);
      case Del(id) => var _, _ := t.DelTimer(id);
      case Tick => var _ := t.DoTimer();
      case Fire => t.list := t.list[1..];
    }
  }

  /** The next part of the script, by a callback or an interrupt. */
  method Play(t: TimerList, acts: seq<Action>, ghost s: State) returns (ghost part: seq<Action>)
    requires Counted(s) && OnTime(s) && t.list == s.list
    modifies t
    ensures part == Allowed(s, acts) && AllEnabled(s, part)
    ensures var r := After(s, part); t.list == r.list && Counted(r) && OnTime(r) && r.fired == s.fired
  {
    hide Counted, OnTime, Possible, Next;
    part := [];
    ghost var now := s;
    var k := 0;
    assert acts[0..] == acts;
    while k < |acts|
      invariant 0 <= k <= |acts| && Counted(now) && OnTime(now) && t.list == now.list && now.fired == s.fired
      invariant AllEnabled(s, part) && After(s, part) == now && Allowed(s, acts) == part + Allowed(now, acts[k..])
    {
      assert acts[k..][1..] == acts[k + 1..];
      if acts[k] != Fire && Possible(t.list, acts[k]) {
        Act(t, acts[k], now);
        StepCounts(now, acts[k]);
        AfterOne(now, acts[k]);
        AfterConcat(s, part, [acts[k]]);
        StillFired(now, acts[k]);
        assert Allowed(s, acts) == part + [acts[k]] + Allowed(Next(now, acts[k]), acts[k + 1..]);
        now := Next(now, acts[k]);
        part := part + [acts[k]];
      }
      k := k + 1;
    }
  }

  lemma StillFired(s: State, a: Action)
    requires Enabled(s, a) && a != Fire
    ensures Next(s, a).fired == s.fired
  {
  }

  function Ids(fired: seq<Fired>): seq<nat> {
    seq(|fired|, i requires 0 <= i < |fired| => fired[i].id)
  }

  lemma FireOne(s: State)
    requires Loses(s.list)
    ensures Enabled(s, Fire) && Next(s, Fire).list == s.list[1..]
    ensures Ids(Next(s, Fire).fired) == Ids(s.fired) + [s.list[0].id]
  {
  }

  /** The drain of timer_bh. It ends with no timer due, having fired the due timers in order; with
      nothing in between these are exactly the entries of 0 at the front. */
  method TimerBh(t: TimerList, script: seq<seq<Action>>, ghost s: State) returns (fired: seq<nat>,
                 ghost run: seq<Action>)
    requires Counted(s) && OnTime(s) && t.list == s.list
    modifies t
    ensures run == Drain(s, script) && AllEnabled(s, run)
    ensures t.list == After(s, run).list && !Loses(t.list) && Ids(After(s, run).fired) == Ids(s.fired) + fired
    ensures script == [] ==> |fired| <= |s.list| && t.list == s.list[|fired|..]
    ensures script == [] ==> forall k :: 0 <= k < |fired| ==> fired[k] == s.list[k].id && s.list[k].expires == 0
  {
    hide Counted, OnTime, Possible, Enabled, Next, Ids, Allowed, Drain, AllEnabled, After;
    fired, run := [], [];
    ghost var now := s;
    var rest := script;
    AfterNone(s);
    while t.list != [] && t.list[0].expires == 0
      invariant Counted(now) && OnTime(now) && t.list == now.list
      invariant AllEnabled(s, run) && After(s, run) == now && Drain(s, script) == run + Drain(now, rest)
      invariant Ids(now.fired) == Ids(s.fired) + fired
      invariant script == [] ==> rest == [] && |fired| <= |s.list| && t.list == s.list[|fired|..]
      invariant script == [] ==> forall k :: 0 <= k < |fired| ==> fired[k] == s.list[k].id && s.list[k].expires == 0
      decreases |rest|, |t.list|
    {
      FireOne(now);
      DrainTurn(s, script, run, now, rest);
      fired := fired + [t.list[0].id];
      t.list := t.list[1..];
      StepCounts(now, Fire);
      AfterOne(now, Fire);
      AfterConcat(s, run, [Fire]);
      now := Next(now, Fire);
      run := run + [Fire];
      if rest != [] {
        ghost var part := Play(t, rest[0], now);
        AfterConcat(s, run, part);
        now := After(now, part);
        run := run + part;
        rest := rest[1..];
      }
    }
    DrainEnd(now, rest);
  }

  lemma DrainEnd(s: State, script: seq<seq<Action>>)
    requires !Loses(s.list)
    ensures Drain(s, script) == []
  {
  }

  lemma DrainTurn(s: State, script: seq<seq<Action>>, run: seq<Action>, now: State, rest: seq<seq<Action>>)
    requires Loses(now.list) && Enabled(now, Fire) && Drain(s, script) == run + Drain(now, rest)
    ensures rest == [] ==> Drain(s, script) == run + [Fire] + Drain(Next(now, Fire), [])
    ensures rest != [] ==>
              var t := Next(now, Fire);
              var part := Allowed(t, rest[0]);
              AllEnabled(t, part) && Drain(s, script) == run + [Fire] + part + Drain(After(t, part), rest[1..])
  {
    hide Drain, Next, Allowed, AllEnabled, After;
    DrainOne(now, rest);
  }

  lemma DrainOne(now: State, rest: seq<seq<Action>>)
    requires Loses(now.list) && Enabled(now, Fire)
    ensures rest == [] ==> Drain(now, rest) == [Fire] + Drain(Next(now, Fire), [])
    ensures rest != [] ==>
              var t := Next(now, Fire);
              var part := Allowed(t, rest[0]);
              AllEnabled(t, part) && Drain(now, rest) == [Fire] + part + Drain(After(t, part), rest[1..])
  {
    hide Next, Allowed, AllEnabled, After;
    if rest != [] {
      AllowedEnabled(Next(now, Fire), rest[0]);
    }
  }

  lemma AfterNone(s: State)
    ensures AllEnabled(s, []) && After(s, []) == s
  {
  }
}

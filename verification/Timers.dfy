/** The kernel timer list (linux-1.0.0/kernel/sched.c): each entry holds the ticks after the one
    before it, and stands for a timer with a number of ticks left. */
module Timers {

  const WORD := 0x1_0000_0000

  datatype Timer = Timer(id: nat, expires: nat)

  predicate Has(list: seq<Timer>, id: nat) {
    exists k :: 0 <= k < |list| && list[k].id == id
  }

  /** No timer is on the list twice. */
  ghost predicate Once(list: seq<Timer>) {
    forall k, l :: 0 <= k < l < |list| ==> list[k].id != list[l].id
  }

  /** The ticks a timer has left: the sum of the entries up to it. */
  function Left(list: seq<Timer>, id: nat): nat {
    if list == [] then 0
    else if list[0].id == id then list[0].expires
    else list[0].expires + Left(list[1..], id)
  }

  function Total(list: seq<Timer>): nat {
    if list == [] then 0 else list[0].expires + Total(list[1..])
  }

  /** x comes before y. */
  predicate Before(list: seq<Timer>, x: nat, y: nat) {
    list != [] && if list[0].id == x then x != y else list[0].id != y && Before(list[1..], x, y)
  }

  lemma {:induction false} LeftIs(list: seq<Timer>, k: nat)
    requires Once(list) && k < |list|
    ensures Left(list, list[k].id) == Total(list[..k + 1])
  {
    if k > 0 {
      LeftIs(list[1..], k - 1);
      assert list[..k + 1][1..] == list[1..][..k];
    } else {
      assert list[..1][1..] == [];
    }
  }

  // ------------------------------------------------------------------------------------
  // add_timer
  // ------------------------------------------------------------------------------------

  function Added(list: seq<Timer>, id: nat, e: nat): seq<Timer> {
    if list == [] then [Timer(id, e)]
    else if list[0].expires > e then [Timer(id, e), list[0].(expires := list[0].expires - e)] + list[1..]
    else [list[0]] + Added(list[1..], id, e - list[0].expires)
  }

  /** Every other timer keeps its ticks, and the new one has e. */
  lemma {:induction false} AddLeft(list: seq<Timer>, id: nat, e: nat, x: nat)
    requires !Has(list, id) && (x == id || Has(list, x))
    ensures Left(Added(list, id, e), x) == if x == id then e else Left(list, x)
  {
    var r := Added(list, id, e);
    if list != [] {
      assert list[0].id != id;
      if list[0].expires > e {
        assert r[1..] == [list[0].(expires := list[0].expires - e)] + list[1..];
        assert r[1..][1..] == list[1..];
      } else {
        assert r[1..] == Added(list[1..], id, e - list[0].expires);
        TailHas(list, id);
        TailHas(list, x);
        if list[0].id != x {
          AddLeft(list[1..], id, e - list[0].expires, x);
        }
      }
    }
  }

  lemma TailHas(list: seq<Timer>, x: nat)
    requires list != []
    ensures Has(list, x) <==> list[0].id == x || Has(list[1..], x)
  {
    if k :| 0 <= k < |list| && list[k].id == x && k > 0 {
      assert list[1..][k - 1].id == x;
    }
    if Has(list[1..], x) {
      var k :| 0 <= k < |list[1..]| && list[1..][k].id == x;
      assert list[k + 1].id == x;
    }
  }

  lemma {:induction false} AddHas(list: seq<Timer>, id: nat, e: nat, x: nat)
    ensures Has(Added(list, id, e), x) <==> x == id || Has(list, x)
  {
    var r := Added(list, id, e);
    TailHas(r, x);
    if list == [] {
      assert r[1..] == [];
    } else {
      TailHas(list, x);
      if list[0].expires > e {
        assert r[1..] == [list[0].(expires := list[0].expires - e)] + list[1..];
        TailHas(r[1..], x);
        assert r[1..][1..] == list[1..];
      } else {
        assert r[1..] == Added(list[1..], id, e - list[0].expires);
        AddHas(list[1..], id, e - list[0].expires, x);
      }
    }
  }

  /** The new timer goes behind every timer that is due no later, and in front of the others; the
      others keep their order. */
  lemma {:induction false} AddOrder(list: seq<Timer>, id: nat, e: nat, x: nat, y: nat)
    requires !Has(list, id) && Has(list, x) && Has(list, y)
    ensures Before(Added(list, id, e), x, id) <==> Left(list, x) <= e
    ensures Before(Added(list, id, e), x, y) <==> Before(list, x, y)
  {
    var r := Added(list, id, e);
    assert list[0].id != id;
    TailHas(list, id);
    TailHas(list, x);
    TailHas(list, y);
    if list[0].expires > e {
      assert r[1..] == [list[0].(expires := list[0].expires - e)] + list[1..];
      assert r[1..][1..] == list[1..];
    } else {
      assert r[1..] == Added(list[1..], id, e - list[0].expires);
      if list[0].id == x || list[0].id == y {
        AddHas(list[1..], id, e - list[0].expires, id);
        if list[0].id != x {
          AddOrder(list[1..], id, e - list[0].expires, x, x);
        }
      } else {
        AddOrder(list[1..], id, e - list[0].expires, x, y);
      }
    }
  }

  lemma {:induction false} AddOnce(list: seq<Timer>, id: nat, e: nat)
    requires Once(list) && !Has(list, id)
    ensures Once(Added(list, id, e))
  {
    var r := Added(list, id, e);
    if list != [] && list[0].expires <= e {
      TailHas(list, id);
      AddOnce(list[1..], id, e - list[0].expires);
      assert r[1..] == Added(list[1..], id, e - list[0].expires);
      HeadOnce(list);
      AddHas(list[1..], id, e - list[0].expires, list[0].id);
      ConsOnce(r);
    } else if list != [] {
      forall k | 0 <= k < |list|
        ensures list[k].id != id
      {
      }
    }
  }

  lemma HeadOnce(list: seq<Timer>)
    requires Once(list) && list != []
    ensures Once(list[1..]) && !Has(list[1..], list[0].id)
  {
    forall k | 0 <= k < |list[1..]|
      ensures list[1..][k].id != list[0].id
    {
      assert list[1..][k] == list[k + 1];
    }
  }

  lemma ConsOnce(list: seq<Timer>)
    requires list != [] && Once(list[1..]) && !Has(list[1..], list[0].id)
    ensures Once(list)
  {
    forall k, l | 0 <= k < l < |list|
      ensures list[k].id != list[l].id
    {
      assert list[l] == list[1..][l - 1];
      if k > 0 {
        assert list[k] == list[1..][k - 1];
      }
    }
  }

  // ------------------------------------------------------------------------------------
  // del_timer
  // ------------------------------------------------------------------------------------

  function Removed(list: seq<Timer>, id: nat): seq<Timer> {
    if list == [] then []
    else if list[0].id == id then
      if |list| == 1 then [] else [list[1].(expires := list[1].expires + list[0].expires)] + list[2..]
    else [list[0]] + Removed(list[1..], id)
  }

  lemma {:induction false} RemoveLeft(list: seq<Timer>, id: nat, x: nat)
    requires Once(list) && x != id && Has(list, x)
    ensures Left(Removed(list, id), x) == Left(list, x)
  {
    var r := Removed(list, id);
    HeadOnce(list);
    TailHas(list, x);
    if list[0].id == id {
      TailHas(list[1..], x);
      assert |list| > 1;
      assert r[1..] == list[1..][1..];
    } else {
      assert r[1..] == Removed(list[1..], id);
      if list[0].id != x {
        RemoveLeft(list[1..], id, x);
      }
    }
  }

  lemma {:induction false} RemoveHas(list: seq<Timer>, id: nat, x: nat)
    requires Once(list)
    ensures Has(Removed(list, id), x) <==> x != id && Has(list, x)
    ensures Once(Removed(list, id))
  {
    var r := Removed(list, id);
    if list != [] {
      HeadOnce(list);
      TailHas(list, x);
      if list[0].id == id {
        if |list| > 1 {
          TailHas(r, x);
          TailHas(list[1..], x);
          assert r[1..] == list[1..][1..];
          HeadOnce(list[1..]);
          ConsOnce(r);
        }
      } else {
        assert r[1..] == Removed(list[1..], id);
        TailHas(r, x);
        RemoveHas(list[1..], id, x);
        RemoveHas(list[1..], id, list[0].id);
        ConsOnce(r);
      }
    }
  }

  lemma {:induction false} RemoveOrder(list: seq<Timer>, id: nat, x: nat, y: nat)
    requires Once(list) && x != id && y != id && Has(list, x) && Has(list, y)
    ensures Before(Removed(list, id), x, y) <==> Before(list, x, y)
  {
    var r := Removed(list, id);
    HeadOnce(list);
    TailHas(list, x);
    TailHas(list, y);
    if list[0].id == id {
      TailHas(list[1..], x);
      assert |list| > 1;
      assert r[1..] == list[1..][1..];
    } else {
      assert r[1..] == Removed(list[1..], id);
      if list[0].id != x && list[0].id != y {
        RemoveOrder(list[1..], id, x, y);
      }
    }
  }
}

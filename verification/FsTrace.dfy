/** What the file layer does to buffers between begin_op and end_op (xv6/fs.c over xv6/bio.c and
    xv6/log.c): the breads, log_writes and breleses of a transaction, in order. */
module FsTrace {
  import opened Blocks
  import opened FsModel
  import LogRuns

  type Op = LogRuns.Op

  /** The blocks after the updates. */
  function Effect(d: seq<Block>, ops: seq<Op>): (r: seq<Block>)
    ensures |r| == |d|
  {
    if ops == [] then d
    else
      var was, op := Effect(d, ops[..|ops| - 1]), ops[|ops| - 1];
      if op.Update? && op.b < |d| then was[op.b := op.v] else was
  }

  /** The blocks updated. */
  function Writes(ops: seq<Op>): set<nat> {
    if ops == [] then {}
    else
      var op := ops[|ops| - 1];
      Writes(ops[..|ops| - 1]) + if op.Update? then {op.b} else {}
  }

  /** The blocks whose buffers are held. */
  function Held(ops: seq<Op>): set<nat> {
    if ops == [] then {}
    else
      var was, op := Held(ops[..|ops| - 1]), ops[|ops| - 1];
      if op.Open? then was + {op.b} else if op.Close? then was - {op.b} else was
  }

  /** Only held buffers are updated or released, no buffer is read by its holder, which would sleep for
      ever, and at most two are held. */
  predicate Proper(ops: seq<Op>, lo: nat, hi: nat) {
    ops == [] ||
    var was, op := ops[..|ops| - 1], ops[|ops| - 1];
    Proper(was, lo, hi) &&
    match op
    case Open(b) => lo <= b < hi && b !in Held(was) && |Held(was)| <= 1
    case Update(b, _) => b in Held(was)
    case Close(b) => b in Held(was)
    case _ => false
  }

  /** ops took the blocks from base to disk and logged exactly the blocks logged. */
  ghost predicate Trace(sb: Super, disk: seq<Block>, base: seq<Block>, ops: seq<Op>, logged: set<nat>) {
    Proper(ops, sb.inodestart, sb.size) && |base| == sb.size && disk == Effect(base, ops) && logged == Writes(ops)
  }

  lemma TraceStart(sb: Super, disk: seq<Block>)
    requires |disk| == sb.size
    ensures Trace(sb, disk, disk, [], {}) && Held([]) == {}
  {
  }

  lemma OpenTrace(sb: Super, disk: seq<Block>, base: seq<Block>, ops: seq<Op>, logged: set<nat>, b: nat)
    requires Trace(sb, disk, base, ops, logged) && sb.inodestart <= b < sb.size && b !in Held(ops) && |Held(ops)| <= 1
    ensures var ops' := ops + [LogRuns.Op.Open(b)];
            Trace(sb, disk, base, ops', logged) && Held(ops') == Held(ops) + {b}
  {
    var ops' := ops + [LogRuns.Op.Open(b)];
    assert ops'[..|ops|] == ops;
  }

  lemma UpdateTrace(sb: Super, disk: seq<Block>, base: seq<Block>, ops: seq<Op>, logged: set<nat>, b: nat, v: Block)
    requires Trace(sb, disk, base, ops, logged) && b in Held(ops) && b < |disk|
    ensures var ops' := ops + [LogRuns.Op.Update(b, v)];
            Trace(sb, disk[b := v], base, ops', logged + {b}) && Held(ops') == Held(ops)
  {
    var ops' := ops + [LogRuns.Op.Update(b, v)];
    assert ops'[..|ops|] == ops;
  }

  lemma CloseTrace(sb: Super, disk: seq<Block>, base: seq<Block>, ops: seq<Op>, logged: set<nat>, b: nat)
    requires Trace(sb, disk, base, ops, logged) && b in Held(ops)
    ensures var ops' := ops + [LogRuns.Op.Close(b)];
            Trace(sb, disk, base, ops', logged) && Held(ops') == Held(ops) - {b}
  {
    var ops' := ops + [LogRuns.Op.Close(b)];
    assert ops'[..|ops|] == ops;
  }

  lemma {:induction false} UnchangedBlock(base: seq<Block>, ops: seq<Op>, x: nat)
    requires x < |base| && x !in Writes(ops)
    ensures Effect(base, ops)[x] == base[x]
  {
    if ops != [] {
      UnchangedBlock(base, ops[..|ops| - 1], x);
    }
  }

  /** Every block a transaction changes is logged. */
  lemma ChangesLogged(sb: Super, disk: seq<Block>, base: seq<Block>, ops: seq<Op>, logged: set<nat>)
    requires Trace(sb, disk, base, ops, logged)
    ensures |disk| == |base| && forall x :: 0 <= x < |base| && disk[x] != base[x] ==> x in logged
  {
    forall x | 0 <= x < |base| && x !in logged
      ensures disk[x] == base[x]
    {
      UnchangedBlock(base, ops, x);
    }
  }
}

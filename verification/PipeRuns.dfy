/** Runs of a pipe (xv6/pipe.c): stretches of pipewrite, piperead and pipeclose, each between two
    points at which the pipe's lock is free, by any processes in any order. */
module PipeRuns {
  import opened Numbers
  import opened Pipe

  /** How a pipewrite stands: it is not over, returned n, or returned -1. */
  datatype Fate = Open | Returned | GaveUp

  /** A call of pipewrite: its process, its bytes and how many of them are stored. */
  datatype Write = Write(p: nat, addr: seq<byte>, i: nat, fate: Fate)

  /** The pipe without its ring: everything stored and how much of it is read, which ends are open,
      and every pipewrite so far with the open one of each process. */
  datatype Flow = Flow(sent: seq<Sent>, got: nat, readopen: bool, writeopen: bool,
                       writes: seq<Write>, busy: map<nat, nat>)

  datatype Stretch =
    | Begin(p: nat, addr: seq<byte>)     // process p calls pipewrite
    | Resume(p: nat, killed: bool)       // its call runs, from the start or from its sleep
    | Reading(n: nat, killed: bool)      // a piperead of n bytes runs
    | Closing(writable: bool)

  /** What a stretch returns to its caller. */
  datatype Answer = Nothing | Sleeping | Failed | Wrote(n: nat) | Got(bytes: seq<byte>)

  predicate FlowOk(s: Flow) {
    && s.got <= |s.sent| <= s.got + PIPESIZE
    && forall p :: p in s.busy ==> s.busy[p] < |s.writes| && s.writes[s.busy[p]].i <= |s.writes[s.busy[p]].addr|
  }

  /** How far the call of process p gets: as far as the ring has room. */
  function Reach(s: Flow, p: nat): (j: nat)
    requires FlowOk(s) && p in s.busy
    ensures var w := s.writes[s.busy[p]]; w.i <= j <= |w.addr| && |s.sent| + j - w.i <= s.got + PIPESIZE
    ensures var w := s.writes[s.busy[p]]; j < |w.addr| ==> |s.sent| + j - w.i == s.got + PIPESIZE
  {
    var w := s.writes[s.busy[p]];
    Min(|w.addr|, w.i + (s.got + PIPESIZE - |s.sent|))
  }

  function FateOf(s: Flow, p: nat, killed: bool): Fate
    requires FlowOk(s) && p in s.busy
  {
    if Reach(s, p) == |s.writes[s.busy[p]].addr| then Returned
    else if !s.readopen || killed then GaveUp
    else Open
  }

  function Next(s: Flow, a: Stretch): (r: Flow)
    requires FlowOk(s)
    ensures FlowOk(r)
  {
    match a
    case Begin(p, addr) =>
      if p in s.busy then s
      else s.(writes := s.writes + [Write(p, addr, 0, Open)], busy := s.busy[p := |s.writes|])
    case Resume(p, killed) =>
      if p !in s.busy then s
      else
        var k, j, f := s.busy[p], Reach(s, p), FateOf(s, p, killed);
        var w := s.writes[k];
        s.(sent := s.sent + Tagged(w.addr[w.i..j], p), writes := s.writes[k := w.(i := j, fate := f)],
           busy := if f == Open then s.busy else s.busy - {p})
    case Reading(n, killed) =>
      if s.got == |s.sent| && s.writeopen then s
      else s.(got := s.got + Min(n, |s.sent| - s.got))
    case Closing(writable) =>
      s.(writeopen := s.writeopen && !writable, readopen := s.readopen && writable)
  }

  function AnswerTo(s: Flow, a: Stretch): Answer
    requires FlowOk(s)
  {
    match a
    case Begin(_, _) => Nothing
    case Resume(p, killed) =>
      if p !in s.busy then Nothing
      else
        var f := FateOf(s, p, killed);
        if f == Open then Sleeping else if f == GaveUp then Failed else Wrote(|s.writes[s.busy[p]].addr|)
    case Reading(n, killed) =>
      if s.got == |s.sent| && s.writeopen then if killed then Failed else Sleeping
      else Got(Plain(s.sent[s.got..s.got + Min(n, |s.sent| - s.got)]))
    case Closing(_) => Nothing
  }

  const START := Flow([], 0, true, true, [], map[])

  function After(run: seq<Stretch>): (s: Flow)
    ensures FlowOk(s)
  {
    if run == [] then START else Next(After(run[..|run| - 1]), run[|run| - 1])
  }

  // ------------------------------------------------------------------------------------
  // What holds after every run
  // ------------------------------------------------------------------------------------

  /** The bytes the reads of a run have returned, put together. */
  function ReadBytes(run: seq<Stretch>): seq<byte> {
    if run == [] then []
    else
      var before := run[..|run| - 1];
      var answer := AnswerTo(After(before), run[|run| - 1]);
      ReadBytes(before) + if answer.Got? then answer.bytes else []
  }

  /** The bytes process p has stored, in order. */
  function StoredBy(s: seq<Sent>, p: nat): seq<byte> {
    if s == [] then []
    else StoredBy(s[..|s| - 1], p) + if s[|s| - 1].who == p then [s[|s| - 1].b] else []
  }

  /** What the calls of process p have stored, call by call: of each a prefix. */
  function Calls(s: seq<Write>, p: nat): seq<byte>
    requires forall k :: 0 <= k < |s| ==> s[k].i <= |s[k].addr|
  {
    if s == [] then []
    else
      var w := s[|s| - 1];
      Calls(s[..|s| - 1], p) + if w.p == p then w.addr[..w.i] else []
  }

  /** A call that returned stored all its bytes, one that gave up did not, and the open call of a
      process is its last. */
  ghost predicate WritesOk(s: Flow) {
    && (forall k :: 0 <= k < |s.writes| ==> s.writes[k].i <= |s.writes[k].addr|)
    && (forall k :: 0 <= k < |s.writes| ==> (s.writes[k].fate == Returned ==> s.writes[k].i == |s.writes[k].addr|))
    && (forall k :: 0 <= k < |s.writes| ==> (s.writes[k].fate == GaveUp ==> s.writes[k].i < |s.writes[k].addr|))
    && (forall p :: p in s.busy ==> s.busy[p] < |s.writes| && s.writes[s.busy[p]].p == p)
    && (forall p, k :: p in s.busy && s.busy[p] < k < |s.writes| ==> s.writes[k].p != p)
  }

  ghost predicate ReadsOk(s: Flow, read: seq<byte>) {
    s.got <= |s.sent| && read == Plain(s.sent)[..s.got]
  }

  ghost predicate OrderOk(s: Flow)
    requires WritesOk(s)
  {
    forall p :: StoredBy(s.sent, p) == Calls(s.writes, p)
  }

  lemma {:induction false} StoredMore(s: seq<Sent>, t: seq<byte>, p: nat, q: nat)
    ensures StoredBy(s + Tagged(t, p), q) == StoredBy(s, q) + if p == q then t else []
  {
    if t == [] {
      assert s + Tagged(t, p) == s;
    } else {
      var u := s + Tagged(t, p);
      assert u[..|u| - 1] == s + Tagged(t[..|t| - 1], p);
      StoredMore(s, t[..|t| - 1], p, q);
      assert t == t[..|t| - 1] + [t[|t| - 1]];
    }
  }

  /** Calls that are not p's do not matter. */
  lemma {:induction false} CallsSkip(s: seq<Write>, p: nat, n: nat)
    requires (forall k :: 0 <= k < |s| ==> s[k].i <= |s[k].addr|) && n <= |s|
    requires forall k :: n <= k < |s| ==> s[k].p != p
    ensures Calls(s, p) == Calls(s[..n], p)
  {
    if n < |s| {
      CallsSkip(s[..|s| - 1], p, n);
      assert s[..|s| - 1][..n] == s[..n];
    } else {
      assert s[..n] == s;
    }
  }

  lemma CallsNew(s: seq<Write>, w: Write, p: nat)
    requires (forall k :: 0 <= k < |s| ==> s[k].i <= |s[k].addr|) && w.i == 0
    ensures Calls(s + [w], p) == Calls(s, p)
  {
    assert (s + [w])[..|s|] == s;
    assert w.addr[..0] == [];
  }

  /** Call k, the last of its process, stores more bytes. */
  lemma CallsMore(s: seq<Write>, k: nat, w: Write, q: nat)
    requires (forall m :: 0 <= m < |s| ==> s[m].i <= |s[m].addr|) && k < |s| && w.p == s[k].p && w.addr == s[k].addr
    requires s[k].i <= w.i <= |w.addr| && forall m :: k < m < |s| ==> s[m].p != s[k].p
    ensures Calls(s[k := w], q) == Calls(s, q) + if q == w.p then w.addr[s[k].i..w.i] else []
  {
    var t := s[k := w];
    if q == w.p {
      CallsSkip(s, q, k + 1);
      CallsSkip(t, q, k + 1);
      assert s[..k + 1][..k] == s[..k] == t[..k + 1][..k];
      assert w.addr[..w.i] == w.addr[..s[k].i] + w.addr[s[k].i..w.i];
    } else {
      CallsOther(s, t, k, q);
    }
  }

  lemma {:induction false} CallsOther(s: seq<Write>, t: seq<Write>, k: nat, q: nat)
    requires |s| == |t| && (forall m :: 0 <= m < |s| ==> s[m].i <= |s[m].addr| && t[m].i <= |t[m].addr|)
    requires (forall m :: 0 <= m < |s| && m != k ==> t[m] == s[m]) && (k < |s| ==> s[k].p != q && t[k].p != q)
    ensures Calls(s, q) == Calls(t, q)
  {
    if s != [] {
      CallsOther(s[..|s| - 1], t[..|t| - 1], k, q);
    }
  }

  lemma BeginWrites(s: Flow, a: Stretch)
    requires FlowOk(s) && WritesOk(s) && a.Begin?
    ensures WritesOk(Next(s, a))
  {
    var r := Next(s, a);
    assert forall k :: 0 <= k < |s.writes| ==> r.writes[k] == s.writes[k];
    hide Next, FlowOk;
  }

  lemma ResumeWrites(s: Flow, a: Stretch)
    requires FlowOk(s) && WritesOk(s) && a.Resume? && a.p in s.busy
    ensures WritesOk(Next(s, a))
  {
    hide Tagged;
    var r, n := Next(s, a), s.busy[a.p];
    assert forall k :: 0 <= k < |s.writes| ==> r.writes[k].p == s.writes[k].p && r.writes[k].addr == s.writes[k].addr;
    assert forall k :: 0 <= k < |s.writes| && k != n ==> r.writes[k] == s.writes[k];
    assert r.writes[n].i == Reach(s, a.p) && r.writes[n].fate == FateOf(s, a.p, a.killed);
    assert forall q :: q in r.busy ==> q in s.busy && r.busy[q] == s.busy[q];
    hide Next;
  }

  lemma NextWrites(s: Flow, a: Stretch)
    requires FlowOk(s) && WritesOk(s)
    ensures WritesOk(Next(s, a))
  {
    if a.Begin? {
      BeginWrites(s, a);
    } else if a.Resume? && a.p in s.busy {
      ResumeWrites(s, a);
    }
  }

  lemma NextReads(s: Flow, a: Stretch, read: seq<byte>)
    requires FlowOk(s) && ReadsOk(s, read)
    ensures ReadsOk(Next(s, a), read + if AnswerTo(s, a).Got? then AnswerTo(s, a).bytes else [])
  {
    var r := Next(s, a);
    if a.Reading? && !(s.got == |s.sent| && s.writeopen) {
      assert Plain(s.sent)[..s.got] + Plain(s.sent[s.got..r.got]) == Plain(s.sent)[..r.got];
    } else {
      assert Plain(r.sent)[..s.got] == Plain(s.sent)[..s.got];
    }
  }

  lemma NextOrder(s: Flow, a: Stretch)
    requires FlowOk(s) && WritesOk(s) && OrderOk(s)
    ensures WritesOk(Next(s, a)) && OrderOk(Next(s, a))
  {
    NextWrites(s, a);
    var r := Next(s, a);
    hide StoredBy, Calls;
    forall q
      ensures StoredBy(r.sent, q) == Calls(r.writes, q)
    {
      match a {
        case Begin(p, addr) =>
          CallsNew(s.writes, Write(p, addr, 0, Open), q);
        case Resume(p, killed) =>
          if p in s.busy {
            var k, j := s.busy[p], Reach(s, p);
            CallsMore(s.writes, k, r.writes[k], q);
            StoredMore(s.sent, s.writes[k].addr[s.writes[k].i..j], p, q);
          }
        case Reading(_, _) =>
        case Closing(_) =>
      }
    }
  }

  lemma {:induction false} AfterOk(run: seq<Stretch>)
    ensures WritesOk(After(run)) && ReadsOk(After(run), ReadBytes(run)) && OrderOk(After(run))
  {
    if run != [] {
      AfterOk(run[..|run| - 1]);
      hide WritesOk, ReadsOk, OrderOk, Next, AnswerTo;
      NextReads(After(run[..|run| - 1]), run[|run| - 1], ReadBytes(run[..|run| - 1]));
      NextOrder(After(run[..|run| - 1]), run[|run| - 1]);
    }
  }

  /** In every run: what the reads returned is, put together, a prefix of what was stored, and at
      most PIPESIZE bytes are in flight. */
  lemma Fifo(run: seq<Stretch>)
    ensures var sent, read := After(run).sent, ReadBytes(run);
            |read| <= |sent| <= |read| + PIPESIZE && read == Plain(sent)[..|read|]
  {
    AfterOk(run);
    hide Next, ReadBytes;
  }

  /** In every run: the bytes a process has stored are, call after call, a prefix of each call's bytes:
      all of them if it returned, not all if it gave up. */
  lemma WritersInOrder(run: seq<Stretch>, p: nat)
    ensures WritesOk(After(run)) && StoredBy(After(run).sent, p) == Calls(After(run).writes, p)
  {
    AfterOk(run);
    hide Next, WritesOk;
  }

  /** A read of n > 0 bytes returns none only on an empty pipe whose write end is closed. */
  lemma ReadsNothing(s: Flow, n: nat, killed: bool)
    requires FlowOk(s) && n > 0
    ensures AnswerTo(s, Reading(n, killed)) == Got([]) <==> s.got == |s.sent| && !s.writeopen
  {
    var g := s.got + Min(n, |s.sent| - s.got);
    assert |Plain(s.sent[s.got..g])| == g - s.got;
  }

  // ------------------------------------------------------------------------------------
  // The pipe does what the flow does
  // ------------------------------------------------------------------------------------

  ghost predicate Shows(pipe: Pipe, s: Flow)
    reads pipe, pipe.data
  {
    && pipe.Valid() && FlowOk(s) && pipe.sent == s.sent && pipe.got == s.got
    && pipe.readopen == s.readopen && pipe.writeopen == s.writeopen
  }

  /** A stretch of process p's pipewrite w. */
  method Push(pipe: Pipe, p: nat, killed: bool, w: Write, ghost s: Flow) returns (answer: Answer, w': Write)
    requires Shows(pipe, s) && p in s.busy && w == s.writes[s.busy[p]]
    modifies pipe, pipe.data
    ensures Shows(pipe, Next(s, Resume(p, killed))) && answer == AnswerTo(s, Resume(p, killed))
    ensures pipe.data == old(pipe.data)
    ensures w' == w.(i := Reach(s, p), fate := FateOf(s, p, killed))
  {
    hide Ring, Tagged;
    var o, j := pipe.WriteOn(w.addr, w.i, p, killed);
    RingSize(pipe.data[..], pipe.sent, pipe.got);
    TaggedSize(w.addr[w.i..j], p);
    var f := if o == Done then Returned else if o == Killed then GaveUp else Open;
    answer := if f == Open then Sleeping else if f == GaveUp then Failed else Wrote(|w.addr|);
    w' := w.(i := j, fate := f);
  }

  lemma TaggedSize(t: seq<byte>, p: nat)
    ensures |Tagged(t, p)| == |t|
  {
  }

  /** A stretch of some process's piperead. */
  method Pull(pipe: Pipe, n: nat, killed: bool, ghost s: Flow) returns (answer: Answer)
    requires Shows(pipe, s)
    modifies pipe, pipe.data
    ensures Shows(pipe, Next(s, Reading(n, killed))) && answer == AnswerTo(s, Reading(n, killed))
    ensures pipe.data == old(pipe.data)
  {
    hide Ring, Plain;
    RingSize(pipe.data[..], pipe.sent, pipe.got);
    var o, dst := pipe.ReadOn(n, killed);
    RingSize(pipe.data[..], pipe.sent, pipe.got);
    if o == Done {
      assert pipe.got == s.got + Min(n, |s.sent| - s.got);
    }
    answer := if o == Done then Got(dst) else if o == Killed then Failed else Sleeping;
  }

  /** One stretch on the pipe; writes and busy are the callers' own variables. */
  method Step(pipe: Pipe, a: Stretch, writes: seq<Write>, busy: map<nat, nat>, ghost s: Flow)
    returns (answer: Answer, writes': seq<Write>, busy': map<nat, nat>)
    requires Shows(pipe, s) && writes == s.writes && busy == s.busy
    modifies pipe, pipe.data
    ensures Shows(pipe, Next(s, a)) && answer == AnswerTo(s, a) && pipe.data == old(pipe.data)
    ensures writes' == Next(s, a).writes && busy' == Next(s, a).busy
  {
    hide Ring, Reach, FateOf, Tagged, Plain;
    answer, writes', busy' := Nothing, writes, busy;
    match a {
      case Begin(p, addr) =>
        if p !in busy {
          writes', busy' := writes + [Write(p, addr, 0, Open)], busy[p := |writes|];
        }
      case Resume(p, killed) =>
        if p in busy {
          var w;
          answer, w := Push(pipe, p, killed, writes[busy[p]], s);
          writes' := writes[busy[p] := w];
          busy' := if w.fate == Open then busy else busy - {p};
        }
      case Reading(n, killed) =>
        answer := Pull(pipe, n, killed, s);
      case Closing(writable) =>
        var last := pipe.Close(writable);
    }
  }

  lemma Starts(pipe: Pipe)
    requires pipe.Valid() && pipe.sent == [] && pipe.got == 0 && pipe.readopen && pipe.writeopen
    ensures Shows(pipe, START)
  {
  }

  /** Any run on a new pipe gives every caller the answer of the flow. */
  method Run(run: seq<Stretch>) returns (pipe: Pipe, answers: seq<Answer>)
    ensures Shows(pipe, After(run)) && |answers| == |run|
    ensures forall k :: 0 <= k < |run| ==> answers[k] == AnswerTo(After(run[..k]), run[k])
  {
    hide Next, AnswerTo, Shows;
    pipe := new Pipe();
    answers := [];
    var writes, busy := [], map[];
    var k := 0;
    assert run[..0] == [];
    Starts(pipe);
    while k < |run|
      invariant 0 <= k <= |run| && |answers| == k && fresh(pipe) && fresh(pipe.data)
      invariant Shows(pipe, After(run[..k])) && writes == After(run[..k]).writes && busy == After(run[..k]).busy
      invariant forall m :: 0 <= m < k ==> answers[m] == AnswerTo(After(run[..m]), run[m])
    {
      ghost var s := After(run[..k]);
      assert run[..k + 1][..k] == run[..k];
      var answer;
      answer, writes, busy := Step(pipe, run[k], writes, busy, s);
      answers := answers + [answer];
      k := k + 1;
    }
    assert run[..k] == run;
  }
}

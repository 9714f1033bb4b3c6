/** The file layer over the log (xv6/fs.c over xv6/log.c and xv6/bio.c): whole runs of calls with
    crashes at any point. A crash leaves every file as the calls that reached their commit left it. */
module FsCrash {
  import opened Numbers
  import opened Blocks
  import opened FsModel
  import opened FsInode
  import opened FsTrace
  import opened FsFile
  import opened FsBytes
  import opened FsReadWrite
  import opened FsFilewrite
  import opened FsRuns
  import RedoLog
  import LogRuns
  import LogKernel

  type Spec = LogRuns.Spec
  type Region = RedoLog.Region

  // ------------------------------------------------------------------------------------
  // A transaction on the two-disk specification of the log
  // ------------------------------------------------------------------------------------

  /** Between transactions: readers see what a crash would leave. */
  function Rest(d: seq<Block>): Spec {
    LogRuns.Spec.Spec(d, d, {}, [])
  }

  lemma {:induction false} HeldRange(ops: seq<Op>, lo: nat, hi: nat)
    requires Proper(ops, lo, hi)
    ensures |Held(ops)| <= 2 && forall b :: b in Held(ops) ==> lo <= b < hi
  {
    if ops != [] {
      HeldRange(ops[..|ops| - 1], lo, hi);
    }
  }

  lemma {:induction false} ProperPrefix(ops: seq<Op>, lo: nat, hi: nat, n: nat)
    requires Proper(ops, lo, hi) && n <= |ops|
    ensures Proper(ops[..n], lo, hi) && Writes(ops[..n]) <= Writes(ops)
  {
    if n < |ops| {
      ProperPrefix(ops[..|ops| - 1], lo, hi, n);
      assert ops[..|ops| - 1][..n] == ops[..n];
    } else {
      assert ops[..n] == ops;
    }
  }

  /** The state of the specification in the middle of a transaction. */
  ghost predicate Middle(s: Spec, base: seq<Block>, ops: seq<Op>) {
    && s.durable == base && s.current == Effect(base, ops) && s.held == Held(ops)
    && LogRuns.ToSet(s.logged) == Writes(ops) && |s.logged| == |Writes(ops)|
  }

  lemma {:induction false} RunMiddle(base: seq<Block>, ops: seq<Op>, lo: nat)
    requires Proper(ops, lo, |base|)
    ensures Middle(LogRuns.RunSpec(Rest(base), ops), base, ops)
  {
    if ops != [] {
      var was, op := ops[..|ops| - 1], ops[|ops| - 1];
      RunMiddle(base, was, lo);
      HeldRange(was, lo, |base|);
      MiddleNext(LogRuns.RunSpec(Rest(base), was), base, ops);
    }
  }

  lemma MiddleNext(s: Spec, base: seq<Block>, ops: seq<Op>)
    requires ops != [] && Middle(s, base, ops[..|ops| - 1])
    requires var op := ops[|ops| - 1]; op.Open? || op.Close? || (op.Update? && op.b < |base|)
    ensures Middle(LogRuns.Next(s, ops[|ops| - 1]), base, ops)
  {
    var was, op := ops[..|ops| - 1], ops[|ops| - 1];
    var t := LogRuns.Next(s, op);
    assert |s.current| == |base| && t.current == Effect(base, ops) && t.held == Held(ops) && t.durable == base;
    if op.Update? {
      assert t.logged == if op.b in s.logged then s.logged else s.logged + [op.b];
      assert Writes(ops) == Writes(was) + {op.b};
      hide Effect, Held, Writes, LogRuns.Next;
      LoggedMore(s.logged, Writes(was), op.b);
    }
  }

  lemma LoggedMore(logged: seq<nat>, writes: set<nat>, b: nat)
    requires LogRuns.ToSet(logged) == writes && |logged| == |writes|
    ensures var more := if b in logged then logged else logged + [b];
            LogRuns.ToSet(more) == writes + {b} && |more| == |writes + {b}|
  {
    assert b in logged <==> b in LogRuns.ToSet(logged);
    if b in logged {
      assert writes + {b} == writes;
    }
  }

  /** The log's place and size, and the cache's. */
  predicate Fits(g: Region, sb: Super, nbuf: nat) {
    && g.start + g.size <= sb.inodestart && MAXOPBLOCKS + 1 < g.size && MAXOPBLOCKS + 2 < nbuf
  }

  lemma {:induction false} SetSum(a: set<nat>, b: set<nat>)
    ensures |a + b| <= |a| + |b|
  {
    if b != {} {
      var x :| x in b;
      SetSum(a, b - {x});
      assert a + b == a + (b - {x}) + {x};
    }
  }

  /** No call of a transaction within the budget sleeps or panics. */
  lemma TransactionEnabled(base: seq<Block>, ops: seq<Op>, sb: Super, g: Region, nbuf: nat)
    requires Proper(ops, sb.inodestart, |base|) && |Writes(ops)| <= MAXOPBLOCKS && Fits(g, sb, nbuf)
    requires |base| <= UINT_MAX
    ensures LogRuns.AllEnabled(Rest(base), ops, g, nbuf)
  {
    forall i | 0 <= i < |ops|
      ensures LogRuns.Enabled(LogRuns.RunSpec(Rest(base), ops[..i]), ops[i], g, nbuf)
    {
      OneEnabled(base, ops, sb, g, nbuf, i);
    }
  }

  lemma OneEnabled(base: seq<Block>, ops: seq<Op>, sb: Super, g: Region, nbuf: nat, i: nat)
    requires Proper(ops, sb.inodestart, |base|) && |Writes(ops)| <= MAXOPBLOCKS && Fits(g, sb, nbuf)
    requires |base| <= UINT_MAX
    requires i < |ops|
    ensures LogRuns.Enabled(LogRuns.RunSpec(Rest(base), ops[..i]), ops[i], g, nbuf)
  {
    var was := ops[..i];
    ProperPrefix(ops, sb.inodestart, |base|, i);
    ProperPrefix(ops, sb.inodestart, |base|, i + 1);
    assert ops[..i + 1][..i] == was;
    assert Proper(ops[..i + 1], sb.inodestart, |base|);
    RunMiddle(base, was, sb.inodestart);
    HeldRange(was, sb.inodestart, |base|);
    Smaller(Writes(was), Writes(ops));
    SetSum(Held(was), Writes(was));
  }

  /** The crash or the commit that ends a transaction. */
  datatype End = Commits | Crashes(point: nat, cuts: seq<nat>)

  /** The steps of a transaction before a crash: n buffer calls, then k disk writes of the commit. */
  function Cut(ops: seq<Op>, logged: nat, point: nat): (c: (nat, nat))
    ensures c.0 <= |ops| && c.1 <= 2 * logged + 2 && (c.1 > 0 ==> c.0 == |ops| && logged > 0)
  {
    if point <= |ops| then (point, 0)
    else if logged == 0 then (|ops|, 0)
    else (|ops|, if point - |ops| < 2 * logged + 2 then point - |ops| else 2 * logged + 2)
  }

  /** The transaction is in the log's header before it ends. */
  predicate Lasts(ops: seq<Op>, logged: nat, end: End) {
    end.Commits? || Cut(ops, logged, end.point).1 > logged
  }

  function Script(ops: seq<Op>, logged: nat, end: End): seq<Op> {
    match end
    case Commits => ops + [LogRuns.Op.Commit]
    case Crashes(point, cuts) =>
      var c := Cut(ops, logged, point);
      ops[..c.0] + [LogRuns.Op.Crash(c.1, cuts)]
  }

  lemma EndStep(base: seq<Block>, ops: seq<Op>, sb: Super, g: Region, nbuf: nat, last: Op)
    requires LogRuns.AllEnabled(Rest(base), ops, g, nbuf)
    requires LogRuns.Enabled(LogRuns.RunSpec(Rest(base), ops), last, g, nbuf)
    ensures LogRuns.AllEnabled(Rest(base), ops + [last], g, nbuf)
    ensures LogRuns.RunSpec(Rest(base), ops + [last]) == LogRuns.Next(LogRuns.RunSpec(Rest(base), ops), last)
  {
    var more := ops + [last];
    assert more[..|ops|] == ops;
    forall i | 0 <= i < |more|
      ensures LogRuns.Enabled(LogRuns.RunSpec(Rest(base), more[..i]), more[i], g, nbuf)
    {
      if i < |ops| {
        assert more[..i] == ops[..i];
      }
    }
  }

  /** Whatever ends it, the transaction happens whole or not at all. */
  lemma ScriptRuns(base: seq<Block>, disk: seq<Block>, ops: seq<Op>, logged: set<nat>, sb: Super, g: Region, nbuf: nat,
                   end: End)
    requires Trace(sb, disk, base, ops, logged) && Held(ops) == {} && |logged| <= MAXOPBLOCKS && Fits(g, sb, nbuf)
    requires sb.size <= UINT_MAX
    ensures var script := Script(ops, |logged|, end);
            && LogRuns.AllEnabled(Rest(base), script, g, nbuf)
            && LogRuns.RunSpec(Rest(base), script) == Rest(if Lasts(ops, |logged|, end) then disk else base)
  {
    var n := if end.Commits? then |ops| else Cut(ops, |logged|, end.point).0;
    var last := if end.Commits? then LogRuns.Op.Commit else LogRuns.Op.Crash(Cut(ops, |logged|, end.point).1, end.cuts);
    ProperPrefix(ops, sb.inodestart, |base|, n);
    Smaller(Writes(ops[..n]), Writes(ops));
    TransactionEnabled(base, ops[..n], sb, g, nbuf);
    RunMiddle(base, ops[..n], sb.inodestart);
    assert n == |ops| ==> ops[..n] == ops;
    var s := LogRuns.RunSpec(Rest(base), ops[..n]);
    LastEnabled(s, base, ops, n, |logged|, g, nbuf, end, last);
    EndStep(base, ops[..n], sb, g, nbuf, last);
  }

  lemma LastEnabled(s: Spec, base: seq<Block>, ops: seq<Op>, n: nat, logged: nat, g: Region, nbuf: nat, end: End,
                    last: Op)
    requires n <= |ops| && Middle(s, base, ops[..n]) && logged <= MAXOPBLOCKS && MAXOPBLOCKS + 2 < nbuf
    requires n == |ops| ==> Held(ops[..n]) == {} && |Writes(ops[..n])| == logged
    requires n == if end.Commits? then |ops| else Cut(ops, logged, end.point).0
    requires last ==
             if end.Commits? then LogRuns.Op.Commit
             else LogRuns.Op.Crash(Cut(ops, logged, end.point).1, end.cuts)
    ensures LogRuns.Enabled(s, last, g, nbuf)
    ensures LogRuns.Next(s, last) == Rest(if Lasts(ops, logged, end) then s.current else base)
  {
    if n == |ops| {
      assert s.held + LogRuns.ToSet(s.logged) == Writes(ops[..n]);
      assert s.held * LogRuns.ToSet(s.logged) == {};
    }
  }

  /** What the breads of a transaction return to the file layer. */
  function Seen(base: seq<Block>, ops: seq<Op>): seq<Block> {
    if ops == [] then []
    else
      var was, op := ops[..|ops| - 1], ops[|ops| - 1];
      Seen(base, was) + if op.Open? && op.b < |base| then [Effect(base, was)[op.b]] else []
  }

  /** The log and the cache give the file layer the blocks it sees. */
  lemma {:induction false} ReadsSeen(base: seq<Block>, ops: seq<Op>, lo: nat)
    requires Proper(ops, lo, |base|)
    ensures LogRuns.Reads(Rest(base), ops) == Seen(base, ops)
  {
    if ops != [] {
      var was := ops[..|ops| - 1];
      ReadsSeen(base, was, lo);
      RunMiddle(base, was, lo);
    }
  }

  /** The buffer calls made before the end. */
  function Reached(ops: seq<Op>, logged: nat, end: End): (r: seq<Op>) {
    if end.Commits? then ops else ops[..Cut(ops, logged, end.point).0]
  }

  /** Up to its end, every bread of a transaction returns the block the file layer sees. */
  lemma ScriptReads(base: seq<Block>, ops: seq<Op>, logged: nat, lo: nat, end: End)
    requires Proper(ops, lo, |base|)
    ensures LogRuns.Reads(Rest(base), Script(ops, logged, end)) == Seen(base, Reached(ops, logged, end))
  {
    var script, made := Script(ops, logged, end), Reached(ops, logged, end);
    assert script[..|script| - 1] == made;
    ProperPrefix(ops, lo, |base|, |made|);
    assert ops[..|made|] == made;
    ReadsSeen(base, made, lo);
  }

  // ------------------------------------------------------------------------------------
  // Remounting
  // ------------------------------------------------------------------------------------

  /** The file system as a reboot finds it on disk. */
  function Mounted(d: seq<Block>, sb: Super): Fs
    requires LayoutOk(sb) && |d| == sb.size
  {
    InodeHome(sb);
    Fs(d, seq<Inode>(sb.ninodes, j requires 0 <= j < sb.ninodes => Decode(d[InodeBlock(sb, j)], j % IPB)))
  }

  lemma InodeHome(sb: Super)
    requires LayoutOk(sb)
    ensures forall j :: 0 <= j < sb.ninodes ==> InodeBlock(sb, j) < sb.size
  {
    assert forall j :: 0 <= j < sb.ninodes ==> j / IPB <= (sb.ninodes - 1) / IPB;
  }

  /** With every inode written through, nothing is lost but the memory. */
  lemma Remount(f: Fs, sb: Super, own: map<nat, Owner>)
    requires Good(f, sb, own)
    ensures SizesOk(f, sb) && Mounted(f.disk, sb) == f
  {
    hide FsOk, NoHoles, Decode;
    var g := Mounted(f.disk, sb);
    forall j | 0 <= j < sb.ninodes
      ensures g.ino[j] == f.ino[j]
    {
      assert WrittenThrough(f, sb, j);
    }
  }

  // ------------------------------------------------------------------------------------
  // Calls
  // ------------------------------------------------------------------------------------

  /** A call in a transaction of its own, and how that ends. */
  datatype Event = Event(call: Call, end: End)

  /** The kernel stands for the file system's blocks, with no transaction open. */
  ghost predicate Stands(kernel: LogKernel.Kernel, fs: FileSystem, nbuf: nat)
    reads kernel, fs
  {
    && |kernel.c.buf| == nbuf && Fits(kernel.g, fs.sb, nbuf)
    && LogRuns.Abs(kernel.c, kernel.lh, kernel.g, Rest(fs.f.disk))
  }

  /** What a call does before its end: its buffer calls, what its breads returned up to then, and the file
      system it was to leave. */
  datatype Deed = Deed(ops: seq<Op>, seen: seq<Block>, f: Fs, own: map<nat, Owner>)

  /** The buffer calls are those of the call: on a disk with the given files they make one with the files
      the call leaves. */
  ghost predicate Meant(files: seq<seq<byte>>, call: Call, d: seq<Block>, x: Deed, sb: Super) {
    && |files| == sb.ninodes && call.i < |files| && Proper(x.ops, sb.inodestart, sb.size)
    && Good(x.f, sb, x.own) && x.f.disk == Effect(d, x.ops) && Reflects(x.f, sb, Apply(files, call))
  }

  /** The disk went from d to d': the call lasts exactly if its transaction is in the log's header by its
      end, and then the disk is the one it was to leave. */
  ghost predicate Took(d: seq<Block>, d': seq<Block>, x: Deed, lasts: bool, end: End) {
    && lasts == Lasts(x.ops, |Writes(x.ops)|, end) && d' == (if lasts then x.f.disk else d)
    && x.seen == Seen(d, Reached(x.ops, |Writes(x.ops)|, end))
  }

  predicate EventOk(e: Event, f: Fs, sb: Super) {
    && e.call.i < sb.ninodes && e.call.i < |f.ino| && f.ino[e.call.i].typ != T_DEV && Small(e.call, sb)
  }

  /** One call. Its effect on the files is whole if its transaction lasts, and none if not. A write that
      finds the disk full reaches no commit. */
  method Step(kernel: LogKernel.Kernel, fs: FileSystem, e: Event, ghost own: map<nat, Owner>,
              ghost files: seq<seq<byte>>, ghost nbuf: nat)
    returns (ok: bool, lasts: bool, r: int, dst: seq<byte>, ghost own': map<nat, Owner>, ghost x: Deed)
    requires SizesOk(fs.f, fs.sb) && Good(fs.f, fs.sb, own) && Reflects(fs.f, fs.sb, files) && EventOk(e, fs.f, fs.sb)
    requires Stands(kernel, fs, nbuf)
    modifies kernel, fs
    ensures !ok ==> e.call.Write? && Full(fs.f, fs.sb) && kernel.c == old(kernel.c) && kernel.lh == old(kernel.lh)
    ensures ok ==> Meant(files, e.call, old(fs.f.disk), x, fs.sb) && (r, dst) == Result(files, e.call)
    ensures ok ==> Took(old(fs.f.disk), fs.f.disk, x, lasts, e.end) && (e.end.Commits? ==> lasts)
    ensures ok ==> Stands(kernel, fs, nbuf) && Good(fs.f, fs.sb, own') && SameTypes(old(fs.f), fs.f)
    ensures ok ==> Reflects(fs.f, fs.sb, if lasts then Apply(files, e.call) else files)
  {
    hide Good, Reflects, Full, Trace, Held, Lasts, Script, LogRuns.Abs, LogRuns.AllEnabled, LogRuns.RunSpec, Mounted;
    hide Apply, Result, Took, Meant, Reached, LogRuns.Reads, Seen;
    ghost var f0 := fs.f;
    var was := fs.f.disk;
    lasts, own', x := false, own, Deed([], [], f0, own);
    ghost var own1;
    ok, r, dst, own1 := FsRuns.Step(fs, e.call, own, files);
    if !ok {
      return;
    }
    ghost var f1 := fs.f;
    lasts := Lasts(fs.ops, |fs.logged|, e.end);
    ScriptRuns(was, fs.f.disk, fs.ops, fs.logged, fs.sb, kernel.g, nbuf, e.end);
    var out := LogKernel.Run(kernel, Script(fs.ops, |fs.logged|, e.end), Rest(was));
    Remount(f0, fs.sb, own);
    Remount(f1, fs.sb, own1);
    if e.end.Crashes? {
      fs.f := Mounted(if lasts then fs.f.disk else was, fs.sb);
    }
    LastsCommit(fs.ops, |fs.logged|, e.end);
    x := Deed(fs.ops, out, f1, own1);
    IsMeant(files, e.call, was, x, fs.sb, fs.logged);
    IsTook(fs.sb, was, x, fs.logged, e.end);
    own' := if lasts then own1 else own;
    TypesRefl(f0);
  }

  lemma IsMeant(files: seq<seq<byte>>, call: Call, d: seq<Block>, x: Deed, sb: Super, logged: set<nat>)
    requires |files| == sb.ninodes && call.i < |files| && Trace(sb, x.f.disk, d, x.ops, logged)
    requires Good(x.f, sb, x.own) && Reflects(x.f, sb, Apply(files, call))
    ensures Meant(files, call, d, x, sb)
  {
    hide Good, Reflects, Apply;
  }

  lemma IsTook(sb: Super, d: seq<Block>, x: Deed, logged: set<nat>, end: End)
    requires Trace(sb, x.f.disk, d, x.ops, logged)
    requires x.seen == LogRuns.Reads(Rest(d), Script(x.ops, |logged|, end))
    ensures var lasts := Lasts(x.ops, |logged|, end); Took(d, if lasts then x.f.disk else d, x, lasts, end)
  {
    hide Lasts, Script, Seen, Reached, LogRuns.Reads;
    ScriptReads(d, x.ops, |logged|, sb.inodestart, end);
  }

  lemma LastsCommit(ops: seq<Op>, logged: nat, end: End)
    ensures end.Commits? ==> Lasts(ops, logged, end)
  {
  }

  lemma TypesRefl(f: Fs)
    ensures SameTypes(f, f)
  {
  }

  // ------------------------------------------------------------------------------------
  // Runs
  // ------------------------------------------------------------------------------------

  /** The files after the lasting calls, on plain byte sequences. */
  function After(files: seq<seq<byte>>, events: seq<Event>, lasted: seq<bool>): (r: seq<seq<byte>>)
    requires |events| == |lasted|
    ensures |r| == |files|
  {
    if events == [] then files
    else
      var n := |events| - 1;
      var was := After(files, events[..n], lasted[..n]);
      if lasted[n] && events[n].call.i < |files| then Apply(was, events[n].call) else was
  }

  lemma AfterMore(files: seq<seq<byte>>, events: seq<Event>, lasted: seq<bool>, k: nat, b: bool)
    requires k < |events| && |lasted| == k && events[k].call.i < |files|
    ensures After(files, events[..k + 1], lasted + [b]) ==
            var was := After(files, events[..k], lasted); if b then Apply(was, events[k].call) else was
  {
    hide Apply;
    var more := events[..k + 1];
    assert more[..k] == events[..k] && (lasted + [b])[..k] == lasted && more[k] == events[k];
  }

  /** Call k returned what it returns on the plain files. */
  ghost predicate Answered(files: seq<seq<byte>>, events: seq<Event>, lasted: seq<bool>, result: (int, seq<byte>),
                           k: nat) {
    && k < |events| && k <= |lasted| && events[k].call.i < |files|
    && result == Result(After(files, events[..k], lasted[..k]), events[k].call)
  }

  /** What happened to call k: it was carried out on the files the lasting calls before it left, and it
      lasts exactly if its transaction was in the log's header by its end. */
  ghost predicate Happened(files: seq<seq<byte>>, events: seq<Event>, lasted: seq<bool>, disks: seq<seq<Block>>,
                           deeds: seq<Deed>, sb: Super, k: nat)
    requires k < |events| && k < |deeds| && k < |lasted| && k + 1 < |disks|
  {
    && Meant(After(files, events[..k], lasted[..k]), events[k].call, disks[k], deeds[k], sb)
    && Took(disks[k], disks[k + 1], deeds[k], lasted[k], events[k].end)
    && (events[k].end.Commits? ==> lasted[k])
  }

  /** The disks between the calls. */
  ghost predicate History(files: seq<seq<byte>>, events: seq<Event>, lasted: seq<bool>, disks: seq<seq<Block>>,
                          deeds: seq<Deed>, results: seq<(int, seq<byte>)>, sb: Super) {
    && |deeds| == |lasted| == |results| <= |events| && |disks| == |lasted| + 1
    && (forall k :: 0 <= k < |lasted| ==> Happened(files, events, lasted, disks, deeds, sb, k))
    && (forall k :: 0 <= k < |lasted| ==> Answered(files, events, lasted, results[k], k))
  }

  lemma HistoryMore(files: seq<seq<byte>>, events: seq<Event>, lasted: seq<bool>, disks: seq<seq<Block>>,
                    deeds: seq<Deed>, results: seq<(int, seq<byte>)>, sb: Super,
                    d: seq<Block>, x: Deed, lasts: bool, result: (int, seq<byte>))
    requires History(files, events, lasted, disks, deeds, results, sb) && |lasted| < |events|
    requires var k := |lasted|;
             && Meant(After(files, events[..k], lasted), events[k].call, disks[k], x, sb)
             && Took(disks[k], d, x, lasts, events[k].end) && (events[k].end.Commits? ==> lasts)
             && events[k].call.i < |files| && result == Result(After(files, events[..k], lasted), events[k].call)
    ensures History(files, events, lasted + [lasts], disks + [d], deeds + [x], results + [result], sb)
  {
    hide Meant, Took, After, Result;
    var n := |lasted|;
    var lasted', disks', deeds', results' := lasted + [lasts], disks + [d], deeds + [x], results + [result];
    forall k | 0 <= k <= n
      ensures Happened(files, events, lasted', disks', deeds', sb, k)
      ensures Answered(files, events, lasted', results'[k], k)
    {
      assert lasted'[..k] == lasted[..k];
      if k < n {
        assert Happened(files, events, lasted, disks, deeds, sb, k) && Answered(files, events, lasted, results[k], k);
      } else {
        assert lasted[..k] == lasted;
      }
    }
  }

  /** A reboot finds the given files on the disk. */
  ghost predicate Leaves(d: seq<Block>, sb: Super, own: map<nat, Owner>, files: seq<seq<byte>>) {
    LayoutOk(sb) && |d| == sb.size && Good(Mounted(d, sb), sb, own) && Reflects(Mounted(d, sb), sb, files)
  }

  lemma GoodLeaves(f: Fs, sb: Super, own: map<nat, Owner>, files: seq<seq<byte>>)
    requires Good(f, sb, own) && Reflects(f, sb, files)
    ensures Leaves(f.disk, sb, own, files)
  {
    hide Reflects, Mounted;
    Remount(f, sb, own);
    hide Good;
  }

  /** Any run of calls, each ended by its commit or by a crash anywhere in it. After each the disk holds the
      files that the lasting calls give on plain byte sequences; a call lasts exactly if it commits, or
      crashes after the write of the log's header; and each returns what it returns there. Only a write on
      a full disk ends the run, and it leaves the disk as it was. */
  method Run(kernel: LogKernel.Kernel, fs: FileSystem, events: seq<Event>, ghost own: map<nat, Owner>,
             ghost files: seq<seq<byte>>, ghost nbuf: nat)
    returns (ok: bool, lasted: seq<bool>, results: seq<(int, seq<byte>)>, ghost own': map<nat, Owner>,
             ghost disks: seq<seq<Block>>, ghost deeds: seq<Deed>)
    requires SizesOk(fs.f, fs.sb) && Good(fs.f, fs.sb, own) && Reflects(fs.f, fs.sb, files) && |files| == fs.sb.ninodes
    requires forall e :: e in events ==> EventOk(e, fs.f, fs.sb)
    requires Stands(kernel, fs, nbuf)
    modifies kernel, fs
    ensures History(files, events, lasted, disks, deeds, results, fs.sb) && disks[0] == old(fs.f.disk)
    ensures Leaves(disks[|lasted|], fs.sb, own', After(files, events[..|lasted|], lasted))
    ensures LogRuns.Abs(kernel.c, kernel.lh, kernel.g, Rest(disks[|lasted|]))
    ensures ok ==> |lasted| == |events| && fs.f.disk == disks[|lasted|] && Good(fs.f, fs.sb, own')
    ensures ok ==> Stands(kernel, fs, nbuf) && Reflects(fs.f, fs.sb, After(files, events[..|lasted|], lasted))
    ensures !ok ==> |lasted| < |events| && events[|lasted|].call.Write? && Full(fs.f, fs.sb)
  {
    hide Good, Reflects, Full, Apply, Result, LogRuns.Abs, Meant, Took, History, Leaves, After, Happened, Answered;
    ghost var f0 := fs.f;
    lasted, results, own', disks, deeds := [], [], own, [fs.f.disk], [];
    StartHistory(files, events, fs.f.disk, fs.sb);
    GoodLeaves(fs.f, fs.sb, own, files);
    TypesRefl(f0);
    while |lasted| < |events|
      invariant |lasted| <= |events| && |results| == |deeds| == |lasted| && |disks| == |lasted| + 1
      invariant SizesOk(fs.f, fs.sb) && SameTypes(f0, fs.f) && disks[0] == f0.disk && disks[|lasted|] == fs.f.disk
      invariant Good(fs.f, fs.sb, own') && Stands(kernel, fs, nbuf)
      invariant Reflects(fs.f, fs.sb, After(files, events[..|lasted|], lasted))
      invariant History(files, events, lasted, disks, deeds, results, fs.sb)
      invariant Leaves(disks[|lasted|], fs.sb, own', After(files, events[..|lasted|], lasted))
      decreases |events| - |lasted|
    {
      var e := events[|lasted|];
      assert e in events;
      ghost var was, own1, x := After(files, events[..|lasted|], lasted), own', Deed([], [], fs.f, own);
      var lasts, r, dst;
      ok, lasts, r, dst, own1, x := Step(kernel, fs, e, own', was, nbuf);
      if !ok {
        return;
      }
      own' := own1;
      GoodOk(fs.f, fs.sb, own', e.call.i);
      AfterMore(files, events, lasted, |lasted|, lasts);
      HistoryMore(files, events, lasted, disks, deeds, results, fs.sb, fs.f.disk, x, lasts, (r, dst));
      lasted, results := lasted + [lasts], results + [(r, dst)];
      disks, deeds := disks + [fs.f.disk], deeds + [x];
      GoodLeaves(fs.f, fs.sb, own', After(files, events[..|lasted|], lasted));
    }
    ok := true;
  }

  lemma StartHistory(files: seq<seq<byte>>, events: seq<Event>, d: seq<Block>, sb: Super)
    ensures History(files, events, [], [d], [], [], sb) && After(files, events[..0], []) == files
  {
  }
}

/** Whole runs of the file layer (xv6/fs.c): every file is a plain byte sequence. */
module FsRuns {
  import opened Numbers
  import opened Blocks
  import opened FsModel
  import opened FsInode
  import opened FsTrace
  import opened FsFile
  import opened FsBytes
  import opened FsWrite
  import opened FsReadWrite
  import opened FsWritei
  import opened FsFilewrite
  import opened FsTrunc

  datatype Call =
    | Read(i: nat, off: uint, n: uint)
    | Write(i: nat, off: uint, src: seq<byte>)
    | Truncate(i: nat)

  /** The effect of a call on plain files. */
  function Apply(files: seq<seq<byte>>, c: Call): (r: seq<seq<byte>>)
    requires c.i < |files|
    ensures |r| == |files|
  {
    match c
    case Read(_, _, _) => files
    case Write(i, off, src) =>
      if off > |files[i]| || off + |src| > MAXBYTES then files else files[i := Overwrite(files[i], off, src)]
    case Truncate(i) => files[i := []]
  }

  /** What a call returns on plain files. */
  function Result(files: seq<seq<byte>>, c: Call): (int, seq<byte>)
    requires c.i < |files|
  {
    match c
    case Read(i, off, n) =>
      if off > |files[i]| || off + n > UINT_MAX then (-1, [])
      else var s := files[i][off..Min(off + n, |files[i]|)]; (|s|, s)
    case Write(i, off, src) => if off > |files[i]| || off + |src| > MAXBYTES then (-1, []) else (|src|, [])
    case Truncate(_) => (0, [])
  }

  function Files(files: seq<seq<byte>>, calls: seq<Call>): (r: seq<seq<byte>>)
    requires forall c :: c in calls ==> c.i < |files|
    ensures |r| == |files|
  {
    if calls == [] then files else Apply(Files(files, calls[..|calls| - 1]), calls[|calls| - 1])
  }

  /** Blocks are owned once, no file has holes, and every inode is on disk as it is in memory. */
  ghost predicate Good(f: Fs, sb: Super, own: map<nat, Owner>) {
    && SizesOk(f, sb) && FsOk(f, sb, own)
    && forall j :: 0 <= j < sb.ninodes ==> NoHoles(f, j) && WrittenThrough(f, sb, j)
  }

  ghost predicate Reflects(f: Fs, sb: Super, files: seq<seq<byte>>) {
    && SizesOk(f, sb) && |files| == sb.ninodes
    && forall j :: 0 <= j < sb.ninodes ==> f.ino[j].size <= MAXBYTES && Content(f, j) == files[j]
  }

  /** A file system as mkfs leaves it, before any file has contents. */
  ghost predicate Formatted(f: Fs, sb: Super) {
    && SizesOk(f, sb)
    && (forall i :: 0 <= i < sb.ninodes ==>
          f.ino[i].size == 0 && WrittenThrough(f, sb, i) && forall k :: 0 <= k <= NDIRECT ==> f.ino[i].addrs[k] == 0)
    && (forall b :: 0 <= b < sb.size ==> (BitOf(f.disk, sb, b) <==> b < sb.data))
  }

  lemma FormattedGood(f: Fs, sb: Super)
    requires Formatted(f, sb)
    ensures Good(f, sb, map[]) && Reflects(f, sb, seq(sb.ninodes, _ => []))
  {
    hide BitOf, OnDisk;
    assert forall i, k :: 0 <= i < sb.ninodes && 0 <= k < NSLOT ==> Ptr(f.disk, f.ino[i], k) == 0;
    hide Ptr;
  }

  lemma WriteGood(f: Fs, g: Fs, sb: Super, own: map<nat, Owner>, own': map<nat, Owner>, i: nat, off: nat,
                  src: seq<byte>)
    requires Good(f, sb, own) && Written(f, g, sb, own', i, off, src) && Sound(f, g, sb, i)
    ensures Good(g, sb, own')
  {
    hide NoHoles, OnDisk, FsOk, Updated;
  }

  lemma WriteReflects(f: Fs, g: Fs, sb: Super, own': map<nat, Owner>, i: nat, off: nat, src: seq<byte>,
                      files: seq<seq<byte>>)
    requires Reflects(f, sb, files) && Written(f, g, sb, own', i, off, src) && off <= f.ino[i].size
    requires off + |src| <= MAXBYTES
    ensures off <= |files[i]| && Reflects(g, sb, files[i := Overwrite(files[i], off, src)])
  {
    hide FsOk, Updated, Overwrite, ByteAt;
    assert |Content(f, i)| == |files[i]|;
    forall j | 0 <= j < sb.ninodes
      ensures Content(g, j) == if j == i then Overwrite(files[i], off, src) else files[j]
    {
      hide Content;
      assert Content(f, j) == files[j];
      WrittenContent(f, g, sb, own', i, off, src, j);
    }
  }

  lemma TruncateGood(f: Fs, g: Fs, sb: Super, own: map<nat, Owner>, own': map<nat, Owner>, i: nat)
    requires Good(f, sb, own) && Truncated(f, g, sb, own, own', i)
    ensures Good(g, sb, own')
  {
    hide FsOk, OnDisk;
    forall j | 0 <= j < sb.ninodes
      ensures NoHoles(g, j) && WrittenThrough(g, sb, j)
    {
      hide Ptr;
      assert NoHoles(f, j) && WrittenThrough(f, sb, j);
      if j != i {
        TruncatedPtrs(f, g, sb, own, own', i, j);
      }
    }
  }

  lemma TruncatedPtrs(f: Fs, g: Fs, sb: Super, own: map<nat, Owner>, own': map<nat, Owner>, i: nat, j: nat)
    requires SizesOk(f, sb) && SizesOk(g, sb) && FsOk(f, sb, own) && Truncated(f, g, sb, own, own', i) && j < sb.ninodes
    requires j != i
    ensures forall k :: 0 <= k < NSLOT ==> Ptr(g.disk, g.ino[j], k) == Ptr(f.disk, f.ino[j], k)
  {
    hide BitOf, Word, OnDisk;
    var ind := f.ino[j].addrs[NDIRECT];
    assert ind != 0 ==> Ptr(f.disk, f.ino[j], NDIRECT) == ind && own[ind] == (j, NDIRECT);
  }

  lemma TruncateReflects(f: Fs, g: Fs, sb: Super, own: map<nat, Owner>, own': map<nat, Owner>, i: nat,
                         files: seq<seq<byte>>)
    requires SizesOk(f, sb) && FsOk(f, sb, own) && Reflects(f, sb, files) && Truncated(f, g, sb, own, own', i)
    ensures Reflects(g, sb, files[i := []])
  {
    hide FsOk, ByteAt, OnDisk;
    forall j | 0 <= j < sb.ninodes
      ensures Content(g, j) == if j == i then [] else files[j]
    {
      if j != i {
        TruncatedBytes(f, g, sb, own, own', i, j);
        assert Content(g, j) == Content(f, j);
      }
    }
  }

  lemma GoodOk(f: Fs, sb: Super, own: map<nat, Owner>, i: nat)
    requires Good(f, sb, own) && i < sb.ninodes
    ensures SizesOk(f, sb) && FsOk(f, sb, own) && NoHoles(f, i) && f.ino[i].size <= MAXBYTES
  {
    hide FsOk, OnDisk;
  }

  lemma ReflectsOk(f: Fs, sb: Super, files: seq<seq<byte>>, i: nat)
    requires SizesOk(f, sb) && i < sb.ninodes && Reflects(f, sb, files)
    ensures |files| == sb.ninodes && f.ino[i].size <= MAXBYTES && f.ino[i].size == |files[i]|
    ensures Content(f, i) == files[i]
  {
  }

  /** No type changes. */
  ghost predicate SameTypes(f: Fs, g: Fs) {
    |f.ino| == |g.ino| && forall j :: 0 <= j < |f.ino| ==> g.ino[j].typ == f.ino[j].typ
  }

  /** A call that one operation's share of the log is enough for: a chunk of filewrite, or itrunc on a disk
      with few bitmap blocks. */
  predicate Small(c: Call, sb: Super) {
    (c.Write? ==> |c.src| <= MAXCHUNK) && (c.Truncate? ==> sb.size / BPB + 2 <= MAXOPBLOCKS)
  }

  method Step(fs: FileSystem, c: Call, ghost own: map<nat, Owner>, ghost files: seq<seq<byte>>)
    returns (ok: bool, r: int, dst: seq<byte>, ghost own': map<nat, Owner>)
    requires SizesOk(fs.f, fs.sb) && c.i < fs.sb.ninodes && fs.f.ino[c.i].typ != T_DEV
    requires (c.Write? ==> |c.src| <= UINT_MAX)
    requires Good(fs.f, fs.sb, own) && Reflects(fs.f, fs.sb, files)
    modifies fs
    ensures ok ==> fs.Idle() && fs.base == old(fs.f.disk)
    ensures ok && Small(c, fs.sb) ==> |fs.logged| <= MAXOPBLOCKS
    ensures !ok ==> c.Write? && Full(fs.f, fs.sb)
    ensures ok ==> Good(fs.f, fs.sb, own') && |files| == fs.sb.ninodes && Reflects(fs.f, fs.sb, Apply(files, c))
    ensures ok ==> (r, dst) == Result(files, c) && SameTypes(old(fs.f), fs.f)
  {
    hide Good, Reflects, FsOk, NoHoles, Written, Sound, ReadState, Truncated, Full, Overwrite, Content, Trace, Held;
    ghost var f0 := fs.f;
    fs.BeginOp();
    GoodOk(f0, fs.sb, own, c.i);
    ReflectsOk(f0, fs.sb, files, c.i);
    match c {
      case Read(i, off, n) =>
        ok, r, dst, own' := Readi(fs, i, off, n, own);
        own' := own;
        dst := if r == -1 then [] else dst;
      case Write(i, off, src) =>
        ghost var extra;
        ok, r, own', extra := Writei(fs, i, src, off, own);
        dst := [];
        if ok && r != -1 {
          if |src| <= MAXCHUNK {
            ChunkFits(off, |src|);
          }
          Smaller(fs.logged, extra);
          WriteGood(f0, fs.f, fs.sb, own, own', i, off, src);
          WriteReflects(f0, fs.f, fs.sb, own', i, off, src, files);
          TypesKept(f0, fs.f, fs.sb, own', i, off, src);
        }
      case Truncate(i) =>
        own' := Itrunc(fs, i, own);
        ok, r, dst := true, 0, [];
        Smaller(fs.logged, Bitmaps(fs.sb) + {InodeBlock(fs.sb, i)});
        TruncateGood(f0, fs.f, fs.sb, own, own', i);
        TruncateReflects(f0, fs.f, fs.sb, own, own', i, files);
        TruncatedTypes(f0, fs.f, fs.sb, own, own', i);
    }
  }

  lemma TypesKept(f: Fs, g: Fs, sb: Super, own': map<nat, Owner>, i: nat, off: nat, s: seq<byte>)
    requires Written(f, g, sb, own', i, off, s)
    ensures SameTypes(f, g)
  {
    hide FsOk, Updated;
  }

  lemma TruncatedTypes(f: Fs, g: Fs, sb: Super, own: map<nat, Owner>, own': map<nat, Owner>, i: nat)
    requires Truncated(f, g, sb, own, own', i)
    ensures SameTypes(f, g)
  {
    hide FsOk, OnDisk;
  }

  /** Any run of calls does to the files what it does to plain byte sequences, and every call
      returns what it returns there. Only a write on a full disk ends it; g is the state before that write,
      or the last one. */
  method Run(fs: FileSystem, calls: seq<Call>, ghost own: map<nat, Owner>, ghost files: seq<seq<byte>>)
    returns (ok: bool, results: seq<(int, seq<byte>)>, ghost g: Fs, ghost own': map<nat, Owner>)
    requires SizesOk(fs.f, fs.sb) && Good(fs.f, fs.sb, own) && Reflects(fs.f, fs.sb, files) && |files| == fs.sb.ninodes
    requires forall c :: c in calls ==>
               c.i < fs.sb.ninodes && fs.f.ino[c.i].typ != T_DEV && (c.Write? ==> |c.src| <= UINT_MAX)
    modifies fs
    ensures ok ==> |results| == |calls| && fs.f == g
    ensures !ok ==> |results| < |calls| && calls[|results|].Write? && Full(fs.f, fs.sb)
    ensures Good(g, fs.sb, own') && Reflects(g, fs.sb, Files(files, calls[..|results|]))
    ensures forall k :: 0 <= k < |results| ==> results[k] == Result(Files(files, calls[..k]), calls[k])
  {
    hide Good, Reflects, Full, Apply, Result;
    ghost var f0 := fs.f;
    results, g, own' := [], fs.f, own;
    var k := 0;
    assert calls[..0] == [];
    while k < |calls|
      invariant 0 <= k <= |calls| && |results| == k && SizesOk(fs.f, fs.sb) && g == fs.f
      invariant Good(fs.f, fs.sb, own') && Reflects(fs.f, fs.sb, Files(files, calls[..k])) && SameTypes(f0, fs.f)
      invariant forall m :: 0 <= m < k ==> results[m] == Result(Files(files, calls[..m]), calls[m])
    {
      assert calls[k] in calls;
      assert calls[..k + 1][..k] == calls[..k];
      var r, dst;
      ghost var was, own1 := Files(files, calls[..k]), own';
      ok, r, dst, own1 := Step(fs, calls[k], own', was);
      if !ok {
        return;
      }
      g, own' := fs.f, own1;
      assert Files(files, calls[..k + 1]) == Apply(was, calls[k]);
      GoodOk(fs.f, fs.sb, own', calls[k].i);
      results := results + [(r, dst)];
      k := k + 1;
    }
    ok := true;
  }
}

/** filewrite (xv6/file.c): a long write as a sequence of transactions, each within the log budget
    of one operation, that together refine one update of the file. */
module FsFilewrite {
  import opened Numbers
  import opened Blocks
  import opened FsModel
  import opened FsInode
  import opened FsTrace
  import opened FsFile
  import opened FsBytes
  import opened FsWrite
  import opened FsReadWrite
  import opened FsWritei
  import LogSpace

  const MAXOPBLOCKS := LogSpace.MAXOPBLOCKS

  // The largest chunk: ((MAXOPBLOCKS-1-1-2) / 2) * 512.
  const MAXCHUNK := 1536

  /** s over the bytes of c that start at off. */
  function Overwrite(c: seq<byte>, off: nat, s: seq<byte>): (r: seq<byte>)
    requires off <= |c|
    ensures |r| == Max(|c|, off + |s|)
    ensures forall p :: 0 <= p < |r| ==> r[p] == if off <= p < off + |s| then s[p - off] else c[p]
  {
    c[..off] + s + if off + |s| < |c| then c[off + |s|..] else []
  }

  /** The flat byte sequence of the file is overwritten, and no other file changes. */
  lemma WrittenContent(f: Fs, g: Fs, sb: Super, own': map<nat, Owner>, i: nat, off: nat, s: seq<byte>, j: nat)
    requires Written(f, g, sb, own', i, off, s) && j < sb.ninodes
    requires off <= f.ino[i].size <= MAXBYTES && off + |s| <= MAXBYTES && f.ino[j].size <= MAXBYTES
    ensures Content(g, j) == if j == i then Overwrite(Content(f, i), off, s) else Content(f, j)
  {
    hide Ptr, FsOk, ByteAt, Overwrite;
    if j == i {
      var c := Overwrite(Content(f, i), off, s);
      assert |Content(g, i)| == |c|;
      forall p | 0 <= p < |c|
        ensures Content(g, i)[p] == c[p]
      {
      }
    } else {
      forall p | 0 <= p < f.ino[j].size
        ensures Content(g, j)[p] == Content(f, j)[p]
      {
      }
    }
  }

  lemma WrittenTrans(f: Fs, g: Fs, h: Fs, sb: Super, own1: map<nat, Owner>, own2: map<nat, Owner>, i: nat, off: nat,
                     s: seq<byte>, u: seq<byte>)
    requires Written(f, g, sb, own1, i, off, s) && Written(g, h, sb, own2, i, off + |s|, u)
    ensures Written(f, h, sb, own2, i, off, s + u)
  {
    hide Ptr, FsOk, ByteAt;
    forall j, p | 0 <= j < |f.ino| && 0 <= p < MAXBYTES
      ensures ByteAt(h, j, p) == if j == i && off <= p < off + |s + u| then (s + u)[p - off] else ByteAt(f, j, p)
    {
      assert ByteAt(g, j, p) == if j == i && off <= p < off + |s| then s[p - off] else ByteAt(f, j, p);
    }
  }

  lemma SoundTrans(f: Fs, g: Fs, h: Fs, sb: Super, i: nat)
    requires Sound(f, g, sb, i) && Sound(g, h, sb, i)
    ensures Sound(f, h, sb, i)
  {
    hide NoHoles, OnDisk;
  }

  lemma WrittenStart(f: Fs, sb: Super, own: map<nat, Owner>, i: nat, off: nat)
    requires SizesOk(f, sb) && FsOk(f, sb, own) && i < sb.ninodes
    ensures Written(f, f, sb, own, i, off, []) && Sound(f, f, sb, i)
  {
    hide Ptr, FsOk, ByteAt, NoHoles, OnDisk;
  }

  /** A chunk never needs more blocks than an operation may log. */
  lemma ChunkFits(off: nat, n: nat)
    requires n <= MAXCHUNK
    ensures Budget(off, n) <= MAXOPBLOCKS
  {
  }

  lemma WrittenOk(f: Fs, g: Fs, sb: Super, own': map<nat, Owner>, i: nat, off: nat, s: seq<byte>)
    requires Written(f, g, sb, own', i, off, s)
    ensures SizesOk(f, sb) && SizesOk(g, sb) && FsOk(g, sb, own') && i < sb.ninodes && g.ino[i].typ == f.ino[i].typ
    ensures g.ino[i].size == if s == [] then f.ino[i].size else Max(f.ino[i].size, off + |s|)
  {
  }

  lemma SoundOk(f: Fs, g: Fs, sb: Super, i: nat)
    requires Sound(f, g, sb, i)
    ensures SizesOk(f, sb) && SizesOk(g, sb) && i < sb.ninodes && (NoHoles(f, i) ==> NoHoles(g, i))
  {
  }

  /** Every block on which f and g differ is in one of the transactions. */
  ghost predicate Covered(f: Fs, g: Fs, txs: seq<set<nat>>) {
    && |f.disk| == |g.disk|
    && forall x :: 0 <= x < |f.disk| && f.disk[x] != g.disk[x] ==> exists k :: 0 <= k < |txs| && x in txs[k]
  }

  lemma CoveredMore(f: Fs, g: Fs, h: Fs, sb: Super, txs: seq<set<nat>>, ops: seq<Op>, logged: set<nat>)
    requires Covered(f, g, txs) && Trace(sb, h.disk, g.disk, ops, logged)
    ensures Covered(f, h, txs + [logged])
  {
    ChangesLogged(sb, h.disk, g.disk, ops, logged);
    hide Trace;
    var more := txs + [logged];
    forall x | 0 <= x < |f.disk| && f.disk[x] != h.disk[x]
      ensures exists k :: 0 <= k < |more| && x in more[k]
    {
      if f.disk[x] != g.disk[x] {
        var k :| 0 <= k < |txs| && x in txs[k];
        assert x in more[k];
      } else {
        assert x in more[|txs|];
      }
    }
  }

  /** One transaction of filewrite, within the budget of an operation if the file has no holes. */
  method WriteChunk(fs: FileSystem, i: nat, src: seq<byte>, off: uint, ghost own: map<nat, Owner>)
    returns (ok: bool, r: int, ghost own': map<nat, Owner>)
    requires SizesOk(fs.f, fs.sb) && FsOk(fs.f, fs.sb, own) && i < fs.sb.ninodes && fs.f.ino[i].typ != T_DEV
    requires |src| <= MAXCHUNK
    modifies fs
    ensures !ok ==> Full(fs.f, fs.sb)
    ensures ok ==> fs.Idle() && fs.base == old(fs.f.disk)
    ensures ok ==> (r == -1 <==> off > old(fs.f.ino[i].size) || off + |src| > MAXBYTES)
    ensures ok && r == -1 ==> fs.f == old(fs.f) && fs.logged == {} && own' == own
    ensures ok && r != -1 ==>
              r == |src| && Written(old(fs.f), fs.f, fs.sb, own', i, off, src) && Sound(old(fs.f), fs.f, fs.sb, i)
    ensures ok && NoHoles(old(fs.f), i) ==> |fs.logged| <= MAXOPBLOCKS
  {
    hide FsOk, Written, Sound, NoHoles, Full, Trace, Held;
    fs.BeginOp();
    ghost var extra;
    ok, r, own', extra := Writei(fs, i, src, off, own);
    if ok && r != -1 {
      ChunkFits(off, |src|);
      Smaller(fs.logged, extra);
    }
  }

  /** filewrite on an inode. done bytes are written; txs holds the blocks each transaction logged. */
  method Filewrite(fs: FileSystem, i: nat, addr: seq<byte>, n: int, off: uint, ghost own: map<nat, Owner>)
    returns (ok: bool, r: int, off': uint, ghost done: nat, ghost own': map<nat, Owner>, ghost txs: seq<set<nat>>)
    requires SizesOk(fs.f, fs.sb) && FsOk(fs.f, fs.sb, own) && i < fs.sb.ninodes && fs.f.ino[i].typ != T_DEV
    requires n <= |addr| && n <= 0x7fffffff
    modifies fs
    ensures !ok ==> Full(fs.f, fs.sb)
    ensures ok ==> done <= |addr| && off' == off + done
    ensures ok ==> Written(old(fs.f), fs.f, fs.sb, own', i, off, addr[..done]) && Sound(old(fs.f), fs.f, fs.sb, i)
    ensures ok ==> |txs| == (done + MAXCHUNK - 1) / MAXCHUNK && Covered(old(fs.f), fs.f, txs)
    ensures ok && NoHoles(old(fs.f), i) ==> forall t :: t in txs ==> |t| <= MAXOPBLOCKS
    ensures ok ==> (r == n <==> n == -1 || n == 0 || (n > 0 && off <= old(fs.f.ino[i].size) && off + n <= MAXBYTES))
    ensures ok ==> r == n || r == -1
    ensures ok && 0 <= n == r ==> done == n
    ensures ok && 0 <= n != r ==>
              done % MAXCHUNK == 0 && (off <= old(fs.f.ino[i].size) ==> MAXBYTES < off + done + MAXCHUNK)
  {
    hide FsOk, Written, Sound, NoHoles, Full, Trace, Held, Covered;
    ghost var f0 := fs.f;
    CoveredStart(f0);
    var k := 0;
    off', done, own', txs := off, 0, own, [];
    WrittenStart(f0, fs.sb, own, i, off);
    r := 0;
    assert addr[..0] == [];
    while k < n
      invariant 0 <= k <= |addr| && done == k && off' == off + k && (k <= n || k == 0)
      invariant Written(f0, fs.f, fs.sb, own', i, off, addr[..k]) && Sound(f0, fs.f, fs.sb, i)
      invariant SizesOk(fs.f, fs.sb) && FsOk(fs.f, fs.sb, own') && fs.f.ino[i].typ != T_DEV
      invariant fs.f.ino[i].size == if k == 0 then f0.ino[i].size else Max(f0.ino[i].size, off + k)
      invariant k > 0 ==> off <= f0.ino[i].size && off + k <= MAXBYTES
      invariant k == n || k % MAXCHUNK == 0
      invariant |txs| == (k + MAXCHUNK - 1) / MAXCHUNK && Covered(f0, fs.f, txs)
      invariant NoHoles(f0, i) ==> forall t :: t in txs ==> |t| <= MAXOPBLOCKS
    {
      var n1 := if n - k > MAXCHUNK then MAXCHUNK else n - k;
      ghost var f1, own1 := fs.f, own';
      ok, r, own' := WriteChunk(fs, i, addr[k..k + n1], off', own');
      if !ok {
        return;
      }
      if r < 0 {
        break;
      }
      SoundOk(f0, f1, fs.sb, i);
      CoveredMore(f0, f1, fs.f, fs.sb, txs, fs.ops, fs.logged);
      txs := txs + [fs.logged];
      WrittenTrans(f0, f1, fs.f, fs.sb, own1, own', i, off, addr[..k], addr[k..k + n1]);
      SoundTrans(f0, f1, fs.f, fs.sb, i);
      assert addr[..k] + addr[k..k + n1] == addr[..k + n1];
      k, off', done := k + r, off' + r, done + r;
      WrittenOk(f0, fs.f, fs.sb, own', i, off, addr[..k]);
    }
    return true, if k == n then n else -1, off', done, own', txs;
  }

  lemma CoveredStart(f: Fs)
    ensures Covered(f, f, [])
  {
  }

  lemma {:induction false} Smaller(a: set<nat>, b: set<nat>)
    requires a <= b
    ensures |a| <= |b|
  {
    if a != {} {
      var x :| x in a;
      Smaller(a - {x}, b - {x});
    }
  }
}

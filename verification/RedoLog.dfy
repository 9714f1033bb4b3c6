/** The on-disk redo log (xv6/log.c): which blocks commit and recovery write, in which order,
    and what a crash between any two of those writes leaves behind. */
module RedoLog {
  import opened Blocks

  const LOGSIZE := 30

  /** Where the log lives: a header block at start, then size - 1 blocks. */
  datatype Region = Region(start: nat, size: nat)

  type Write = (nat, Block)

  predicate InLog(g: Region, b: nat) {
    g.start <= b < g.start + g.size
  }

  // ------------------------------------------------------------------------------------
  // The header block
  // ------------------------------------------------------------------------------------

  predicate HeaderOk(b: Block) {
    Word(b, 0) <= LOGSIZE
  }

  /** read_head. */
  function HeaderOf(b: Block): (lh: seq<nat>)
    requires HeaderOk(b)
    ensures |lh| == Word(b, 0) && forall i :: 0 <= i < |lh| ==> lh[i] == Word(b, i + 1)
  {
    seq(Word(b, 0), i requires 0 <= i < Word(b, 0) => Word(b, i + 1))
  }

  function PutEntries(b: Block, lh: seq<nat>, n: nat): (r: Block)
    requires n <= |lh| <= LOGSIZE && forall i :: 0 <= i < |lh| ==> lh[i] <= UINT_MAX
    ensures Word(r, 0) == Word(b, 0) && forall i :: 0 <= i < n ==> Word(r, i + 1) == lh[i]
  {
    if n == 0 then b else SetWord(PutEntries(b, lh, n - 1), n, lh[n - 1])
  }

  /** write_head: the count and the entries go over what the block held. */
  function PutHeader(b: Block, lh: seq<nat>): (r: Block)
    requires |lh| <= LOGSIZE && forall i :: 0 <= i < |lh| ==> lh[i] <= UINT_MAX
    ensures HeaderOk(r) && HeaderOf(r) == lh
  {
    PutEntries(SetWord(b, 0, |lh|), lh, |lh|)
  }

  // ------------------------------------------------------------------------------------
  // Writes
  // ------------------------------------------------------------------------------------

  predicate Fits(d: seq<Block>, ws: seq<Write>) {
    forall i :: 0 <= i < |ws| ==> ws[i].0 < |d|
  }

  function Apply(d: seq<Block>, ws: seq<Write>): (r: seq<Block>)
    requires Fits(d, ws)
    ensures |r| == |d|
  {
    if ws == [] then d
    else
      var n := |ws| - 1;
      Apply(d, ws[..n])[ws[n].0 := ws[n].1]
  }

  /** A transaction: distinct blocks outside the log that fit in it. */
  predicate TxOk(lh: seq<nat>, g: Region, disksize: nat) {
    && |lh| <= LOGSIZE && |lh| < g.size
    && (forall i :: 0 <= i < |lh| ==> lh[i] < disksize && lh[i] <= UINT_MAX && !InLog(g, lh[i]))
    && (forall i, j :: 0 <= i < j < |lh| ==> lh[i] != lh[j])
  }

  predicate DiskOk(d: seq<Block>, g: Region) {
    && 0 < g.size && g.start + g.size <= |d|
    && HeaderOk(d[g.start]) && TxOk(HeaderOf(d[g.start]), g, |d|)
  }

  function LogWrites(g: Region, data: seq<Block>): (ws: seq<Write>)
    ensures |ws| == |data| && forall t :: 0 <= t < |ws| ==> ws[t] == (g.start + 1 + t, data[t])
  {
    seq(|data|, t requires 0 <= t < |data| => (g.start + 1 + t, data[t]))
  }

  function HomeWrites(lh: seq<nat>, data: seq<Block>): (ws: seq<Write>)
    requires |lh| == |data|
    ensures |ws| == |data| && forall t :: 0 <= t < |ws| ==> ws[t] == (lh[t], data[t])
  {
    seq(|data|, t requires 0 <= t < |data| => (lh[t], data[t]))
  }

  ghost predicate Tx(d: seq<Block>, g: Region, lh: seq<nat>, data: seq<Block>) {
    DiskOk(d, g) && TxOk(lh, g, |d|) && |data| == |lh| && lh != []
  }

  /** The disk writes of commit, in order. */
  function CommitWrites(d: seq<Block>, g: Region, lh: seq<nat>, data: seq<Block>): (ws: seq<Write>)
    requires DiskOk(d, g) && TxOk(lh, g, |d|) && |data| == |lh|
    ensures Fits(d, ws) && |ws| == if lh == [] then 0 else 2 * |lh| + 2
  {
    if lh == [] then []
    else
      var head := PutHeader(d[g.start], lh);
      LogWrites(g, data) + [(g.start, head)] + HomeWrites(lh, data) + [(g.start, PutHeader(head, []))]
  }

  /** The blocks in the log, in header order. */
  function Logged(d: seq<Block>, g: Region): (data: seq<Block>)
    requires DiskOk(d, g)
    ensures |data| == |HeaderOf(d[g.start])| && forall t :: 0 <= t < |data| ==> data[t] == d[g.start + 1 + t]
  {
    d[g.start + 1..g.start + 1 + |HeaderOf(d[g.start])|]
  }

  /** The disk writes of recover_from_log, in order. */
  function RecoverWrites(d: seq<Block>, g: Region): (ws: seq<Write>)
    requires DiskOk(d, g)
    ensures Fits(d, ws) && |ws| == |HeaderOf(d[g.start])| + 1
  {
    HomeWrites(HeaderOf(d[g.start]), Logged(d, g)) + [(g.start, PutHeader(d[g.start], []))]
  }

  // ------------------------------------------------------------------------------------
  // What the disk stands for
  // ------------------------------------------------------------------------------------

  function IndexOf(lh: seq<nat>, b: nat): (t: nat)
    ensures t <= |lh|
    ensures t < |lh| ==> lh[t] == b
    ensures forall i :: 0 <= i < t ==> lh[i] != b
  {
    if lh == [] || lh[0] == b then 0 else 1 + IndexOf(lh[1..], b)
  }

  /** The value a completed recovery would give block b. */
  function Effective(d: seq<Block>, g: Region, b: nat): Block
    requires DiskOk(d, g) && b < |d|
  {
    var lh := HeaderOf(d[g.start]);
    var t := IndexOf(lh, b);
    if t < |lh| then d[g.start + 1 + t] else d[b]
  }

  /** The value of block b after the transaction. */
  function After(d: seq<Block>, lh: seq<nat>, data: seq<Block>, b: nat): Block
    requires |lh| == |data| && b < |d|
  {
    var t := IndexOf(lh, b);
    if t < |lh| then data[t] else d[b]
  }

  lemma ApplyNext(d: seq<Block>, ws: seq<Write>, k: nat)
    requires Fits(d, ws) && k < |ws|
    ensures Apply(d, ws[..k + 1]) == Apply(d, ws[..k])[ws[k].0 := ws[k].1]
  {
    assert ws[..k + 1][..k] == ws[..k];
  }

  /** Block b after the first k writes of a commit. */
  ghost function CommitAt(d: seq<Block>, g: Region, lh: seq<nat>, data: seq<Block>, k: nat, b: nat): Block
    requires Tx(d, g, lh, data) && b < |d|
  {
    var n := |lh|;
    if b == g.start then
      if k <= n then d[b]
      else if k <= 2 * n + 1 then PutHeader(d[b], lh)
      else PutHeader(PutHeader(d[b], lh), [])
    else if g.start < b <= g.start + n then
      if b - g.start - 1 < k then data[b - g.start - 1] else d[b]
    else
      var t := IndexOf(lh, b);
      if t < n && n + 1 + t < k then data[t] else d[b]
  }

  /** The disk after the first k writes of a commit. */
  function CommitDisk(d: seq<Block>, g: Region, lh: seq<nat>, data: seq<Block>, k: nat): (e: seq<Block>)
    requires Tx(d, g, lh, data) && k <= 2 * |lh| + 2
    ensures |e| == |d|
  {
    Apply(d, CommitWrites(d, g, lh, data)[..k])
  }

  lemma {:induction false} CommitPrefix(d: seq<Block>, g: Region, lh: seq<nat>, data: seq<Block>, k: nat, b: nat)
    requires Tx(d, g, lh, data) && k <= 2 * |lh| + 2 && b < |d|
    ensures CommitDisk(d, g, lh, data, k)[b] == CommitAt(d, g, lh, data, k, b)
  {
    if k > 0 {
      CommitPrefix(d, g, lh, data, k - 1, b);
      ApplyNext(d, CommitWrites(d, g, lh, data), k - 1);
      CommitNext(d, g, lh, data, k - 1, b);
    }
  }

  lemma CommitWriteIs(d: seq<Block>, g: Region, lh: seq<nat>, data: seq<Block>, k: nat)
    requires Tx(d, g, lh, data)
    requires k < 2 * |lh| + 2
    ensures var w, n := CommitWrites(d, g, lh, data)[k], |lh|;
            var head := PutHeader(d[g.start], lh);
            w == if k < n then (g.start + 1 + k, data[k])
                 else if k == n then (g.start, head)
                 else if k < 2 * n + 1 then (lh[k - n - 1], data[k - n - 1])
                 else (g.start, PutHeader(head, []))
  {
    hide PutHeader, HeaderOf, Word;
  }

  lemma IndexIs(lh: seq<nat>, t: nat)
    requires t < |lh| && forall i, j :: 0 <= i < j < |lh| ==> lh[i] != lh[j]
    ensures IndexOf(lh, lh[t]) == t
  {
  }

  /** Write k of a commit changes block b exactly as CommitAt says. */
  lemma CommitNext(d: seq<Block>, g: Region, lh: seq<nat>, data: seq<Block>, k: nat, b: nat)
    requires Tx(d, g, lh, data) && b < |d|
    requires k < 2 * |lh| + 2
    ensures var w := CommitWrites(d, g, lh, data)[k];
            CommitAt(d, g, lh, data, k + 1, b) == if w.0 == b then w.1 else CommitAt(d, g, lh, data, k, b)
  {
    hide CommitWrites, PutHeader, HeaderOf, Word, IndexOf;
    CommitWriteIs(d, g, lh, data, k);
    var n := |lh|;
    if n < k < 2 * n + 1 {
      IndexIs(lh, k - n - 1);
    }
  }

  ghost predicate Stands(d: seq<Block>, g: Region, target: seq<Block>) {
    && DiskOk(d, g) && |target| == |d|
    && forall b :: 0 <= b < |d| && !InLog(g, b) ==> Effective(d, g, b) == target[b]
  }

  function AfterAll(d: seq<Block>, lh: seq<nat>, data: seq<Block>): (r: seq<Block>)
    requires |lh| == |data|
    ensures |r| == |d| && forall b :: 0 <= b < |d| ==> r[b] == After(d, lh, data, b)
  {
    seq(|d|, b requires 0 <= b < |d| => After(d, lh, data, b))
  }

  /** The disk before the header write: only log blocks differ. */
  lemma BeforeHeader(d: seq<Block>, e: seq<Block>, g: Region)
    requires DiskOk(d, g) && HeaderOf(d[g.start]) == [] && |e| == |d|
    requires e[g.start] == d[g.start] && forall b :: 0 <= b < |d| && !InLog(g, b) ==> e[b] == d[b]
    ensures Stands(e, g, d)
  {
  }

  /** The disk from the header write to the last home write. */
  lemma AfterHeader(d: seq<Block>, e: seq<Block>, g: Region, lh: seq<nat>, data: seq<Block>)
    requires DiskOk(d, g) && TxOk(lh, g, |d|) && |data| == |lh| && |e| == |d|
    requires HeaderOk(e[g.start]) && HeaderOf(e[g.start]) == lh
    requires forall t :: 0 <= t < |lh| ==> e[g.start + 1 + t] == data[t]
    requires forall b :: 0 <= b < |d| && !InLog(g, b) && b !in lh ==> e[b] == d[b]
    ensures Stands(e, g, AfterAll(d, lh, data))
  {
    hide Word, HeaderOf;
    forall b | 0 <= b < |d| && !InLog(g, b)
      ensures Effective(e, g, b) == AfterAll(d, lh, data)[b]
    {
      var t := IndexOf(lh, b);
      if t < |lh| {
        assert e[g.start + 1 + t] == data[t];
      }
    }
  }

  /** The disk once the header is cleared. */
  lemma AfterClear(d: seq<Block>, e: seq<Block>, g: Region, lh: seq<nat>, data: seq<Block>)
    requires DiskOk(d, g) && TxOk(lh, g, |d|) && |data| == |lh| && |e| == |d|
    requires HeaderOk(e[g.start]) && HeaderOf(e[g.start]) == []
    requires forall b :: 0 <= b < |d| && !InLog(g, b) ==> e[b] == After(d, lh, data, b)
    ensures Stands(e, g, AfterAll(d, lh, data))
  {
    hide Word, HeaderOf;
  }

  ghost predicate IsCommitDisk(e: seq<Block>, d: seq<Block>, g: Region, lh: seq<nat>, data: seq<Block>, k: nat)
    requires Tx(d, g, lh, data)
  {
    |e| == |d| && forall b :: 0 <= b < |d| ==> e[b] == CommitAt(d, g, lh, data, k, b)
  }

  lemma StandsBefore(e: seq<Block>, d: seq<Block>, g: Region, lh: seq<nat>, data: seq<Block>, k: nat)
    requires Tx(d, g, lh, data) && HeaderOf(d[g.start]) == [] && IsCommitDisk(e, d, g, lh, data, k) && k <= |lh|
    ensures Stands(e, g, d)
  {
    BeforeHeader(d, e, g);
  }

  lemma StandsAfter(e: seq<Block>, d: seq<Block>, g: Region, lh: seq<nat>, data: seq<Block>, k: nat)
    requires Tx(d, g, lh, data) && IsCommitDisk(e, d, g, lh, data, k) && |lh| < k <= 2 * |lh| + 1
    ensures Stands(e, g, AfterAll(d, lh, data))
  {
    AfterHeader(d, e, g, lh, data);
  }

  lemma StandsClear(e: seq<Block>, d: seq<Block>, g: Region, lh: seq<nat>, data: seq<Block>)
    requires Tx(d, g, lh, data) && IsCommitDisk(e, d, g, lh, data, 2 * |lh| + 2)
    ensures Stands(e, g, AfterAll(d, lh, data)) && HeaderOf(e[g.start]) == []
  {
    AfterClear(d, e, g, lh, data);
  }

  /** A crash during commit: before the header write the disk stands for the old contents,
      from the header write on for the new ones. */
  lemma CommitStands(d: seq<Block>, g: Region, lh: seq<nat>, data: seq<Block>, k: nat)
    requires Tx(d, g, lh, data) && HeaderOf(d[g.start]) == [] && k <= 2 * |lh| + 2
    ensures Stands(CommitDisk(d, g, lh, data, k), g, if k <= |lh| then d else AfterAll(d, lh, data))
    ensures k == 2 * |lh| + 2 ==> HeaderOf(CommitDisk(d, g, lh, data, k)[g.start]) == []
  {
    var e := CommitDisk(d, g, lh, data, k);
    forall b | 0 <= b < |d|
      ensures e[b] == CommitAt(d, g, lh, data, k, b)
    {
      CommitPrefix(d, g, lh, data, k, b);
    }
    hide CommitAt, CommitDisk, Word, HeaderOf, Stands;
    if k <= |lh| {
      StandsBefore(e, d, g, lh, data, k);
    } else if k <= 2 * |lh| + 1 {
      StandsAfter(e, d, g, lh, data, k);
    } else {
      StandsClear(e, d, g, lh, data);
    }
  }

  // ------------------------------------------------------------------------------------
  // Recovery
  // ------------------------------------------------------------------------------------

  /** The disk after the first k writes of a recovery. */
  function RecoverDisk(d: seq<Block>, g: Region, k: nat): (e: seq<Block>)
    requires DiskOk(d, g) && k <= |HeaderOf(d[g.start])| + 1
    ensures |e| == |d|
  {
    Apply(d, RecoverWrites(d, g)[..k])
  }

  ghost function RecoverAt(d: seq<Block>, g: Region, k: nat, b: nat): Block
    requires DiskOk(d, g) && b < |d|
  {
    var lh := HeaderOf(d[g.start]);
    var t := IndexOf(lh, b);
    if b == g.start then if k <= |lh| then d[b] else PutHeader(d[b], [])
    else if t < |lh| && t < k then d[g.start + 1 + t]
    else d[b]
  }

  lemma RecoverWriteIs(d: seq<Block>, g: Region, k: nat)
    requires DiskOk(d, g) && k <= |HeaderOf(d[g.start])|
    ensures var lh := HeaderOf(d[g.start]);
            RecoverWrites(d, g)[k] ==
            if k < |lh| then (lh[k], d[g.start + 1 + k]) else (g.start, PutHeader(d[g.start], []))
  {
    hide PutHeader, Word, HeaderOf;
  }

  lemma IndexNext(lh: seq<nat>, k: nat, b: nat)
    requires k < |lh| && forall i, j :: 0 <= i < j < |lh| ==> lh[i] != lh[j]
    ensures if lh[k] == b then IndexOf(lh, b) == k else IndexOf(lh, b) != k
  {
  }

  lemma RecoverNext(d: seq<Block>, g: Region, lh: seq<nat>, k: nat, b: nat)
    requires DiskOk(d, g) && HeaderOf(d[g.start]) == lh && k <= |lh| && b < |d|
    ensures var w := if k < |lh| then (lh[k], d[g.start + 1 + k]) else (g.start, PutHeader(d[g.start], []));
            RecoverAt(d, g, k + 1, b) == if w.0 == b then w.1 else RecoverAt(d, g, k, b)
  {
    if k < |lh| {
      IndexNext(lh, k, b);
      assert lh[k] != g.start;
    }
    hide DiskOk, TxOk, PutHeader, HeaderOf, Word, IndexOf;
  }

  lemma RecoverStart(d: seq<Block>, g: Region, b: nat)
    requires DiskOk(d, g) && b < |d|
    ensures RecoverAt(d, g, 0, b) == d[b]
  {
  }

  lemma {:induction false} RecoverPrefix(d: seq<Block>, g: Region, k: nat, b: nat)
    requires DiskOk(d, g) && k <= |HeaderOf(d[g.start])| + 1 && b < |d|
    ensures RecoverDisk(d, g, k)[b] == RecoverAt(d, g, k, b)
  {
    hide RecoverWrites, PutHeader, HeaderOf, Word, RecoverAt;
    if k == 0 {
      RecoverStart(d, g, b);
    } else {
      RecoverPrefix(d, g, k - 1, b);
      ApplyNext(d, RecoverWrites(d, g), k - 1);
      RecoverWriteIs(d, g, k - 1);
      RecoverNext(d, g, HeaderOf(d[g.start]), k - 1, b);
    }
  }

  ghost predicate IsRecoverDisk(e: seq<Block>, d: seq<Block>, g: Region, k: nat)
    requires DiskOk(d, g)
  {
    |e| == |d| && forall b :: 0 <= b < |d| ==> e[b] == RecoverAt(d, g, k, b)
  }

  lemma RecoverMid(e: seq<Block>, d: seq<Block>, g: Region, k: nat)
    requires DiskOk(d, g) && k <= |HeaderOf(d[g.start])| && IsRecoverDisk(e, d, g, k)
    ensures Stands(e, g, AfterAll(d, HeaderOf(d[g.start]), Logged(d, g)))
  {
    var lh := HeaderOf(d[g.start]);
    forall t | 0 <= t < |lh|
      ensures e[g.start + 1 + t] == Logged(d, g)[t]
    {
      assert IndexOf(lh, g.start + 1 + t) == |lh|;
    }
    AfterHeader(d, e, g, lh, Logged(d, g));
  }

  lemma RecoverEnd(e: seq<Block>, d: seq<Block>, g: Region)
    requires DiskOk(d, g) && IsRecoverDisk(e, d, g, |HeaderOf(d[g.start])| + 1)
    ensures Stands(e, g, AfterAll(d, HeaderOf(d[g.start]), Logged(d, g))) && HeaderOf(e[g.start]) == []
  {
    AfterClear(d, e, g, HeaderOf(d[g.start]), Logged(d, g));
  }

  /** A recovery, completed or not, does not change what the disk stands for; a completed one
      puts it in place. */
  lemma StandsFor(d: seq<Block>, g: Region, target: seq<Block>)
    requires Stands(d, g, target)
    ensures var base := AfterAll(d, HeaderOf(d[g.start]), Logged(d, g));
            |base| == |d| && forall b :: 0 <= b < |d| && !InLog(g, b) ==> base[b] == target[b]
  {
    hide HeaderOf, Word;
    var base := AfterAll(d, HeaderOf(d[g.start]), Logged(d, g));
    assert forall b :: 0 <= b < |d| && !InLog(g, b) ==> base[b] == Effective(d, g, b);
  }

  lemma RecoverKeeps(d: seq<Block>, g: Region, k: nat, target: seq<Block>)
    requires Stands(d, g, target) && k <= |HeaderOf(d[g.start])| + 1
    ensures Stands(RecoverDisk(d, g, k), g, target)
    ensures k == |HeaderOf(d[g.start])| + 1 ==> HeaderOf(RecoverDisk(d, g, k)[g.start]) == []
  {
    hide RecoverDisk, RecoverAt, Apply, RecoverWrites, HeaderOf, Word, Effective, AfterAll;
    var e, lh := RecoverDisk(d, g, k), HeaderOf(d[g.start]);
    forall b | 0 <= b < |d|
      ensures e[b] == RecoverAt(d, g, k, b)
    {
      RecoverPrefix(d, g, k, b);
    }
    StandsFor(d, g, target);
    if k <= |lh| {
      RecoverMid(e, d, g, k);
    } else {
      RecoverEnd(e, d, g);
    }
  }

  lemma InPlace(d: seq<Block>, g: Region, target: seq<Block>, b: nat)
    requires Stands(d, g, target) && HeaderOf(d[g.start]) == [] && b < |d| && !InLog(g, b)
    ensures d[b] == target[b]
  {
    assert Effective(d, g, b) == target[b];
  }

  /** The disk after recoveries that crashed: recovery i got through cuts[i] of its writes. */
  function Crashed(d: seq<Block>, g: Region, cuts: seq<nat>): seq<Block>
    requires DiskOk(d, g)
    decreases |cuts|
  {
    if cuts == [] then d
    else
      var n := |HeaderOf(d[g.start])| + 1;
      var e := RecoverDisk(d, g, if cuts[0] < n then cuts[0] else n);
      if DiskOk(e, g) then Crashed(e, g, cuts[1..]) else e
  }

  lemma {:induction false} CrashedStands(d: seq<Block>, g: Region, cuts: seq<nat>, target: seq<Block>)
    requires Stands(d, g, target)
    ensures Stands(Crashed(d, g, cuts), g, target)
    decreases |cuts|
  {
    if cuts != [] {
      var n := |HeaderOf(d[g.start])| + 1;
      var k := if cuts[0] < n then cuts[0] else n;
      RecoverKeeps(d, g, k, target);
      CrashedStands(RecoverDisk(d, g, k), g, cuts[1..], target);
    }
  }

  /** recover_from_log, run to the end. */
  function Recovered(d: seq<Block>, g: Region): seq<Block>
    requires DiskOk(d, g)
  {
    RecoverDisk(d, g, |HeaderOf(d[g.start])| + 1)
  }

  lemma RecoveredIs(d: seq<Block>, g: Region, target: seq<Block>)
    requires Stands(d, g, target)
    ensures var e := Recovered(d, g);
            Stands(e, g, target) && HeaderOf(e[g.start]) == [] &&
            forall b :: 0 <= b < |d| && !InLog(g, b) ==> e[b] == target[b]
  {
    RecoverKeeps(d, g, |HeaderOf(d[g.start])| + 1, target);
    var e := Recovered(d, g);
    forall b | 0 <= b < |d| && !InLog(g, b)
      ensures e[b] == target[b]
    {
      InPlace(e, g, target, b);
    }
  }

  /** Crash atomicity. Commit a transaction on a disk with an empty log, crash after any k of
      its writes, crash any number of recoveries at any point, and recover: every block
      outside the log has its old value if the header was not yet written, and its value
      after the whole transaction if it was. */
  lemma CrashAtomic(d: seq<Block>, g: Region, lh: seq<nat>, data: seq<Block>, k: nat, cuts: seq<nat>)
    requires Tx(d, g, lh, data) && HeaderOf(d[g.start]) == [] && k <= 2 * |lh| + 2
    ensures var e := CommitDisk(d, g, lh, data, k);
            DiskOk(e, g) && DiskOk(Crashed(e, g, cuts), g) &&
            var r := Recovered(Crashed(e, g, cuts), g);
            && |r| == |d| && HeaderOk(r[g.start]) && HeaderOf(r[g.start]) == []
            && forall b :: 0 <= b < |d| && !InLog(g, b) ==>
                 r[b] == if k <= |lh| then d[b] else After(d, lh, data, b)
  {
    var target := if k <= |lh| then d else AfterAll(d, lh, data);
    var e := CommitDisk(d, g, lh, data, k);
    CommitStands(d, g, lh, data, k);
    CrashedStands(e, g, cuts, target);
    RecoveredIs(Crashed(e, g, cuts), g, target);
    hide Crashed, Recovered, CommitDisk, Effective;
  }
}

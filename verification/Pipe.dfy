/** Pipes (xv6/pipe.c): a ring of 512 bytes with 32-bit counters that wrap, shared by readers and
    writers that give up the lock whenever they sleep. */
module Pipe {
  import opened Numbers

  const PIPESIZE := 512
  const WORD := 0x1_0000_0000

  type uint = x: int | 0 <= x < WORD

  /** A stored byte and the process that stored it. */
  datatype Sent = Sent(who: nat, b: byte)

  function Tagged(s: seq<byte>, p: nat): (r: seq<Sent>)
    ensures |r| == |s| && forall k :: 0 <= k < |s| ==> r[k] == Sent(p, s[k])
  {
    seq(|s|, k requires 0 <= k < |s| => Sent(p, s[k]))
  }

  function Plain(s: seq<Sent>): (r: seq<byte>)
    ensures |r| == |s| && forall k :: 0 <= k < |s| ==> r[k] == s[k].b
  {
    seq(|s|, k requires 0 <= k < |s| => s[k].b)
  }

  // ------------------------------------------------------------------------------------
  // Counters that wrap
  // ------------------------------------------------------------------------------------

  /** Wrapped counters no more than PIPESIZE apart tell empty and full. */
  lemma WrapCompare(n: nat, m: nat)
    requires m <= n <= m + PIPESIZE
    ensures n % WORD == m % WORD <==> n == m
    ensures n % WORD == (m % WORD + PIPESIZE) % WORD <==> n == m + PIPESIZE
  {
  }

  /** They index the ring as unbounded counters would, because 512 divides the word size. */
  lemma WrapIndex(n: nat)
    ensures n % WORD % PIPESIZE == n % PIPESIZE
  {
    assert n == PIPESIZE * (0x800000 * (n / WORD) + n % WORD / PIPESIZE) + n % WORD % PIPESIZE;
  }

  lemma WrapNext(n: nat)
    ensures (n % WORD + 1) % WORD == (n + 1) % WORD
  {
  }

  lemma Apart(k: nat, n: nat)
    requires k < n < k + PIPESIZE
    ensures k % PIPESIZE != n % PIPESIZE
  {
  }

  /** The ring holds the bytes in flight. */
  ghost predicate Ring(data: seq<byte>, sent: seq<Sent>, got: nat) {
    && |data| == PIPESIZE && got <= |sent| <= got + PIPESIZE
    && forall k :: got <= k < |sent| ==> data[k % PIPESIZE] == sent[k].b
  }

  lemma RingPut(data: seq<byte>, sent: seq<Sent>, got: nat, x: Sent)
    requires Ring(data, sent, got) && |sent| < got + PIPESIZE
    ensures Ring(data[|sent| % PIPESIZE := x.b], sent + [x], got)
  {
    var d, t := data[|sent| % PIPESIZE := x.b], sent + [x];
    forall k | got <= k < |t|
      ensures d[k % PIPESIZE] == t[k].b
    {
      if k < |sent| {
        Apart(k, |sent|);
      }
    }
  }

  lemma RingGet(data: seq<byte>, sent: seq<Sent>, got: nat)
    requires Ring(data, sent, got) && got < |sent|
    ensures data[got % PIPESIZE] == sent[got].b && Ring(data, sent, got + 1)
  {
  }

  lemma RingSize(data: seq<byte>, sent: seq<Sent>, got: nat)
    requires Ring(data, sent, got)
    ensures |data| == PIPESIZE && got <= |sent| <= got + PIPESIZE
  {
  }

  /** How a stretch of pipewrite or piperead under the lock ends. */
  datatype Outcome = Done | Killed | Asleep

  class Pipe {
    var data: array<byte>
    var nread: uint
    var nwrite: uint
    var readopen: bool
    var writeopen: bool
    // Everything stored so far, and how much of it has been read.
    ghost var sent: seq<Sent>
    ghost var got: nat

    ghost predicate Valid()
      reads this, data
    {
      Ring(data[..], sent, got) && nread == got % WORD && nwrite == |sent| % WORD
    }

    /** pipealloc. */
    constructor ()
      ensures Valid() && fresh(data) && readopen && writeopen && sent == [] && got == 0
    {
      data := new byte[PIPESIZE];
      nread, nwrite, readopen, writeopen := 0, 0, true, true;
      sent, got := [], 0;
    }

    /** pipewrite from byte i on, until it is done, gives up, or sleeps. */
    method WriteOn(addr: seq<byte>, i: nat, p: nat, killed: bool) returns (o: Outcome, j: nat)
      requires Valid() && i <= |addr|
      modifies this, data
      ensures Valid() && data == old(data) && got == old(got) && readopen == old(readopen)
      ensures writeopen == old(writeopen)
      ensures i <= j <= |addr| && sent == old(sent) + Tagged(addr[i..j], p)
      ensures o == Done <==> j == |addr|
      ensures o == Killed ==> |sent| == got + PIPESIZE && (!readopen || killed)
      ensures o == Asleep ==> |sent| == got + PIPESIZE && readopen && !killed
    {
      hide Ring;
      j := i;
      RingSize(data[..], sent, got);
      assert addr[i..j] == [] && sent + Tagged([], p) == sent;
      while j < |addr|
        invariant data.Length == PIPESIZE && got <= |sent| <= got + PIPESIZE
        invariant i <= j <= |addr| && Valid() && data == old(data) && got == old(got)
        invariant readopen == old(readopen) && writeopen == old(writeopen)
        invariant sent == old(sent) + Tagged(addr[i..j], p)
      {
        WrapCompare(|sent|, got);
        if nwrite == (nread + PIPESIZE) % WORD {
          return if !readopen || killed then Killed else Asleep, j;
        }
        WrapIndex(|sent|);
        WrapNext(|sent|);
        RingPut(data[..], sent, got, Sent(p, addr[j]));
        ghost var d := data[..];
        data[nwrite % PIPESIZE] := addr[j];
        assert data[..] == d[nwrite % PIPESIZE := addr[j]];
        nwrite := (nwrite + 1) % WORD;
        sent := sent + [Sent(p, addr[j])];
        assert addr[i..j + 1] == addr[i..j] + [addr[j]];
        j := j + 1;
      }
      return Done, j;
    }

    /** piperead, until it is done, gives up, or sleeps. */
    method ReadOn(n: nat, killed: bool) returns (o: Outcome, dst: seq<byte>)
      requires Valid()
      modifies this
      ensures Valid() && data == old(data) && sent == old(sent) && readopen == old(readopen)
      ensures writeopen == old(writeopen)
      ensures o != Done <==> old(got) == |sent| && writeopen
      ensures o != Done ==> got == old(got) && dst == [] && (o == Killed <==> killed)
      ensures o == Done ==> got == old(got) + |dst| && dst == Plain(sent[old(got)..got])
      ensures o == Done ==> |dst| <= n && (|dst| < n ==> got == |sent|)
      ensures o == Done && n > 0 && dst == [] ==> got == |sent| && !writeopen
    {
      hide Ring;
      dst := [];
      RingSize(data[..], sent, got);
      WrapCompare(|sent|, got);
      if nread == nwrite && writeopen {
        return if killed then Killed else Asleep, [];
      }
      while |dst| < n
        invariant Valid() && data == old(data) && sent == old(sent) && readopen == old(readopen)
        invariant writeopen == old(writeopen)
        invariant data.Length == PIPESIZE && got <= |sent|
        invariant |dst| <= n && got == old(got) + |dst| && dst == Plain(sent[old(got)..got])
      {
        RingSize(data[..], sent, got);
        WrapCompare(|sent|, got);
        if nread == nwrite {
          break;
        }
        WrapIndex(got);
        WrapNext(got);
        RingGet(data[..], sent, got);
        dst := dst + [data[nread % PIPESIZE]];
        nread := (nread + 1) % WORD;
        got := got + 1;
      }
      return Done, dst;
    }

    /** pipeclose; last tells that both ends are closed and the pipe is freed. */
    method Close(writable: bool) returns (last: bool)
      requires Valid()
      modifies this
      ensures Valid() && data == old(data) && sent == old(sent) && got == old(got)
      ensures writeopen == (old(writeopen) && !writable) && readopen == (old(readopen) && writable)
      ensures last == (!readopen && !writeopen)
    {
      if writable {
        writeopen := false;
      } else {
        readopen := false;
      }
      last := !readopen && !writeopen;
    }
  }
}

/** The pipe in memory: a ring of PIPESIZE bytes and two counters that wrap around at 2^32. */
module Pipes {
  import opened Machine
  import opened PipeSpec

  // The bytes from position r of the ring on.
  function Ring(data: seq<Byte>, r: nat, count: nat): (q: seq<Byte>)
    requires |data| == PIPESIZE
    ensures |q| == count && forall k | 0 <= k < count :: q[k] == data[(r + k) % PIPESIZE]
  {
    seq(count, k requires 0 <= k < count => data[(r + k) % PIPESIZE])
  }

  // Adding a byte at the counter, which may have wrapped.
  lemma RingPush(data: seq<Byte>, nread: Uint, nwrite: Uint, count: nat, x: Byte)
    requires |data| == PIPESIZE && count < PIPESIZE && nwrite == (nread + count) % UINT
    ensures Ring(data[nwrite % PIPESIZE := x], nread, count + 1) == Ring(data, nread, count) + [x]
  {
    var d := data[nwrite % PIPESIZE := x];
    WrapIndex(nread + count);
    forall k | 0 <= k < count + 1
      ensures Ring(d, nread, count + 1)[k] == (Ring(data, nread, count) + [x])[k]
    {
      if k < count {
        OtherIndex(nread, k, count);
      }
    }
  }

  lemma WrapIndex(n: nat)
    ensures n % UINT % PIPESIZE == n % PIPESIZE
  {
    assert n == UINT * (n / UINT) + n % UINT;
    assert UINT * (n / UINT) == PIPESIZE * (0x80_0000 * (n / UINT));
  }

  lemma OtherIndex(r: nat, j: nat, k: nat)
    requires j < k < PIPESIZE
    ensures (r + j) % PIPESIZE != (r + k) % PIPESIZE
  {}

  lemma RingPop(data: seq<Byte>, nread: Uint, count: nat)
    requires |data| == PIPESIZE && 0 < count <= PIPESIZE
    ensures Ring(data, nread, count)[0] == data[nread % PIPESIZE]
    ensures Ring(data, (nread + 1) % UINT, count - 1) == Ring(data, nread, count)[1..]
  {
    forall k | 0 <= k < count - 1
      ensures Ring(data, (nread + 1) % UINT, count - 1)[k] == Ring(data, nread, count)[1..][k]
    {
      WrapSum(nread + 1, k);
    }
  }

  lemma WrapSum(n: nat, k: nat)
    ensures (n % UINT + k) % PIPESIZE == (n + k) % PIPESIZE
  {
    assert n == UINT * (n / UINT) + n % UINT;
    assert UINT * (n / UINT) == PIPESIZE * (0x80_0000 * (n / UINT));
    assert n + k == PIPESIZE * (0x80_0000 * (n / UINT)) + (n % UINT + k);
  }

  // The counters are a distance apart, modulo 2^32.
  lemma CountUp(nread: Uint, nwrite: Uint)
    requires (nwrite - nread) % UINT <= PIPESIZE
    ensures nwrite == (nread + (nwrite - nread) % UINT) % UINT
    ensures ((nwrite + 1) % UINT - nread) % UINT == (nwrite - nread) % UINT + 1
    ensures nwrite == (nread + PIPESIZE) % UINT <==> (nwrite - nread) % UINT == PIPESIZE
  {
    var d := nwrite - nread;
    assert d % UINT == if d < 0 then d + UINT else d;
  }

  lemma CountDown(nread: Uint, nwrite: Uint)
    requires nread != nwrite
    ensures 0 < (nwrite - nread) % UINT
    ensures (nwrite - (nread + 1) % UINT) % UINT == (nwrite - nread) % UINT - 1
  {
    var d := nwrite - nread;
    assert d % UINT == if d < 0 then d + UINT else d;
  }

  class PipeBuf {
    const data: array<Byte>
    var nread: Uint
    var nwrite: Uint
    var readopen: bool
    var writeopen: bool
    // The processes asleep on &nread and on &nwrite.
    ghost var onRead: set<nat>
    ghost var onWrite: set<nat>

    ghost function Count(): nat
      reads this
    {
      (nwrite - nread) % UINT
    }

    ghost predicate Valid()
      reads this
    {
      data.Length == PIPESIZE && Count() <= PIPESIZE
    }

    ghost function Value(): (p: Pipe)
      requires Valid()
      reads this, data
      ensures |p.queue| <= PIPESIZE
    {
      Pipe(Ring(data[..], nread, Count()), readopen, writeopen, onRead, onWrite)
    }

    // Where in the array the bytes of the pipe are.
    lemma InArray()
      requires Valid()
      ensures |Value().queue| == (nwrite - nread) % 0x1_0000_0000 <= 512 == data.Length
      ensures forall k | 0 <= k < |Value().queue| :: Value().queue[k] == data[(nread + k) % 512]
    {}

    constructor ()
      ensures Valid() && fresh(data) && Value() == START.pipe
    {
      data := new Byte[PIPESIZE];
      nread, nwrite, readopen, writeopen := 0, 0, true, true;
      onRead, onWrite := {}, {};
    }

    // p->nwrite == p->nread + PIPESIZE, in uint arithmetic
    predicate Full()
      reads this
    {
      nwrite == (nread + PIPESIZE) % UINT
    }

    lemma FullEmpty()
      requires Valid()
      ensures Full() <==> |Value().queue| == PIPESIZE
      ensures nread == nwrite <==> Value().queue == []
    {
      CountUp(nread, nwrite);
    }

    // p->data[p->nwrite++ % PIPESIZE] = x
    method Put(x: Byte)
      requires Valid() && !Full()
      modifies data, this`nwrite
      ensures Valid() && Value() == old(Value()).(queue := old(Value()).queue + [x])
    {
      ghost var before, count := data[..], Count();
      CountUp(nread, nwrite);
      data[nwrite % PIPESIZE] := x;
      assert data[..] == before[nwrite % PIPESIZE := x];
      hide Ring;
      RingPush(before, nread, nwrite, count, x);
      nwrite := (nwrite + 1) % UINT;
      assert Count() == count + 1;
    }

    // p->data[p->nread++ % PIPESIZE]
    method Get() returns (x: Byte)
      requires Valid() && nread != nwrite
      modifies this`nread
      ensures old(Value()).queue != [] && x == old(Value()).queue[0]
      ensures Valid() && Value() == old(Value()).(queue := old(Value()).queue[1..])
    {
      hide Ring;
      ghost var count := Count();
      CountDown(nread, nwrite);
      RingPop(data[..], nread, count);
      x := data[nread % PIPESIZE];
      nread := (nread + 1) % UINT;
      assert Count() == count - 1;
    }

    // pipewrite, from taking the lock to returning or going to sleep; start bytes of src are in already.
    method Write(me: nat, src: seq<Byte>, start: nat, killed: bool) returns (out: Outcome, i: nat)
      requires Valid() && start <= |src|
      modifies this`nwrite, this`onRead, this`onWrite, data
      ensures Valid()
      ensures start <= i <= |src| && i == start + Space(old(Value()), src[start..])
      ensures out == WriteOutcome(old(Value()), src[start..], killed)
      ensures Value() == WriteStep(old(Value()), me, src[start..], killed)
      ensures Value().queue == old(Value()).queue + src[start..i] && (i < |src| ==> |Value().queue| == 512)
      ensures (out == Done <==> i == |src|) && (out == Failed <==> i < |src| && (!readopen || killed))
      ensures onRead == (if out == Failed then old(onRead) else {})
      ensures onWrite == (if out == Asleep then old(onWrite) + {me} else old(onWrite))
    {
      hide Ring;
      ghost var p := Value();
      i := start;
      assert src[start..i] == [];
      while i < |src|
        invariant start <= i <= |src| && Valid()
        invariant Value() == p.(queue := p.queue + src[start..i])
      {
        FullEmpty();
        if Full() {
          assert src[start..][..i - start] == src[start..i];
          if !readopen || killed {
            return Failed, i;
          }
          onRead := {};
          onWrite := onWrite + {me};
          return Asleep, i;
        }
        Put(src[i]);
        assert (p.queue + src[start..i]) + [src[i]] == p.queue + src[start..i + 1];
        i := i + 1;
      }
      assert src[start..][..i - start] == src[start..i];
      onRead := {};
      out := Done;
    }

    // piperead, from taking the lock to returning or going to sleep.
    method Read(me: nat, n: int, killed: bool) returns (out: Outcome, dst: seq<Byte>)
      requires Valid()
      modifies this`nread, this`onRead, this`onWrite
      ensures Valid() && out == ReadOutcome(old(Value()), killed)
      ensures Value() == ReadStep(old(Value()), me, n, killed)
      ensures out == Done ==> dst == old(Value()).queue[..Taken(old(Value()), n)]
      ensures out == Done <==> old(nread != nwrite) || !writeopen
      ensures out == Failed <==> old(nread == nwrite) && writeopen && killed
      ensures out == Done ==>
                && dst + Value().queue == old(Value()).queue && onWrite == {} && onRead == old(onRead)
                && |dst| <= Max(n, 0) && (|dst| == Max(n, 0) || Value().queue == [])
      ensures out != Done ==> dst == [] && Value().queue == old(Value()).queue && onWrite == old(onWrite)
      ensures out != Done ==> onRead == (if out == Asleep then old(onRead) + {me} else old(onRead))
    {
      hide Ring;
      dst := [];
      FullEmpty();
      if nread == nwrite && writeopen {
        if killed {
          return Failed, dst;
        }
        onRead := onRead + {me};
        return Asleep, dst;
      }
      dst := CopyOut(n);
      onWrite := {};
      out := Done;
    }

    // piperead's loop
    method CopyOut(n: int) returns (dst: seq<Byte>)
      requires Valid()
      modifies this`nread
      ensures Valid() && |dst| <= |old(Value()).queue| && |dst| == (if n <= 0 then 0 else Min(n, |old(Value()).queue|))
      ensures dst == old(Value()).queue[..|dst|]
      ensures Value() == old(Value()).(queue := old(Value()).queue[|dst|..])
    {
      hide Ring; hide Count;
      ghost var q := Value().queue;
      dst := [];
      var i := 0;
      while i < n
        invariant 0 <= i <= |q| && (i <= n || i == 0) && Valid()
        invariant Value() == old(Value()).(queue := q[i..]) && dst == q[..i]
        decreases n - i
      {
        FullEmpty();
        if nread == nwrite {
          break;
        }
        var x := Get();
        dst := dst + [x];
        assert q[i..][1..] == q[i + 1..] && q[..i] + [q[i]] == q[..i + 1];
        i := i + 1;
      }
      FullEmpty();
    }

    // pipeclose; is the pipe to be freed?
    method Close(writable: bool) returns (gone: bool)
      requires Valid()
      modifies this`readopen, this`writeopen, this`onRead, this`onWrite
      ensures Valid() && Value() == CloseStep(old(Value()), writable) && (gone <==> !readopen && !writeopen)
      ensures writeopen == (old(writeopen) && !writable) && readopen == (old(readopen) && writable)
      ensures onRead == (if writable then {} else old(onRead)) && onWrite == (if writable then old(onWrite) else {})
    {
      if writable {
        writeopen := false;
        onRead := {};
      } else {
        readopen := false;
        onWrite := {};
      }
      gone := !readopen && !writeopen;
    }
  }
}

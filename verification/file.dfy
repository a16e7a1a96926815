/** Open files: writing in chunks, each a transaction of its own that fits its log reservation. */
module Files {
  import opened Machine
  import opened Blocks
  import opened Bytes
  import opened FsSpec
  import opened FsOps
  import opened Fs

  // ((MAXOPBLOCKS-1-1-2) / 2) * 512
  const CHUNK: nat := (MAXOPBLOCKS - 1 - 1 - 2) / 2 * 512

  lemma SpliceAgain(c: seq<Byte>, off: nat, a: seq<Byte>, b: seq<Byte>)
    requires off <= |c|
    ensures off + |a| <= |SpliceFile(c, off, a)|
    ensures SpliceFile(SpliceFile(c, off, a), off + |a|, b) == SpliceFile(c, off, a + b)
  {
    var d := SpliceFile(c, off, a);
    assert d[..off + |a|] == c[..off] + a;
    if off + |a| + |b| < |d| {
      assert d[off + |a| + |b|..] == c[off + |a| + |b|..];
    }
  }

  lemma SpliceNothing(c: seq<Byte>, off: nat)
    requires off <= |c|
    ensures SpliceFile(c, off, []) == c
  {}

  lemma SizeFits(disk: Disk, sb: Superblock, its: seq<Inode>, owner: map<nat, Slot>, i: nat)
    requires Owned(disk, sb, its, owner) && AllNoHoles(disk, its) && i < |its|
    ensures its[i].size <= MAXFILE * BSIZE && |its[i].addrs| == NDIRECT + 1
  {
    NoHolesAt(disk, its, i);
  }

  // The first chunk that does not fit in a file of the greatest size starts at i.
  predicate FirstUnfit(off: nat, n: nat, i: nat) {
    i < n && i % 1536 == 0 && off + i <= 140 * 512 < off + i + Min(n - i, 1536)
  }

  lemma StopsHere(off: nat, n: nat, i: nat)
    requires i < n && i % CHUNK == 0 && off + i <= MAXFILE * BSIZE < off + i + Min(n - i, CHUNK)
    ensures FirstUnfit(off, n, i)
  {}

  lemma NextChunk(c: seq<Byte>, off: nat, src: seq<Byte>, i: nat, m: nat)
    requires off <= |c| && i + m <= |src|
    ensures off + i <= |SpliceFile(c, off, src[..i])|
    ensures SpliceFile(SpliceFile(c, off, src[..i]), off + i, src[i..i + m]) == SpliceFile(c, off, src[..i + m])
  {
    SpliceAgain(c, off, src[..i], src[i..i + m]);
    assert src[..i] + src[i..i + m] == src[..i + m];
  }

  // Every transaction fits its reservation.
  ghost predicate Small(logs: seq<set<nat>>) {
    forall k | 0 <= k < |logs| :: |logs[k]| <= 7 <= MAXOPBLOCKS
  }

  lemma SmallNone()
    ensures Small([])
  {}

  lemma SmallNext(logs: seq<set<nat>>, x: set<nat>)
    ensures Small(logs) && |x| <= 7 ==> Small(logs + [x])
  {}

  // How many chunks of 1536 bytes n bytes take.
  function Chunks(n: nat): nat {
    (n + 1535) / 1536
  }

  lemma ChunksNone()
    ensures Chunks(0) == 0
  {}

  lemma ChunksNext(i: nat, m: nat)
    requires i % CHUNK == 0 && 0 < m <= CHUNK
    ensures Chunks(i + m) == Chunks(i) + 1 && (m == CHUNK ==> (i + m) % CHUNK == 0)
  {}

  class File {
    const fs: FileSystem
    const ip: nat
    const writable: bool
    var off: Uint

    constructor (fs: FileSystem, ip: nat, writable: bool)
      ensures this.fs == fs && this.ip == ip && this.writable == writable && off == 0
    {
      this.fs, this.ip, this.writable, off := fs, ip, writable, 0;
    }

    // One transaction: begin_op, writei, end_op.
    method WriteChunk(src: seq<Byte>) returns (ok: bool, r: int)
      requires fs.Inv() && ip < |fs.its| && fs.its[ip].typ != T_DEV && 0 < |src| <= CHUNK
      modifies fs`disk, fs`its, fs`owner, fs`logged, fs`op, fs`start, fs`journal, this`off
      ensures !ok ==> DiskFull(fs.sb, fs.owner)
      ensures !ok ==> old(off + |src| > fs.its[ip].size)
      ensures ok ==> fs.Inv() && |fs.its| == old(|fs.its|) && fs.its[ip].typ == old(fs.its[ip].typ)
      ensures ok ==> fs.its[ip].size >= old(fs.its[ip].size)
      ensures ok ==> fs.its[ip].size <= MAXFILE * BSIZE && |fs.its[ip].addrs| == NDIRECT + 1
      ensures ok && old(off <= fs.its[ip].size && off + |src| <= MAXFILE * BSIZE) ==>
                && r == |src| && off == old(off) + |src|
                && Contents(fs.disk, fs.its[ip]) == SpliceFile(old(Contents(fs.disk, fs.its[ip])), old(off), src)
      ensures ok && !old(off <= fs.its[ip].size && off + |src| <= MAXFILE * BSIZE) ==>
                r == -1 && off == old(off) && fs.disk == old(fs.disk) && fs.its == old(fs.its)
      ensures ok && fs.sb.size <= BPB ==> |fs.logged| <= 7
    {
      hide SlotsOwn; hide OwnersPoint; hide FreeMap; hide FileByte; hide Ptr; hide DiskFull; hide OnDisk;
      hide SpliceFile;
      hide AllNoHoles; hide FilesWritten; hide WriteSet; hide Contents;
      NoHolesAt(fs.disk, fs.its, ip);
      ghost var size, typ := fs.its[ip].size, fs.its[ip].typ;
      fs.Begin(fs.op + 1);
      ok, r := fs.Writei(ip, src, off, map[]);
      if !ok {
        return;
      }
      NoHolesAt(fs.disk, fs.its, ip);
      if fs.sb.size <= BPB {
        WriteSetCount(fs.disk, fs.sb, fs.its[ip], ip, off, |src|);
        Subset(fs.logged, WriteSet(fs.disk, fs.sb, fs.its[ip], ip, off, |src|));
      }
      if r > 0 {
        off := off + r;
      }
    }

    // filewrite: r is n exactly if all n bytes fit; otherwise the chunks before the first that does
    // not fit are written, and the file offset is just behind them.
    method Write(src: seq<Byte>, n: int) returns (ok: bool, r: int, ghost logs: seq<set<nat>>)
      requires fs.Inv() && ip < |fs.its| && fs.its[ip].typ != T_DEV && n <= |src|
      modifies fs`disk, fs`its, fs`owner, fs`logged, fs`op, fs`start, fs`journal, this`off
      ensures !ok ==> DiskFull(fs.sb, fs.owner)
      ensures !ok ==> old(off + n > fs.its[ip].size)
      ensures ok ==> fs.Inv() && |fs.its| == old(|fs.its|)
      ensures ok ==> fs.its[ip].size <= MAXFILE * BSIZE && |fs.its[ip].addrs| == NDIRECT + 1
      ensures ok && (!writable || n < 0) ==>
          r == -1 && off == old(off) && fs.disk == old(fs.disk) && fs.its == old(fs.its)
      ensures ok && writable && n > 0 && old(off > fs.its[ip].size) ==>
                r == -1 && off == old(off) && fs.disk == old(fs.disk) && fs.its == old(fs.its)
      ensures ok && writable && n >= 0 && old(off <= fs.its[ip].size) ==>
                && old(off) <= off <= old(off) + n
                && Contents(fs.disk, fs.its[ip]) ==
                     SpliceFile(old(Contents(fs.disk, fs.its[ip])), old(off), src[..off - old(off)])
                && (if old(off) + n <= 140 * 512 then r == n && off == old(off) + n
                    else r == -1 && FirstUnfit(old(off), n, off - old(off)))
                && |logs| == Chunks(off - old(off)) + (if r == n then 0 else 1)
      ensures ok && fs.sb.size <= BPB ==> Small(logs)
    {
      hide SlotsOwn; hide OwnersPoint; hide FreeMap; hide FileByte; hide Ptr; hide DiskFull; hide OnDisk;
      hide SpliceFile;
      hide AllNoHoles; hide Contents; hide Owned; hide Chunks; hide FirstUnfit; hide Small;
      ChunksNone();
      SmallNone();
      logs := [];
      r := 0;
      SizeFits(fs.disk, fs.sb, fs.its, fs.owner, ip);
      if !writable {
        return true, -1, logs;
      }
      ghost var c0, off0, size0 := Contents(fs.disk, fs.its[ip]), off, fs.its[ip].size;
      var max, i := CHUNK, 0;
      if off0 <= size0 {
        SpliceNothing(c0, off0);
      }
      while i < n
        invariant 0 <= i <= Max(n, 0) && fs.Inv() && |fs.its| == old(|fs.its|) && fs.its[ip].typ != T_DEV
        invariant fs.its[ip].size <= MAXFILE * BSIZE && |fs.its[ip].addrs| == NDIRECT + 1
        invariant fs.its[ip].size >= size0
        invariant off == off0 + i && (i < n ==> i % CHUNK == 0) && |logs| == Chunks(i)
        invariant i == 0 ==> fs.disk == old(fs.disk) && fs.its == old(fs.its)
        invariant off0 > size0 ==> i == 0
        invariant off0 <= size0 ==> Contents(fs.disk, fs.its[ip]) == SpliceFile(c0, off0, src[..i])
        invariant i > 0 ==> off0 + i <= MAXFILE * BSIZE
        invariant fs.sb.size <= BPB ==> Small(logs)
        decreases n - i
      {
        var n1 := n - i;
        if n1 > max {
          n1 := max;
        }
        ChunksNext(i, n1);
        if off0 <= size0 {
          NextChunk(c0, off0, src, i, n1);
        }
        ok, r := WriteChunk(src[i..i + n1]);
        if !ok {
          return;
        }
        SmallNext(logs, fs.logged);
        logs := logs + [fs.logged];
        if r < 0 {
          break;
        }
        assert r == n1;  // never a short write
        i := i + r;
      }
      ok := true;
      if i < n && off0 <= size0 {
        StopsHere(off0, n, i);
      }
      r := if i == n then n else -1;
    }
  }

  lemma {:induction false} Subset(a: set<nat>, b: set<nat>)
    requires a <= b
    ensures |a| <= |b|
    decreases a
  {
    if a != {} {
      var x :| x in a;
      Subset(a - {x}, b - {x});
    }
  }
}

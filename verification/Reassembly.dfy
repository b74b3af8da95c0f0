/** The receiver's file: writes at an offset, in any order and any number of times
    (N-Channel-StopNWait/server.c). */
module Reassembly {
  import opened Payload

  /** One fseek(fp, at, SEEK_SET) followed by fwrite(bytes). */
  datatype Write = Write(at: nat, bytes: seq<Byte>)

  /** Writing beyond the end leaves a hole that reads as NULs; writing nothing changes nothing. */
  function WriteAt(file: seq<Byte>, w: Write): (f: seq<Byte>)
  {
    if w.bytes == [] then file
    else
      var end := w.at + |w.bytes|;
      var gap := if w.at <= |file| then file[..w.at] else file + Zeros(w.at - |file|);
      gap + w.bytes + (if end <= |file| then file[end..] else [])
  }

  function WriteAll(log: seq<Write>): (f: seq<Byte>)
  {
    if log == [] then [] else WriteAt(WriteAll(log[..|log| - 1]), log[|log| - 1])
  }

  /** Every write is a piece of the stream p at its own offset. */
  ghost predicate Drawn(p: seq<Byte>, log: seq<Write>)
  {
    forall w :: w in log ==> w.at + |w.bytes| <= |p| && w.bytes == p[w.at..w.at + |w.bytes|]
  }

  ghost predicate Touches(w: Write, j: int)
  {
    w.at <= j < w.at + |w.bytes|
  }

  ghost predicate Covered(log: seq<Write>, j: int)
  {
    exists w :: w in log && Touches(w, j)
  }

  lemma CoveredSnoc(log: seq<Write>, w: Write, j: int)
    ensures Covered(log + [w], j) == (Covered(log, j) || Touches(w, j))
  {
    var all := log + [w];
    if Covered(log, j) {
      var v :| v in log && Touches(v, j);
      assert v in all;
    }
    if Touches(w, j) {
      assert w in all;
    }
  }

  lemma WriteAtByte(file: seq<Byte>, w: Write)
    ensures var f := WriteAt(file, w);
      && |f| == (if w.bytes == [] || w.at + |w.bytes| <= |file| then |file| else w.at + |w.bytes|)
      && forall j :: 0 <= j < |f| ==>
           f[j] == if Touches(w, j) then w.bytes[j - w.at] else if j < |file| then file[j] else 0
  {
  }

  /** f reaches exactly to the end of the furthest write of the log, its covered offsets hold
      the byte of p, and all its other offsets are holes. */
  ghost predicate Describes(p: seq<Byte>, log: seq<Write>, f: seq<Byte>)
  {
    && |f| <= |p|
    && (f != [] ==> Covered(log, |f| - 1))
    && (forall j :: Covered(log, j) ==> 0 <= j < |f|)
    && (forall j :: 0 <= j < |f| ==> f[j] == if Covered(log, j) then p[j] else 0)
  }

  lemma DescribesSnoc(p: seq<Byte>, log: seq<Write>, w: Write, g: seq<Byte>)
    requires Describes(p, log, g) && Drawn(p, log + [w])
    ensures Describes(p, log + [w], WriteAt(g, w))
  {
    hide WriteAt, Covered;
    var f, all := WriteAt(g, w), log + [w];
    assert w in all;
    WriteAtByte(g, w);
    assert f != [] ==> Covered(all, |f| - 1) by {
      CoveredSnoc(log, w, |f| - 1);
    }
    forall j | Covered(all, j)
      ensures 0 <= j < |f|
    {
      CoveredSnoc(log, w, j);
    }
    forall j | 0 <= j < |f|
      ensures f[j] == if Covered(all, j) then p[j] else 0
    {
      CoveredSnoc(log, w, j);
      assert j >= |g| ==> !Covered(log, j);
    }
  }

  /** Whatever the order and the repetitions of the writes, the file is known byte for byte. */
  lemma {:induction false} FileContents(p: seq<Byte>, log: seq<Write>)
    requires Drawn(p, log)
    ensures Describes(p, log, WriteAll(log))
  {
    if log != [] {
      var front, w := log[..|log| - 1], log[|log| - 1];
      assert log == front + [w];
      FileContents(p, front);
      DescribesSnoc(p, front, w, WriteAll(front));
    }
  }

  /** Two delivery histories with the same coverage leave the same file. */
  lemma SameCoverage(p: seq<Byte>, log: seq<Write>, other: seq<Write>)
    requires Drawn(p, log) && Drawn(p, other)
    requires forall j :: Covered(log, j) == Covered(other, j)
    ensures WriteAll(log) == WriteAll(other)
  {
    FileContents(p, log);
    FileContents(p, other);
  }

  /** The write the server performs for packet k. */
  ghost function ChunkWrite(cfg: Config, k: nat): Write
    requires cfg.Valid()
  {
    Write(Off(cfg, k), Part(cfg, k))
  }

  ghost predicate DrawnFromChunks(cfg: Config, n: nat, log: seq<Write>)
    requires cfg.Valid()
  {
    forall w :: w in log ==> exists k: nat :: k < n && w == ChunkWrite(cfg, k)
  }

  lemma WriteAllSnoc(log: seq<Write>, w: Write)
    ensures WriteAll(log + [w]) == WriteAt(WriteAll(log), w)
  {
    hide WriteAt;
    assert (log + [w])[..|log|] == log;
  }

  lemma DrawnSnoc(cfg: Config, n: nat, log: seq<Write>, w: Write, k: nat)
    requires cfg.Valid() && DrawnFromChunks(cfg, n, log) && k < n && w == ChunkWrite(cfg, k)
    ensures DrawnFromChunks(cfg, n, log + [w])
  {
    hide ChunkWrite;
  }

  lemma ChunksAreDrawn(cfg: Config, n: nat, log: seq<Write>)
    requires cfg.Valid() && DrawnFromChunks(cfg, n, log)
    ensures Drawn(Stream(cfg), log)
  {
    forall w | w in log
      ensures w.at + |w.bytes| <= StreamLength(cfg) && w.bytes == Stream(cfg)[w.at..w.at + |w.bytes|]
    {
      var k: nat :| k < n && w == ChunkWrite(cfg, k);
      OffMonotone(cfg, k, k + 1);
    }
  }

  lemma CoveredWithin(cfg: Config, n: nat, log: seq<Write>, j: int)
    requires cfg.Valid() && DrawnFromChunks(cfg, n, log) && Covered(log, j)
    ensures 0 <= j < Off(cfg, n)
  {
    hide Off, StreamLength;
    var w :| w in log && Touches(w, j);
    var k: nat :| k < n && w == ChunkWrite(cfg, k);
    OffMonotone(cfg, k + 1, n);
  }

  /** A byte is covered by a complete history exactly when it precedes the end of the last chunk. */
  lemma ChunksCover(cfg: Config, n: nat, log: seq<Write>, j: int)
    requires cfg.Valid() && DrawnFromChunks(cfg, n, log)
    requires forall k: nat :: k < n ==> ChunkWrite(cfg, k) in log
    ensures Covered(log, j) <==> 0 <= j < Off(cfg, n)
  {
    if 0 <= j < Off(cfg, n) {
      var k := PartOf(cfg, n, j);
      assert ChunkWrite(cfg, k) in log && Touches(ChunkWrite(cfg, k), j);
    }
    if Covered(log, j) {
      CoveredWithin(cfg, n, log, j);
    }
  }

  /** Reassembly does not depend on order or duplication: any history that draws only on the
      first n chunks and has each of them at least once leaves the first n parts of the stream. */
  lemma Reassembled(cfg: Config, n: nat, log: seq<Write>)
    requires cfg.Valid() && DrawnFromChunks(cfg, n, log)
    requires forall k: nat :: k < n ==> ChunkWrite(cfg, k) in log
    ensures WriteAll(log) == Stream(cfg)[..Off(cfg, n)]
  {
    ChunksAreDrawn(cfg, n, log);
    FileContents(Stream(cfg), log);
    forall j
      ensures Covered(log, j) <==> 0 <= j < Off(cfg, n)
    {
      ChunksCover(cfg, n, log, j);
    }
    DescribesPrefix(Stream(cfg), log, WriteAll(log), Off(cfg, n));
  }

  lemma DescribesPrefix(p: seq<Byte>, log: seq<Write>, f: seq<Byte>, n: nat)
    requires Describes(p, log, f) && n <= |p|
    requires forall j :: Covered(log, j) <==> 0 <= j < n
    ensures f == p[..n]
  {
    assert n > 0 ==> Covered(log, n - 1);
    assert |f| == n;
    assert forall j :: 0 <= j < n ==> Covered(log, j);
  }

  ghost function InOrder(cfg: Config, n: nat): seq<Write>
    requires cfg.Valid()
  {
    seq(n, k requires 0 <= k < n => ChunkWrite(cfg, k))
  }

  /** The same statement against the reference history that writes each chunk once, in order. */
  lemma OrderAndDuplicatesIrrelevant(cfg: Config, n: nat, log: seq<Write>)
    requires cfg.Valid() && DrawnFromChunks(cfg, n, log)
    requires forall k: nat :: k < n ==> ChunkWrite(cfg, k) in log
    ensures WriteAll(log) == WriteAll(InOrder(cfg, n))
  {
    var ref := InOrder(cfg, n);
    forall w | w in ref
      ensures exists k: nat :: k < n && w == ChunkWrite(cfg, k)
    {
      var k :| 0 <= k < n && w == ref[k];
    }
    forall k: nat | k < n
      ensures ChunkWrite(cfg, k) in ref
    {
      assert ref[k] == ChunkWrite(cfg, k);
    }
    Reassembled(cfg, n, log);
    Reassembled(cfg, n, ref);
  }
}

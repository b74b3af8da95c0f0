/** The imperative code of the server, proved against the functions the state machine of module
    Protocol is built from (N-Channel-StopNWait/server.c). */
module ServerSide {
  import opened Payload
  import opened Reassembly
  import opened Protocol
  import opened Traces

  /** Extending a write by one byte. */
  lemma WriteGrows(file: seq<Byte>, at: nat, bytes: seq<Byte>, n: nat)
    requires n < |bytes|
    ensures WriteAt(file, Write(at, bytes[..n + 1]))
            == WriteAt(WriteAt(file, Write(at, bytes[..n])), Write(at + n, [bytes[n]]))
  {
    hide WriteAt;
    WriteAtByte(file, Write(at, bytes[..n + 1]));
    WriteAtByte(file, Write(at, bytes[..n]));
    WriteAtByte(WriteAt(file, Write(at, bytes[..n])), Write(at + n, [bytes[n]]));
  }

  class OutputFile {
    var data: seq<Byte>
    var pos: nat

    constructor ()
      ensures data == [] && pos == 0
    {
      data, pos := [], 0;
    }

    method Fseek(to: nat)
      modifies this
      ensures pos == to && data == old(data)
    {
      pos := to;
    }

    method Fputc(b: Byte)
      modifies this
      ensures data == WriteAt(old(data), Write(old(pos), [b])) && pos == old(pos) + 1
    {
      if pos < |data| {
        data := data[pos := b];
      } else {
        data := data + Zeros(pos - |data|) + [b];
      }
      pos := pos + 1;
    }

    method Fwrite(bytes: seq<Byte>)
      modifies this
      ensures data == WriteAt(old(data), Write(old(pos), bytes)) && pos == old(pos) + |bytes|
    {
      for n := 0 to |bytes|
        invariant pos == old(pos) + n
        invariant data == WriteAt(old(data), Write(old(pos), bytes[..n]))
      {
        WriteGrows(old(data), old(pos), bytes, n);
        Fputc(bytes[n]);
      }
      assert bytes[..|bytes|] == bytes;
    }
  }

  lemma {:induction false} ServeAllConcat(sv: Server, a: seq<Arrival>, b: seq<Arrival>)
    ensures ServeAll(sv, a + b) == ServeAll(ServeAll(sv, a), b)
  {
    hide ServeOne;
    if b == [] {
      assert a + b == a;
    } else {
      var front := b[..|b| - 1];
      assert (a + b)[..|a + b| - 1] == a + front;
      ServeAllConcat(sv, a, front);
    }
  }

  /** The writes of the data packets that were not dropped, in the order of arrival. */
  function Accepted(arrivals: seq<Arrival>): seq<Write> {
    if arrivals == [] then []
    else
      var before, last := Accepted(arrivals[..|arrivals| - 1]), arrivals[|arrivals| - 1];
      if last.drop || last.packet.header.isLast then before else before + [WriteOf(last.packet)]
  }

  ghost predicate FinArrived(arrivals: seq<Arrival>) {
    exists j :: 0 <= j < |arrivals| && !arrivals[j].drop && arrivals[j].packet.header.isLast
  }

  ghost predicate IsAcceptedData(arrivals: seq<Arrival>, j: int)
  {
    0 <= j < |arrivals| && !arrivals[j].drop && !arrivals[j].packet.header.isLast
  }

  /** Part k of the stream has been accepted at least once. */
  ghost predicate Brings(cfg: Config, arrivals: seq<Arrival>, k: nat)
    requires cfg.Valid()
  {
    exists j :: IsAcceptedData(arrivals, j) && Carries(cfg, arrivals[j].packet, k)
  }

  lemma {:induction false} AcceptedMembers(arrivals: seq<Arrival>)
    ensures forall w :: w in Accepted(arrivals) ==>
      exists j :: IsAcceptedData(arrivals, j) && w == WriteOf(arrivals[j].packet)
    ensures forall j :: IsAcceptedData(arrivals, j) ==> WriteOf(arrivals[j].packet) in Accepted(arrivals)
  {
    hide WriteOf;
    if arrivals != [] {
      var n := |arrivals| - 1;
      var front := arrivals[..n];
      AcceptedMembers(front);
      forall w | w in Accepted(arrivals)
        ensures exists j :: IsAcceptedData(arrivals, j) && w == WriteOf(arrivals[j].packet)
      {
        if w in Accepted(front) {
          var j :| IsAcceptedData(front, j) && w == WriteOf(front[j].packet);
          assert IsAcceptedData(arrivals, j);
        } else {
          assert IsAcceptedData(arrivals, n);
        }
      }
      forall j | IsAcceptedData(arrivals, j)
        ensures WriteOf(arrivals[j].packet) in Accepted(arrivals)
      {
        if j < n {
          assert IsAcceptedData(front, j);
        }
      }
    }
  }

  lemma {:induction false} ServedFile(arrivals: seq<Arrival>)
    ensures ServeAll(InitServer(), arrivals).file == WriteAll(Accepted(arrivals))
  {
    hide WriteAt, WriteOf;
    if arrivals != [] {
      var n := |arrivals| - 1;
      ServedFile(arrivals[..n]);
      var before := Accepted(arrivals[..n]);
      assert (before + [WriteOf(arrivals[n].packet)])[..|before|] == before;
    }
  }

  lemma {:induction false} ServedFin(arrivals: seq<Arrival>)
    ensures ServeAll(InitServer(), arrivals).finSeen <==> FinArrived(arrivals)
  {
    hide WriteAt, WriteOf;
    if arrivals != [] {
      var n := |arrivals| - 1;
      var front := arrivals[..n];
      ServedFin(front);
      if FinArrived(front) {
        var j :| 0 <= j < |front| && !front[j].drop && front[j].packet.header.isLast;
        assert arrivals[j] == front[j];
      }
      if FinArrived(arrivals) {
        var j :| 0 <= j < |arrivals| && !arrivals[j].drop && arrivals[j].packet.header.isLast;
        assert j < n ==> front[j] == arrivals[j];
      }
    }
  }

  /** last_seq_no is the largest accepted number, FIN included. */
  lemma {:induction false} ServedNumbers(arrivals: seq<Arrival>)
    ensures var last := ServeAll(InitServer(), arrivals).lastSeq;
      && (forall j :: 0 <= j < |arrivals| && !arrivals[j].drop ==> arrivals[j].packet.header.seqNo <= last)
      && (last != 0 ==> exists j :: 0 <= j < |arrivals| && !arrivals[j].drop && arrivals[j].packet.header.seqNo == last)
  {
    hide WriteAt, WriteOf;
    if arrivals != [] {
      var n := |arrivals| - 1;
      var front := arrivals[..n];
      ServedNumbers(front);
      var last := ServeAll(InitServer(), front).lastSeq;
      forall j | 0 <= j < n && !arrivals[j].drop
        ensures arrivals[j].packet.header.seqNo <= last
      {
        assert front[j] == arrivals[j];
      }
      if last != 0 {
        var j :| 0 <= j < |front| && !front[j].drop && front[j].packet.header.seqNo == last;
        assert arrivals[j] == front[j];
      }
    }
  }

  /** If the accepted data packets carry the first n parts of the stream, each at least once, in
      any order and with any duplicates, the file is those n parts. */
  lemma ServedStream(cfg: Config, n: nat, arrivals: seq<Arrival>)
    requires cfg.Valid()
    requires forall j :: IsAcceptedData(arrivals, j) ==> exists k: nat :: k < n && Carries(cfg, arrivals[j].packet, k)
    requires forall k: nat :: k < n ==> Brings(cfg, arrivals, k)
    ensures ServeAll(InitServer(), arrivals).file == Stream(cfg)[..Off(cfg, n)]
  {
    hide ChunkWrite, Stream, Off;
    ServedFile(arrivals);
    AcceptedMembers(arrivals);
    var log := Accepted(arrivals);
    forall w | w in log
      ensures exists k: nat :: k < n && w == ChunkWrite(cfg, k)
    {
      var j :| IsAcceptedData(arrivals, j) && w == WriteOf(arrivals[j].packet);
      var k: nat :| k < n && Carries(cfg, arrivals[j].packet, k);
    }
    forall k: nat | k < n
      ensures ChunkWrite(cfg, k) in log
    {
      assert Brings(cfg, arrivals, k);
      var j :| IsAcceptedData(arrivals, j) && Carries(cfg, arrivals[j].packet, k);
    }
    Reassembled(cfg, n, log);
  }

  /** The arrivals of several sweeps over the channels, one after the other. */
  function Flat(sweeps: seq<seq<Arrival>>): seq<Arrival> {
    if sweeps == [] then [] else Flat(sweeps[..|sweeps| - 1]) + sweeps[|sweeps| - 1]
  }

  lemma FlatStep(sweeps: seq<seq<Arrival>>, r: nat)
    requires r < |sweeps|
    ensures Flat(sweeps[..r + 1]) == Flat(sweeps[..r]) + sweeps[r]
  {
    assert sweeps[..r + 1][..r] == sweeps[..r];
  }

  class Receiver {
    const fp: OutputFile
    var lastSeq: nat
    var isLast: bool

    ghost function Abs(): Server
      reads this, fp
    {
      Server(fp.data, lastSeq, isLast, false)
    }

    constructor (fp: OutputFile)
      requires fp.data == []
      ensures this.fp == fp && Abs() == Server([], 0, false, false)
    {
      this.fp, lastSeq, isLast := fp, 0, false;
    }

    /** serve_connection, with the random drop as a parameter, and the update of the service
        loop's is_last. */
    method ServeConnection(p: Packet, drop: bool) returns (reply: seq<Packet>)
      modifies this, fp
      ensures drop ==> Abs() == old(Abs()) && reply == []
      ensures !drop ==> Abs() == Serve(old(Abs()), p) && reply == [Ack(p)]
      ensures !drop ==>
        reply == [Packet(Header(p.header.size, p.header.seqNo, p.header.isLast, true, p.header.channel), p.data)]
    {
      reply := [];
      if !drop {
        var seqNo := p.header.seqNo;
        if !p.header.isLast {
          fp.Fseek(seqNo);
          fp.Fwrite(if p.header.size <= |p.data| then p.data[..p.header.size] else p.data);
        }
        reply := [p.(header := p.header.(seqNo := seqNo, isAck := true))];
        if seqNo > lastSeq {
          lastSeq := seqNo;
        }
        if p.header.isLast {
          isLast := true;
        }
      }
    }

    /** One sweep over the channels that have something to read. */
    method Sweep(arrivals: seq<Arrival>)
      modifies this, fp
      ensures Abs() == ServeAll(old(Abs()), arrivals)
    {
      hide Serve;
      for j := 0 to |arrivals|
        invariant Abs() == ServeAll(old(Abs()), arrivals[..j])
      {
        assert arrivals[..j + 1][..j] == arrivals[..j];
        var _ := ServeConnection(arrivals[j].packet, arrivals[j].drop);
      }
      assert arrivals[..|arrivals|] == arrivals;
    }

    /** The service loop: sweeps until a FIN has been accepted, and looks at is_last between sweeps
        only.  The file consists of what the accepted data packets wrote. */
    method ServiceLoop(sweeps: seq<seq<Arrival>>) returns (n: nat)
      requires Abs() == InitServer()
      modifies this, fp
      ensures n <= |sweeps| && (n < |sweeps| ==> isLast)
      ensures Abs() == ServeAll(InitServer(), Flat(sweeps[..n]))
      ensures fp.data == WriteAll(Accepted(Flat(sweeps[..n])))
      ensures isLast <==> FinArrived(Flat(sweeps[..n]))
      ensures forall r :: 0 <= r < n ==> !FinArrived(Flat(sweeps[..r]))
    {
      hide Serve, FinArrived, Flat, Accepted, WriteAll;
      n := 0;
      FlatNone(sweeps);
      while n < |sweeps| && !isLast
        invariant n <= |sweeps| && Abs() == ServeAll(InitServer(), Flat(sweeps[..n]))
        invariant forall r :: 0 <= r < n ==> !FinArrived(Flat(sweeps[..r]))
      {
        ServedFin(Flat(sweeps[..n]));
        ServeAllConcat(InitServer(), Flat(sweeps[..n]), sweeps[n]);
        FlatStep(sweeps, n);
        Sweep(sweeps[n]);
        n := n + 1;
      }
      ServedFile(Flat(sweeps[..n]));
      ServedFin(Flat(sweeps[..n]));
    }
  }

  lemma FlatNone(sweeps: seq<seq<Arrival>>)
    ensures Flat(sweeps[..0]) == [] && ServeAll(InitServer(), []) == InitServer()
  {
  }
}

/** What an accepted FIN guarantees in every run, however early timeouts fire: the packets of the first
    batch and the last packet have been written. */
module Certain {
  import opened Payload
  import opened Reassembly
  import opened Protocol
  import opened StopAndWait
  import opened Loops

  /** Every acknowledgement under way is that of a packet that has been written. */
  ghost predicate AcksWritten(cfg: Config, s: State)
    requires Shape(cfg, s)
  {
    forall ch: nat, p :: ch < cfg.channels && p in s.down[ch] ==> p.header.isLast || WriteOf(p) in s.log
  }

  /** Up to the end of the first batch, channel ch carries copies of packet ch and nothing else. */
  ghost predicate FirstBatch(cfg: Config, s: State)
    requires Shape(cfg, s)
  {
    s.client.issued <= cfg.channels ==>
      forall ch: nat, p :: ch < cfg.channels && (p in s.up[ch] || p in s.down[ch]) ==>
        p.header.isLast || WriteOf(p) == ChunkWrite(cfg, ch)
  }

  /** Packets of the first batch that are known to have been written. */
  ghost function FirstWritten(cfg: Config, c: Client): int {
    if c.issued > cfg.channels then cfg.channels else Acked(cfg, c)
  }

  ghost predicate CertainInv(cfg: Config, s: State) {
    && Inv(cfg, s) && AcksWritten(cfg, s) && FirstBatch(cfg, s)
    && DeliveredUpTo(cfg, s, FirstWritten(cfg, s.client))
    && (s.client.isEof ==> ChunkWrite(cfg, Total(cfg) - 1) in s.log)
  }

  lemma InitCertain(cfg: Config)
    requires cfg.Valid()
    ensures CertainInv(cfg, Init(cfg))
  {
    InitInv(cfg);
  }

  /** In the first batch packet i goes out on channel i. */
  lemma FirstBatchPacket(cfg: Config, base: nat, i: nat)
    requires cfg.Valid() && base % cfg.channels == 0 && base + i < cfg.channels
    ensures base == 0
  {
    RoundRobin(cfg, 0, base);
    assert 0 % cfg.channels == 0;
  }

  lemma DataWrite(cfg: Config, k: nat, i: nat)
    requires cfg.Valid()
    ensures WriteOf(DataPacket(cfg, k, i)) == ChunkWrite(cfg, k) && !DataPacket(cfg, k, i).header.isLast
  {
  }

  /** A transmission that respects the first batch. */
  lemma TransmitCertain(cfg: Config, s: State, d: Client, sent: seq<Packet>, i: nat, p: Packet)
    requires CertainInv(cfg, s) && i < cfg.channels && Inv(cfg, Transmit(s.(client := d, sent := sent), i, p))
    requires d.issued >= s.client.issued && d.isEof == s.client.isEof
    requires FirstWritten(cfg, d) <= FirstWritten(cfg, s.client)
    requires d.issued <= cfg.channels ==> p.header.isLast || WriteOf(p) == ChunkWrite(cfg, i)
    ensures CertainInv(cfg, Transmit(s.(client := d, sent := sent), i, p))
  {
    hide Inv, WriteOf, ChunkWrite, Acked, FirstWritten, Total;
    CertainIsInv(cfg, s);
    var t := Transmit(s.(client := d, sent := sent), i, p);
    ShapeOf(cfg, t);
    forall ch: nat, q | ch < cfg.channels && q in t.up[ch]
      ensures q in s.up[ch] || (ch == i && q == p)
    {
    }
    forall k: nat | k < FirstWritten(cfg, d)
      ensures ChunkWrite(cfg, k) in t.log
    {
    }
  }

  lemma SendFacts(cfg: Config, c: Client)
    requires cfg.Valid() && ClientInv(cfg, c) && c.phase.Sending?
    ensures c.phase.i < cfg.channels && |c.tmp| == cfg.channels && c.pos <= |cfg.input|
    ensures var r := SendChunk(cfg, c);
      && r.1 == DataPacket(cfg, c.issued, c.phase.i)
      && r.0.issued == c.issued + 1 && r.0.isEof == c.isEof && Acked(cfg, r.0) == Acked(cfg, c)
      && FirstWritten(cfg, r.0) <= FirstWritten(cfg, c)
      && (r.0.issued <= cfg.channels ==> c.issued == c.phase.i)
  {
    hide Registers, Total, DataPacket, NextChunk, StrNCpy;
    SendKeepsClient(cfg, c);
    SendKeepsPhase(cfg, c);
    if c.issued + 1 <= cfg.channels {
      FirstBatchPacket(cfg, Base(cfg, c), c.phase.i);
    } else if c.issued <= cfg.channels {
      assert c.issued == cfg.channels;
      if c.phase.i > 0 {
        FirstBatchPacket(cfg, Base(cfg, c), 0);
      }
    }
  }

  lemma SendCertain(cfg: Config, s: State)
    requires CertainInv(cfg, s) && Enabled(cfg, s, Send)
    ensures CertainInv(cfg, Next(cfg, s, Send))
  {
    hide CertainInv, Inv, ClientInv, SendChunk, DataPacket, FirstWritten, Acked;
    CertainIsInv(cfg, s);
    StepKeeps(cfg, s, Send);
    SendFacts(cfg, s.client);
    var i, r := s.client.phase.i, SendChunk(cfg, s.client);
    DataWrite(cfg, s.client.issued, i);
    TransmitCertain(cfg, s, r.0, s.sent + [r.1], i, r.1);
  }

  lemma CertainIsInv(cfg: Config, s: State)
    requires CertainInv(cfg, s)
    ensures Shape(cfg, s) && Inv(cfg, s) && ClientInv(cfg, s.client)
  {
    hide ClientInv;
  }

  lemma ExpireFacts(cfg: Config, c: Client)
    requires cfg.Valid() && ClientInv(cfg, c) && Polling(c)
    ensures |c.tmp| == cfg.channels && Polled(c) < cfg.channels
    ensures c.issued <= cfg.channels ==>
      Outstanding(cfg, c).header.isLast || WriteOf(Outstanding(cfg, c)) == ChunkWrite(cfg, Polled(c))
  {
    hide Registers, Total, WriteOf, ChunkWrite, DataPacket;
    if c.phase.Waiting? && c.issued <= cfg.channels {
      FirstBatchPacket(cfg, Base(cfg, c), 0);
      DataWrite(cfg, Base(cfg, c) + c.phase.i, c.phase.i);
    }
  }

  lemma ExpireCertain(cfg: Config, s: State)
    requires CertainInv(cfg, s) && Enabled(cfg, s, Expire)
    ensures CertainInv(cfg, Next(cfg, s, Expire))
  {
    hide CertainInv, Inv, ClientInv, Outstanding, FirstWritten, WriteOf;
    CertainIsInv(cfg, s);
    StepKeeps(cfg, s, Expire);
    ExpireFacts(cfg, s.client);
    assert s.(client := s.client, sent := s.sent) == s;
    TransmitCertain(cfg, s, s.client, s.sent, Polled(s.client), Outstanding(cfg, s.client));
  }

  lemma FinCertain(cfg: Config, s: State)
    requires CertainInv(cfg, s) && Enabled(cfg, s, Fin)
    ensures CertainInv(cfg, Next(cfg, s, Fin))
  {
    hide CertainInv, Inv, ClientInv, WriteOf;
    CertainIsInv(cfg, s);
    StepKeeps(cfg, s, Fin);
    TransmitCertain(cfg, s, s.client.(phase := FinWait), s.sent, 0, FinPacket(cfg, s.client));
  }

  /** What reading p on the polled channel tells the client. */
  lemma ReadFactsCertain(cfg: Config, s: State)
    requires CertainInv(cfg, s) && Enabled(cfg, s, Read) && s.client.phase.Waiting?
    ensures var c, i := s.client, s.client.phase.i; var p := s.down[i][0]; var d := AfterAck(cfg, c, p);
      && !p.header.isLast && WriteOf(p) in s.log
      && (c.issued <= cfg.channels ==> WriteOf(p) == ChunkWrite(cfg, i))
      && (d.isEof && !c.isEof ==> WriteOf(p) == ChunkWrite(cfg, Total(cfg) - 1))
  {
    hide ClientInv, SentInv, ServerInv, Conserved, DeliveredUpTo, ChunkWrite, WriteOf, Total, Good;
    var c, i := s.client, s.client.phase.i;
    var p := s.down[i][0];
    assert p in s.down[i] && AllGood(cfg, c, s.down[i]);
    var k := GoodFacts(cfg, c, p);
    GoodNumber(cfg, c, p);
    LoopRegisters(cfg, c);
    if AfterAck(cfg, c, p).isEof && !c.isEof {
      WriteNumber(cfg, p, k);
      if k < Total(cfg) - 1 {
        OffStrict(cfg, k, Total(cfg) - 1);
      }
    }
  }

  lemma WriteNumber(cfg: Config, p: Packet, k: nat)
    requires cfg.Valid() && WriteOf(p) == ChunkWrite(cfg, k)
    ensures p.header.seqNo == Off(cfg, k)
  {
  }

  /** Reading in the first batch confirms one packet more. */
  lemma ReadCounts(cfg: Config, c: Client, p: Packet)
    requires cfg.Valid() && ClientInv(cfg, c) && c.phase.Waiting?
    ensures var d := AfterAck(cfg, c, p);
      && d.issued == c.issued
      && (c.issued > cfg.channels ==> FirstWritten(cfg, d) == FirstWritten(cfg, c))
      && (c.issued <= cfg.channels ==> FirstWritten(cfg, c) == c.phase.i
                                       && (FirstWritten(cfg, d) == c.phase.i + 1 || FirstWritten(cfg, d) == 0))
  {
    hide Registers, Total, DataPacket;
    if c.issued <= cfg.channels {
      FirstBatchPacket(cfg, Base(cfg, c), 0);
    }
  }

  lemma ReadCertain(cfg: Config, s: State)
    requires CertainInv(cfg, s) && Enabled(cfg, s, Read)
    ensures CertainInv(cfg, Next(cfg, s, Read))
  {
    hide Inv, ClientInv, WriteOf, ChunkWrite, FirstWritten, AfterAck, Total;
    CertainIsInv(cfg, s);
    StepKeeps(cfg, s, Read);
    var t, i := Next(cfg, s, Read), Polled(s.client);
    forall ch: nat, p | ch < cfg.channels && p in t.down[ch]
      ensures p in s.down[ch]
    {
    }
    if s.client.phase.Waiting? {
      ReadFactsCertain(cfg, s);
      ReadCounts(cfg, s.client, s.down[i][0]);
    } else {
      DoneCounts(cfg, s.client);
    }
  }

  lemma DoneCounts(cfg: Config, c: Client)
    requires c.phase.FinWait?
    ensures FirstWritten(cfg, c.(phase := Done)) == FirstWritten(cfg, c)
  {
  }

  /** A step of the server: packets leave the queues to the server, and at most the
      acknowledgement of the head of one of them, written, appears. */
  lemma ServerCertain(cfg: Config, s: State, t: State)
    requires CertainInv(cfg, s) && Inv(cfg, t) && t.client == s.client
    requires forall w :: w in s.log ==> w in t.log
    requires forall ch: nat, p :: ch < cfg.channels && p in t.up[ch] ==> p in s.up[ch]
    requires forall ch: nat, p :: ch < cfg.channels && p in t.down[ch] ==>
               p in s.down[ch] || Answers(s, t, ch, p)
    ensures CertainInv(cfg, t)
  {
    hide Inv, ChunkWrite, WriteOf, FirstWritten, Total;
    CertainIsInv(cfg, s);
    ShapeOf(cfg, t);
    forall ch: nat, p | ch < cfg.channels && p in t.down[ch]
      ensures p.header.isLast || WriteOf(p) in t.log
      ensures s.client.issued <= cfg.channels ==> p.header.isLast || WriteOf(p) == ChunkWrite(cfg, ch)
    {
      if p !in s.down[ch] {
        assert Answers(s, t, ch, p);
      }
    }
  }

  lemma ShapeOf(cfg: Config, s: State)
    requires Inv(cfg, s)
    ensures Shape(cfg, s)
  {
    hide ClientInv;
  }

  /** p acknowledges a packet of the queue that has been written. */
  ghost predicate Answers(s: State, t: State, ch: nat, p: Packet)
    requires ch < |s.up|
  {
    exists q :: q in s.up[ch] && p.header.isLast == q.header.isLast && WriteOf(p) == WriteOf(q)
                && (q.header.isLast || WriteOf(q) in t.log)
  }

  lemma AcceptQueues(cfg: Config, s: State, i: nat)
    requires Shape(cfg, s) && Enabled(cfg, s, Accept(i))
    ensures var t := Next(cfg, s, Accept(i));
      && t.client == s.client && (forall w :: w in s.log ==> w in t.log)
      && (forall ch: nat, p :: ch < cfg.channels && p in t.up[ch] ==> p in s.up[ch])
      && (forall ch: nat, p :: ch < cfg.channels && p in t.down[ch] ==> p in s.down[ch] || Answers(s, t, ch, p))
  {
    hide Serve;
    var t, q := Next(cfg, s, Accept(i)), s.up[i][0];
    assert q in s.up[i] && WriteOf(Ack(q)) == WriteOf(q);
    assert q.header.isLast || t.log[|s.log|] == WriteOf(q);
    assert Answers(s, t, i, Ack(q));
  }

  lemma AcceptCertain(cfg: Config, s: State, i: nat)
    requires CertainInv(cfg, s) && Enabled(cfg, s, Accept(i))
    ensures CertainInv(cfg, Next(cfg, s, Accept(i)))
  {
    hide CertainInv, Inv, Next, Enabled, Answers;
    CertainIsInv(cfg, s);
    StepKeeps(cfg, s, Accept(i));
    AcceptQueues(cfg, s, i);
    ServerCertain(cfg, s, Next(cfg, s, Accept(i)));
  }

  lemma DropCertain(cfg: Config, s: State, i: nat)
    requires CertainInv(cfg, s) && Enabled(cfg, s, Drop(i))
    ensures CertainInv(cfg, Next(cfg, s, Drop(i)))
  {
    hide CertainInv, Inv, Answers;
    CertainIsInv(cfg, s);
    StepKeeps(cfg, s, Drop(i));
    ServerCertain(cfg, s, Next(cfg, s, Drop(i)));
  }

  lemma ExitCertain(cfg: Config, s: State)
    requires CertainInv(cfg, s) && Enabled(cfg, s, Exit)
    ensures CertainInv(cfg, Next(cfg, s, Exit))
  {
    hide Inv, ChunkWrite, WriteOf, FirstWritten, Total;
    CertainIsInv(cfg, s);
    StepKeeps(cfg, s, Exit);
  }

  lemma StepCertain(cfg: Config, s: State, a: Action)
    requires CertainInv(cfg, s) && Enabled(cfg, s, a)
    ensures CertainInv(cfg, Next(cfg, s, a))
  {
    hide CertainInv, Enabled, Next;
    match a
    case Send => SendCertain(cfg, s);
    case Expire => ExpireCertain(cfg, s);
    case Read => ReadCertain(cfg, s);
    case Fin => FinCertain(cfg, s);
    case Accept(i) => AcceptCertain(cfg, s, i);
    case Drop(i) => DropCertain(cfg, s, i);
    case Exit => ExitCertain(cfg, s);
  }

  lemma {:induction false} RunCertain(cfg: Config, actions: seq<Action>)
    requires cfg.Valid() && Exec(cfg, actions).At?
    ensures CertainInv(cfg, Exec(cfg, actions).s)
  {
    hide CertainInv, Enabled, Next;
    if actions == [] {
      InitCertain(cfg);
    } else {
      var front := actions[..|actions| - 1];
      RunCertain(cfg, front);
      StepCertain(cfg, Exec(cfg, front).s, actions[|actions| - 1]);
    }
  }

  /** In every run, once FIN has been accepted the whole first batch and the last packet have been
      written. */
  lemma FinGuarantees(cfg: Config, actions: seq<Action>)
    requires cfg.Valid() && Exec(cfg, actions).At? && Exec(cfg, actions).s.server.finSeen
    ensures var log := Exec(cfg, actions).s.log;
      forall k: nat :: k < Total(cfg) && (k < cfg.channels || k == Total(cfg) - 1) ==> ChunkWrite(cfg, k) in log
  {
    hide Exec, ChunkWrite, Total, Registers, BatchInv;
    RunCertain(cfg, actions);
  }

  // ---------------------------------------------------------------------
  // When that is enough
  // ---------------------------------------------------------------------

  /** Losing packets other than those would not be noticed: there are none, or they consist of NULs
      and something follows them. */
  ghost predicate Harmless(cfg: Config)
    requires cfg.Valid()
  {
    || Total(cfg) <= cfg.channels + 1
    || (Part(cfg, Total(cfg) - 1) != []
        && forall j :: Off(cfg, cfg.channels) <= j < Off(cfg, Total(cfg) - 1) ==> Stream(cfg)[j] == 0)
  }

  lemma HolesAreNuls(cfg: Config, log: seq<Write>, file: seq<Byte>)
    requires cfg.Valid() && Harmless(cfg) && Total(cfg) > cfg.channels + 1
    requires Describes(Stream(cfg), log, file)
    requires forall k: nat :: k < Total(cfg) && (k < cfg.channels || k == Total(cfg) - 1) ==> ChunkWrite(cfg, k) in log
    ensures file == Stream(cfg)
  {
    hide Total, Off, StreamLength, StreamByte;
    var p, last := Stream(cfg), Total(cfg) - 1;
    TotalReachesEnd(cfg);
    forall k: nat, j | k < Total(cfg) && (k < cfg.channels || k == last) && Off(cfg, k) <= j < Off(cfg, k + 1)
      ensures Covered(log, j)
    {
      assert ChunkWrite(cfg, k) in log && Touches(ChunkWrite(cfg, k), j);
    }
    assert Covered(log, |p| - 1);
    forall j | 0 <= j < |p|
      ensures file[j] == p[j]
    {
      var k := PartOf(cfg, Total(cfg), j);
      if k >= cfg.channels && k != last {
        OffMonotone(cfg, cfg.channels, k);
        OffMonotone(cfg, k + 1, last);
      }
    }
  }

  /** Then delivery is certain, whatever the timeouts do. */
  lemma HarmlessDelivers(cfg: Config, actions: seq<Action>)
    requires cfg.Valid() && Harmless(cfg) && Exec(cfg, actions).At? && Exec(cfg, actions).s.server.finSeen
    ensures Exec(cfg, actions).s.server.file == Stream(cfg)
  {
    hide Exec, Harmless, Total, ChunkWrite, Stream;
    var s := Exec(cfg, actions).s;
    RunInv(cfg, actions);
    FinGuarantees(cfg, actions);
    ChunksAreDrawn(cfg, s.client.issued, s.log);
    FileContents(Stream(cfg), s.log);
    if Total(cfg) <= cfg.channels + 1 {
      assert s.client.issued == Total(cfg);
      Reassembled(cfg, Total(cfg), s.log);
      TotalReachesEnd(cfg);
    } else {
      HolesAreNuls(cfg, s.log, s.server.file);
    }
  }
}

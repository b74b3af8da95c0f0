/** The N-channel transfer as a state machine: the client's connection_loop, the server's
    serve_connection and the 2N packet queues between them.  Timeouts may fire at any moment,
    the server may drop any packet, and the channels interleave freely. */
module Protocol {
  import opened Payload
  import opened Reassembly

  // ---------------------------------------------------------------------
  // Client
  // ---------------------------------------------------------------------

  /** Where connection_loop stands: in the batch loop about to fill channel i, polling for the
      acknowledgement of channel i, about to send FIN, polling for the FIN acknowledgement, or
      returned. */
  datatype Phase = Sending(i: nat) | Waiting(i: nat) | SendFin | FinWait | Done

  /** The local variables of connection_loop, the offset of the input file, and the number of
      chunks read so far (a history variable). */
  datatype Client = Client(phase: Phase, isEof: bool, payloadSize: nat, seqNo: nat, eofSeq: nat,
                           tmp: seq<Packet>, lastPacket: int, pos: nat, issued: nat)

  function InitClient(cfg: Config): Client {
    Client(Sending(0), false, 0, 0, NO_EOF,
           seq(cfg.channels, _ => Packet(Header(0, 0, false, false, 0), Zeros(cfg.chunk))), -1, 0, 0)
  }

  /** One iteration of the batch loop: read a chunk, remember it in tmp[i], send it. */
  function SendChunk(cfg: Config, c: Client): (r: (Client, Packet))
    requires c.phase.Sending? && c.phase.i < |c.tmp| && c.pos <= |cfg.input|
  {
    var i := c.phase.i;
    var ch := NextChunk(cfg.input, cfg.chunk, c.pos);
    var p := Packet(Header(ch.size, c.seqNo, false, false, i % 256), StrNCpy(ch.text, cfg.chunk));
    (c.(phase := if ch.size == 0 || i + 1 == cfg.channels then Waiting(0) else Sending(i + 1),
        payloadSize := ch.size,
        seqNo := c.seqNo + ch.size,
        eofSeq := if ch.eof then c.seqNo else c.eofSeq,
        tmp := c.tmp[i := p],
        lastPacket := if ch.size == 0 then i else c.lastPacket,
        pos := ch.pos,
        issued := c.issued + 1), p)
  }

  /** Reading packet p from the channel being polled.  The number is compared with eof_seq_no
      only, never with the outstanding packet. */
  function AfterAck(cfg: Config, c: Client, p: Packet): Client
    requires c.phase.Waiting?
  {
    var next := c.phase.i + 1;
    var isEof := c.isEof || (p.header.isAck && p.header.seqNo == c.eofSeq);
    var phase :=
      if next < cfg.channels && (c.lastPacket == -1 || next <= c.lastPacket) then Waiting(next)
      else if isEof then SendFin
      else if c.eofSeq == NO_EOF then Sending(0)
      else Waiting(0);
    c.(phase := phase, isEof := isEof)
  }

  /** The FIN packet: payload "exit", numbered with the total length. */
  function FinPacket(cfg: Config, c: Client): Packet {
    Packet(Header(c.payloadSize, c.seqNo, true, true, 0), StrNCpy([101, 120, 105, 116], cfg.chunk))
  }

  // ---------------------------------------------------------------------
  // Server
  // ---------------------------------------------------------------------

  /** The output file, the global last_seq_no, is_last of the service loop, and whether that
      loop has been left. */
  datatype Server = Server(file: seq<Byte>, lastSeq: nat, finSeen: bool, exited: bool)

  /** The bytes fwrite takes from a packet. */
  function Body(p: Packet): seq<Byte> {
    if p.header.size <= |p.data| then p.data[..p.header.size] else p.data
  }

  function WriteOf(p: Packet): Write {
    Write(p.header.seqNo, Body(p))
  }

  /** serve_connection for a packet that is not dropped. */
  function Serve(sv: Server, p: Packet): Server {
    Server(if p.header.isLast then sv.file else WriteAt(sv.file, WriteOf(p)),
           if p.header.seqNo > sv.lastSeq then p.header.seqNo else sv.lastSeq,
           sv.finSeen || p.header.isLast,
           sv.exited)
  }

  function Ack(p: Packet): Packet {
    p.(header := p.header.(isAck := true))
  }

  // ---------------------------------------------------------------------
  // The composed system
  // ---------------------------------------------------------------------

  /** up and down are the queues towards the server and the client.  The remaining fields are
      history: the data packets sent by the batch loop (without retransmissions), the writes
      performed, and per channel the packets transmitted, accepted, dropped and the
      acknowledgements read. */
  datatype State = State(client: Client, server: Server,
                         up: seq<seq<Packet>>, down: seq<seq<Packet>>,
                         sent: seq<Packet>, log: seq<Write>,
                         tx: seq<nat>, acc: seq<nat>, drp: seq<nat>, rd: seq<nat>)

  datatype Action = Send | Expire | Read | Fin | Accept(ch: nat) | Drop(ch: nat) | Exit

  function Init(cfg: Config): State {
    var empty := seq(cfg.channels, _ => []);
    var zero := seq(cfg.channels, _ => 0);
    State(InitClient(cfg), Server([], 0, false, false), empty, empty, [], [], zero, zero, zero, zero)
  }

  ghost predicate Shape(cfg: Config, s: State) {
    var n := cfg.channels;
    && cfg.Valid()
    && |s.client.tmp| == |s.up| == |s.down| == |s.tx| == |s.acc| == |s.drp| == |s.rd| == n
    && (s.client.phase.Sending? ==> s.client.phase.i < n)
    && (s.client.phase.Waiting? ==> s.client.phase.i < n)
    && s.client.pos <= |cfg.input|
  }

  /** The channel the client polls: FIN always uses channel 0. */
  function Polled(c: Client): nat {
    if c.phase.Waiting? then c.phase.i else 0
  }

  predicate Polling(c: Client) {
    c.phase.Waiting? || c.phase.FinWait?
  }

  ghost predicate Enabled(cfg: Config, s: State, a: Action)
    requires Shape(cfg, s)
  {
    match a
    case Send => s.client.phase.Sending?
    case Expire => Polling(s.client)
    case Read => Polling(s.client) && s.down[Polled(s.client)] != []
    case Fin => s.client.phase.SendFin?
    case Accept(i) => !s.server.exited && i < cfg.channels && s.up[i] != []
    case Drop(i) => !s.server.exited && i < cfg.channels && s.up[i] != []
    case Exit => s.server.finSeen && !s.server.exited
  }

  function Outstanding(cfg: Config, c: Client): Packet
    requires Polling(c) && Polled(c) < |c.tmp|
  {
    if c.phase.Waiting? then c.tmp[c.phase.i] else FinPacket(cfg, c)
  }

  function Transmit(s: State, i: nat, p: Packet): State
    requires i < |s.up| && i < |s.tx|
  {
    s.(up := s.up[i := s.up[i] + [p]], tx := s.tx[i := s.tx[i] + 1])
  }

  ghost function Next(cfg: Config, s: State, a: Action): (t: State)
    requires Shape(cfg, s) && Enabled(cfg, s, a)
    ensures Shape(cfg, t)
  {
    match a
    case Send =>
      var r := SendChunk(cfg, s.client);
      Transmit(s.(client := r.0, sent := s.sent + [r.1]), s.client.phase.i, r.1)
    case Expire =>
      Transmit(s, Polled(s.client), Outstanding(cfg, s.client))
    case Read =>
      var i := Polled(s.client);
      var c := s.client;
      s.(client := if c.phase.Waiting? then AfterAck(cfg, c, s.down[i][0]) else c.(phase := Done),
         down := s.down[i := s.down[i][1..]],
         rd := s.rd[i := s.rd[i] + 1])
    case Fin =>
      Transmit(s.(client := s.client.(phase := FinWait)), 0, FinPacket(cfg, s.client))
    case Accept(i) =>
      var p := s.up[i][0];
      s.(server := Serve(s.server, p),
         up := s.up[i := s.up[i][1..]],
         down := s.down[i := s.down[i] + [Ack(p)]],
         log := if p.header.isLast then s.log else s.log + [WriteOf(p)],
         acc := s.acc[i := s.acc[i] + 1])
    case Drop(i) =>
      s.(up := s.up[i := s.up[i][1..]], drp := s.drp[i := s.drp[i] + 1])
    case Exit =>
      s.(server := s.server.(exited := true))
  }

  /** A run is a sequence of actions; it is Stuck if one of them is not enabled. */
  datatype Run = Stuck | At(s: State)

  ghost function Exec(cfg: Config, actions: seq<Action>): (r: Run)
    requires cfg.Valid()
    ensures r.At? ==> Shape(cfg, r.s)
  {
    if actions == [] then At(Init(cfg))
    else
      var r := Exec(cfg, actions[..|actions| - 1]);
      var a := actions[|actions| - 1];
      if r.At? && Enabled(cfg, r.s, a) then At(Next(cfg, r.s, a)) else Stuck
  }

  // ---------------------------------------------------------------------
  // Invariant of every run
  // ---------------------------------------------------------------------

  /** Data packet k as sent on channel i. */
  ghost function DataPacket(cfg: Config, k: nat, i: nat): Packet
    requires cfg.Valid()
  {
    var part := Part(cfg, k);
    Packet(Header(|part|, Off(cfg, k), false, false, i % 256), part + Zeros(cfg.chunk - |part|))
  }

  /** p, a data packet or its acknowledgement, carries part k of the stream. */
  ghost predicate Carries(cfg: Config, p: Packet, k: nat)
    requires cfg.Valid()
  {
    !p.header.isLast && WriteOf(p) == ChunkWrite(cfg, k)
  }

  ghost predicate Good(cfg: Config, c: Client, p: Packet)
    requires cfg.Valid()
  {
    || (exists k: nat :: k < c.issued && Carries(cfg, p, k))
    || (p.header.isLast && p.header.seqNo == StreamLength(cfg) && (c.phase.FinWait? || c.phase.Done?))
  }

  ghost predicate AllGood(cfg: Config, c: Client, q: seq<Packet>)
    requires cfg.Valid()
  {
    forall p :: p in q ==> Good(cfg, c, p)
  }

  /** Number of packets of the current batch, and index of its first one. */
  function Count(cfg: Config, c: Client): int {
    if c.phase.Sending? then c.phase.i
    else if c.lastPacket >= 0 then c.lastPacket + 1
    else cfg.channels
  }

  function Base(cfg: Config, c: Client): int {
    c.issued - Count(cfg, c)
  }

  /** The end of the input has been seen. */
  predicate Ended(cfg: Config, c: Client) {
    c.issued * cfg.chunk > |cfg.input|
  }

  /** The loop variables as functions of the number of chunks read. */
  ghost predicate Registers(cfg: Config, c: Client)
    requires cfg.Valid()
  {
    && c.issued <= Total(cfg)
    && c.seqNo == Off(cfg, c.issued)
    && c.pos == Min(c.issued * cfg.chunk, |cfg.input|)
    && c.payloadSize == (if c.issued > 0 then |Part(cfg, c.issued - 1)| else 0)
    && (if Ended(cfg, c) then c.issued > 0 && c.eofSeq == Off(cfg, c.issued - 1) else c.eofSeq == NO_EOF)
  }

  ghost predicate BatchInv(cfg: Config, c: Client)
    requires cfg.Valid()
  {
    && |c.tmp| == cfg.channels
    && 0 <= Count(cfg, c) <= cfg.channels
    && 0 <= Base(cfg, c) && Base(cfg, c) % cfg.channels == 0
    && forall j :: 0 <= j < Count(cfg, c) ==> c.tmp[j] == DataPacket(cfg, Base(cfg, c) + j, j)
  }

  ghost predicate PhaseInv(cfg: Config, c: Client)
    requires cfg.Valid()
  {
    && c.lastPacket >= -1
    && (c.isEof ==> Ended(cfg, c))
    && match c.phase
       case Sending(i) =>
         && i < cfg.channels && !c.isEof && c.lastPacket == -1 && c.issued < Total(cfg)
         && (Ended(cfg, c) ==> i > 0 && (c.issued - 1) * cfg.chunk <= |cfg.input|)
       case Waiting(i) =>
         && i < Count(cfg, c)
         && (if Ended(cfg, c) then c.issued == Total(cfg) else c.lastPacket == -1 && c.issued < Total(cfg))
       case _ =>
         c.isEof && c.issued == Total(cfg)
  }

  ghost predicate ClientInv(cfg: Config, c: Client)
    requires cfg.Valid()
  {
    Registers(cfg, c) && BatchInv(cfg, c) && PhaseInv(cfg, c)
  }

  /** The batch loop has sent the parts of the stream in order, round-robin over the channels. */
  ghost predicate SentInv(cfg: Config, s: State)
    requires Shape(cfg, s)
  {
    && |s.sent| == s.client.issued
    && forall k :: 0 <= k < |s.sent| ==> s.sent[k] == DataPacket(cfg, k, k % cfg.channels)
  }

  ghost predicate NetInv(cfg: Config, s: State)
    requires Shape(cfg, s)
  {
    forall i :: 0 <= i < cfg.channels ==>
      AllGood(cfg, s.client, s.up[i]) && AllGood(cfg, s.client, s.down[i])
  }

  ghost predicate ServerInv(cfg: Config, s: State)
    requires Shape(cfg, s)
  {
    && s.server.file == WriteAll(s.log)
    && DrawnFromChunks(cfg, s.client.issued, s.log)
    && s.server.lastSeq <= StreamLength(cfg)
    && (s.server.finSeen ==> s.server.lastSeq == StreamLength(cfg)
                             && (s.client.phase.FinWait? || s.client.phase.Done?))
    && (s.server.exited ==> s.server.finSeen)
  }

  /** Conservation: nothing is created or lost except by the server's drops. */
  ghost predicate Conserved(cfg: Config, s: State)
    requires Shape(cfg, s)
  {
    forall i :: 0 <= i < cfg.channels ==>
      && s.tx[i] == s.acc[i] + s.drp[i] + |s.up[i]|
      && s.acc[i] == s.rd[i] + |s.down[i]|
  }

  ghost predicate Inv(cfg: Config, s: State) {
    && Shape(cfg, s) && ClientInv(cfg, s.client) && SentInv(cfg, s) && NetInv(cfg, s)
    && ServerInv(cfg, s) && Conserved(cfg, s)
  }

  // ---------------------------------------------------------------------
  // Preservation
  // ---------------------------------------------------------------------

  lemma InitClientInv(cfg: Config)
    requires cfg.Valid()
    ensures ClientInv(cfg, InitClient(cfg))
  {
    assert 0 * cfg.chunk == 0;
  }

  lemma InitInv(cfg: Config)
    requires cfg.Valid()
    ensures Inv(cfg, Init(cfg))
  {
    hide ClientInv, Total;
    InitClientInv(cfg);
    assert Shape(cfg, Init(cfg));
  }

  /** What the next chunk is, in terms of the stream, and what it means for the end of the run. */
  lemma NextChunkFacts(cfg: Config, c: Client)
    requires cfg.Valid() && Registers(cfg, c) && PhaseInv(cfg, c) && c.phase.Sending?
    requires 0 <= Base(cfg, c) && Base(cfg, c) % cfg.channels == 0
    ensures c.pos <= |cfg.input|
    ensures var k, i, ch := c.issued, c.phase.i, NextChunk(cfg.input, cfg.chunk, c.pos);
      var ended := (k + 1) * cfg.chunk > |cfg.input|;
      && ch.size == |Part(cfg, k)| && ch.eof == ended
      && StrNCpy(ch.text, cfg.chunk) == Part(cfg, k) + Zeros(cfg.chunk - ch.size)
      && ch.pos == Min((k + 1) * cfg.chunk, |cfg.input|)
      && (if ch.size == 0 then ended && k + 1 == Total(cfg)
          else if i + 1 == cfg.channels && ended then k + 1 == Total(cfg)
          else k + 1 < Total(cfg) && (ended ==> k * cfg.chunk <= |cfg.input|))
  {
    var k, i := c.issued, c.phase.i;
    MulLe(k, k + 1, cfg.chunk);
    if !Ended(cfg, c) {
      ChunkWithin(cfg, k, i);
      if (k + 1) * cfg.chunk <= |cfg.input| {
        FullChunk(cfg, k);
      } else {
        LastChunk(cfg, k, i);
      }
    } else {
      LastChunk(cfg, k - 1, i - 1);
      ChunkAfterEnd(cfg, k - 1, i - 1);
    }
  }

  lemma SendKeepsRegisters(cfg: Config, c: Client)
    requires cfg.Valid() && ClientInv(cfg, c) && c.phase.Sending?
    ensures Registers(cfg, SendChunk(cfg, c).0)
    ensures SendChunk(cfg, c).1 == DataPacket(cfg, c.issued, c.phase.i)
  {
    NextChunkFacts(cfg, c);
  }

  lemma SendKeepsPhase(cfg: Config, c: Client)
    requires cfg.Valid() && ClientInv(cfg, c) && c.phase.Sending?
    ensures PhaseInv(cfg, SendChunk(cfg, c).0)
    ensures Count(cfg, SendChunk(cfg, c).0) == c.phase.i + 1
  {
    NextChunkFacts(cfg, c);
    var d := SendChunk(cfg, c).0;
    assert d.issued == c.issued + 1;
    assert Ended(cfg, d) <==> (c.issued + 1) * cfg.chunk > |cfg.input|;
  }

  lemma SendKeepsBatch(cfg: Config, c: Client, d: Client, i: nat)
    requires cfg.Valid() && BatchInv(cfg, c) && c.phase == Sending(i) && i < cfg.channels
    requires d.issued == c.issued + 1 && Count(cfg, d) == i + 1
    requires d.tmp == c.tmp[i := DataPacket(cfg, c.issued, i)]
    ensures BatchInv(cfg, d)
  {
    hide DataPacket;
    assert Base(cfg, d) == Base(cfg, c);
  }

  /** The client invariant survives one iteration of the batch loop, which sends exactly the
      next data packet. */
  lemma SendKeepsClient(cfg: Config, c: Client)
    requires cfg.Valid() && ClientInv(cfg, c) && c.phase.Sending?
    ensures var r := SendChunk(cfg, c);
      ClientInv(cfg, r.0) && r.1 == DataPacket(cfg, c.issued, c.phase.i)
  {
    SendKeepsRegisters(cfg, c);
    SendKeepsPhase(cfg, c);
    SendKeepsBatch(cfg, c, SendChunk(cfg, c).0, c.phase.i);
  }

  lemma GoodNumber(cfg: Config, c: Client, p: Packet)
    requires cfg.Valid() && Good(cfg, c, p)
    ensures p.header.seqNo < NO_EOF
  {
  }

  /** An acknowledgement of the sentinel is read while no end has been seen. */
  predicate Confused(c: Client, p: Packet) {
    c.eofSeq == NO_EOF && p.header.isAck && p.header.seqNo == NO_EOF
  }

  lemma AckKeepsPhase(cfg: Config, c: Client, p: Packet)
    requires cfg.Valid() && ClientInv(cfg, c) && c.phase.Waiting?
    ensures PhaseInv(cfg, AfterAck(cfg, c, p)) <==> !Confused(c, p)
  {
    hide Total, Part, DataPacket, Min;
  }

  lemma AckKeepsBatch(cfg: Config, c: Client, d: Client)
    requires cfg.Valid() && BatchInv(cfg, c) && PhaseInv(cfg, c) && PhaseInv(cfg, d) && c.phase.Waiting?
    requires d == c.(phase := d.phase, isEof := d.isEof)
    requires d.phase.Sending? ==> d.phase.i == 0
    ensures BatchInv(cfg, d)
  {
    hide Total, DataPacket;
    if d.phase.Sending? {
      NextBatchAligned(cfg, Base(cfg, c));
    }
  }

  /** Whatever is read, the client's variables stay in order, unless the acknowledgement carries
      the sentinel itself and the end has not been seen: is_eof is then set too early. */
  lemma AckKeepsClient(cfg: Config, c: Client, p: Packet)
    requires cfg.Valid() && ClientInv(cfg, c) && c.phase.Waiting?
    ensures ClientInv(cfg, AfterAck(cfg, c, p)) <==> !Confused(c, p)
    ensures AfterAck(cfg, c, p).issued == c.issued
  {
    hide BatchInv, PhaseInv, Total, Part, Off, Min;
    AckKeepsPhase(cfg, c, p);
    if !Confused(c, p) {
      AckKeepsBatch(cfg, c, AfterAck(cfg, c, p));
    }
  }

  lemma GoodMonotone(cfg: Config, c: Client, d: Client, q: seq<Packet>)
    requires cfg.Valid() && AllGood(cfg, c, q) && c.issued <= d.issued
    requires c.phase.FinWait? || c.phase.Done? ==> d.phase.FinWait? || d.phase.Done?
    ensures AllGood(cfg, d, q)
  {
    forall p | p in q
      ensures Good(cfg, d, p)
    {
      assert Good(cfg, c, p);
    }
  }

  /** A transmission of a good packet by a client that moved from s.client to d. */
  lemma TransmitKeeps(cfg: Config, s: State, d: Client, sent: seq<Packet>, i: nat, p: Packet)
    requires Inv(cfg, s) && ClientInv(cfg, d) && i < cfg.channels
    requires s.client.issued <= d.issued && Good(cfg, d, p)
    requires s.client.phase.FinWait? || s.client.phase.Done? ==> d.phase.FinWait? || d.phase.Done?
    requires |sent| == d.issued
    requires forall k :: 0 <= k < |sent| ==> sent[k] == DataPacket(cfg, k, k % cfg.channels)
    ensures Inv(cfg, Transmit(s.(client := d, sent := sent), i, p))
  {
    var t := Transmit(s.(client := d, sent := sent), i, p);
    assert d.phase.Waiting? ==> Count(cfg, d) <= cfg.channels;
    forall j | 0 <= j < cfg.channels
      ensures AllGood(cfg, d, t.up[j]) && AllGood(cfg, d, t.down[j])
    {
      GoodMonotone(cfg, s.client, d, s.up[j]);
      GoodMonotone(cfg, s.client, d, s.down[j]);
    }
    forall w | w in t.log
      ensures exists k: nat :: k < d.issued && w == ChunkWrite(cfg, k)
    {
      var k: nat :| k < s.client.issued && w == ChunkWrite(cfg, k);
    }
  }

  lemma DataPacketGood(cfg: Config, c: Client, k: nat, i: nat)
    requires cfg.Valid() && k < c.issued
    ensures Good(cfg, c, DataPacket(cfg, k, i))
  {
    assert Body(DataPacket(cfg, k, i)) == Part(cfg, k);
    assert Carries(cfg, DataPacket(cfg, k, i), k);
  }

  lemma OutstandingGood(cfg: Config, c: Client)
    requires cfg.Valid() && ClientInv(cfg, c) && Polling(c)
    ensures Good(cfg, c, Outstanding(cfg, c))
  {
    if c.phase.Waiting? {
      DataPacketGood(cfg, c, Base(cfg, c) + c.phase.i, c.phase.i);
    } else {
      TotalReachesEnd(cfg);
    }
  }

  lemma SendKeeps(cfg: Config, s: State)
    requires Inv(cfg, s) && Enabled(cfg, s, Send)
    ensures Inv(cfg, Next(cfg, s, Send))
  {
    var c, k, i := s.client, s.client.issued, s.client.phase.i;
    var r := SendChunk(cfg, c);
    SendKeepsClient(cfg, c);
    DataPacketGood(cfg, r.0, k, i);
    RoundRobin(cfg, Base(cfg, c), i);
    TransmitKeeps(cfg, s, r.0, s.sent + [r.1], i, r.1);
  }

  lemma ExpireKeeps(cfg: Config, s: State)
    requires Inv(cfg, s) && Enabled(cfg, s, Expire)
    ensures Inv(cfg, Next(cfg, s, Expire))
  {
    OutstandingGood(cfg, s.client);
    TransmitKeeps(cfg, s, s.client, s.sent, Polled(s.client), Outstanding(cfg, s.client));
    assert s.(client := s.client, sent := s.sent) == s;
  }

  lemma FinKeepsClient(cfg: Config, c: Client)
    requires cfg.Valid() && ClientInv(cfg, c) && c.phase.SendFin?
    ensures ClientInv(cfg, c.(phase := FinWait))
    ensures Outstanding(cfg, c.(phase := FinWait)) == FinPacket(cfg, c)
  {
    hide Total, Part, Off, DataPacket, Min;
  }

  lemma FinKeeps(cfg: Config, s: State)
    requires Inv(cfg, s) && Enabled(cfg, s, Fin)
    ensures Inv(cfg, Next(cfg, s, Fin))
  {
    hide ClientInv, Good, FinPacket, DataPacket;
    var d := s.client.(phase := FinWait);
    FinKeepsClient(cfg, s.client);
    OutstandingGood(cfg, d);
    TransmitKeeps(cfg, s, d, s.sent, 0, FinPacket(cfg, s.client));
  }

  lemma DoneKeepsClient(cfg: Config, c: Client)
    requires cfg.Valid() && ClientInv(cfg, c) && c.phase.FinWait?
    ensures ClientInv(cfg, c.(phase := Done))
  {
    hide Total, Part, Off, DataPacket, Min;
  }

  lemma ReadKeepsClient(cfg: Config, s: State)
    requires Inv(cfg, s) && Enabled(cfg, s, Read)
    ensures var c := Next(cfg, s, Read).client;
      && ClientInv(cfg, c) && c.issued == s.client.issued
      && (s.client.phase.FinWait? ==> c.phase.Done?)
  {
    hide ClientInv, Good, AfterAck, ServerInv, SentInv, Conserved;
    var i := Polled(s.client);
    if s.client.phase.Waiting? {
      var p := s.down[i][0];
      assert AllGood(cfg, s.client, s.down[i]) && p in s.down[i];
      GoodNumber(cfg, s.client, p);
      AckKeepsClient(cfg, s.client, p);
    } else {
      DoneKeepsClient(cfg, s.client);
    }
  }

  lemma ReadKeeps(cfg: Config, s: State)
    requires Inv(cfg, s) && Enabled(cfg, s, Read)
    ensures Inv(cfg, Next(cfg, s, Read))
  {
    var t := Next(cfg, s, Read);
    ReadKeepsClient(cfg, s);
    forall j | 0 <= j < cfg.channels
      ensures AllGood(cfg, t.client, t.up[j]) && AllGood(cfg, t.client, t.down[j])
    {
      GoodMonotone(cfg, s.client, t.client, s.up[j]);
      GoodMonotone(cfg, s.client, t.client, s.down[j]);
      assert forall p :: p in t.down[j] ==> p in s.down[j];
    }
    assert NetInv(cfg, t) && ServerInv(cfg, t);
  }

  /** A good packet writes a part of the stream, or is a FIN with the number of its end. */
  lemma GoodFacts(cfg: Config, c: Client, p: Packet) returns (k: nat)
    requires cfg.Valid() && Good(cfg, c, p)
    ensures p.header.seqNo <= StreamLength(cfg)
    ensures !p.header.isLast ==> k < c.issued && WriteOf(p) == ChunkWrite(cfg, k)
    ensures p.header.isLast ==> p.header.seqNo == StreamLength(cfg) && (c.phase.FinWait? || c.phase.Done?)
  {
    hide Part;
    k := 0;
    if !p.header.isLast {
      k :| k < c.issued && Carries(cfg, p, k);
    }
  }

  lemma AcceptKeepsServer(cfg: Config, s: State, i: nat)
    requires Inv(cfg, s) && Enabled(cfg, s, Accept(i))
    ensures ServerInv(cfg, Next(cfg, s, Accept(i)))
  {
    hide ClientInv, Good, Carries, Part, ChunkWrite, WriteOf, WriteAt, WriteAll, DrawnFromChunks, Conserved, SentInv;
    var p := s.up[i][0];
    assert AllGood(cfg, s.client, s.up[i]) && p in s.up[i];
    var k := GoodFacts(cfg, s.client, p);
    if !p.header.isLast {
      WriteAllSnoc(s.log, WriteOf(p));
      DrawnSnoc(cfg, s.client.issued, s.log, WriteOf(p), k);
    }
  }

  lemma AcceptKeeps(cfg: Config, s: State, i: nat)
    requires Inv(cfg, s) && Enabled(cfg, s, Accept(i))
    ensures Inv(cfg, Next(cfg, s, Accept(i)))
  {
    AcceptKeepsServer(cfg, s, i);
    AcceptKeepsNet(cfg, s, i);
    var t := Next(cfg, s, Accept(i));
    assert t.client == s.client && t.sent == s.sent;
  }

  lemma AcceptKeepsNet(cfg: Config, s: State, i: nat)
    requires Inv(cfg, s) && Enabled(cfg, s, Accept(i))
    ensures NetInv(cfg, Next(cfg, s, Accept(i)))
  {
    var t, p := Next(cfg, s, Accept(i)), s.up[i][0];
    assert AllGood(cfg, s.client, s.up[i]);
    AckGood(cfg, s.client, p);
    forall j | 0 <= j < cfg.channels
      ensures AllGood(cfg, t.client, t.up[j]) && AllGood(cfg, t.client, t.down[j])
    {
      assert AllGood(cfg, s.client, s.up[j]) && AllGood(cfg, s.client, s.down[j]);
    }
  }

  lemma AckGood(cfg: Config, c: Client, p: Packet)
    requires cfg.Valid() && Good(cfg, c, p)
    ensures Good(cfg, c, Ack(p))
  {
    if !p.header.isLast {
      var k: nat :| k < c.issued && Carries(cfg, p, k);
      assert Carries(cfg, Ack(p), k);
    }
  }

  lemma DropKeeps(cfg: Config, s: State, i: nat)
    requires Inv(cfg, s) && Enabled(cfg, s, Drop(i))
    ensures Inv(cfg, Next(cfg, s, Drop(i)))
  {
    var t := Next(cfg, s, Drop(i));
    forall j | 0 <= j < cfg.channels
      ensures AllGood(cfg, t.client, t.up[j]) && AllGood(cfg, t.client, t.down[j])
    {
      assert AllGood(cfg, s.client, s.up[j]) && AllGood(cfg, s.client, s.down[j]);
    }
  }

  /** Every step of the protocol keeps the invariant, whenever its timeouts fire. */
  lemma StepKeeps(cfg: Config, s: State, a: Action)
    requires Inv(cfg, s) && Enabled(cfg, s, a)
    ensures Inv(cfg, Next(cfg, s, a))
  {
    match a
    case Send => SendKeeps(cfg, s);
    case Expire => ExpireKeeps(cfg, s);
    case Read => ReadKeeps(cfg, s);
    case Fin => FinKeeps(cfg, s);
    case Accept(i) => AcceptKeeps(cfg, s, i);
    case Drop(i) => DropKeeps(cfg, s, i);
    case Exit =>
  }

  lemma {:induction false} RunInv(cfg: Config, actions: seq<Action>)
    requires cfg.Valid() && Exec(cfg, actions).At?
    ensures Inv(cfg, Exec(cfg, actions).s)
  {
    hide Inv, Enabled, Next;
    if actions == [] {
      InitInv(cfg);
    } else {
      var front := actions[..|actions| - 1];
      RunInv(cfg, front);
      StepKeeps(cfg, Exec(cfg, front).s, actions[|actions| - 1]);
    }
  }
}

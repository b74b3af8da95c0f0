/** The imperative code of the client, proved against the functions the state machine of module
    Protocol is built from (N-Channel-StopNWait/client.c, utils.h). */
module ClientSide {
  import opened Payload
  import opened Protocol
  import opened Traces
  import opened Loops
  import opened PollBudget

  // ---------------------------------------------------------------------
  // Input file and chunker
  // ---------------------------------------------------------------------

  class InputFile {
    const data: seq<Byte>
    var pos: nat

    ghost predicate Valid()
      reads this
    {
      pos <= |data|
    }

    constructor (data: seq<Byte>)
      ensures Valid() && this.data == data && pos == 0
    {
      this.data := data;
      pos := 0;
    }

    /** fread(buffer, 1, n, fp). */
    method Fread(buffer: array<Byte>, n: nat) returns (ret: nat)
      requires Valid() && n <= buffer.Length
      modifies this`pos, buffer
      ensures Valid() && ret == Min(n, |data| - old(pos)) && pos == old(pos) + ret
      ensures forall j :: 0 <= j < buffer.Length ==>
        buffer[j] == if j < ret then data[old(pos) + j] else old(buffer[j])
    {
      ret := 0;
      while ret < n && pos < |data|
        invariant ret <= n && pos == old(pos) + ret <= |data|
        invariant forall j :: 0 <= j < buffer.Length ==>
          buffer[j] == if j < ret then data[old(pos) + j] else old(buffer[j])
      {
        buffer[ret] := data[pos];
        ret := ret + 1;
        pos := pos + 1;
      }
    }
  }

  /** get_next_chunk: leaves the chunk's text, NUL-terminated, in the buffer. */
  method GetNextChunk(fp: InputFile, buffer: array<Byte>, chunk: nat, wasEof: bool)
    returns (isEof: bool, payloadSize: nat)
    requires fp.Valid() && chunk < buffer.Length
    modifies fp`pos, buffer
    ensures fp.Valid()
    ensures var c := NextChunk(fp.data, chunk, old(fp.pos));
      && payloadSize == c.size && isEof == (wasEof || c.eof) && fp.pos == c.pos
      && c.size < buffer.Length && buffer[..c.size] == c.text && buffer[c.size] == 0
  {
    var ret := fp.Fread(buffer, chunk);
    buffer[ret] := 0;
    payloadSize := ret;
    isEof := wasEof;
    if ret < chunk {
      isEof := true;
      if ret > 0 {
        buffer[ret - 1] := 0;
        payloadSize := ret - 1;
      }
    }
  }

  /** Whatever follows the terminator in the buffer is irrelevant to strncpy. */
  lemma {:induction false} StrNCpyStops(text: seq<Byte>, rest: seq<Byte>, n: nat)
    requires |text| <= n
    ensures StrNCpy(text + [0] + rest, n) == StrNCpy(text, n)
  {
    if n > 0 && text != [] {
      assert (text + [0] + rest)[1..] == text[1..] + [0] + rest;
      StrNCpyStops(text[1..], rest, n - 1);
    }
  }

  lemma StrNCpyBuffer(b: seq<Byte>, size: nat, n: nat)
    requires size < |b| && b[size] == 0 && size <= n
    ensures StrNCpy(b, n) == StrNCpy(b[..size], n)
  {
    assert b == b[..size] + [0] + b[size + 1..];
    StrNCpyStops(b[..size], b[size + 1..], n);
  }

  // ---------------------------------------------------------------------
  // Client
  // ---------------------------------------------------------------------

  /** The state machine's client after n iterations of the batch loop, and what it sent. */
  ghost function SendRun(cfg: Config, c: Client, n: nat): (r: (Client, seq<Packet>))
  {
    if n == 0 then (c, [])
    else
      var r := SendRun(cfg, c, n - 1);
      var d := r.0;
      if d.phase.Sending? && d.phase.i < |d.tmp| && d.pos <= |cfg.input|
      then var e := SendChunk(cfg, d); (e.0, r.1 + [e.1])
      else r
  }

  lemma {:induction false} SendRunInv(cfg: Config, start: Client, n: nat)
    requires cfg.Valid() && ClientInv(cfg, start)
    ensures ClientInv(cfg, SendRun(cfg, start, n).0)
  {
    if n > 0 {
      SendRunInv(cfg, start, n - 1);
      var d := SendRun(cfg, start, n - 1).0;
      if d.phase.Sending? {
        SendKeepsClient(cfg, d);
      }
    }
  }

  /** One more iteration of the batch loop: it sends data packet c.issued on channel i and goes
      on exactly if that packet is not empty and a channel is left. */
  lemma BatchStep(cfg: Config, start: Client, i: nat)
    requires cfg.Valid() && ClientInv(cfg, start) && SendRun(cfg, start, i).0.phase == Sending(i)
    ensures var c := SendRun(cfg, start, i).0;
      && !c.isEof && |c.tmp| == cfg.channels && i < cfg.channels && c.pos <= |cfg.input|
      && var r := SendChunk(cfg, c);
      && SendRun(cfg, start, i + 1).0 == r.0
      && r.0.issued == c.issued + 1 && (r.0.lastPacket == i || r.0.lastPacket == c.lastPacket)
      && r.1 == DataPacket(cfg, c.issued, i)
      && r.0.phase == (if r.0.lastPacket == i || i + 1 == cfg.channels then Waiting(0) else Sending(i + 1))
  {
    SendRunInv(cfg, start, i);
    SendKeepsClient(cfg, SendRun(cfg, start, i).0);
  }

  /** The writes of a batch: data packets base, base + 1, ... on channels 0, 1, ... */
  ghost function BatchJournal(cfg: Config, base: nat, n: nat): (r: seq<Sent>)
    requires cfg.Valid()
    ensures |r| == n
    ensures forall j :: 0 <= j < n ==> r[j] == Sent(j, DataPacket(cfg, base + j, j))
  {
    seq(n, j requires 0 <= j < n => Sent(j, DataPacket(cfg, base + j, j)))
  }

  lemma BatchStart(cfg: Config, start: Client, before: seq<Sent>)
    requires cfg.Valid() && ClientInv(cfg, start) && start.phase == Sending(0)
    ensures start.lastPacket == -1 && start == SendRun(cfg, start, 0).0
    ensures before == before + BatchJournal(cfg, start.issued, 0)
  {
  }

  lemma BatchJournalStep(cfg: Config, before: seq<Sent>, base: nat, n: nat)
    requires cfg.Valid()
    ensures before + BatchJournal(cfg, base, n) + [Sent(n, DataPacket(cfg, base + n, n))]
            == before + BatchJournal(cfg, base, n + 1)
  {
    assert BatchJournal(cfg, base, n + 1) == BatchJournal(cfg, base, n) + [Sent(n, DataPacket(cfg, base + n, n))];
  }

  /** The state machine's client after the acknowledgements of channels 0..n have been read. */
  ghost function AckRun(cfg: Config, c: Client, answers: seq<Answer>, n: nat): Client
    requires n <= |answers|
  {
    if n == 0 then c
    else
      var d := AckRun(cfg, c, answers, n - 1);
      if d.phase.Waiting? then AfterAck(cfg, d, answers[n - 1].packet) else d
  }

  lemma {:induction false} AckRunPhase(cfg: Config, c: Client, answers: seq<Answer>, n: nat)
    requires c.phase == Waiting(0) && -1 <= c.lastPacket && n < Count(cfg, c) <= cfg.channels && n <= |answers|
    ensures AckRun(cfg, c, answers, n).phase == Waiting(n)
    ensures AckRun(cfg, c, answers, n).(isEof := c.isEof, phase := c.phase) == c
  {
    if n > 0 {
      AckRunPhase(cfg, c, answers, n - 1);
    }
  }

  /** Reading one more acknowledgement changes is_eof only, and the place in the loop. */
  lemma AckRunStep(cfg: Config, c: Client, answers: seq<Answer>, n: nat)
    requires c.phase == Waiting(0) && -1 <= c.lastPacket && n < Count(cfg, c) <= cfg.channels && n < |answers|
    ensures var d, e, h := AckRun(cfg, c, answers, n), AckRun(cfg, c, answers, n + 1), answers[n].packet.header;
      e == d.(phase := e.phase, isEof := d.isEof || (h.isAck && h.seqNo == c.eofSeq))
  {
    AckRunPhase(cfg, c, answers, n);
  }

  ghost predicate AnyExpired(answers: seq<Answer>, n: nat)
    requires n <= |answers|
  {
    exists h :: 0 <= h < n && answers[h].expiries > 0
  }

  function Copies(x: Sent, n: nat): (r: seq<Sent>)
    ensures |r| == n
  {
    seq(n, _ => x)
  }

  /** The writes of a round of polls: each channel's packet once per expiry, in channel order. */
  ghost function PollJournal(tmp: seq<Packet>, answers: seq<Answer>, n: nat): seq<Sent>
    requires n <= |tmp| && n <= |answers|
  {
    if n == 0 then []
    else PollJournal(tmp, answers, n - 1) + Copies(Sent(n - 1, tmp[n - 1]), answers[n - 1].expiries)
  }

  lemma PollStart(cfg: Config, c: Client, tmp: seq<Packet>, answers: seq<Answer>, before: seq<Sent>)
    ensures AckRun(cfg, c, answers, 0) == c && before == before + PollJournal(tmp, answers, 0)
    ensures !AnyExpired(answers, 0)
  {
  }

  lemma PollJournalStep(tmp: seq<Packet>, answers: seq<Answer>, n: nat, before: seq<Sent>)
    requires n < |tmp| && n < |answers|
    ensures before + PollJournal(tmp, answers, n) + Copies(Sent(n, tmp[n]), answers[n].expiries)
            == before + PollJournal(tmp, answers, n + 1)
    ensures AnyExpired(answers, n + 1) == (AnyExpired(answers, n) || answers[n].expiries > 0)
  {
    if AnyExpired(answers, n + 1) {
      var h :| 0 <= h < n + 1 && answers[h].expiries > 0;
    }
    if answers[n].expiries > 0 {
      assert AnyExpired(answers, n + 1);
    }
  }

  lemma {:induction false} AckRunInv(cfg: Config, c: Client, answers: seq<Answer>, n: nat)
    requires cfg.Valid() && ClientInv(cfg, c) && c.phase == Waiting(0)
    requires n <= |answers| && n <= Count(cfg, c) && !(c.eofSeq == NO_EOF && Acknowledged(answers, n, NO_EOF))
    ensures ClientInv(cfg, AckRun(cfg, c, answers, n))
  {
    hide ClientInv, Registers;
    if n > 0 {
      WaitingBounds(cfg, c);
      AckRunInv(cfg, c, answers, n - 1);
      AckRunPhase(cfg, c, answers, n - 1);
      AckKeepsClient(cfg, AckRun(cfg, c, answers, n - 1), answers[n - 1].packet);
    }
  }

  /** is_eof without an end of the input is out of order. */
  lemma EofNeedsEnd(cfg: Config, c: Client)
    requires cfg.Valid() && ClientInv(cfg, c) && c.eofSeq == NO_EOF
    ensures !c.isEof
  {
    hide Total, Part, DataPacket;
  }

  lemma WaitingBounds(cfg: Config, c: Client)
    requires cfg.Valid() && ClientInv(cfg, c) && c.phase.Waiting?
    ensures -1 <= c.lastPacket < cfg.channels && 1 <= Count(cfg, c) <= cfg.channels
  {
  }

  lemma {:induction false} AckRunEof(cfg: Config, c: Client, answers: seq<Answer>, n: nat)
    requires c.phase == Waiting(0) && -1 <= c.lastPacket && n <= Count(cfg, c) <= cfg.channels && n <= |answers|
    ensures var d := AckRun(cfg, c, answers, n);
      && d.(isEof := c.isEof, phase := c.phase) == c
      && d.isEof == (c.isEof || Acknowledged(answers, n, c.eofSeq))
  {
    if n > 0 {
      AckRunEof(cfg, c, answers, n - 1);
      AckRunPhase(cfg, c, answers, n - 1);
      var h := answers[n - 1].packet.header;
      assert Acknowledged(answers, n, c.eofSeq)
        <==> Acknowledged(answers, n - 1, c.eofSeq) || (h.isAck && h.seqNo == c.eofSeq);
    }
  }

  lemma RoundPhase(cfg: Config, c: Client, answers: seq<Answer>)
    requires c.phase == Waiting(0) && -1 <= c.lastPacket && 1 <= Count(cfg, c) <= cfg.channels == |answers|
    ensures var d := AckRun(cfg, c, answers, Count(cfg, c));
      d.phase == (if d.isEof then SendFin else if c.eofSeq == NO_EOF then Sending(0) else Waiting(0))
  {
    AckRunPhase(cfg, c, answers, Count(cfg, c) - 1);
  }

  lemma AcknowledgedGrows(answers: seq<Answer>, n: nat, m: nat, number: nat)
    requires n <= m <= |answers| && Acknowledged(answers, n, number)
    ensures Acknowledged(answers, m, number)
  {
  }

  /** After a round the client goes on to FIN if the number eof_seq_no has been acknowledged, and
      otherwise to the next batch, or polls the last batch again.  Its variables are then in order
      unless the sentinel has been acknowledged before the end of the input was seen. */
  lemma RoundEnd(cfg: Config, c: Client, answers: seq<Answer>)
    requires cfg.Valid() && ClientInv(cfg, c) && c.phase == Waiting(0) && |answers| == cfg.channels
    ensures var n := Count(cfg, c); var d := AckRun(cfg, c, answers, n);
      && (ClientInv(cfg, d) <==> !(c.eofSeq == NO_EOF && Acknowledged(answers, n, NO_EOF)))
      && d == c.(phase := d.phase, isEof := d.isEof)
      && d.isEof == (c.isEof || Acknowledged(answers, n, c.eofSeq))
      && d.phase == (if d.isEof then SendFin else if c.eofSeq == NO_EOF then Sending(0) else Waiting(0))
      && (d.isEof && !c.isEof ==> Acknowledged(answers, cfg.channels, c.eofSeq))
  {
    hide ClientInv, AckRun, Acknowledged;
    WaitingBounds(cfg, c);
    var n := Count(cfg, c);
    AckRunEof(cfg, c, answers, n);
    RoundPhase(cfg, c, answers);
    if Acknowledged(answers, n, c.eofSeq) {
      AcknowledgedGrows(answers, n, cfg.channels, c.eofSeq);
    }
    if c.eofSeq == NO_EOF && Acknowledged(answers, n, NO_EOF) {
      if ClientInv(cfg, AckRun(cfg, c, answers, n)) {
        EofNeedsEnd(cfg, AckRun(cfg, c, answers, n));
      }
    } else {
      AckRunInv(cfg, c, answers, n);
    }
  }

  /** The transmission of data packet k on its own channel. */
  ghost function DataSent(cfg: Config, k: nat): Sent
    requires cfg.Valid()
  {
    Sent(k % cfg.channels, DataPacket(cfg, k, k % cfg.channels))
  }

  /** Write j is a transmission of one of the first n data packets, and not before the one in front
      of it has been sent. */
  ghost predicate InTurn(cfg: Config, n: nat, journal: seq<Sent>, j: nat)
    requires cfg.Valid() && j < |journal|
  {
    exists k: nat :: k < n && journal[j] == DataSent(cfg, k) && Preceded(cfg, k, journal[..j])
  }

  ghost predicate Preceded(cfg: Config, k: nat, journal: seq<Sent>)
    requires cfg.Valid()
  {
    k == 0 || DataSent(cfg, k - 1) in journal
  }

  /** The writes so far are transmissions of the first n data packets, each at least once, for the
      first time in order. */
  ghost predicate DataJournal(cfg: Config, n: nat, journal: seq<Sent>)
    requires cfg.Valid()
  {
    && (forall j :: 0 <= j < |journal| ==> InTurn(cfg, n, journal, j))
    && (forall k: nat :: k < n ==> DataSent(cfg, k) in journal)
  }

  /** More packets and more writes do not disturb the earlier ones. */
  lemma InTurnKept(cfg: Config, n: nat, m: nat, journal: seq<Sent>, more: seq<Sent>, j: nat)
    requires cfg.Valid() && n <= m && j < |journal| && InTurn(cfg, n, journal, j)
    ensures InTurn(cfg, m, journal + more, j)
  {
    hide DataSent;
    assert (journal + more)[..j] == journal[..j];
  }

  lemma InTurnNow(cfg: Config, n: nat, journal: seq<Sent>, j: nat, k: nat)
    requires cfg.Valid() && j < |journal| && k < n && journal[j] == DataSent(cfg, k)
    requires Preceded(cfg, k, journal[..j])
    ensures InTurn(cfg, n, journal, j)
  {
  }

  lemma {:induction false} BatchIsData(cfg: Config, before: seq<Sent>, base: nat, n: nat)
    requires cfg.Valid() && DataJournal(cfg, base, before) && base % cfg.channels == 0 && n <= cfg.channels
    ensures DataJournal(cfg, base + n, before + BatchJournal(cfg, base, n))
    decreases n
  {
    hide DataPacket, InTurn, BatchJournal;
    if n == 0 {
      assert before + BatchJournal(cfg, base, 0) == before;
    } else {
      BatchIsData(cfg, before, base, n - 1);
      RoundRobin(cfg, base, n - 1);
      BatchJournalStep(cfg, before, base, n - 1);
      DataAppended(cfg, before + BatchJournal(cfg, base, n - 1), base + n - 1);
    }
  }

  /** One more data packet, sent for the first time. */
  lemma DataAppended(cfg: Config, journal: seq<Sent>, k: nat)
    requires cfg.Valid() && DataJournal(cfg, k, journal)
    ensures DataJournal(cfg, k + 1, journal + [DataSent(cfg, k)])
  {
    hide DataSent, InTurn;
    var n, all := k + 1, journal + [DataSent(cfg, k)];
    forall j: nat | j < |all|
      ensures InTurn(cfg, n, all, j)
    {
      if j < |journal| {
        InTurnKept(cfg, k, n, journal, [DataSent(cfg, k)], j);
      } else {
        assert all[..j] == journal;
        InTurnNow(cfg, n, all, j, k);
      }
    }
    assert all[|journal|] == DataSent(cfg, k);
  }

  lemma {:induction false} PollsAreOutstanding(tmp: seq<Packet>, answers: seq<Answer>, n: nat, x: Sent)
    requires n <= |tmp| && n <= |answers| && x in PollJournal(tmp, answers, n)
    ensures x.channel < n && x.packet == tmp[x.channel]
  {
    if n > 0 && x in PollJournal(tmp, answers, n - 1) {
      PollsAreOutstanding(tmp, answers, n - 1, x);
    }
  }

  /** Retransmissions of packets that have all been sent before. */
  lemma Retransmitted(cfg: Config, n: nat, before: seq<Sent>, more: seq<Sent>)
    requires cfg.Valid() && DataJournal(cfg, n, before)
    requires forall x :: x in more ==> exists k: nat :: k < n && x == DataSent(cfg, k)
    ensures DataJournal(cfg, n, before + more)
  {
    hide DataSent, InTurn;
    var all := before + more;
    forall j: nat | j < |all|
      ensures InTurn(cfg, n, all, j)
    {
      if j < |before| {
        InTurnKept(cfg, n, n, before, more, j);
      } else {
        assert all[j] == more[j - |before|] && more[j - |before|] in more;
        var k: nat :| k < n && all[j] == DataSent(cfg, k);
        if k > 0 {
          assert DataSent(cfg, k - 1) in before;
          assert before <= all[..j];
        }
        InTurnNow(cfg, n, all, j, k);
      }
    }
  }

  lemma PollsAreData(cfg: Config, c: Client, before: seq<Sent>, answers: seq<Answer>)
    requires cfg.Valid() && ClientInv(cfg, c) && c.phase.Waiting? && |answers| == cfg.channels
    requires DataJournal(cfg, c.issued, before)
    ensures DataJournal(cfg, c.issued, before + PollJournal(c.tmp, answers, Count(cfg, c)))
  {
    hide DataPacket, Registers, PhaseInv, DataJournal, PollJournal;
    var n, base := Count(cfg, c), Base(cfg, c);
    forall x | x in PollJournal(c.tmp, answers, n)
      ensures exists k: nat :: k < c.issued && x == DataSent(cfg, k)
    {
      PollsAreOutstanding(c.tmp, answers, n, x);
      RoundRobin(cfg, base, x.channel);
      assert x == DataSent(cfg, base + x.channel);
    }
    Retransmitted(cfg, c.issued, before, PollJournal(c.tmp, answers, n));
  }

  lemma BatchClient(cfg: Config, start: Client, n: nat)
    requires cfg.Valid() && ClientInv(cfg, start) && start.phase == Sending(0)
    ensures ClientInv(cfg, SendRun(cfg, start, n).0) && !SendRun(cfg, start, n).0.isEof
    ensures start.issued % cfg.channels == 0 && start.lastPacket == -1
  {
    SendRunInv(cfg, start, n);
    SendRunKeepsEof(cfg, start, n);
  }

  lemma {:induction false} SendRunKeepsEof(cfg: Config, start: Client, n: nat)
    ensures SendRun(cfg, start, n).0.isEof == start.isEof
  {
    hide NextChunk, StrNCpy;
    if n > 0 {
      SendRunKeepsEof(cfg, start, n - 1);
    }
  }

  lemma RoundsStart(cfg: Config, rounds: seq<seq<Answer>>)
    requires cfg.Valid()
    ensures rounds[..0] == [] && SoundRounds(cfg, []) && Rounds(cfg, []) == Loop(0, [], false)
  {
  }

  lemma LoopStart(cfg: Config)
    requires cfg.Valid()
    ensures DataJournal(cfg, 0, []) && ClientRun(cfg, []) == CAt(InitClient(cfg), [])
  {
  }

  /** The FIN packet of a complete transfer. */
  ghost function FinOf(cfg: Config): Packet
    requires cfg.Valid()
  {
    Packet(Header(|Part(cfg, Total(cfg) - 1)|, StreamLength(cfg), true, true, 0), StrNCpy([101, 120, 105, 116], cfg.chunk))
  }

  /** What is known when FIN is sent. */
  lemma LoopFacts(cfg: Config, c: Client)
    requires cfg.Valid() && ClientInv(cfg, c)
    ensures c.issued <= Total(cfg)
    ensures c.phase.SendFin? ==>
      && c.issued == Total(cfg) && c.eofSeq == Off(cfg, Total(cfg) - 1)
      && c.seqNo == StreamLength(cfg) && FinPacket(cfg, c) == FinOf(cfg)
  {
    hide StrNCpy;
    TotalReachesEnd(cfg);
  }

  // ---------------------------------------------------------------------
  // The events behind the methods
  // ---------------------------------------------------------------------

  /** As long as every iteration reads a chunk, the batch goes channel by channel. */
  lemma {:induction false} SendRunPhases(cfg: Config, start: Client, n: nat)
    requires cfg.Valid() && ClientInv(cfg, start) && start.phase == Sending(0)
    ensures var c := SendRun(cfg, start, n).0;
      && c.issued <= start.issued + n
      && (c.issued == start.issued + n ==> c.phase == Sending(n) || c.phase == Waiting(0))
      && (n > 0 && c.issued == start.issued + n ==>
            SendRun(cfg, start, n - 1).0.issued == start.issued + n - 1
            && SendRun(cfg, start, n - 1).0.phase == Sending(n - 1))
  {
    hide ClientInv, SendChunk;
    if n > 0 {
      SendRunPhases(cfg, start, n - 1);
      SendRunCount(cfg, start, n - 1);
      if SendRun(cfg, start, n - 1).0.phase == Sending(n - 1) {
        BatchStep(cfg, start, n - 1);
      }
    }
  }

  lemma SendRunCount(cfg: Config, start: Client, n: nat)
    ensures var c, d := SendRun(cfg, start, n).0, SendRun(cfg, start, n + 1).0;
      d.issued <= c.issued + 1 && (!c.phase.Sending? ==> d == c)
  {
    hide NextChunk, StrNCpy;
  }

  lemma {:induction false} TraceBatch(cfg: Config, trace: seq<ClientEvent>, start: Client, before: seq<Sent>, n: nat)
    requires cfg.Valid() && ClientInv(cfg, start) && start.phase == Sending(0)
    requires ClientRun(cfg, trace) == CAt(start, before) && SendRun(cfg, start, n).0.issued == start.issued + n
    ensures ClientRun(cfg, trace + Sends(n)) == CAt(SendRun(cfg, start, n).0, before + BatchJournal(cfg, start.issued, n))
  {
    hide ClientInv, ClientRun, SendChunk, DataPacket, SendRun, BatchJournal;
    BatchStart(cfg, start, before);
    if n == 0 {
      assert trace + Sends(0) == trace;
    } else {
      SendRunPhases(cfg, start, n);
      TraceBatch(cfg, trace, start, before, n - 1);
      BatchStep(cfg, start, n - 1);
      BatchJournalStep(cfg, before, start.issued, n - 1);
      ClientStepTaken(cfg, trace + Sends(n - 1), CSend);
      assert trace + Sends(n) == trace + Sends(n - 1) + [CSend];
    }
  }

  lemma {:induction false} TraceExpiries(cfg: Config, trace: seq<ClientEvent>, c: Client, before: seq<Sent>, n: nat)
    requires cfg.Valid() && ClientRun(cfg, trace) == CAt(c, before) && Polling(c)
    ensures ClientShape(cfg, c)
    ensures ClientRun(cfg, trace + Expires(n)) == CAt(c, before + Copies(Sent(Polled(c), Outstanding(cfg, c)), n))
  {
    hide ClientRun, Outstanding;
    var x := Sent(Polled(c), Outstanding(cfg, c));
    if n == 0 {
      assert trace + Expires(0) == trace && before + Copies(x, 0) == before;
    } else {
      TraceExpiries(cfg, trace, c, before, n - 1);
      ClientStepTaken(cfg, trace + Expires(n - 1), CExpire);
      assert trace + Expires(n) == trace + Expires(n - 1) + [CExpire];
      assert before + Copies(x, n) == before + Copies(x, n - 1) + [x];
    }
  }

  /** One channel of a round. */
  lemma TraceChannel(cfg: Config, trace: seq<ClientEvent>, c: Client, before: seq<Sent>, answer: Answer)
    requires cfg.Valid() && ClientRun(cfg, trace) == CAt(c, before) && c.phase.Waiting?
    ensures c.phase.i < |c.tmp|
    ensures ClientRun(cfg, trace + Expires(answer.expiries) + [CRead(c.phase.i, answer.packet)])
            == CAt(AfterAck(cfg, c, answer.packet), before + Copies(Sent(c.phase.i, c.tmp[c.phase.i]), answer.expiries))
  {
    hide ClientRun, AfterAck;
    TraceExpiries(cfg, trace, c, before, answer.expiries);
    ClientStepTaken(cfg, trace + Expires(answer.expiries), CRead(c.phase.i, answer.packet));
  }

  lemma {:induction false} TracePolls(cfg: Config, trace: seq<ClientEvent>, c: Client, before: seq<Sent>,
                                      answers: seq<Answer>, n: nat)
    requires cfg.Valid() && ClientRun(cfg, trace) == CAt(c, before) && c.phase == Waiting(0) && |c.tmp| == cfg.channels
    requires -1 <= c.lastPacket && n <= Count(cfg, c) <= cfg.channels && n <= |answers|
    ensures ClientRun(cfg, trace + PollTrace(answers, n))
            == CAt(AckRun(cfg, c, answers, n), before + PollJournal(c.tmp, answers, n))
  {
    hide ClientRun, AfterAck, Expires, Copies;
    if n == 0 {
      assert trace + PollTrace(answers, 0) == trace && before + PollJournal(c.tmp, answers, 0) == before;
    } else {
      var a, so := answers[n - 1], trace + PollTrace(answers, n - 1);
      TracePolls(cfg, trace, c, before, answers, n - 1);
      AckRunPhase(cfg, c, answers, n - 1);
      var d, sent := AckRun(cfg, c, answers, n - 1), before + PollJournal(c.tmp, answers, n - 1);
      TraceChannel(cfg, so, d, sent, a);
      assert trace + PollTrace(answers, n) == so + Expires(a.expiries) + [CRead(n - 1, a.packet)];
      assert before + PollJournal(c.tmp, answers, n) == sent + Copies(Sent(n - 1, c.tmp[n - 1]), a.expiries);
    }
  }

  lemma TraceFin(cfg: Config, trace: seq<ClientEvent>, c: Client, before: seq<Sent>, expiries: nat, ack: Packet)
    requires cfg.Valid() && ClientRun(cfg, trace) == CAt(c, before) && c.phase.SendFin?
    ensures ClientRun(cfg, trace + FinTrace(expiries, ack))
            == CAt(c.(phase := Done), before + Copies(Sent(0, FinPacket(cfg, c)), expiries + 1))
  {
    hide ClientRun, Expires, FinPacket;
    var d, x := c.(phase := FinWait), Sent(0, FinPacket(cfg, c));
    ClientStepTaken(cfg, trace, CFin);
    FinStays(cfg, c);
    TraceExpiries(cfg, trace + [CFin], d, before + [x], expiries);
    ClientStepTaken(cfg, trace + [CFin] + Expires(expiries), CRead(0, ack));
    assert trace + FinTrace(expiries, ack) == trace + [CFin] + Expires(expiries) + [CRead(0, ack)];
    assert before + [x] + Copies(x, expiries) == before + Copies(x, expiries + 1);
  }

  lemma FinStays(cfg: Config, c: Client)
    ensures FinPacket(cfg, c.(phase := FinWait)) == FinPacket(cfg, c)
  {
  }

  /** A transmission of FIN: on channel 0, marked as last and as an acknowledgement, with the text
      "exit" as far as it fits. */
  ghost predicate IsFin(x: Sent, size: nat, number: nat, chunk: nat) {
    && x.channel == 0 && x.packet.header == Header(size, number, true, true, 0)
    && |x.packet.data| == chunk
    && forall d :: 0 <= d < chunk ==> x.packet.data[d] == if d < 4 then "exit"[d] as int else 0
  }

  lemma FinText(cfg: Config, c: Client)
    ensures IsFin(Sent(0, FinPacket(cfg, c)), c.payloadSize, c.seqNo, cfg.chunk)
  {
    hide StrNCpy;
    var text: seq<Byte> := [101, 120, 105, 116];
    assert !HasNul(text, 0, 1) && !HasNul(text, 0, 2) && !HasNul(text, 0, 3) && !HasNul(text, 0, 4);
    assert "exit"[0] as int == 101 && "exit"[1] as int == 120 && "exit"[2] as int == 105 && "exit"[3] as int == 116;
    forall d | 0 <= d < cfg.chunk
      ensures StrNCpy(text, cfg.chunk)[d] == if d < 4 then text[d] else 0
    {
      StrNCpyAt(text, cfg.chunk, d);
    }
  }

  class Sender {
    ghost const cfg: Config
    const fp: InputFile
    const buffer: array<Byte>
    const chunk: nat
    const channels: nat
    const tmp: array<Packet>
    var isEof: bool
    var payloadSize: nat
    var seqNo: nat
    var eofSeq: nat
    var lastPacket: int
    var timeout: nat
    var journal: seq<Sent>    // the writes on all sockets, in order
    ghost var issued: nat

    ghost predicate Valid()
      reads this, fp, tmp
    {
      && cfg == Config(fp.data, chunk, channels) && cfg.Valid() && fp.Valid()
      && chunk < buffer.Length
      && tmp.Length == channels
    }

    /** The client of the state machine, standing at the given phase. */
    ghost function Abs(phase: Phase): Client
      reads this, fp, tmp
    {
      Client(phase, isEof, payloadSize, seqNo, eofSeq, tmp[..], lastPacket, fp.pos, issued)
    }

    constructor (fp: InputFile, buffer: array<Byte>, chunk: nat, channels: nat)
      requires fp.Valid() && fp.pos == 0 && chunk < buffer.Length
      requires Config(fp.data, chunk, channels).Valid()
      ensures Valid() && this.fp == fp && this.buffer == buffer && this.chunk == chunk && this.channels == channels
      ensures Abs(Sending(0)) == InitClient(cfg) && timeout == TIMEOUT && fresh(tmp) && journal == []
    {
      cfg := Config(fp.data, chunk, channels);
      this.fp, this.buffer, this.chunk, this.channels := fp, buffer, chunk, channels;
      isEof, payloadSize, seqNo, eofSeq, lastPacket := false, 0, 0, NO_EOF, -1;
      timeout := TIMEOUT;
      tmp := new Packet[channels](_ => Packet(Header(0, 0, false, false, 0), Zeros(chunk)));
      journal := [];
      issued := 0;
      new;
      assert tmp[..] == InitClient(cfg).tmp;
    }

    /** Reads the next chunk and notes the end of the input. */
    method ReadChunk()
      requires Valid() && !isEof
      modifies this`isEof, this`payloadSize, this`eofSeq, fp, buffer
      ensures Valid() && !isEof
      ensures var ch := NextChunk(fp.data, chunk, old(fp.pos));
        && payloadSize == ch.size && fp.pos == ch.pos && eofSeq == (if ch.eof then seqNo else old(eofSeq))
        && StrNCpy(buffer[..], chunk) == StrNCpy(ch.text, chunk)
    {
      hide NextChunk, StrNCpy;
      isEof, payloadSize := GetNextChunk(fp, buffer, chunk, isEof);
      if isEof {
        eofSeq := seqNo;
        isEof := false;
      }
      StrNCpyBuffer(buffer[..], payloadSize, chunk);
    }

    /** One iteration of the batch loop. */
    method SendOne(i: nat)
      requires Valid() && i < channels && !isEof
      modifies this, fp, buffer, tmp
      ensures timeout == old(timeout)
      ensures Valid()
      ensures var r := SendChunk(cfg, old(Abs(Sending(i))));
        && Abs(r.0.phase) == r.0
        && journal == old(journal) + [Sent(i, r.1)]
    {
      hide NextChunk, StrNCpy;
      ghost var c := Abs(Sending(i));
      ReadChunk();
      var packet := Packet(Header(payloadSize, seqNo, false, false, i % 256), StrNCpy(buffer[..], chunk));
      tmp[i] := packet;
      journal := journal + [Sent(i, packet)];
      seqNo := seqNo + packet.header.size;
      if packet.header.size == 0 {
        lastPacket := i;
      }
      issued := issued + 1;
      assert tmp[..] == c.tmp[i := packet];
    }

    /** The same iteration as step i of the batch that began at `start`. */
    method SendNext(i: nat, ghost start: Client)
      requires Valid() && i < channels && ClientInv(cfg, start)
      requires Abs(Sending(i)) == SendRun(cfg, start, i).0 && issued == start.issued + i
      modifies this, fp, buffer, tmp
      ensures timeout == old(timeout)
      ensures Valid() && issued == start.issued + i + 1 && (lastPacket == i || lastPacket == old(lastPacket))
      ensures Abs(if lastPacket == i || i + 1 == channels then Waiting(0) else Sending(i + 1))
              == SendRun(cfg, start, i + 1).0
      ensures journal == old(journal) + [Sent(i, DataPacket(cfg, start.issued + i, i))]
    {
      hide ClientInv, DataPacket, SendRun, SendChunk;
      BatchStep(cfg, start, i);
      SendOne(i);
    }

    /** The batch loop: performs Send steps of the state machine until it leaves its Sending
        phase, and so puts the next data packets of the stream on the channels, one each. */
    method SendBatch() returns (count: nat)
      requires Valid() && ClientInv(cfg, Abs(Sending(0)))
      modifies this, fp, buffer, tmp
      ensures timeout == old(timeout)
      ensures Valid() && 1 <= count <= channels
      ensures Abs(Waiting(0)) == SendRun(cfg, old(Abs(Sending(0))), count).0
      ensures issued == old(issued) + count
      ensures journal == old(journal) + BatchJournal(cfg, old(issued), count)
    {
      hide ClientInv, DataPacket, BatchJournal, SendRun;
      ghost var start, base := Abs(Sending(0)), issued;
      BatchStart(cfg, start, journal);
      count := 0;
      while count < channels && lastPacket == -1
        invariant Valid() && 0 <= count <= channels && base == start.issued && issued == base + count
        invariant timeout == old(timeout) && (count == 0 ==> lastPacket == -1)
        invariant lastPacket == -1 || lastPacket == count - 1
        invariant Abs(if count < channels && lastPacket == -1 then Sending(count) else Waiting(0))
                  == SendRun(cfg, start, count).0
        invariant journal == old(journal) + BatchJournal(cfg, base, count)
      {
        BatchJournalStep(cfg, old(journal), base, count);
        SendNext(count, start);
        count := count + 1;
      }
    }

    /** The poll loop of one channel: every expiry retransmits and restores the full budget. */
    method PollChannel(i: nat, expiries: nat, oldTimeout: nat)
      requires Valid() && i < channels
      modifies this`timeout, this`journal
      ensures Valid()
      ensures timeout == if expiries > 0 then 0 else old(timeout)
      ensures journal == old(journal) + Copies(Sent(i, tmp[i]), expiries)
    {
      var timedOut := false;
      for k := 0 to expiries
        invariant Valid() && (timedOut <==> k > 0)
        invariant timeout == if k > 0 then oldTimeout else old(timeout)
        invariant journal == old(journal) + Copies(Sent(i, tmp[i]), k)
      {
        journal := journal + [Sent(i, tmp[i])];
        timeout := oldTimeout;
        timedOut := true;
      }
      if timedOut {
        timeout := 0;
      }
    }

    /** One round of polls over the channels of the batch.  `answers` is the environment: per
        channel the number of expiries and the packet read.  Also returns the budget of the
        first poll of every channel. */
    method AwaitAcks(answers: seq<Answer>) returns (firstBudgets: seq<nat>)
      requires Valid() && timeout == TIMEOUT && |answers| == channels
      requires -1 <= lastPacket < channels
      modifies this`isEof, this`timeout, this`journal
      ensures Valid() && timeout == TIMEOUT
      ensures var n := Count(cfg, old(Abs(Waiting(0))));
        && 1 <= n <= channels
        && (var c := AckRun(cfg, old(Abs(Waiting(0))), answers, n); Abs(c.phase) == c)
        && journal == old(journal) + PollJournal(tmp[..], answers, n)
        && |firstBudgets| == n
        && (forall j :: 0 <= j < n ==> firstBudgets[j] == if AnyExpired(answers, j) then 0 else TIMEOUT)
    {
      hide Copies, AckRun, PollJournal, AnyExpired;
      ghost var start := Abs(Waiting(0));
      ghost var n := Count(cfg, start);
      ghost var outstanding := tmp[..];
      var oldTimeout := timeout;
      firstBudgets := [];
      PollStart(cfg, start, outstanding, answers, journal);
      var i := 0;
      while i < channels && !(lastPacket != -1 && i > lastPacket)
        invariant Valid() && 0 <= i <= n <= channels
        invariant (var c := AckRun(cfg, start, answers, i); Abs(c.phase) == c)
        invariant tmp[..] == outstanding && journal == old(journal) + PollJournal(outstanding, answers, i)
        invariant timeout == if AnyExpired(answers, i) then 0 else TIMEOUT
        invariant |firstBudgets| == i
        invariant forall j :: 0 <= j < i ==> firstBudgets[j] == if AnyExpired(answers, j) then 0 else TIMEOUT
      {
        AckRunStep(cfg, start, answers, i);
        PollJournalStep(outstanding, answers, i, old(journal));
        firstBudgets := firstBudgets + [timeout];
        PollChannel(i, answers[i].expiries, oldTimeout);
        var p := answers[i].packet;
        if p.header.isAck && p.header.seqNo == eofSeq {
          isEof := true;
        }
        i := i + 1;
      }
      timeout := oldTimeout;
    }

    /** Sends FIN, polls for its acknowledgement, and reads it. */
    method Finish(expiries: nat, ack: Packet)
      requires Valid()
      modifies this`isEof, this`seqNo, this`journal
      ensures Valid() && seqNo == old(seqNo) + payloadSize
      ensures isEof == (old(isEof) || (ack.header.isAck && ack.header.seqNo == eofSeq))
      ensures journal == old(journal) + Copies(Sent(0, FinPacket(cfg, old(Abs(SendFin)))), expiries + 1)
      ensures forall j :: |old(journal)| <= j < |journal| ==> IsFin(journal[j], payloadSize, old(seqNo), chunk)
    {
      FinText(cfg, Abs(SendFin));
      var fin := Packet(Header(payloadSize, seqNo, true, true, 0), StrNCpy([101, 120, 105, 116], chunk));
      journal := journal + [Sent(0, fin)];
      seqNo := seqNo + fin.header.size;
      for k := 0 to expiries
        invariant Valid() && seqNo == old(seqNo) + payloadSize && isEof == old(isEof)
        invariant journal == old(journal) + Copies(Sent(0, fin), k + 1)
      {
        journal := journal + [Sent(0, fin)];
      }
      if ack.header.isAck && ack.header.seqNo == eofSeq {
        isEof := true;
      }
    }

    /** Where the client stands at the head of the main loop, or before FIN. */
    ghost function AtLoop(): Phase
      reads this
    {
      if isEof then SendFin else if eofSeq == NO_EOF then Sending(0) else Waiting(0)
    }

    /** The machine's client has come here by the events of the trace, with the same writes, and
        these are exactly the first data packets, with retransmissions. */
    ghost predicate Follows(trace: seq<ClientEvent>, phase: Phase)
      reads this, fp, tmp
    {
      && Valid() && timeout == TIMEOUT
      && ClientInv(cfg, Abs(phase)) && DataJournal(cfg, issued, journal)
      && ClientRun(cfg, trace) == CAt(Abs(phase), journal)
    }

    /** The first half of an iteration: the next batch, unless the end has been seen. */
    method NextBatch(ghost trace: seq<ClientEvent>)
      requires Follows(trace, AtLoop()) && !isEof && issued <= Total(cfg)
      modifies this, fp, buffer, tmp
      ensures !isEof && Follows(trace + Sends(Fresh(cfg, old(issued))), Waiting(0))
      ensures issued == old(issued) + Fresh(cfg, old(issued))
    {
      hide ClientInv, DataJournal, SendRun, BatchJournal, ClientRun, Total, Fresh;
      if eofSeq == NO_EOF {
        ghost var start, before := Abs(Sending(0)), journal;
        BatchClient(cfg, start, 0);
        var count := SendBatch();
        BatchClient(cfg, start, count);
        BatchIsData(cfg, before, start.issued, count);
        TraceBatch(cfg, trace, start, before, count);
        BatchIsFresh(cfg, Abs(Waiting(0)), start.issued, count);
      } else {
        LoopRegisters(cfg, Abs(Waiting(0)));
        NextRoundStarts(cfg, Loop(issued, trace, false));
      }
    }

    /** The second half: a round of polls over the batch. */
    method PollRound(answers: seq<Answer>, ghost trace: seq<ClientEvent>)
      requires Follows(trace, Waiting(0)) && !isEof && |answers| == channels && Sound(answers)
      modifies this`isEof, this`timeout, this`journal
      ensures Follows(trace + PollTrace(answers, BatchLength(cfg, issued)), AtLoop())
      ensures isEof <==> issued == Total(cfg) && Acknowledged(answers, BatchLength(cfg, issued), Off(cfg, Total(cfg) - 1))
    {
      hide ClientInv, DataJournal, AckRun, PollJournal, Acknowledged, ClientRun, PollTrace, Total, BatchLength;
      ghost var c, before := Abs(Waiting(0)), journal;
      WaitingBounds(cfg, c);
      CountIsBatchLength(cfg, c);
      LoopRegisters(cfg, c);
      RoundEnd(cfg, c, answers);
      PollsAreData(cfg, c, before, answers);
      ghost var n := Count(cfg, c);
      if Acknowledged(answers, n, NO_EOF) {
        AcknowledgedGrows(answers, n, channels, NO_EOF);
      }
      TracePolls(cfg, trace, c, before, answers, n);
      var _ := AwaitAcks(answers);
    }

    /** The state after FIN: everything has been sent, FIN follows the data, and the machine's client
        has come here by the events of the trace. */
    ghost predicate Finished(data: seq<Sent>, trace: seq<ClientEvent>, finExpiries: nat)
      reads this, fp, tmp
    {
      && Valid() && issued == Total(cfg) && DataJournal(cfg, issued, data)
      && journal == data + Copies(Sent(0, FinOf(cfg)), finExpiries + 1)
      && ClientRun(cfg, trace) == CAt(Abs(Done).(seqNo := StreamLength(cfg)), journal)
    }

    /** The end of an iteration in which the end has been acknowledged. */
    method Close(finExpiries: nat, finAck: Packet, ghost trace: seq<ClientEvent>)
      requires Follows(trace, SendFin) && isEof
      modifies this`isEof, this`seqNo, this`journal
      ensures isEof && Finished(old(journal), trace + FinTrace(finExpiries, finAck), finExpiries)
    {
      hide ClientInv, DataJournal, Copies, ClientRun, FinOf, FinPacket, FinTrace;
      ghost var c := Abs(SendFin);
      LoopFacts(cfg, c);
      TraceFin(cfg, trace, c, journal, finExpiries, finAck);
      Finish(finExpiries, finAck);
      assert Abs(Done).(seqNo := StreamLength(cfg)) == c.(phase := Done);
    }

    /** One iteration of connection_loop: a round, and FIN if it closes the transfer. */
    method Iterate(answers: seq<Answer>, finExpiries: nat, finAck: Packet, ghost l: Loop) returns (ghost data: seq<Sent>)
      requires Follows(l.trace, AtLoop()) && !isEof && |answers| == channels && Sound(answers)
      requires !l.closed && issued == l.issued <= Total(cfg)
      modifies this, fp, buffer, tmp
      ensures var m := Round(cfg, l, answers);
        && issued == m.issued && isEof == m.closed
        && (!isEof ==> Follows(m.trace, AtLoop()) && data == journal)
        && (isEof ==> Finished(data, m.trace + FinTrace(finExpiries, finAck), finExpiries))
    {
      hide ClientInv, DataJournal, Acknowledged, ClientRun, FinTrace, PollTrace, Finished, Total, Fresh, BatchLength;
      ghost var batch := Sends(Fresh(cfg, l.issued));
      NextBatch(l.trace);
      PollRound(answers, l.trace + batch);
      data := journal;
      if isEof {
        Close(finExpiries, finAck, Round(cfg, l, answers).trace);
      }
    }

    /** connection_loop against an environment that answers some rounds of polls, and the poll for
        the FIN acknowledgement after a number of expiries.  Its events are LoopTrace of that
        environment, and its variables and writes those of the machine's client after them.
        Whatever is acknowledged, only data packets are written before FIN, each on its own
        channel and for the first time in order; FIN carries the length of the stream and is sent
        exactly if, in some round after every data packet has been sent, the number of the last
        one has been acknowledged. */
    method ConnectionLoop(rounds: seq<seq<Answer>>, finExpiries: nat, finAck: Packet)
      returns (done: bool, ghost data: seq<Sent>)
      requires Valid() && timeout == TIMEOUT && journal == [] && Abs(Sending(0)) == InitClient(cfg)
      requires SoundRounds(cfg, rounds)
      modifies this, fp, buffer, tmp
      ensures Valid() && issued == Rounds(cfg, rounds).issued && done == Rounds(cfg, rounds).closed
      ensures DataJournal(cfg, issued, data)
      ensures journal == data + if done then Copies(Sent(0, FinOf(cfg)), finExpiries + 1) else []
      ensures ClientRun(cfg, LoopTrace(cfg, rounds, finExpiries, finAck))
              == CAt(if done then Abs(Done).(seqNo := StreamLength(cfg)) else Abs(AtLoop()), journal)
      ensures done ==> issued == Total(cfg)
      ensures done ==> exists r :: 0 <= r < |rounds| && Acknowledged(rounds[r], channels, Off(cfg, Total(cfg) - 1))
    {
      hide ClientInv, DataJournal, Copies, Acknowledged, ClientRun, FinOf, Rounds, Round, Sound, Total, FinTrace;
      InitClientInv(cfg);
      LoopStart(cfg);
      data := [];
      var r := 0;
      RoundsStart(cfg, rounds);
      ghost var l := Rounds(cfg, rounds[..0]);
      while !isEof && r < |rounds|
        invariant 0 <= r <= |rounds| && SoundRounds(cfg, rounds[..r]) && l == Rounds(cfg, rounds[..r])
        invariant issued == l.issued && isEof == l.closed
        invariant !isEof ==> Follows(l.trace, AtLoop()) && journal == data
        invariant isEof ==> Finished(data, l.trace + FinTrace(finExpiries, finAck), finExpiries)
      {
        assert rounds[..r + 1] == rounds[..r] + [rounds[r]];
        RoundsSnoc(cfg, rounds[..r], rounds[r]);
        data := Iterate(rounds[r], finExpiries, finAck, l);
        l := Rounds(cfg, rounds[..r + 1]);
        r := r + 1;
      }
      assert rounds[..|rounds|] == rounds;
      if isEof {
        ClosedStays(cfg, rounds, r);
        ClosedByRound(cfg, rounds);
      }
      done := isEof;
      assert data + [] == data;
    }
  }
}

/** The events of connection_loop as a function of what its environment answers, and why every
    client that has finished went through exactly such events (N-Channel-StopNWait/client.c). */
module Loops {
  import opened Payload
  import opened Protocol
  import opened Traces

  /** What happens on one polled channel: how often poll() expires before the packet is read. */
  datatype Answer = Answer(expiries: nat, packet: Packet)

  /** One of the first n packets read acknowledges that number. */
  ghost predicate Acknowledged(answers: seq<Answer>, n: nat, number: nat)
    requires n <= |answers|
  {
    exists h :: 0 <= h < n && answers[h].packet.header.isAck && answers[h].packet.header.seqNo == number
  }

  /** No server answers with the sentinel: it echoes numbers it has been sent. */
  ghost predicate Sound(answers: seq<Answer>) {
    !Acknowledged(answers, |answers|, NO_EOF)
  }

  ghost predicate SoundRounds(cfg: Config, rounds: seq<seq<Answer>>) {
    forall r :: 0 <= r < |rounds| ==> |rounds[r]| == cfg.channels && Sound(rounds[r])
  }

  function Sends(n: nat): (r: seq<ClientEvent>)
    ensures |r| == n
  {
    seq(n, _ => CSend)
  }

  function Expires(n: nat): (r: seq<ClientEvent>)
    ensures |r| == n
  {
    seq(n, _ => CExpire)
  }

  /** The events of a round of polls. */
  function PollTrace(answers: seq<Answer>, n: nat): seq<ClientEvent>
    requires n <= |answers|
  {
    if n == 0 then []
    else PollTrace(answers, n - 1) + Expires(answers[n - 1].expiries) + [CRead(n - 1, answers[n - 1].packet)]
  }

  function FinTrace(expiries: nat, ack: Packet): seq<ClientEvent> {
    [CFin] + Expires(expiries) + [CRead(0, ack)]
  }

  // ---------------------------------------------------------------------
  // The loop
  // ---------------------------------------------------------------------

  /** Packets of the batch that is sent after `issued` packets. */
  function Fresh(cfg: Config, issued: nat): nat
    requires cfg.Valid() && issued <= Total(cfg)
  {
    Min(cfg.channels, Total(cfg) - issued)
  }

  /** Packets of the batch that packet number `issued` - 1 belongs to, up to that packet. */
  function BatchLength(cfg: Config, issued: nat): (n: nat)
    requires cfg.Valid()
    ensures n <= cfg.channels
  {
    if issued == 0 then 0 else (issued - 1) % cfg.channels + 1
  }

  /** After some rounds: the packets sent, the events, and whether the last number has been
      acknowledged. */
  datatype Loop = Loop(issued: nat, trace: seq<ClientEvent>, closed: bool)

  ghost function Round(cfg: Config, l: Loop, answers: seq<Answer>): (r: Loop)
    requires cfg.Valid() && l.issued <= Total(cfg) && |answers| == cfg.channels
    ensures r.issued <= Total(cfg)
  {
    if l.closed then l
    else
      var m := l.issued + Fresh(cfg, l.issued);
      var n := BatchLength(cfg, m);
      Loop(m, l.trace + Sends(Fresh(cfg, l.issued)) + PollTrace(answers, n),
           m == Total(cfg) && Acknowledged(answers, n, Off(cfg, Total(cfg) - 1)))
  }

  ghost function Rounds(cfg: Config, rounds: seq<seq<Answer>>): (l: Loop)
    requires cfg.Valid() && SoundRounds(cfg, rounds)
    ensures l.issued <= Total(cfg)
  {
    if rounds == [] then Loop(0, [], false)
    else Round(cfg, Rounds(cfg, rounds[..|rounds| - 1]), rounds[|rounds| - 1])
  }

  /** All events of connection_loop. */
  ghost function LoopTrace(cfg: Config, rounds: seq<seq<Answer>>, finExpiries: nat, finAck: Packet): seq<ClientEvent>
    requires cfg.Valid() && SoundRounds(cfg, rounds)
  {
    var l := Rounds(cfg, rounds);
    if l.closed then l.trace + FinTrace(finExpiries, finAck) else l.trace
  }

  lemma RoundsSnoc(cfg: Config, rounds: seq<seq<Answer>>, answers: seq<Answer>)
    requires cfg.Valid() && SoundRounds(cfg, rounds) && |answers| == cfg.channels && Sound(answers)
    ensures SoundRounds(cfg, rounds + [answers])
    ensures Rounds(cfg, rounds + [answers]) == Round(cfg, Rounds(cfg, rounds), answers)
  {
    hide Round, Sound;
    assert (rounds + [answers])[..|rounds|] == rounds;
  }

  lemma PrefixSound(cfg: Config, rounds: seq<seq<Answer>>, r: nat)
    requires SoundRounds(cfg, rounds) && r <= |rounds|
    ensures SoundRounds(cfg, rounds[..r])
  {
    hide Sound;
  }

  /** Rounds after the end change nothing. */
  lemma {:induction false} ClosedStays(cfg: Config, rounds: seq<seq<Answer>>, r: nat)
    requires cfg.Valid() && SoundRounds(cfg, rounds) && r <= |rounds|
    requires SoundRounds(cfg, rounds[..r]) && Rounds(cfg, rounds[..r]).closed
    ensures Rounds(cfg, rounds) == Rounds(cfg, rounds[..r])
  {
    hide Sound;
    if r == |rounds| {
      assert rounds[..r] == rounds;
    } else {
      var front := rounds[..|rounds| - 1];
      assert front[..r] == rounds[..r];
      ClosedStays(cfg, front, r);
    }
  }

  /** A transfer is closed by a round that acknowledges the last number. */
  lemma {:induction false} ClosedByRound(cfg: Config, rounds: seq<seq<Answer>>)
    requires cfg.Valid() && SoundRounds(cfg, rounds) && Rounds(cfg, rounds).closed
    ensures Rounds(cfg, rounds).issued == Total(cfg)
    ensures exists r :: 0 <= r < |rounds| && Acknowledged(rounds[r], cfg.channels, Off(cfg, Total(cfg) - 1))
  {
    hide Sound, Sends, PollTrace, Off, Total;
    var front := rounds[..|rounds| - 1];
    if Rounds(cfg, front).closed {
      ClosedByRound(cfg, front);
      var r :| 0 <= r < |front| && Acknowledged(front[r], cfg.channels, Off(cfg, Total(cfg) - 1));
      assert rounds[r] == front[r];
    } else {
      assert Acknowledged(rounds[|rounds| - 1], cfg.channels, Off(cfg, Total(cfg) - 1));
    }
  }

  // ---------------------------------------------------------------------
  // The machine's client in these terms
  // ---------------------------------------------------------------------

  /** A complete batch that began at packet `base` has the expected size. */
  lemma BatchIsFresh(cfg: Config, c: Client, base: nat, n: nat)
    requires cfg.Valid() && ClientInv(cfg, c) && c.phase.Waiting?
    requires base % cfg.channels == 0 && 1 <= n <= cfg.channels && c.issued == base + n
    ensures base <= Total(cfg) && n == Fresh(cfg, base) && Count(cfg, c) == n
  {
    hide Registers, Total, DataPacket;
    SameBatch(cfg, base, n, Base(cfg, c), Count(cfg, c));
    LoopRegisters(cfg, c);
  }

  lemma SameBatch(cfg: Config, a: nat, n: nat, b: nat, m: nat)
    requires cfg.Valid() && a % cfg.channels == 0 && b % cfg.channels == 0
    requires 1 <= n <= cfg.channels && 1 <= m <= cfg.channels && a + n == b + m
    ensures a == b && n == m
  {
    RoundRobin(cfg, a, n - 1);
    RoundRobin(cfg, b, m - 1);
  }

  /** The number that ends the transfer is known exactly when all packets have been sent. */
  lemma LoopRegisters(cfg: Config, c: Client)
    requires cfg.Valid() && ClientInv(cfg, c)
    ensures c.issued <= Total(cfg)
    ensures c.phase.Waiting? ==> c.eofSeq == if c.issued == Total(cfg) then Off(cfg, Total(cfg) - 1) else NO_EOF
    ensures c.phase.Waiting? && c.lastPacket != -1 ==> c.issued == Total(cfg)
    ensures Off(cfg, Total(cfg) - 1) < NO_EOF
  {
    hide Total, Part, DataPacket, Min;
  }

  lemma CountIsBatchLength(cfg: Config, c: Client)
    requires cfg.Valid() && ClientInv(cfg, c) && c.phase.Waiting?
    ensures Count(cfg, c) == BatchLength(cfg, c.issued) && 1 <= Count(cfg, c) <= cfg.channels
  {
    hide Registers, Total, DataPacket;
    RoundRobin(cfg, Base(cfg, c), Count(cfg, c) - 1);
  }

  // ---------------------------------------------------------------------
  // Every finished client went through the loop
  // ---------------------------------------------------------------------

  ghost predicate SoundTrace(trace: seq<ClientEvent>) {
    forall i :: 0 <= i < |trace| && trace[i].CRead? ==> SoundPacket(trace[i].packet)
  }

  predicate SoundPacket(p: Packet) {
    !(p.header.isAck && p.header.seqNo == NO_EOF)
  }

  /** How far the events have got in the loop: the complete rounds, the answers of the current one,
      and the expiries of the current poll. */
  datatype Place = Place(rounds: seq<seq<Answer>>, answers: seq<Answer>, expiries: nat, ack: Packet)

  ghost predicate Located(cfg: Config, trace: seq<ClientEvent>, c: Client, at: Place)
    requires cfg.Valid()
  {
    && ClientInv(cfg, c) && SoundRounds(cfg, at.rounds) && Sound(at.answers)
    && var l := Rounds(cfg, at.rounds);
    match c.phase
    case Sending(i) => !l.closed && c.issued == l.issued + i && trace == l.trace + Sends(i)
    case Waiting(i) => !l.closed && InRound(cfg, trace, c, l, at.answers, i, at.expiries)
    case SendFin => l.closed && trace == l.trace
    case FinWait => l.closed && trace == l.trace + [CFin] + Expires(at.expiries)
    case Done => l.closed && trace == l.trace + FinTrace(at.expiries, at.ack)
  }

  ghost predicate InRound(cfg: Config, trace: seq<ClientEvent>, c: Client, l: Loop, answers: seq<Answer>, i: nat, k: nat)
    requires cfg.Valid() && l.issued <= Total(cfg)
  {
    && |answers| == i && c.issued == l.issued + Fresh(cfg, l.issued)
    && trace == l.trace + Sends(Fresh(cfg, l.issued)) + PollTrace(answers, i) + Expires(k)
    && (c.isEof <==> c.issued == Total(cfg) && Acknowledged(answers, i, Off(cfg, Total(cfg) - 1)))
  }

  lemma LocateSend(cfg: Config, trace: seq<ClientEvent>, c: Client, at: Place)
    requires ClientShape(cfg, c) && Located(cfg, trace, c, at) && c.phase.Sending?
    ensures Located(cfg, trace + [CSend], SendChunk(cfg, c).0, at.(answers := [], expiries := 0))
  {
    hide ClientInv, Rounds, Fresh;
    var i, d, l := c.phase.i, SendChunk(cfg, c).0, Rounds(cfg, at.rounds);
    SendKeepsClient(cfg, c);
    SendingFacts(cfg, c);
    assert l.trace + Sends(i) + [CSend] == l.trace + Sends(i + 1);
    if d.phase.Waiting? {
      BatchIsFresh(cfg, d, l.issued, i + 1);
      assert l.trace + Sends(i + 1) == l.trace + Sends(i + 1) + PollTrace([], 0) + Expires(0);
    }
  }

  lemma SendingFacts(cfg: Config, c: Client)
    requires ClientShape(cfg, c) && ClientInv(cfg, c) && c.phase.Sending?
    ensures !c.isEof && c.issued >= c.phase.i && (c.issued - c.phase.i) % cfg.channels == 0
    ensures var d := SendChunk(cfg, c).0;
      !d.isEof && d.issued == c.issued + 1 && (d.phase == Waiting(0) || d.phase == Sending(c.phase.i + 1))
  {
    hide Registers, Total, DataPacket, NextChunk, StrNCpy;
  }

  lemma AcknowledgedSnoc(answers: seq<Answer>, a: Answer, number: nat)
    ensures var h := a.packet.header;
      Acknowledged(answers + [a], |answers| + 1, number)
      <==> Acknowledged(answers, |answers|, number) || (h.isAck && h.seqNo == number)
  {
    var all, n := answers + [a], |answers|;
    assert all[n] == a;
    if Acknowledged(answers, n, number) {
      var h :| 0 <= h < n && answers[h].packet.header.isAck && answers[h].packet.header.seqNo == number;
      assert all[h] == answers[h];
    }
  }

  lemma {:induction false} PollTracePrefix(answers: seq<Answer>, more: seq<Answer>, n: nat)
    requires n <= |answers|
    ensures PollTrace(answers + more, n) == PollTrace(answers, n)
  {
    if n > 0 {
      PollTracePrefix(answers, more, n - 1);
    }
  }

  lemma AcknowledgedPrefix(answers: seq<Answer>, more: seq<Answer>, n: nat, number: nat)
    requires n <= |answers|
    ensures Acknowledged(answers + more, n, number) == Acknowledged(answers, n, number)
  {
    if Acknowledged(answers, n, number) {
      var h :| 0 <= h < n && answers[h].packet.header.isAck && answers[h].packet.header.seqNo == number;
      assert (answers + more)[h] == answers[h];
    }
  }

  /** Channels that are not polled may answer anything. */
  function Padding(n: nat): (r: seq<Answer>)
    ensures |r| == n
    ensures forall j :: 0 <= j < n ==> !r[j].packet.header.isAck
  {
    seq(n, _ => Answer(0, Packet(Header(0, 0, false, false, 0), [])))
  }

  lemma PaddedSound(answers: seq<Answer>, n: nat)
    requires Sound(answers)
    ensures Sound(answers + Padding(n))
  {
    var all := answers + Padding(n);
    forall h | 0 <= h < |all|
      ensures !(all[h].packet.header.isAck && all[h].packet.header.seqNo == NO_EOF)
    {
      if h < |answers| {
        assert all[h] == answers[h];
      }
    }
  }

  lemma PollTraceStep(answers: seq<Answer>, n: nat)
    requires n < |answers|
    ensures PollTrace(answers, n + 1)
            == PollTrace(answers, n) + Expires(answers[n].expiries) + [CRead(n, answers[n].packet)]
  {
  }

  /** The events of a round with one more answer. */
  lemma PollTraceSnoc(answers: seq<Answer>, a: Answer, before: seq<ClientEvent>)
    ensures before + PollTrace(answers, |answers|) + Expires(a.expiries) + [CRead(|answers|, a.packet)]
            == before + PollTrace(answers + [a], |answers| + 1)
  {
    hide PollTrace, Expires;
    var all, n := answers + [a], |answers|;
    PollTracePrefix(answers, [a], n);
    PollTraceStep(all, n);
    assert all[n] == a;
  }

  /** A read that leaves the round unfinished. */
  lemma LocateRead(cfg: Config, trace: seq<ClientEvent>, c: Client, at: Place, p: Packet)
    requires ClientShape(cfg, c) && Located(cfg, trace, c, at) && c.phase.Waiting? && SoundPacket(p)
    requires c.phase.i + 1 < Count(cfg, c)
    ensures Located(cfg, trace + [CRead(c.phase.i, p)], AfterAck(cfg, c, p),
                    at.(answers := at.answers + [Answer(at.expiries, p)], expiries := 0))
  {
    hide ClientInv, Rounds, Fresh, PollTrace, Acknowledged, Expires, Sends;
    var i, a := c.phase.i, Answer(at.expiries, p);
    var l := Rounds(cfg, at.rounds);
    ReadFacts(cfg, c, p);
    AcknowledgedSnoc(at.answers, a, NO_EOF);
    AcknowledgedSnoc(at.answers, a, Off(cfg, Total(cfg) - 1));
    PollTraceSnoc(at.answers, a, l.trace + Sends(Fresh(cfg, l.issued)));
    NoExpires(l.trace + Sends(Fresh(cfg, l.issued)) + PollTrace(at.answers + [a], i + 1));
  }

  lemma NoExpires(before: seq<ClientEvent>)
    ensures before + Expires(0) == before
  {
  }

  lemma ReadFacts(cfg: Config, c: Client, p: Packet)
    requires ClientShape(cfg, c) && ClientInv(cfg, c) && c.phase.Waiting? && SoundPacket(p)
    ensures var d, h := AfterAck(cfg, c, p), p.header;
      && ClientInv(cfg, d) && d.issued == c.issued
      && d.isEof == (c.isEof || (c.issued == Total(cfg) && h.isAck && h.seqNo == Off(cfg, Total(cfg) - 1)))
      && d.phase == (if c.phase.i + 1 < Count(cfg, c) then Waiting(c.phase.i + 1)
                     else if d.isEof then SendFin
                     else if c.issued == Total(cfg) then Waiting(0) else Sending(0))
  {
    hide ClientInv, Total;
    AckKeepsClient(cfg, c, p);
    LoopRegisters(cfg, c);
    CountIsBatchLength(cfg, c);
    WaitingLast(cfg, c);
  }

  lemma WaitingLast(cfg: Config, c: Client)
    requires ClientShape(cfg, c) && ClientInv(cfg, c) && c.phase.Waiting?
    ensures c.lastPacket >= -1 && c.phase.i < Count(cfg, c)
  {
  }

  /** A read that finishes the round. */
  lemma LocateLastRead(cfg: Config, trace: seq<ClientEvent>, c: Client, at: Place, p: Packet)
    requires ClientShape(cfg, c) && Located(cfg, trace, c, at) && c.phase.Waiting? && SoundPacket(p)
    requires c.phase.i + 1 == Count(cfg, c)
    ensures c.phase.i < cfg.channels
    ensures var round := at.answers + [Answer(at.expiries, p)] + Padding(cfg.channels - c.phase.i - 1);
      Located(cfg, trace + [CRead(c.phase.i, p)], AfterAck(cfg, c, p),
              at.(rounds := at.rounds + [round], answers := [], expiries := 0))
  {
    hide ClientInv, Rounds, Fresh, PollTrace, Acknowledged, Expires, Sends, Padding, BatchLength;
    var i, a := c.phase.i, Answer(at.expiries, p);
    var n, last := i + 1, Off(cfg, Total(cfg) - 1);
    var l, answers := Rounds(cfg, at.rounds), at.answers + [a];
    var before := l.trace + Sends(Fresh(cfg, l.issued));
    CountIsBatchLength(cfg, c);
    var pad := Padding(cfg.channels - n);
    ReadFacts(cfg, c, p);
    AcknowledgedSnoc(at.answers, a, NO_EOF);
    AcknowledgedSnoc(at.answers, a, last);
    PollTraceSnoc(at.answers, a, before);
    PaddedSound(answers, cfg.channels - n);
    PollTracePrefix(answers, pad, n);
    AcknowledgedPrefix(answers, pad, n, last);
    RoundsSnoc(cfg, at.rounds, answers + pad);
    NextRoundStarts(cfg, Rounds(cfg, at.rounds + [answers + pad]));
  }

  /** Nothing has happened yet in the next round. */
  lemma NextRoundStarts(cfg: Config, l: Loop)
    requires cfg.Valid() && l.issued <= Total(cfg)
    ensures l.trace == l.trace + Sends(0)
    ensures l.issued == Total(cfg) ==> Fresh(cfg, l.issued) == 0
    ensures l.trace == l.trace + Sends(0) + PollTrace([], 0) + Expires(0)
    ensures Sound([]) && !Acknowledged([], 0, Off(cfg, Total(cfg) - 1))
  {
  }

  lemma LocateFin(cfg: Config, trace: seq<ClientEvent>, c: Client, at: Place)
    requires ClientShape(cfg, c) && Located(cfg, trace, c, at) && c.phase.SendFin?
    ensures Located(cfg, trace + [CFin], c.(phase := FinWait), at.(expiries := 0))
  {
    hide ClientInv, Rounds;
    FinKeepsClient(cfg, c);
    NoExpires(trace + [CFin]);
  }

  lemma LocateExpire(cfg: Config, trace: seq<ClientEvent>, c: Client, at: Place)
    requires ClientShape(cfg, c) && Located(cfg, trace, c, at) && Polling(c)
    ensures Located(cfg, trace + [CExpire], c, at.(expiries := at.expiries + 1))
  {
    hide ClientInv, Rounds, Fresh, PollTrace, Sends, Acknowledged;
    assert Expires(at.expiries) + [CExpire] == Expires(at.expiries + 1);
    assert trace + [CExpire] == trace[..|trace| - at.expiries] + (Expires(at.expiries) + [CExpire]);
  }

  lemma LocateDone(cfg: Config, trace: seq<ClientEvent>, c: Client, at: Place, p: Packet)
    requires ClientShape(cfg, c) && Located(cfg, trace, c, at) && c.phase.FinWait?
    ensures Located(cfg, trace + [CRead(0, p)], c.(phase := Done), at.(ack := p))
  {
    hide ClientInv, Rounds, Expires;
    DoneKeepsClient(cfg, c);
    assert trace + [CRead(0, p)] == Rounds(cfg, at.rounds).trace + FinTrace(at.expiries, p);
  }

  lemma Start(cfg: Config) returns (at: Place)
    requires cfg.Valid()
    ensures Located(cfg, [], InitClient(cfg), at)
  {
    hide ClientInv;
    InitClientInv(cfg);
    at := Place([], [], 0, Packet(Header(0, 0, false, false, 0), []));
    assert [] == [] + Sends(0);
  }

  lemma LocateNext(cfg: Config, trace: seq<ClientEvent>, c: Client, at: Place, e: ClientEvent) returns (next: Place)
    requires ClientShape(cfg, c) && Located(cfg, trace, c, at) && Can(c, e) && (e.CRead? ==> SoundPacket(e.packet))
    ensures Located(cfg, trace + [e], After(cfg, c, e).0, next)
  {
    hide Located, SendChunk, AfterAck, FinPacket, Outstanding;
    match e
    case CSend =>
      LocateSend(cfg, trace, c, at);
      next := at.(answers := [], expiries := 0);
    case CExpire =>
      LocateExpire(cfg, trace, c, at);
      next := at.(expiries := at.expiries + 1);
    case CFin =>
      LocateFin(cfg, trace, c, at);
      next := at.(expiries := 0);
    case CRead(ch, p) =>
      if c.phase.FinWait? {
        LocateDone(cfg, trace, c, at, p);
        next := at.(ack := p);
      } else {
        LocatedBound(cfg, trace, c, at);
        if c.phase.i + 1 < Count(cfg, c) {
          LocateRead(cfg, trace, c, at, p);
          next := at.(answers := at.answers + [Answer(at.expiries, p)], expiries := 0);
        } else {
          LocateLastRead(cfg, trace, c, at, p);
          var round := at.answers + [Answer(at.expiries, p)] + Padding(cfg.channels - c.phase.i - 1);
          next := at.(rounds := at.rounds + [round], answers := [], expiries := 0);
        }
      }
  }

  lemma LocatedBound(cfg: Config, trace: seq<ClientEvent>, c: Client, at: Place)
    requires ClientShape(cfg, c) && Located(cfg, trace, c, at) && c.phase.Waiting?
    ensures c.phase.i < Count(cfg, c)
  {
    hide ClientInv, Rounds;
    WaitingLast(cfg, c);
  }

  lemma {:induction false} Locate(cfg: Config, trace: seq<ClientEvent>) returns (at: Place)
    requires cfg.Valid() && ClientRun(cfg, trace).CAt? && SoundTrace(trace)
    ensures Located(cfg, trace, ClientRun(cfg, trace).c, at)
  {
    hide Located, After, Can;
    if trace == [] {
      at := Start(cfg);
    } else {
      var front, e := trace[..|trace| - 1], trace[|trace| - 1];
      assert trace == front + [e];
      at := Locate(cfg, front);
      at := LocateNext(cfg, front, ClientRun(cfg, front).c, at, e);
    }
  }

  /** Every sequence of events after which the client has returned is that of connection_loop
      against some environment. */
  lemma FinishedIsLoop(cfg: Config, trace: seq<ClientEvent>)
    returns (rounds: seq<seq<Answer>>, finExpiries: nat, finAck: Packet)
    requires cfg.Valid() && ClientRun(cfg, trace).CAt? && SoundTrace(trace) && ClientRun(cfg, trace).c.phase.Done?
    ensures SoundRounds(cfg, rounds) && Rounds(cfg, rounds).closed
    ensures trace == LoopTrace(cfg, rounds, finExpiries, finAck)
  {
    hide ClientRun, ClientInv, Rounds;
    var at := Locate(cfg, trace);
    rounds, finExpiries, finAck := at.rounds, at.expiries, at.ack;
  }
}

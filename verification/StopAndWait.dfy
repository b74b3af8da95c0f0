/** Runs in which a timeout fires only on a channel with nothing in flight: the stop-and-wait
    discipline, end-to-end delivery, exact cost and termination. */
module StopAndWait {
  import opened Payload
  import opened Reassembly
  import opened Protocol
  import opened Safety

  ghost predicate Idle(s: State, j: nat)
    requires j < |s.up| && j < |s.down|
  {
    s.up[j] == [] && s.down[j] == []
  }

  ghost predicate Patient(cfg: Config, s: State, a: Action)
    requires Shape(cfg, s)
  {
    a.Expire? ==> Idle(s, Polled(s.client))
  }

  ghost predicate PatientRun(cfg: Config, actions: seq<Action>)
    requires cfg.Valid()
    ensures PatientRun(cfg, actions) ==> Exec(cfg, actions).At?
  {
    actions == [] ||
    var front, a := actions[..|actions| - 1], actions[|actions| - 1];
    PatientRun(cfg, front) && Enabled(cfg, Exec(cfg, front).s, a) && Patient(cfg, Exec(cfg, front).s, a)
  }

  // ---------------------------------------------------------------------
  // The invariant
  // ---------------------------------------------------------------------

  /** The client still expects an acknowledgement on channel j. */
  predicate Expects(cfg: Config, c: Client, j: int) {
    match c.phase
    case Sending(i) => 0 <= j < i
    case Waiting(i) => i <= j < Count(cfg, c)
    case FinWait => j == 0
    case _ => false
  }

  function Expected(cfg: Config, c: Client, j: nat): Packet
    requires j < |c.tmp|
  {
    if c.phase.FinWait? then FinPacket(cfg, c) else c.tmp[j]
  }

  /** At most one packet or acknowledgement is under way: nothing, p itself, or the
      acknowledgement of p, which has then been delivered. */
  ghost predicate InFlight(s: State, j: nat, p: Packet, delivered: bool)
    requires j < |s.up| && j < |s.down|
  {
    || Idle(s, j)
    || (s.up[j] == [p] && s.down[j] == [])
    || (s.up[j] == [] && s.down[j] == [Ack(p)] && delivered)
  }

  ghost predicate IsDelivered(s: State, p: Packet) {
    if p.header.isLast then s.server.finSeen else WriteOf(p) in s.log
  }

  ghost predicate ChannelOk(cfg: Config, s: State, j: nat)
    requires Shape(cfg, s) && j < cfg.channels
  {
    if Expects(cfg, s.client, j)
    then var p := Expected(cfg, s.client, j); InFlight(s, j, p, IsDelivered(s, p))
    else Idle(s, j)
  }

  ghost predicate ChannelsInv(cfg: Config, s: State)
    requires Shape(cfg, s)
  {
    forall j: nat :: j < cfg.channels ==> ChannelOk(cfg, s, j)
  }

  /** Number of data packets whose acknowledgement has been read. */
  function Acked(cfg: Config, c: Client): int {
    match c.phase
    case Sending(i) => c.issued - i
    case Waiting(i) => Base(cfg, c) + i
    case _ => c.issued
  }

  ghost predicate DeliveredUpTo(cfg: Config, s: State, n: int)
    requires cfg.Valid()
  {
    forall k: nat :: k < n ==> ChunkWrite(cfg, k) in s.log
  }

  ghost predicate FinInv(cfg: Config, s: State)
    requires Shape(cfg, s)
  {
    s.server.finSeen <==> s.client.phase.Done? || (s.client.phase.FinWait? && s.down[0] != [])
  }

  ghost predicate QuietInv(cfg: Config, s: State) {
    && Inv(cfg, s)
    && ChannelsInv(cfg, s)
    && DeliveredUpTo(cfg, s, Acked(cfg, s.client))
    && FinInv(cfg, s)
    && (s.client.phase.Waiting? ==> !s.client.isEof)
    && Sum(s.rd) == Acked(cfg, s.client) + (if s.client.phase.Done? then 1 else 0)
  }

  // ---------------------------------------------------------------------
  // Preservation
  // ---------------------------------------------------------------------

  lemma InitQuiet(cfg: Config)
    requires cfg.Valid()
    ensures QuietInv(cfg, Init(cfg))
  {
    InitInv(cfg);
    SumOfZeros(cfg.channels);
  }

  /** A channel whose queues and expectation do not change stays in order. */
  lemma ChannelFrame(cfg: Config, s: State, t: State, j: nat)
    requires Shape(cfg, s) && Shape(cfg, t) && j < cfg.channels && ChannelOk(cfg, s, j)
    requires t.up[j] == s.up[j] && t.down[j] == s.down[j]
    requires Expects(cfg, t.client, j) == Expects(cfg, s.client, j)
    requires Expects(cfg, t.client, j) ==> Expected(cfg, t.client, j) == Expected(cfg, s.client, j)
    requires s.server.finSeen ==> t.server.finSeen
    requires forall w :: w in s.log ==> w in t.log
    ensures ChannelOk(cfg, t, j)
  {
  }

  /** A transmission on an idle channel that now expects the acknowledgement of p. */
  lemma TransmitChannels(cfg: Config, s: State, d: Client, sent: seq<Packet>, i: nat, p: Packet)
    requires Shape(cfg, s) && ChannelsInv(cfg, s) && i < cfg.channels && Idle(s, i)
    requires Shape(cfg, s.(client := d)) && Expects(cfg, d, i) && Expected(cfg, d, i) == p
    requires forall j: nat :: j < cfg.channels && j != i ==>
               && Expects(cfg, d, j) == Expects(cfg, s.client, j)
               && (Expects(cfg, d, j) ==> Expected(cfg, d, j) == Expected(cfg, s.client, j))
    ensures ChannelsInv(cfg, Transmit(s.(client := d, sent := sent), i, p))
  {
    var t := Transmit(s.(client := d, sent := sent), i, p);
    forall j: nat | j < cfg.channels
      ensures ChannelOk(cfg, t, j)
    {
      if j != i {
        ChannelFrame(cfg, s, t, j);
      }
    }
  }

  lemma SendQuiet(cfg: Config, s: State)
    requires QuietInv(cfg, s) && Enabled(cfg, s, Send)
    ensures QuietInv(cfg, Next(cfg, s, Send))
  {
    StepKeeps(cfg, s, Send);
    SendKeepsPhase(cfg, s.client);
    var i, r := s.client.phase.i, SendChunk(cfg, s.client);
    assert ChannelOk(cfg, s, i);
    TransmitChannels(cfg, s, r.0, s.sent + [r.1], i, r.1);
  }

  lemma ExpireQuiet(cfg: Config, s: State)
    requires QuietInv(cfg, s) && Enabled(cfg, s, Expire) && Patient(cfg, s, Expire)
    ensures QuietInv(cfg, Next(cfg, s, Expire))
  {
    StepKeeps(cfg, s, Expire);
    assert s.(client := s.client, sent := s.sent) == s;
    TransmitChannels(cfg, s, s.client, s.sent, Polled(s.client), Outstanding(cfg, s.client));
  }

  lemma FinQuiet(cfg: Config, s: State)
    requires QuietInv(cfg, s) && Enabled(cfg, s, Fin)
    ensures QuietInv(cfg, Next(cfg, s, Fin))
  {
    StepKeeps(cfg, s, Fin);
    assert ChannelOk(cfg, s, 0);
    TransmitChannels(cfg, s, s.client.(phase := FinWait), s.sent, 0, FinPacket(cfg, s.client));
  }

  /** The acknowledgement read on the polled channel is the one of the outstanding packet, which
      has been delivered; it is taken for the last one exactly when it is. */
  lemma AckIsForOutstanding(cfg: Config, s: State)
    requires QuietInv(cfg, s) && Enabled(cfg, s, Read)
    ensures var i, p := Polled(s.client), Outstanding(cfg, s.client);
      && s.up[i] == [] && s.down[i] == [Ack(p)] && IsDelivered(s, p)
      && (s.client.phase.Waiting? ==>
            && WriteOf(p) == ChunkWrite(cfg, Acked(cfg, s.client))
            && !p.header.isLast
            && (p.header.seqNo == s.client.eofSeq <==>
                  Ended(cfg, s.client) && Acked(cfg, s.client) == s.client.issued - 1))
  {
    var c, i := s.client, Polled(s.client);
    assert Expects(cfg, c, i) && ChannelOk(cfg, s, i);
    if c.phase.Waiting? {
      var k := Acked(cfg, c);
      assert c.tmp[i] == DataPacket(cfg, k, i);
      assert Body(DataPacket(cfg, k, i)) == Part(cfg, k);
      if Ended(cfg, c) && k < c.issued - 1 {
        OffStrict(cfg, k, c.issued - 1);
      }
    }
  }

  lemma AckQuietPhase(cfg: Config, s: State)
    requires QuietInv(cfg, s) && Enabled(cfg, s, Read) && s.client.phase.Waiting?
    ensures var c, d := s.client, Next(cfg, s, Read).client;
      && d.issued == c.issued && d.tmp == c.tmp && d.lastPacket == c.lastPacket
      && d.phase == (if c.phase.i + 1 < Count(cfg, c) then Waiting(c.phase.i + 1)
                     else if Ended(cfg, c) then SendFin else Sending(0))
      && (d.phase.Waiting? ==> !d.isEof)
      && Acked(cfg, d) == Acked(cfg, c) + 1
  {
    AckIsForOutstanding(cfg, s);
  }

  lemma ReadChannels(cfg: Config, s: State)
    requires QuietInv(cfg, s) && Enabled(cfg, s, Read)
    ensures ChannelsInv(cfg, Next(cfg, s, Read))
  {
    AckIsForOutstanding(cfg, s);
    var i, t := Polled(s.client), Next(cfg, s, Read);
    if s.client.phase.Waiting? {
      AckQuietPhase(cfg, s);
    }
    forall j: nat | j < cfg.channels
      ensures ChannelOk(cfg, t, j)
    {
      assert ChannelOk(cfg, s, j);
      if j != i {
        ChannelFrame(cfg, s, t, j);
      }
    }
  }

  lemma ReadDelivered(cfg: Config, s: State)
    requires QuietInv(cfg, s) && Enabled(cfg, s, Read)
    ensures DeliveredUpTo(cfg, Next(cfg, s, Read), Acked(cfg, Next(cfg, s, Read).client))
  {
    AckIsForOutstanding(cfg, s);
    if s.client.phase.Waiting? {
      AckQuietPhase(cfg, s);
    }
  }

  lemma ReadFin(cfg: Config, s: State)
    requires QuietInv(cfg, s) && Enabled(cfg, s, Read)
    ensures var t := Next(cfg, s, Read);
      FinInv(cfg, t) && (t.client.phase.Waiting? ==> !t.client.isEof)
  {
    AckIsForOutstanding(cfg, s);
    if s.client.phase.Waiting? {
      AckQuietPhase(cfg, s);
    }
  }

  lemma ReadCounted(cfg: Config, s: State)
    requires QuietInv(cfg, s) && Enabled(cfg, s, Read)
    ensures var t := Next(cfg, s, Read);
      Sum(t.rd) == Acked(cfg, t.client) + (if t.client.phase.Done? then 1 else 0)
  {
    SumIncrement(s.rd, Polled(s.client));
    if s.client.phase.Waiting? {
      AckQuietPhase(cfg, s);
    }
  }

  lemma ReadQuiet(cfg: Config, s: State)
    requires QuietInv(cfg, s) && Enabled(cfg, s, Read)
    ensures QuietInv(cfg, Next(cfg, s, Read))
  {
    StepKeeps(cfg, s, Read);
    ReadChannels(cfg, s);
    ReadDelivered(cfg, s);
    ReadFin(cfg, s);
    ReadCounted(cfg, s);
  }

  lemma AcceptChannels(cfg: Config, s: State, i: nat)
    requires QuietInv(cfg, s) && Enabled(cfg, s, Accept(i))
    ensures Expects(cfg, s.client, i) && s.up[i] == [Expected(cfg, s.client, i)] && s.down[i] == []
    ensures s.up[i][0].header.isLast == s.client.phase.FinWait?
    ensures ChannelsInv(cfg, Next(cfg, s, Accept(i)))
  {
    assert ChannelOk(cfg, s, i);
    var t, p := Next(cfg, s, Accept(i)), Expected(cfg, s.client, i);
    assert p.header.isLast || WriteOf(p) in t.log;
    forall j: nat | j < cfg.channels
      ensures ChannelOk(cfg, t, j)
    {
      assert ChannelOk(cfg, s, j);
      if j != i {
        ChannelFrame(cfg, s, t, j);
      }
    }
  }

  lemma AcceptQuiet(cfg: Config, s: State, i: nat)
    requires QuietInv(cfg, s) && Enabled(cfg, s, Accept(i))
    ensures QuietInv(cfg, Next(cfg, s, Accept(i)))
  {
    StepKeeps(cfg, s, Accept(i));
    AcceptChannels(cfg, s, i);
    var t := Next(cfg, s, Accept(i));
    assert forall w :: w in s.log ==> w in t.log;
  }

  lemma DropQuiet(cfg: Config, s: State, i: nat)
    requires QuietInv(cfg, s) && Enabled(cfg, s, Drop(i))
    ensures QuietInv(cfg, Next(cfg, s, Drop(i)))
  {
    StepKeeps(cfg, s, Drop(i));
    var t := Next(cfg, s, Drop(i));
    forall j: nat | j < cfg.channels
      ensures ChannelOk(cfg, t, j)
    {
      assert ChannelOk(cfg, s, j);
      if j != i {
        ChannelFrame(cfg, s, t, j);
      }
    }
  }

  lemma ExitQuiet(cfg: Config, s: State)
    requires QuietInv(cfg, s) && Enabled(cfg, s, Exit)
    ensures QuietInv(cfg, Next(cfg, s, Exit))
  {
    StepKeeps(cfg, s, Exit);
    var t := Next(cfg, s, Exit);
    forall j: nat | j < cfg.channels
      ensures ChannelOk(cfg, t, j)
    {
      ChannelFrame(cfg, s, t, j);
    }
  }

  lemma PatientStepKeeps(cfg: Config, s: State, a: Action)
    requires QuietInv(cfg, s) && Enabled(cfg, s, a) && Patient(cfg, s, a)
    ensures QuietInv(cfg, Next(cfg, s, a))
  {
    match a
    case Send => SendQuiet(cfg, s);
    case Expire => ExpireQuiet(cfg, s);
    case Read => ReadQuiet(cfg, s);
    case Fin => FinQuiet(cfg, s);
    case Accept(i) => AcceptQuiet(cfg, s, i);
    case Drop(i) => DropQuiet(cfg, s, i);
    case Exit => ExitQuiet(cfg, s);
  }

  lemma {:induction false} PatientRunInv(cfg: Config, actions: seq<Action>)
    requires cfg.Valid() && PatientRun(cfg, actions)
    ensures QuietInv(cfg, Exec(cfg, actions).s)
  {
    hide QuietInv, Enabled, Patient, Next;
    if actions == [] {
      InitQuiet(cfg);
    } else {
      var front := actions[..|actions| - 1];
      PatientRunInv(cfg, front);
      PatientStepKeeps(cfg, Exec(cfg, front).s, actions[|actions| - 1]);
    }
  }

  // ---------------------------------------------------------------------
  // Theorems
  // ---------------------------------------------------------------------

  /** Stop and wait: per channel at most one packet or acknowledgement is in flight, an
      acknowledgement waiting on the polled channel is the one of the outstanding packet, and
      is_eof is set (so FIN can be sent) only after every data packet has been written. */
  lemma Discipline(cfg: Config, actions: seq<Action>)
    requires cfg.Valid() && PatientRun(cfg, actions)
    ensures var s := Exec(cfg, actions).s;
      && (forall j: nat :: j < cfg.channels ==> |s.up[j]| + |s.down[j]| <= 1)
      && (Polling(s.client) && s.down[Polled(s.client)] != [] ==>
            s.down[Polled(s.client)] == [Ack(Outstanding(cfg, s.client))])
      && (s.client.isEof ==> |s.sent| == Total(cfg)
                             && forall k :: 0 <= k < |s.sent| ==> WriteOf(s.sent[k]) in s.log)
  {
    PatientRunInv(cfg, actions);
    var s := Exec(cfg, actions).s;
    forall j: nat | j < cfg.channels
      ensures |s.up[j]| + |s.down[j]| <= 1
    {
      assert ChannelOk(cfg, s, j);
    }
    if Enabled(cfg, s, Read) {
      AckIsForOutstanding(cfg, s);
    }
    if s.client.isEof {
      AllWritten(cfg, s);
    }
  }

  lemma AllWritten(cfg: Config, s: State)
    requires QuietInv(cfg, s) && s.client.isEof
    ensures |s.sent| == Total(cfg)
    ensures forall k :: 0 <= k < |s.sent| ==> WriteOf(s.sent[k]) in s.log
  {
    assert s.client.issued == Total(cfg) == Acked(cfg, s.client);
    forall k | 0 <= k < |s.sent|
      ensures WriteOf(s.sent[k]) in s.log
    {
      assert Body(s.sent[k]) == Part(cfg, k);
      assert ChunkWrite(cfg, k) in s.log;
    }
  }

  lemma QuietFileComplete(cfg: Config, s: State)
    requires QuietInv(cfg, s) && s.client.isEof
    ensures s.server.file == Stream(cfg)
  {
    assert s.client.issued == Total(cfg) == Acked(cfg, s.client);
    Reassembled(cfg, Total(cfg), s.log);
    TotalReachesEnd(cfg);
  }

  /** End-to-end delivery: as soon as FIN has been accepted, and in particular when the server
      leaves its loop, the output file is the payload stream and last_seq_no is its length;
      the file equals the input exactly when the input is transparent to the chunker. */
  lemma EndToEnd(cfg: Config, actions: seq<Action>)
    requires cfg.Valid() && PatientRun(cfg, actions)
    ensures var s := Exec(cfg, actions).s;
      s.server.finSeen || s.server.exited || s.client.phase.Done? ==>
        && s.server.file == Stream(cfg)
        && s.server.lastSeq == |Stream(cfg)|
        && (s.server.file == cfg.input <==> Transparent(cfg))
  {
    PatientRunInv(cfg, actions);
    var s := Exec(cfg, actions).s;
    if s.server.finSeen {
      QuietFileComplete(cfg, s);
      StreamIsInputIff(cfg);
    }
  }

  // ---------------------------------------------------------------------
  // Cost and termination
  // ---------------------------------------------------------------------

  ghost function Lengths(q: seq<seq<Packet>>): (r: seq<nat>)
    ensures |r| == |q|
  {
    seq(|q|, j requires 0 <= j < |q| => |q[j]|)
  }

  lemma TotalsConserved(cfg: Config, s: State)
    requires Shape(cfg, s) && Conserved(cfg, s)
    ensures Sum(s.tx) == Sum(s.acc) + Sum(s.drp) + Sum(Lengths(s.up))
    ensures Sum(s.acc) == Sum(s.rd) + Sum(Lengths(s.down))
  {
    var mid: seq<nat> := seq(cfg.channels, j requires 0 <= j < cfg.channels => s.acc[j] + s.drp[j]);
    SumOfParts(mid, s.acc, s.drp);
    SumOfParts(s.tx, mid, Lengths(s.up));
    SumOfParts(s.acc, s.rd, Lengths(s.down));
  }

  /** If at most one item per position, and only in [lo, hi), the total is at most hi - lo. */
  lemma {:induction false} SumInInterval(a: seq<nat>, b: seq<nat>, lo: nat, hi: nat)
    requires |a| == |b| && lo <= hi
    requires forall j :: 0 <= j < |a| ==> a[j] + b[j] <= if lo <= j < hi then 1 else 0
    ensures Sum(a) + Sum(b) <= hi - lo
  {
    if a != [] {
      var n := |a| - 1;
      if lo <= n < hi {
        SumInInterval(a[..n], b[..n], lo, n);
      } else {
        SumInInterval(a[..n], b[..n], lo, hi);
      }
    }
  }

  /** Acknowledged plus in flight never exceeds the packets of the transfer plus FIN. */
  lemma FlightBound(cfg: Config, s: State)
    requires QuietInv(cfg, s)
    ensures Sum(s.rd) + Sum(Lengths(s.up)) + Sum(Lengths(s.down)) <= Total(cfg) + 1
  {
    var c := s.client;
    var lo := if c.phase.Waiting? then c.phase.i else 0;
    var hi := match c.phase
      case Sending(i) => i
      case Waiting(_) => Count(cfg, c)
      case FinWait => 1
      case _ => 0;
    forall j | 0 <= j < cfg.channels
      ensures |s.up[j]| + |s.down[j]| <= if lo <= j < hi then 1 else 0
    {
      assert ChannelOk(cfg, s, j);
      assert Expects(cfg, c, j) <==> lo <= j < hi;
    }
    SumInInterval(Lengths(s.up), Lengths(s.down), lo, hi);
  }

  /** With at most `budget` drops a patient run has at most 3(Total + 1) + 1 + 2 budget steps. */
  lemma BoundedRun(cfg: Config, actions: seq<Action>, budget: nat)
    requires cfg.Valid() && PatientRun(cfg, actions)
    requires Sum(Exec(cfg, actions).s.drp) <= budget
    ensures |actions| <= 3 * (Total(cfg) + 1) + 1 + 2 * budget
  {
    PatientRunInv(cfg, actions);
    Conservation(cfg, actions);
    var s := Exec(cfg, actions).s;
    TotalsConserved(cfg, s);
    FlightBound(cfg, s);
  }

  lemma ProgressInState(cfg: Config, s: State) returns (a: Action)
    requires QuietInv(cfg, s) && !(s.client.phase.Done? && s.server.exited)
    ensures !a.Drop? && Enabled(cfg, s, a) && Patient(cfg, s, a)
  {
    var i := Polled(s.client);
    if s.client.phase.Sending? {
      a := Send;
    } else if s.client.phase.SendFin? {
      a := Fin;
    } else if s.client.phase.Done? {
      a := Exit;
    } else {
      assert Expects(cfg, s.client, i) && ChannelOk(cfg, s, i);
      a := if s.up[i] != [] then Accept(i) else if s.down[i] != [] then Read else Expire;
    }
  }

  /** A patient run never gets stuck: until the client has returned and the server has left its
      loop, some step other than a drop is possible. */
  lemma Progress(cfg: Config, actions: seq<Action>) returns (a: Action)
    requires cfg.Valid() && PatientRun(cfg, actions)
    requires !(Exec(cfg, actions).s.client.phase.Done? && Exec(cfg, actions).s.server.exited)
    ensures !a.Drop? && PatientRun(cfg, actions + [a])
  {
    hide QuietInv, Enabled, Patient;
    PatientRunInv(cfg, actions);
    a := ProgressInState(cfg, Exec(cfg, actions).s);
    assert (actions + [a])[..|actions|] == actions;
  }

  lemma AllIdleSums(q: seq<seq<Packet>>)
    requires forall j: nat :: j < |q| ==> q[j] == []
    ensures Sum(Lengths(q)) == 0
  {
    assert Lengths(q) == seq(|q|, _ => 0);
    SumOfZeros(|q|);
  }

  lemma DoneIsIdle(cfg: Config, s: State)
    requires QuietInv(cfg, s) && s.client.phase.Done?
    ensures Sum(Lengths(s.up)) == Sum(Lengths(s.down)) == 0
    ensures s.server.exited ==> forall a :: !Enabled(cfg, s, a)
  {
    forall j: nat | j < cfg.channels
      ensures s.up[j] == [] && s.down[j] == []
    {
      assert ChannelOk(cfg, s, j);
    }
    AllIdleSums(s.up);
    AllIdleSums(s.down);
  }

  /** A completed run makes exactly one transmission per data packet, one for FIN and one per
      drop, and nothing more can happen in it. */
  lemma CompletedRun(cfg: Config, actions: seq<Action>)
    requires cfg.Valid() && PatientRun(cfg, actions)
    requires Exec(cfg, actions).s.client.phase.Done?
    ensures var s := Exec(cfg, actions).s;
      && Sum(s.tx) == Total(cfg) + 1 + Sum(s.drp)
      && Sum(s.acc) == Sum(s.rd) == Total(cfg) + 1
      && (s.server.exited ==>
            && |actions| == 3 * (Total(cfg) + 1) + 1 + 2 * Sum(s.drp)
            && forall a :: !Enabled(cfg, s, a))
  {
    PatientRunInv(cfg, actions);
    Conservation(cfg, actions);
    var s := Exec(cfg, actions).s;
    TotalsConserved(cfg, s);
    DoneIsIdle(cfg, s);
  }
}

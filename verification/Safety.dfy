/** What holds in every run of the protocol, however early its timeouts fire. */
module Safety {
  import opened Payload
  import opened Reassembly
  import opened Protocol

  /** No premature timeout, duplicate or reordering can put a wrong byte into the output file:
      it never exceeds the stream, and each of its bytes is the stream's byte or, where no
      accepted packet reaches, a hole. */
  lemma NeverAWrongByte(cfg: Config, actions: seq<Action>)
    requires cfg.Valid() && Exec(cfg, actions).At?
    ensures var s := Exec(cfg, actions).s;
      && Drawn(Stream(cfg), s.log)
      && Describes(Stream(cfg), s.log, s.server.file)
  {
    RunInv(cfg, actions);
    var s := Exec(cfg, actions).s;
    ChunksAreDrawn(cfg, s.client.issued, s.log);
    FileContents(Stream(cfg), s.log);
  }

  lemma ExitedStep(cfg: Config, s: State, a: Action)
    requires Shape(cfg, s) && Enabled(cfg, s, a) && s.server.exited
    ensures var t := Next(cfg, s, a);
      t.server == s.server && t.log == s.log && forall i: nat :: i < cfg.channels ==> |t.down[i]| <= |s.down[i]|
  {
    hide SendChunk, AfterAck, FinPacket, Outstanding;
  }

  /** Leaving the loop is final: after it the server writes and answers nothing more, however the run
      goes on. */
  lemma {:induction false} ExitIsFinal(cfg: Config, actions: seq<Action>, more: seq<Action>)
    requires cfg.Valid() && Exec(cfg, actions).At? && Exec(cfg, actions).s.server.exited
    requires Exec(cfg, actions + more).At?
    ensures var s, t := Exec(cfg, actions).s, Exec(cfg, actions + more).s;
      t.server == s.server && t.log == s.log && forall i: nat :: i < cfg.channels ==> |t.down[i]| <= |s.down[i]|
  {
    hide Next, Enabled;
    if more == [] {
      assert actions + more == actions;
    } else {
      var front, a := more[..|more| - 1], more[|more| - 1];
      assert (actions + more)[..|actions + more| - 1] == actions + front;
      ExitIsFinal(cfg, actions, front);
      ExitedStep(cfg, Exec(cfg, actions + front).s, a);
    }
  }

  // ---------------------------------------------------------------------
  // Batching
  // ---------------------------------------------------------------------

  function Bodies(packets: seq<Packet>): seq<Byte> {
    if packets == [] then [] else Bodies(packets[..|packets| - 1]) + Body(packets[|packets| - 1])
  }

  lemma DataPacketBody(cfg: Config, k: nat, i: nat)
    requires cfg.Valid()
    ensures Body(DataPacket(cfg, k, i)) == Part(cfg, k)
  {
  }

  /** Part k follows the first k parts. */
  lemma PartFollows(cfg: Config, k: nat)
    requires cfg.Valid()
    ensures Off(cfg, k) <= Off(cfg, k + 1)
    ensures Stream(cfg)[..Off(cfg, k)] + Part(cfg, k) == Stream(cfg)[..Off(cfg, k + 1)]
  {
    hide StreamByte;
    OffMonotone(cfg, k, k + 1);
  }

  lemma {:induction false} BodiesArePrefix(cfg: Config, packets: seq<Packet>)
    requires cfg.Valid()
    requires forall k :: 0 <= k < |packets| ==> packets[k] == DataPacket(cfg, k, k % cfg.channels)
    ensures Bodies(packets) == Stream(cfg)[..Off(cfg, |packets|)]
  {
    hide DataPacket, Body, StreamLength, Stream, Part;
    if packets == [] {
      assert Off(cfg, 0) == 0;
    } else {
      var k := |packets| - 1;
      BodiesArePrefix(cfg, packets[..k]);
      DataPacketBody(cfg, k, k % cfg.channels);
      PartFollows(cfg, k);
    }
  }

  ghost predicate NumberedInTurn(cfg: Config, packets: seq<Packet>, k: nat)
    requires cfg.Valid() && k < |packets|
  {
    && packets[k].header.seqNo == |Bodies(packets[..k])|
    && packets[k].header.size == |Body(packets[k])|
    && packets[k].header.channel == (k % cfg.channels) % 256
    && !packets[k].header.isLast && !packets[k].header.isAck
    && |packets[k].data| == cfg.chunk && (forall j :: packets[k].header.size <= j < cfg.chunk ==> packets[k].data[j] == 0)
  }

  lemma PacketInTurn(cfg: Config, packets: seq<Packet>, k: nat)
    requires cfg.Valid() && k < |packets|
    requires forall k :: 0 <= k < |packets| ==> packets[k] == DataPacket(cfg, k, k % cfg.channels)
    ensures NumberedInTurn(cfg, packets, k) && Body(packets[k]) == Part(cfg, k)
  {
    hide Bodies, Stream, Part;
    BodiesArePrefix(cfg, packets[..k]);
    DataPacketBody(cfg, k, k % cfg.channels);
  }

  /** Across all batches the packets are numbered contiguously from 0, visit the channels in
      turn, and carry a prefix of the stream; only the last one can be empty. */
  lemma PacketsPartitionStream(cfg: Config, actions: seq<Action>)
    requires cfg.Valid() && Exec(cfg, actions).At?
    ensures var s := Exec(cfg, actions).s;
      && Bodies(s.sent) <= Stream(cfg)
      && (forall k :: 0 <= k < |s.sent| ==> NumberedInTurn(cfg, s.sent, k))
      && (forall k :: 0 <= k < |s.sent| - 1 ==> Body(s.sent[k]) != [])
  {
    hide Exec, Bodies, Body, Stream, Part, DataPacket, Total;
    RunInv(cfg, actions);
    var s := Exec(cfg, actions).s;
    BodiesArePrefix(cfg, s.sent);
    forall k: nat | k < |s.sent|
      ensures NumberedInTurn(cfg, s.sent, k) && Body(s.sent[k]) == Part(cfg, k)
    {
      PacketInTurn(cfg, s.sent, k);
    }
    forall k: nat | k < |s.sent| - 1
      ensures Body(s.sent[k]) != []
    {
      PacketInTurn(cfg, s.sent, k);
      OffStrict(cfg, k, k + 1);
    }
  }

  ghost predicate EofMarked(cfg: Config, s: State)
    requires cfg.Valid()
  {
    && (forall k :: 0 <= k < |s.sent| ==>
          (s.sent[k].header.seqNo == s.client.eofSeq <==> k == |s.sent| - 1))
    && (!s.client.phase.Sending? ==> |s.sent| == Total(cfg) && Bodies(s.sent) == Stream(cfg))
  }

  lemma EofMarkedInState(cfg: Config, s: State)
    requires Inv(cfg, s) && s.client.eofSeq != NO_EOF
    ensures EofMarked(cfg, s)
  {
    BodiesArePrefix(cfg, s.sent);
    TotalReachesEnd(cfg);
    var last := s.client.issued - 1;
    assert s.client.eofSeq == Off(cfg, last);
    forall k | 0 <= k < last
      ensures s.sent[k].header.seqNo < s.client.eofSeq
    {
      OffStrict(cfg, k, last);
    }
  }

  /** Once the end of the input has been seen, eof_seq_no is the number of the last packet sent
      and of no other; once its batch is complete the packets carry the whole stream, and there
      are exactly Total of them, whichever channel the short chunk fell on. */
  lemma EofMarksLastPacket(cfg: Config, actions: seq<Action>)
    requires cfg.Valid() && Exec(cfg, actions).At?
    ensures var s := Exec(cfg, actions).s;
      s.client.eofSeq != NO_EOF ==> EofMarked(cfg, s)
  {
    RunInv(cfg, actions);
    var s := Exec(cfg, actions).s;
    if s.client.eofSeq != NO_EOF {
      EofMarkedInState(cfg, s);
    }
  }

  // ---------------------------------------------------------------------
  // Conservation
  // ---------------------------------------------------------------------

  function Sum(a: seq<nat>): nat {
    if a == [] then 0 else Sum(a[..|a| - 1]) + a[|a| - 1]
  }

  lemma {:induction false} SumIncrement(a: seq<nat>, i: nat)
    requires i < |a|
    ensures Sum(a[i := a[i] + 1]) == Sum(a) + 1
  {
    var b, n := a[i := a[i] + 1], |a| - 1;
    if i == n {
      assert b[..n] == a[..n];
    } else {
      assert b[..n] == a[..n][i := a[i] + 1];
      SumIncrement(a[..n], i);
    }
  }

  lemma {:induction false} SumOfParts(a: seq<nat>, b: seq<nat>, c: seq<nat>)
    requires |a| == |b| == |c|
    requires forall i :: 0 <= i < |a| ==> a[i] == b[i] + c[i]
    ensures Sum(a) == Sum(b) + Sum(c)
  {
    if a != [] {
      var n := |a| - 1;
      SumOfParts(a[..n], b[..n], c[..n]);
    }
  }

  lemma {:induction false} SumOfZeros(n: nat)
    ensures Sum(seq(n, _ => 0)) == 0
  {
    if n > 0 {
      var z: seq<nat> := seq(n, _ => 0);
      assert z[..n - 1] == seq(n - 1, _ => 0);
      SumOfZeros(n - 1);
    }
  }

  /** Number of steps recorded in the history counters. */
  ghost function Steps(s: State): nat {
    Sum(s.tx) + Sum(s.acc) + Sum(s.drp) + Sum(s.rd) + if s.server.exited then 1 else 0
  }

  lemma StepCounted(cfg: Config, s: State, a: Action)
    requires Shape(cfg, s) && Enabled(cfg, s, a)
    ensures Steps(Next(cfg, s, a)) == Steps(s) + 1
  {
    hide SendChunk, AfterAck, Serve, FinPacket, Outstanding, NextChunk, Sum;
    match a
    case Send => SumIncrement(s.tx, s.client.phase.i);
    case Expire => SumIncrement(s.tx, Polled(s.client));
    case Read => SumIncrement(s.rd, Polled(s.client));
    case Fin => SumIncrement(s.tx, 0);
    case Accept(i) =>
      SumIncrement(s.acc, i);
      assert Serve(s.server, s.up[i][0]).exited == s.server.exited by {
        ServeKeepsExited(s.server, s.up[i][0]);
      }
    case Drop(i) => SumIncrement(s.drp, i);
    case Exit =>
  }

  lemma ServeKeepsExited(sv: Server, p: Packet)
    ensures Serve(sv, p).exited == sv.exited
  {
  }

  lemma StepsInit(cfg: Config)
    ensures Steps(Init(cfg)) == 0
  {
    SumOfZeros(cfg.channels);
  }

  /** On every channel transmissions = accepted + dropped + in flight, and acknowledgements
      sent = read + in flight; every step of the run is one of these events or the exit. */
  lemma {:induction false} Conservation(cfg: Config, actions: seq<Action>)
    requires cfg.Valid() && Exec(cfg, actions).At?
    ensures var s := Exec(cfg, actions).s;
      && (forall i :: 0 <= i < cfg.channels ==>
            && s.tx[i] == s.acc[i] + s.drp[i] + |s.up[i]|
            && s.acc[i] == s.rd[i] + |s.down[i]|)
      && |actions| == Steps(s)
  {
    hide Next, Enabled, Sum;
    RunInv(cfg, actions);
    if actions == [] {
      StepsInit(cfg);
    } else {
      var front := actions[..|actions| - 1];
      Conservation(cfg, front);
      StepCounted(cfg, Exec(cfg, front).s, actions[|actions| - 1]);
    }
  }
}

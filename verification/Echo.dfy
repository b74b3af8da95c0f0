/** In every run, what is under way on a channel are the packets sent on that channel and their
    echoes. */
module Echo {
  import opened Payload
  import opened Protocol

  /** p is q sent back as an acknowledgement: everything else is unchanged. */
  ghost predicate Echoes(p: Packet, q: Packet) {
    && p.header.isAck && p.data == q.data
    && p.header.size == q.header.size && p.header.seqNo == q.header.seqNo
    && p.header.isLast == q.header.isLast && p.header.channel == q.header.channel
  }

  /** q is one of the data packets of channel i, or FIN on channel 0. */
  ghost predicate SentOn(cfg: Config, s: State, i: nat, q: Packet)
    requires cfg.Valid()
  {
    || (exists k: nat :: k < |s.sent| && k % cfg.channels == i && q == s.sent[k])
    || (i == 0 && (s.client.phase.FinWait? || s.client.phase.Done?) && q == FinPacket(cfg, s.client))
  }

  ghost predicate EchoOn(cfg: Config, s: State, i: nat, p: Packet)
    requires cfg.Valid()
  {
    exists q :: SentOn(cfg, s, i, q) && Echoes(p, q)
  }

  ghost predicate EchoInv(cfg: Config, s: State)
    requires Shape(cfg, s)
  {
    && (forall i: nat, p :: i < cfg.channels && p in s.up[i] ==> SentOn(cfg, s, i, p))
    && (forall i: nat, p :: i < cfg.channels && p in s.down[i] ==> EchoOn(cfg, s, i, p))
  }

  /** What has been sent stays sent. */
  ghost predicate Extends(cfg: Config, s: State, t: State) {
    && s.sent <= t.sent && FinPacket(cfg, t.client) == FinPacket(cfg, s.client)
    && (s.client.phase.FinWait? || s.client.phase.Done? ==> t.client.phase.FinWait? || t.client.phase.Done?)
  }

  lemma SentStays(cfg: Config, s: State, t: State, i: nat, q: Packet)
    requires cfg.Valid() && SentOn(cfg, s, i, q)
    requires s.sent <= t.sent && (s.client.phase.FinWait? || s.client.phase.Done? ==> Extends(cfg, s, t))
    ensures SentOn(cfg, t, i, q)
  {
    hide FinPacket;
    if k: nat :| k < |s.sent| && k % cfg.channels == i && q == s.sent[k] {
      assert t.sent[k] == q;
    }
  }

  /** A step after which new packets are in the queues only if they belong there. */
  lemma QueuesEcho(cfg: Config, s: State, t: State)
    requires Shape(cfg, s) && Shape(cfg, t) && EchoInv(cfg, s)
    requires s.sent <= t.sent && (s.client.phase.FinWait? || s.client.phase.Done? ==> Extends(cfg, s, t))
    requires forall i: nat, p :: i < cfg.channels && p in t.up[i] ==> p in s.up[i] || SentOn(cfg, t, i, p)
    requires forall i: nat, p :: i < cfg.channels && p in t.down[i] ==> p in s.down[i] || EchoOn(cfg, s, i, p)
    ensures EchoInv(cfg, t)
  {
    hide SentOn, Echoes, Extends;
    forall i: nat, p | i < cfg.channels && p in t.up[i]
      ensures SentOn(cfg, t, i, p)
    {
      if p in s.up[i] {
        SentStays(cfg, s, t, i, p);
      }
    }
    forall i: nat, p | i < cfg.channels && p in t.down[i]
      ensures EchoOn(cfg, t, i, p)
    {
      assert EchoOn(cfg, s, i, p);
      var q :| SentOn(cfg, s, i, q) && Echoes(p, q);
      SentStays(cfg, s, t, i, q);
    }
  }

  lemma SendEchoes(cfg: Config, s: State)
    requires Inv(cfg, s) && EchoInv(cfg, s) && Enabled(cfg, s, Send)
    ensures EchoInv(cfg, Next(cfg, s, Send))
  {
    hide ClientInv, SendChunk, SentOn, EchoOn, NetInv, ServerInv, Conserved, DataPacket;
    var t, i, r := Next(cfg, s, Send), s.client.phase.i, SendChunk(cfg, s.client);
    SendChannel(cfg, s.client);
    assert t.sent[|s.sent|] == r.1;
    NewlySent(cfg, t, i, |s.sent|);
    QueuesEcho(cfg, s, t);
  }

  lemma NewlySent(cfg: Config, t: State, i: nat, k: nat)
    requires cfg.Valid() && k < |t.sent| && k % cfg.channels == i
    ensures SentOn(cfg, t, i, t.sent[k])
  {
  }

  lemma SendChannel(cfg: Config, c: Client)
    requires cfg.Valid() && ClientInv(cfg, c) && c.phase.Sending?
    ensures c.issued % cfg.channels == c.phase.i
  {
    hide Registers, Total, DataPacket;
    RoundRobin(cfg, Base(cfg, c), c.phase.i);
  }

  lemma OutstandingSent(cfg: Config, s: State)
    requires Inv(cfg, s) && Polling(s.client)
    ensures SentOn(cfg, s, Polled(s.client), Outstanding(cfg, s.client))
  {
    hide Registers, Total, DataPacket, NetInv, ServerInv, Conserved, FinPacket;
    var c := s.client;
    if c.phase.Waiting? {
      var k := Base(cfg, c) + c.phase.i;
      RoundRobin(cfg, Base(cfg, c), c.phase.i);
      assert c.tmp[c.phase.i] == DataPacket(cfg, k, c.phase.i) == s.sent[k];
    }
  }

  lemma ExpireEchoes(cfg: Config, s: State)
    requires Inv(cfg, s) && EchoInv(cfg, s) && Enabled(cfg, s, Expire)
    ensures EchoInv(cfg, Next(cfg, s, Expire))
  {
    hide ClientInv, Outstanding, EchoOn, NetInv, ServerInv, SentInv, Conserved, FinPacket;
    OutstandingSent(cfg, s);
    QueuesEcho(cfg, s, Next(cfg, s, Expire));
  }

  lemma FinEchoes(cfg: Config, s: State)
    requires Inv(cfg, s) && EchoInv(cfg, s) && Enabled(cfg, s, Fin)
    ensures EchoInv(cfg, Next(cfg, s, Fin))
  {
    hide ClientInv, EchoOn, NetInv, ServerInv, SentInv, Conserved;
    var t := Next(cfg, s, Fin);
    assert FinPacket(cfg, t.client) == FinPacket(cfg, s.client);
    QueuesEcho(cfg, s, t);
  }

  lemma ReadEchoes(cfg: Config, s: State)
    requires Inv(cfg, s) && EchoInv(cfg, s) && Enabled(cfg, s, Read)
    ensures EchoInv(cfg, Next(cfg, s, Read))
  {
    hide ClientInv, EchoOn, SentOn, NetInv, ServerInv, SentInv, Conserved, AfterAck;
    var t := Next(cfg, s, Read);
    QueuesEcho(cfg, s, t);
  }

  lemma AcceptEchoes(cfg: Config, s: State, i: nat)
    requires Inv(cfg, s) && EchoInv(cfg, s) && Enabled(cfg, s, Accept(i))
    ensures EchoInv(cfg, Next(cfg, s, Accept(i)))
  {
    hide ClientInv, SentOn, NetInv, ServerInv, SentInv, Conserved, Serve, FinPacket;
    var p := s.up[i][0];
    assert p in s.up[i] && Echoes(Ack(p), p);
    assert EchoOn(cfg, s, i, Ack(p));
    QueuesEcho(cfg, s, Next(cfg, s, Accept(i)));
  }

  lemma DropEchoes(cfg: Config, s: State, i: nat)
    requires Inv(cfg, s) && EchoInv(cfg, s) && Enabled(cfg, s, Drop(i))
    ensures EchoInv(cfg, Next(cfg, s, Drop(i)))
  {
    hide ClientInv, SentOn, EchoOn, NetInv, ServerInv, SentInv, Conserved, FinPacket;
    QueuesEcho(cfg, s, Next(cfg, s, Drop(i)));
  }

  lemma StepEchoes(cfg: Config, s: State, a: Action)
    requires Inv(cfg, s) && EchoInv(cfg, s) && Enabled(cfg, s, a)
    ensures EchoInv(cfg, Next(cfg, s, a))
  {
    hide ClientInv, SentOn, EchoOn, NetInv, ServerInv, SentInv, Conserved, Serve, SendChunk, AfterAck, FinPacket, Outstanding;
    if a.Send? {
      SendEchoes(cfg, s);
    } else if a.Expire? {
      ExpireEchoes(cfg, s);
    } else if a.Read? {
      ReadEchoes(cfg, s);
    } else if a.Fin? {
      FinEchoes(cfg, s);
    } else if a.Accept? {
      AcceptEchoes(cfg, s, a.ch);
    } else if a.Drop? {
      DropEchoes(cfg, s, a.ch);
    } else {
      QueuesEcho(cfg, s, Next(cfg, s, a));
    }
  }

  /** In every run each packet towards the server is one the client sent on that channel, and each
      packet towards the client agrees with such a packet in data, size, number, last-packet flag
      and channel, and is marked as an acknowledgement. */
  lemma {:induction false} RepliesEcho(cfg: Config, actions: seq<Action>)
    requires cfg.Valid() && Exec(cfg, actions).At?
    ensures EchoInv(cfg, Exec(cfg, actions).s)
  {
    hide EchoInv, Inv, Next, Enabled;
    if actions == [] {
      EchoStarts(cfg);
    } else {
      var front := actions[..|actions| - 1];
      RepliesEcho(cfg, front);
      RunInv(cfg, front);
      StepEchoes(cfg, Exec(cfg, front).s, actions[|actions| - 1]);
    }
  }

  lemma EchoStarts(cfg: Config)
    requires cfg.Valid()
    ensures Shape(cfg, Init(cfg)) && EchoInv(cfg, Init(cfg))
  {
  }
}

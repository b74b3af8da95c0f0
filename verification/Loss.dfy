/** How any packet that is neither in the first batch nor the last one gets lost: a run with a single
    premature timeout, built along a run without drops and timeouts. */
module Loss {
  import opened Payload
  import opened Reassembly
  import opened Protocol
  import opened Safety
  import opened StopAndWait
  import opened PollBudget
  import opened Traces
  import opened Liveness
  import opened Certain

  // ---------------------------------------------------------------------
  // A run without drops and timeouts
  // ---------------------------------------------------------------------

  function Expiries(actions: seq<Action>): nat {
    if actions == [] then 0
    else Expiries(actions[..|actions| - 1]) + if actions[|actions| - 1].Expire? then 1 else 0
  }

  lemma ExpiriesSnoc(actions: seq<Action>, a: Action)
    ensures Expiries(actions + [a]) == Expiries(actions) + if a.Expire? then 1 else 0
  {
    assert (actions + [a])[..|actions|] == actions;
  }

  /** Transmissions other than retransmissions. */
  function FirstSent(c: Client): nat {
    c.issued + if c.phase.FinWait? || c.phase.Done? then 1 else 0
  }

  lemma StepTransmits(cfg: Config, s: State, a: Action)
    requires Inv(cfg, s) && Enabled(cfg, s, a)
    ensures var t := Next(cfg, s, a);
      Sum(t.tx) - FirstSent(t.client) == Sum(s.tx) - FirstSent(s.client) + if a.Expire? then 1 else 0
  {
    hide Sum, Inv, Serve, StrNCpy, NextChunk, FinPacket, Outstanding;
    ShapeOf(cfg, s);
    match a
    case Send => SumIncrement(s.tx, s.client.phase.i);
    case Expire => SumIncrement(s.tx, Polled(s.client));
    case Fin => SumIncrement(s.tx, 0);
    case _ =>
  }

  lemma {:induction false} TransmissionsCounted(cfg: Config, actions: seq<Action>)
    requires cfg.Valid() && Exec(cfg, actions).At?
    ensures var s := Exec(cfg, actions).s; Sum(s.tx) == FirstSent(s.client) + Expiries(actions)
  {
    hide Sum, Next, Enabled, Inv;
    if actions == [] {
      SumOfZeros(cfg.channels);
    } else {
      var front := actions[..|actions| - 1];
      TransmissionsCounted(cfg, front);
      RunInv(cfg, front);
      StepTransmits(cfg, Exec(cfg, front).s, actions[|actions| - 1]);
    }
  }

  lemma {:induction false} DropsCounted(cfg: Config, actions: seq<Action>)
    requires cfg.Valid() && Exec(cfg, actions).At? && NoDrops(actions)
    ensures Exec(cfg, actions).s.drp == Init(cfg).drp
  {
    hide Next, Enabled;
    if actions != [] {
      var front := actions[..|actions| - 1];
      DropsCounted(cfg, front);
      DropsKept(cfg, Exec(cfg, front).s, actions[|actions| - 1]);
    }
  }

  lemma {:induction false} NoExpiry(actions: seq<Action>, i: nat)
    requires Expiries(actions) == 0 && i < |actions|
    ensures !actions[i].Expire?
  {
    if i < |actions| - 1 {
      NoExpiry(actions[..|actions| - 1], i);
    }
  }

  ghost predicate Smooth(actions: seq<Action>) {
    forall i :: 0 <= i < |actions| ==> !actions[i].Drop? && !actions[i].Expire?
  }

  /** There is a complete patient run without a single drop or timeout. */
  lemma SmoothRun(cfg: Config) returns (actions: seq<Action>)
    requires cfg.Valid()
    ensures Smooth(actions) && PatientRun(cfg, actions)
    ensures Exec(cfg, actions).s.client.phase.Done? && Exec(cfg, actions).s.server.exited
  {
    hide Exec, Sum;
    assert PatientRun(cfg, []);
    actions := Completes(cfg, []);
    assert [] + actions == actions;
    DropsCounted(cfg, actions);
    SumOfZeros(cfg.channels);
    CompletedRun(cfg, actions);
    TransmissionsCounted(cfg, actions);
    RunInv(cfg, actions);
    forall i | 0 <= i < |actions|
      ensures !actions[i].Expire?
    {
      NoExpiry(actions, i);
    }
  }

  // ---------------------------------------------------------------------
  // The run that loses packet k
  // ---------------------------------------------------------------------

  ghost predicate Losable(cfg: Config, k: nat) {
    cfg.Valid() && cfg.channels <= k <= Total(cfg) - 2
  }

  /** The packet that precedes packet k on its channel, and whose acknowledgement is taken twice. */
  ghost function Stale(cfg: Config, k: nat): Packet
    requires Losable(cfg, k)
  {
    DataPacket(cfg, k - cfg.channels, k % cfg.channels)
  }

  /** The acknowledgement of the stale packet has been read, that of packet k has not. */
  ghost predicate Between(cfg: Config, k: nat, c: Client) {
    k - cfg.channels < Acked(cfg, c) <= k
  }

  /** In between, a second copy of the stale packet is ahead of everything else on its channel, and
      it is its acknowledgement that comes back.  Otherwise the queues are the same. */
  ghost predicate Shadows(cfg: Config, k: nat, s: State, t: State, j: nat)
    requires Losable(cfg, k) && Shape(cfg, s) && Shape(cfg, t) && j < cfg.channels
  {
    if j == k % cfg.channels && Between(cfg, k, s.client) then
      if s.down[j] == []
      then t.up[j] == [Stale(cfg, k)] + s.up[j] && t.down[j] == []
      else t.up[j] == s.up[j] && t.down[j] == [Ack(Stale(cfg, k))]
    else
      t.up[j] == s.up[j] && t.down[j] == s.down[j]
  }

  /** t looks to the client like s, but packet k has not been written. */
  ghost predicate Mirrors(cfg: Config, k: nat, s: State, t: State)
    requires Losable(cfg, k)
  {
    && Shape(cfg, s) && Shape(cfg, t) && t.client == s.client
    && t.server.finSeen == s.server.finSeen && t.server.exited == s.server.exited
    && ChunkWrite(cfg, k) !in t.log
    && forall j: nat :: j < cfg.channels ==> Shadows(cfg, k, s, t, j)
  }

  lemma WritesDiffer(cfg: Config, m: nat, k: nat)
    requires cfg.Valid() && m < Total(cfg) && k < Total(cfg) && m != k
    ensures ChunkWrite(cfg, m) != ChunkWrite(cfg, k)
  {
    if m < k {
      OffStrict(cfg, m, k);
    } else {
      OffStrict(cfg, k, m);
    }
  }

  lemma SameResidue(cfg: Config, m: nat, k: nat)
    requires cfg.Valid() && m % cfg.channels == k % cfg.channels && k - cfg.channels < m < k + cfg.channels
    ensures m == k
  {
    var n, r := cfg.channels, k % cfg.channels;
    var b, d := k / n, m - k;
    assert k == b * n + r && (b + 1) * n == b * n + n && (b - 1) * n == b * n - n;
    if 0 <= r + d < n {
      DivModUnique(m, n, b, r + d);
    } else if r + d >= n {
      DivModUnique(m, n, b + 1, r + d - n);
    } else {
      DivModUnique(m, n, b - 1, r + d + n);
    }
  }

  /** Packet base + j of a batch is packet k exactly if k lies on channel j and close by. */
  lemma IsPacket(cfg: Config, k: nat, base: nat, j: nat, acked: nat)
    requires cfg.Valid() && base % cfg.channels == 0 && j < cfg.channels && base <= acked <= base + j
    ensures base + j == k <==> j == k % cfg.channels && k - cfg.channels < acked <= k
  {
    RoundRobin(cfg, base, j);
    if j == k % cfg.channels && k - cfg.channels < acked <= k {
      SameResidue(cfg, base + j, k);
    }
  }

  lemma SendMirrors(cfg: Config, k: nat, s: State, t: State)
    requires Losable(cfg, k) && QuietInv(cfg, s) && Mirrors(cfg, k, s, t) && Enabled(cfg, s, Send)
    ensures Enabled(cfg, t, Send) && Mirrors(cfg, k, Next(cfg, s, Send), Next(cfg, t, Send))
  {
    hide QuietInv, SendChunk, ChunkWrite, Acked, Stale, Losable, Total;
    QuietIsInv(cfg, s);
    SendFacts(cfg, s.client);
    forall j: nat | j < cfg.channels
      ensures Shadows(cfg, k, Next(cfg, s, Send), Next(cfg, t, Send), j)
    {
      assert Shadows(cfg, k, s, t, j);
    }
  }

  lemma QuietIsInv(cfg: Config, s: State)
    requires QuietInv(cfg, s)
    ensures Inv(cfg, s) && ClientInv(cfg, s.client)
  {
    hide ClientInv, ChannelsInv, DeliveredUpTo, FinInv;
  }

  /** After the last acknowledgement nothing is in between. */
  lemma NotBetween(cfg: Config, k: nat, c: Client)
    requires Losable(cfg, k) && ClientInv(cfg, c) && (c.phase.SendFin? || c.phase.FinWait? || c.phase.Done?)
    ensures Acked(cfg, c) == Total(cfg) && !Between(cfg, k, c)
  {
    hide Registers, BatchInv;
  }

  lemma FinMirrors(cfg: Config, k: nat, s: State, t: State)
    requires Losable(cfg, k) && QuietInv(cfg, s) && Mirrors(cfg, k, s, t) && Enabled(cfg, s, Fin)
    ensures Enabled(cfg, t, Fin) && Mirrors(cfg, k, Next(cfg, s, Fin), Next(cfg, t, Fin))
  {
    hide QuietInv, ClientInv, FinPacket, ChunkWrite, Stale, Losable, Total;
    QuietIsInv(cfg, s);
    FinKeepsClient(cfg, s.client);
    NotBetween(cfg, k, s.client);
    NotBetween(cfg, k, s.client.(phase := FinWait));
    forall j: nat | j < cfg.channels
      ensures Shadows(cfg, k, Next(cfg, s, Fin), Next(cfg, t, Fin), j)
    {
      assert Shadows(cfg, k, s, t, j);
    }
  }

  lemma ExitMirrors(cfg: Config, k: nat, s: State, t: State)
    requires Losable(cfg, k) && Mirrors(cfg, k, s, t) && Enabled(cfg, s, Exit)
    ensures Enabled(cfg, t, Exit) && Mirrors(cfg, k, Next(cfg, s, Exit), Next(cfg, t, Exit))
  {
    hide ChunkWrite, Stale, Losable, Acked;
    forall j: nat | j < cfg.channels
      ensures Shadows(cfg, k, Next(cfg, s, Exit), Next(cfg, t, Exit), j)
    {
      assert Shadows(cfg, k, s, t, j);
    }
  }

  // accepting

  /** Which data packet is in the queue of channel j: packet k exactly in between, on its channel. */
  lemma QueuedPacket(cfg: Config, k: nat, s: State, j: nat) returns (m: nat)
    requires Losable(cfg, k) && QuietInv(cfg, s) && Enabled(cfg, s, Accept(j)) && !s.client.phase.FinWait?
    ensures s.up[j] == [DataPacket(cfg, m, j)] && s.down[j] == [] && m < Total(cfg)
    ensures m == k <==> j == k % cfg.channels && Between(cfg, k, s.client)
  {
    hide Total, DataPacket, Registers, ServerInv, NetInv, SentInv, Conserved, DeliveredUpTo, ChannelsInv;
    AcceptChannels(cfg, s, j);
    var c := s.client;
    m := Base(cfg, c) + j;
    IssuedBound(cfg, c);
    IsPacket(cfg, k, Base(cfg, c), j, Acked(cfg, c));
  }

  lemma IssuedBound(cfg: Config, c: Client)
    requires cfg.Valid() && ClientInv(cfg, c)
    ensures c.issued <= Total(cfg)
  {
  }

  /** The same packet accepted in both. */
  lemma AcceptSame(cfg: Config, k: nat, s: State, t: State, i: nat)
    requires Losable(cfg, k) && Mirrors(cfg, k, s, t) && Enabled(cfg, s, Accept(i))
    requires !(i == k % cfg.channels && Between(cfg, k, s.client))
    requires s.up[i][0].header.isLast || WriteOf(s.up[i][0]) != ChunkWrite(cfg, k)
    ensures Enabled(cfg, t, Accept(i)) && Mirrors(cfg, k, Next(cfg, s, Accept(i)), Next(cfg, t, Accept(i)))
  {
    hide ChunkWrite, WriteOf, WriteAt, Stale, Losable, Acked;
    assert Shadows(cfg, k, s, t, i);
    forall j: nat | j < cfg.channels
      ensures Shadows(cfg, k, Next(cfg, s, Accept(i)), Next(cfg, t, Accept(i)), j)
    {
      assert Shadows(cfg, k, s, t, j);
    }
  }

  lemma StaleWrite(cfg: Config, k: nat)
    requires Losable(cfg, k)
    ensures !Stale(cfg, k).header.isLast && WriteOf(Stale(cfg, k)) != ChunkWrite(cfg, k)
  {
    hide Total;
    DataWrite(cfg, k - cfg.channels, k % cfg.channels);
    WritesDiffer(cfg, k - cfg.channels, k);
  }

  /** Packet k accepted in the one, the stale copy in the other, which then drops packet k. */
  lemma AcceptStale(cfg: Config, k: nat, s: State, t: State, i: nat)
    requires Losable(cfg, k) && Mirrors(cfg, k, s, t) && Enabled(cfg, s, Accept(i))
    requires i == k % cfg.channels && Between(cfg, k, s.client)
    requires |s.up[i]| == 1 && !s.up[i][0].header.isLast && s.down[i] == []
    ensures Enabled(cfg, t, Accept(i))
    ensures Enabled(cfg, Next(cfg, t, Accept(i)), Drop(i))
    ensures Mirrors(cfg, k, Next(cfg, s, Accept(i)), Next(cfg, Next(cfg, t, Accept(i)), Drop(i)))
  {
    hide ChunkWrite, WriteOf, WriteAt, Stale, Losable, Acked;
    assert Shadows(cfg, k, s, t, i);
    StaleWrite(cfg, k);
    var u, v := Next(cfg, s, Accept(i)), Next(cfg, Next(cfg, t, Accept(i)), Drop(i));
    forall j: nat | j < cfg.channels
      ensures Shadows(cfg, k, u, v, j)
    {
      assert Shadows(cfg, k, s, t, j);
    }
  }

  lemma FinIsQueued(cfg: Config, s: State, i: nat)
    requires QuietInv(cfg, s) && Enabled(cfg, s, Accept(i)) && s.client.phase.FinWait?
    ensures s.up[i][0].header.isLast
  {
    AcceptChannels(cfg, s, i);
  }

  lemma AcceptMirrors(cfg: Config, k: nat, s: State, t: State, i: nat) returns (more: seq<Action>)
    requires Losable(cfg, k) && QuietInv(cfg, s) && Mirrors(cfg, k, s, t) && Enabled(cfg, s, Accept(i))
    ensures more == [Accept(i)] || more == [Accept(i), Drop(i)]
    ensures Enabled(cfg, t, Accept(i))
    ensures |more| == 1 ==> Mirrors(cfg, k, Next(cfg, s, Accept(i)), Next(cfg, t, Accept(i)))
    ensures |more| == 2 ==>
      && Enabled(cfg, Next(cfg, t, Accept(i)), Drop(i))
      && Mirrors(cfg, k, Next(cfg, s, Accept(i)), Next(cfg, Next(cfg, t, Accept(i)), Drop(i)))
  {
    hide QuietInv, Mirrors, Next, ChunkWrite, WriteOf, DataPacket, Between;
    if s.client.phase.FinWait? {
      FinIsQueued(cfg, s, i);
      QuietIsInv(cfg, s);
      NotBetween(cfg, k, s.client);
      AcceptSame(cfg, k, s, t, i);
      more := [Accept(i)];
    } else {
      var m := QueuedPacket(cfg, k, s, i);
      DataWrite(cfg, m, i);
      if m == k {
        AcceptStale(cfg, k, s, t, i);
        more := [Accept(i), Drop(i)];
      } else {
        WritesDiffer(cfg, m, k);
        AcceptSame(cfg, k, s, t, i);
        more := [Accept(i)];
      }
    }
  }

  // reading

  /** The same acknowledgement read in both. */
  lemma ReadSame(cfg: Config, k: nat, s: State, t: State)
    requires Losable(cfg, k) && Mirrors(cfg, k, s, t) && Enabled(cfg, s, Read)
    requires Polled(s.client) == k % cfg.channels ==>
               !Between(cfg, k, s.client) && !Between(cfg, k, Next(cfg, s, Read).client)
    requires Between(cfg, k, s.client) == Between(cfg, k, Next(cfg, s, Read).client)
    ensures Enabled(cfg, t, Read) && Mirrors(cfg, k, Next(cfg, s, Read), Next(cfg, t, Read))
  {
    hide ChunkWrite, Stale, Losable, Acked, AfterAck;
    assert Shadows(cfg, k, s, t, Polled(s.client));
    forall j: nat | j < cfg.channels
      ensures Shadows(cfg, k, Next(cfg, s, Read), Next(cfg, t, Read), j)
    {
      assert Shadows(cfg, k, s, t, j);
    }
  }

  /** The stale packet is sent once more just before its acknowledgement is read. */
  lemma ReadEarly(cfg: Config, k: nat, s: State, t: State)
    requires Losable(cfg, k) && Mirrors(cfg, k, s, t) && Enabled(cfg, s, Read) && s.client.phase.Waiting?
    requires Polled(s.client) == k % cfg.channels && s.client.tmp[k % cfg.channels] == Stale(cfg, k)
    requires s.up[k % cfg.channels] == [] && |s.down[k % cfg.channels]| == 1
    requires !Between(cfg, k, s.client) && Between(cfg, k, Next(cfg, s, Read).client)
    ensures Enabled(cfg, t, Expire) && Enabled(cfg, Next(cfg, t, Expire), Read)
    ensures Mirrors(cfg, k, Next(cfg, s, Read), Next(cfg, Next(cfg, t, Expire), Read))
  {
    hide ChunkWrite, Stale, Losable, Acked, AfterAck;
    assert Shadows(cfg, k, s, t, k % cfg.channels);
    var u, v := Next(cfg, s, Read), Next(cfg, Next(cfg, t, Expire), Read);
    forall j: nat | j < cfg.channels
      ensures Shadows(cfg, k, u, v, j)
    {
      assert Shadows(cfg, k, s, t, j);
    }
  }

  /** The stale acknowledgement is read instead of that of packet k, with the same effect. */
  lemma ReadStale(cfg: Config, k: nat, s: State, t: State)
    requires Losable(cfg, k) && Mirrors(cfg, k, s, t) && Enabled(cfg, s, Read) && s.client.phase.Waiting?
    requires Polled(s.client) == k % cfg.channels && |s.down[k % cfg.channels]| == 1
    requires Between(cfg, k, s.client) && !Between(cfg, k, Next(cfg, s, Read).client)
    requires AfterAck(cfg, s.client, s.down[k % cfg.channels][0]) == AfterAck(cfg, s.client, Ack(Stale(cfg, k)))
    ensures Enabled(cfg, t, Read) && Mirrors(cfg, k, Next(cfg, s, Read), Next(cfg, t, Read))
  {
    hide ChunkWrite, Stale, Losable, Acked, AfterAck;
    assert Shadows(cfg, k, s, t, k % cfg.channels);
    forall j: nat | j < cfg.channels
      ensures Shadows(cfg, k, Next(cfg, s, Read), Next(cfg, t, Read), j)
    {
      assert Shadows(cfg, k, s, t, j);
    }
  }

  /** Neither of the two numbers is taken for the last one. */
  lemma SameEffect(cfg: Config, k: nat, c: Client)
    requires Losable(cfg, k) && ClientInv(cfg, c) && c.phase.Waiting?
    ensures AfterAck(cfg, c, Ack(DataPacket(cfg, k, k % cfg.channels))) == AfterAck(cfg, c, Ack(Stale(cfg, k)))
  {
    hide ClientInv, Total;
    var last := Total(cfg) - 1;
    Loops.LoopRegisters(cfg, c);
    OffStrict(cfg, k, last);
    OffStrict(cfg, k - cfg.channels, last);
  }

  /** Which packet's acknowledgement is read, and what it does to the count. */
  lemma ReadIndex(cfg: Config, s: State) returns (m: nat)
    requires QuietInv(cfg, s) && Enabled(cfg, s, Read) && s.client.phase.Waiting?
    ensures var c, i := s.client, s.client.phase.i;
      && Polled(c) == i && m == Acked(cfg, c) && m % cfg.channels == i
      && Acked(cfg, Next(cfg, s, Read).client) == m + 1
      && c.tmp[i] == DataPacket(cfg, m, i) && s.up[i] == [] && s.down[i] == [Ack(DataPacket(cfg, m, i))]
  {
    hide Registers, Total, DataPacket, ServerInv, NetInv, SentInv;
    AckIsForOutstanding(cfg, s);
    AckQuietPhase(cfg, s);
    m := Acked(cfg, s.client);
    RoundRobin(cfg, Base(cfg, s.client), s.client.phase.i);
  }

  lemma ReadMirrors(cfg: Config, k: nat, s: State, t: State) returns (more: seq<Action>)
    requires Losable(cfg, k) && QuietInv(cfg, s) && Mirrors(cfg, k, s, t) && Enabled(cfg, s, Read)
    ensures var early := Acked(cfg, s.client) == k - cfg.channels && s.client.phase.Waiting?;
      && more == (if early then [Expire, Read] else [Read])
      && (early ==> Acked(cfg, Next(cfg, s, Read).client) == k - cfg.channels + 1)
      && (!early ==> (Acked(cfg, Next(cfg, s, Read).client) > k - cfg.channels <==> Acked(cfg, s.client) > k - cfg.channels))
    ensures |more| == 1 ==> Enabled(cfg, t, Read) && Mirrors(cfg, k, Next(cfg, s, Read), Next(cfg, t, Read))
    ensures |more| == 2 ==>
      && Enabled(cfg, t, Expire) && Enabled(cfg, Next(cfg, t, Expire), Read)
      && Mirrors(cfg, k, Next(cfg, s, Read), Next(cfg, Next(cfg, t, Expire), Read))
  {
    hide QuietInv, Mirrors, Next, Acked, DataPacket, AfterAck, Total;
    var n, i := cfg.channels, k % cfg.channels;
    if s.client.phase.Waiting? {
      var m := ReadIndex(cfg, s);
      StaleResidue(cfg, k);
      if m == k - n {
        more := [Expire, Read];
        ReadEarly(cfg, k, s, t);
      } else {
        more := [Read];
        if m == k {
          QuietIsInv(cfg, s);
          SameEffect(cfg, k, s.client);
          ReadStale(cfg, k, s, t);
        } else {
          if m % n == i && k - n < m < k + n {
            SameResidue(cfg, m, k);
          }
          ReadSame(cfg, k, s, t);
        }
      }
    } else {
      more := [Read];
      FinReadCounts(cfg, k, s);
      ReadSame(cfg, k, s, t);
    }
  }

  lemma StaleResidue(cfg: Config, k: nat)
    requires Losable(cfg, k)
    ensures (k - cfg.channels) % cfg.channels == k % cfg.channels
  {
    var n := cfg.channels;
    var q, r := k / n, k % n;
    assert k - n == (q - 1) * n + r;
    DivModUnique(k - n, n, q - 1, r);
  }

  lemma FinReadCounts(cfg: Config, k: nat, s: State)
    requires Losable(cfg, k) && QuietInv(cfg, s) && Enabled(cfg, s, Read) && s.client.phase.FinWait?
    ensures !Between(cfg, k, s.client) && !Between(cfg, k, Next(cfg, s, Read).client)
    ensures Acked(cfg, s.client) == Acked(cfg, Next(cfg, s, Read).client) == Total(cfg)
  {
    hide ClientInv;
    QuietIsInv(cfg, s);
    DoneKeepsClient(cfg, s.client);
    NotBetween(cfg, k, s.client);
    NotBetween(cfg, k, s.client.(phase := Done));
  }

  // the whole run

  /** The lossy run has come as far as s, with the one timeout in it once its moment has passed. */
  ghost predicate Accompanies(cfg: Config, k: nat, s: State, lossy: seq<Action>)
    requires Losable(cfg, k)
  {
    && Exec(cfg, lossy).At? && Mirrors(cfg, k, s, Exec(cfg, lossy).s)
    && Expiries(lossy) == if Acked(cfg, s.client) > k - cfg.channels then 1 else 0
  }

  lemma OneAction(cfg: Config, lossy: seq<Action>, a: Action)
    requires cfg.Valid() && Exec(cfg, lossy).At? && Enabled(cfg, Exec(cfg, lossy).s, a)
    ensures Exec(cfg, lossy + [a]) == At(Next(cfg, Exec(cfg, lossy).s, a))
    ensures Expiries(lossy + [a]) == Expiries(lossy) + if a.Expire? then 1 else 0
  {
    hide Exec, Next, Enabled;
    ExecSnoc(cfg, lossy, a);
    ExpiriesSnoc(lossy, a);
  }

  lemma TwoActions(cfg: Config, lossy: seq<Action>, a: Action, b: Action)
    requires cfg.Valid() && Exec(cfg, lossy).At? && Enabled(cfg, Exec(cfg, lossy).s, a)
    requires Enabled(cfg, Next(cfg, Exec(cfg, lossy).s, a), b)
    ensures Exec(cfg, lossy + [a, b]) == At(Next(cfg, Next(cfg, Exec(cfg, lossy).s, a), b))
    ensures Expiries(lossy + [a, b]) == Expiries(lossy) + (if a.Expire? then 1 else 0) + if b.Expire? then 1 else 0
  {
    hide Exec, Next, Enabled, Expiries;
    OneAction(cfg, lossy, a);
    OneAction(cfg, lossy + [a], b);
    assert lossy + [a, b] == lossy + [a] + [b];
  }

  lemma AckedKept(cfg: Config, s: State, a: Action)
    requires QuietInv(cfg, s) && Enabled(cfg, s, a) && !a.Read?
    ensures Acked(cfg, Next(cfg, s, a).client) == Acked(cfg, s.client)
  {
    hide ClientInv, ChannelsInv, DeliveredUpTo, SendChunk, Serve;
    if a.Send? {
      SendFacts(cfg, s.client);
    }
  }

  lemma Accompany(cfg: Config, k: nat, s: State, a: Action, lossy: seq<Action>) returns (more: seq<Action>)
    requires Losable(cfg, k) && QuietInv(cfg, s) && Accompanies(cfg, k, s, lossy)
    requires Enabled(cfg, s, a) && !a.Drop? && !a.Expire?
    ensures Accompanies(cfg, k, Next(cfg, s, a), lossy + more)
  {
    hide QuietInv, Mirrors, Exec, Next, Enabled, Acked, Expiries, Losable;
    var t := Exec(cfg, lossy).s;
    more := [a];
    match a
    case Send =>
      SendMirrors(cfg, k, s, t);
      AckedKept(cfg, s, a);
      OneAction(cfg, lossy, a);
    case Fin =>
      FinMirrors(cfg, k, s, t);
      AckedKept(cfg, s, a);
      OneAction(cfg, lossy, a);
    case Exit =>
      ExitMirrors(cfg, k, s, t);
      AckedKept(cfg, s, a);
      OneAction(cfg, lossy, a);
    case Accept(i) =>
      more := AcceptMirrors(cfg, k, s, t, i);
      AckedKept(cfg, s, a);
      if |more| == 1 {
        OneAction(cfg, lossy, a);
      } else {
        TwoActions(cfg, lossy, a, Drop(i));
      }
    case Read =>
      more := ReadMirrors(cfg, k, s, t);
      if |more| == 1 {
        OneAction(cfg, lossy, Read);
      } else {
        TwoActions(cfg, lossy, Expire, Read);
      }
  }

  lemma InitAccompanied(cfg: Config, k: nat)
    requires Losable(cfg, k)
    ensures Accompanies(cfg, k, Init(cfg), [])
  {
    assert Acked(cfg, InitClient(cfg)) == 0;
    forall j: nat | j < cfg.channels
      ensures Shadows(cfg, k, Init(cfg), Init(cfg), j)
    {
    }
  }

  lemma {:induction false} Lossy(cfg: Config, k: nat, actions: seq<Action>) returns (lossy: seq<Action>)
    requires Losable(cfg, k) && Smooth(actions) && PatientRun(cfg, actions)
    ensures Accompanies(cfg, k, Exec(cfg, actions).s, lossy)
  {
    hide Accompanies, QuietInv, Next, Enabled, Patient, Losable;
    if actions == [] {
      InitAccompanied(cfg, k);
      lossy := [];
    } else {
      var front, a := actions[..|actions| - 1], actions[|actions| - 1];
      lossy := Lossy(cfg, k, front);
      PatientRunInv(cfg, front);
      var more := Accompany(cfg, k, Exec(cfg, front).s, a, lossy);
      lossy := lossy + more;
    }
  }

  /** For every packet outside the first batch but the last there is a run with a single timeout in
      which the server exits without having written it. */
  lemma PacketLost(cfg: Config, k: nat) returns (lossy: seq<Action>)
    requires Losable(cfg, k)
    ensures Exec(cfg, lossy).At? && Expiries(lossy) <= 1
    ensures Exec(cfg, lossy).s.server.exited && ChunkWrite(cfg, k) !in Exec(cfg, lossy).s.log
  {
    hide Exec, PatientRun, Smooth, Total, Shadows, ChunkWrite;
    var actions := SmoothRun(cfg);
    lossy := Lossy(cfg, k, actions);
  }
}

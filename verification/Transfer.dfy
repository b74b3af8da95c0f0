/** A whole transfer: the client's connection_loop and the server's service loop, joined by channels
    that keep the order of their packets. */
module Transfer {
  import opened Payload
  import opened Reassembly
  import opened Protocol
  import opened Safety
  import opened StopAndWait
  import opened PollBudget
  import opened Traces
  import opened Loops
  import opened ClientSide
  import opened ServerSide

  /** The events of the two ends can be interleaved in the order `steps` over such channels. */
  ghost predicate Explains(cfg: Config, steps: seq<Step>, trace: seq<ClientEvent>, arrivals: seq<Arrival>)
    requires cfg.Valid()
  {
    Coherent(cfg, steps) && ClientPart(steps) == trace && ServerPart(steps) == arrivals
  }

  // ---------------------------------------------------------------------
  // What the server has written
  // ---------------------------------------------------------------------

  lemma AcceptedSnoc(arrivals: seq<Arrival>, a: Arrival)
    ensures Accepted(arrivals + [a])
            == Accepted(arrivals) + if a.drop || a.packet.header.isLast then [] else [WriteOf(a.packet)]
  {
    hide WriteOf;
    assert (arrivals + [a])[..|arrivals|] == arrivals;
  }

  lemma LogStep(cfg: Config, s: State, x: Step)
    requires Shape(cfg, s) && Enabled(cfg, s, ActionOf(x))
    requires x.ServerStep? ==> x.a.ch < cfg.channels && s.up[x.a.ch] != [] && s.up[x.a.ch][0] == x.a.packet
    ensures Next(cfg, s, ActionOf(x)).log
            == s.log + if x.ServerStep? && !x.a.drop && !x.a.packet.header.isLast then [WriteOf(x.a.packet)] else []
  {
    hide SendChunk, AfterAck, Serve, WriteOf, FinPacket, Outstanding;
  }

  lemma ServedHead(cfg: Config, steps: seq<Step>, s: State, x: Step)
    requires cfg.Valid() && Combines(cfg, steps, s) && Coherent(cfg, steps + [x]) && x.ServerStep?
    ensures x.a.ch < cfg.channels && s.up[x.a.ch] != [] && s.up[x.a.ch][0] == x.a.packet
  {
    hide ClientRun, ClientPart, ServerPart, Exited, Queues, ServeAll, Written, Arrived, Answered, ReadBack, Combines;
    assert (steps + [x])[..|steps|] == steps;
    PartsSnoc(steps, x);
    ArrivalIsHead(cfg, steps, s, x.a);
  }

  /** The machine's history of writes is that of the data packets the server accepted. */
  lemma {:induction false} LogIsAccepted(cfg: Config, steps: seq<Step>)
    requires cfg.Valid() && Coherent(cfg, steps)
    ensures Exec(cfg, Actions(steps)).At? && Exec(cfg, Actions(steps)).s.log == Accepted(ServerPart(steps))
  {
    hide Combines, Exec, Actions, ActionOf, Enabled, Next, Fifo, ClientRun, ServeAll, Accepted, ServerPart;
    EndsFormARun(cfg, steps);
    if steps == [] {
      LogStart(cfg);
    } else {
      var front, x := steps[..|steps| - 1], steps[|steps| - 1];
      assert steps == front + [x];
      LogIsAccepted(cfg, front);
      EndsFormARun(cfg, front);
      var s := Exec(cfg, Actions(front)).s;
      StepCombines(cfg, front, s, x);
      PartsSnoc(front, x);
      ExecSnoc(cfg, Actions(front), ActionOf(x));
      if x.ServerStep? {
        ServedHead(cfg, front, s, x);
        AcceptedSnoc(ServerPart(front), x.a);
      }
      LogStep(cfg, s, x);
    }
  }

  lemma LogStart(cfg: Config)
    requires cfg.Valid()
    ensures Exec(cfg, Actions([])) == At(Init(cfg)) && Init(cfg).log == Accepted(ServerPart([]))
  {
    assert Actions([]) == [];
  }

  /** However the ends are interleaved, each byte of the file is the stream's, or a hole that none of
      the accepted packets has reached. */
  lemma EndsNeverWrong(cfg: Config, steps: seq<Step>)
    requires cfg.Valid() && Coherent(cfg, steps)
    ensures var arrivals := ServerPart(steps);
      && Drawn(Stream(cfg), Accepted(arrivals))
      && Describes(Stream(cfg), Accepted(arrivals), ServeAll(InitServer(), arrivals).file)
  {
    hide Coherent, Stream, Exec, ClientRun, Queues, Drawn, Describes, Accepted, ServerPart;
    EndsFormARun(cfg, steps);
    LogIsAccepted(cfg, steps);
    NeverAWrongByte(cfg, Actions(steps));
  }

  /** However the ends are interleaved: if no poll expires on a channel that is in use, an accepted
      FIN means that everything has been delivered. */
  lemma EndsDeliver(cfg: Config, steps: seq<Step>)
    requires cfg.Valid() && Coherent(cfg, steps) && PatientRun(cfg, Actions(steps))
    requires ServeAll(InitServer(), ServerPart(steps)).finSeen
    ensures var sv := ServeAll(InitServer(), ServerPart(steps));
      sv.file == Stream(cfg) && sv.lastSeq == |Stream(cfg)|
  {
    hide Coherent, Stream, Exec, ClientRun, Queues, PatientRun, Transparent;
    EndsFormARun(cfg, steps);
    EndToEnd(cfg, Actions(steps));
  }

  /** In particular when every round trip takes at most TIMEOUT. */
  lemma TimelyEndsDeliver(cfg: Config, steps: seq<Step>, events: seq<Event>, rtt: nat)
    requires cfg.Valid() && Coherent(cfg, steps) && Untimed(events) == Actions(steps)
    requires TimelyRun(cfg, events, rtt) && rtt <= TIMEOUT
    requires ServeAll(InitServer(), ServerPart(steps)).finSeen
    ensures var sv := ServeAll(InitServer(), ServerPart(steps));
      sv.file == Stream(cfg) && sv.lastSeq == |Stream(cfg)|
  {
    hide Coherent, Stream, PatientRun, TimelyRun;
    TimelyRunsArePatient(cfg, events, rtt);
    EndsDeliver(cfg, steps);
  }

  // ---------------------------------------------------------------------
  // Every completed run is a transfer
  // ---------------------------------------------------------------------

  lemma ReadIsSound(cfg: Config, steps: seq<Step>, x: Step)
    requires cfg.Valid() && Coherent(cfg, steps) && Coherent(cfg, steps + [x]) && x.ClientStep? && x.e.CRead?
    ensures SoundPacket(x.e.packet)
  {
    hide ClientRun, ClientPart, ServerPart, Exited, Queues, ServeAll, Written, Arrived, Answered, ReadBack, Exec, Good,
      ClientInv, SentInv, ServerInv, Conserved;
    var e, trace := x.e, ClientPart(steps);
    EndsFormARun(cfg, steps);
    var s := Exec(cfg, Actions(steps)).s;
    RunInv(cfg, Actions(steps));
    assert (steps + [x])[..|steps|] == steps;
    PartsSnoc(steps, x);
    ClientStepTaken(cfg, trace, e);
    ReadIsHead(cfg, steps, s, e);
    assert AllGood(cfg, s.client, s.down[e.ch]) && s.down[e.ch][0] in s.down[e.ch];
    GoodNumber(cfg, s.client, e.packet);
  }

  /** Over order-keeping channels the client never reads the sentinel. */
  lemma {:induction false} CoherentIsSound(cfg: Config, steps: seq<Step>)
    requires cfg.Valid() && Coherent(cfg, steps)
    ensures SoundTrace(ClientPart(steps))
  {
    hide ClientRun, ServeAll, Fifo;
    if steps != [] {
      var front, x := steps[..|steps| - 1], steps[|steps| - 1];
      assert steps == front + [x];
      CoherentIsSound(cfg, front);
      if x.ClientStep? && x.e.CRead? {
        ReadIsSound(cfg, front, x);
      }
    }
  }

  lemma FlatOne(arrivals: seq<Arrival>)
    ensures Flat([arrivals]) == arrivals
  {
    assert [arrivals][..0] == [];
  }

  /** Every run of the machine in which the client has returned is an interleaving of the two loops,
      each against some environment. */
  lemma CompletedIsTransfer(cfg: Config, actions: seq<Action>)
    returns (steps: seq<Step>, rounds: seq<seq<Answer>>, finExpiries: nat, finAck: Packet, sweeps: seq<seq<Arrival>>)
    requires cfg.Valid() && Exec(cfg, actions).At? && Exec(cfg, actions).s.client.phase.Done?
    ensures Actions(steps) == actions && SoundRounds(cfg, rounds) && Rounds(cfg, rounds).closed
    ensures Explains(cfg, steps, LoopTrace(cfg, rounds, finExpiries, finAck), Flat(sweeps))
  {
    hide Coherent, Exec, ClientRun, Queues, Rounds, Actions, Flat;
    steps := RunsSplit(cfg, actions);
    EndsFormARun(cfg, steps);
    CoherentIsSound(cfg, steps);
    rounds, finExpiries, finAck := FinishedIsLoop(cfg, ClientPart(steps));
    sweeps := [ServerPart(steps)];
    FlatOne(ServerPart(steps));
  }

  // ---------------------------------------------------------------------
  // The two loops
  // ---------------------------------------------------------------------

  /** Both loops, each against its own environment.  Whatever interleaving over order-keeping channels
      explains what they did, no wrong byte has been written; and if timeouts fired on idle
      channels only and the server has seen FIN, the output file is the stream. */
  method Run(sender: Sender, receiver: Receiver, rounds: seq<seq<Answer>>, finExpiries: nat, finAck: Packet,
             sweeps: seq<seq<Arrival>>)
    returns (done: bool, n: nat)
    requires sender.Valid() && sender.timeout == TIMEOUT && sender.journal == []
    requires sender.Abs(Sending(0)) == InitClient(sender.cfg)
    requires SoundRounds(sender.cfg, rounds)
    requires receiver.Abs() == InitServer()
    modifies sender, sender.fp, sender.buffer, sender.tmp, receiver, receiver.fp
    ensures sender.cfg.Valid() && done == Rounds(sender.cfg, rounds).closed
    ensures ClientRun(sender.cfg, LoopTrace(sender.cfg, rounds, finExpiries, finAck))
            == CAt(if done then sender.Abs(Done).(seqNo := StreamLength(sender.cfg)) else sender.Abs(sender.AtLoop()),
                   sender.journal)
    ensures n <= |sweeps| && (n < |sweeps| ==> receiver.isLast)
    ensures receiver.Abs() == ServeAll(InitServer(), Flat(sweeps[..n]))
    ensures forall steps ::
      Explains(sender.cfg, steps, LoopTrace(sender.cfg, rounds, finExpiries, finAck), Flat(sweeps[..n])) ==>
        Describes(Stream(sender.cfg), Accepted(Flat(sweeps[..n])), receiver.fp.data)
    ensures forall steps ::
      && Explains(sender.cfg, steps, LoopTrace(sender.cfg, rounds, finExpiries, finAck), Flat(sweeps[..n]))
      && PatientRun(sender.cfg, Actions(steps)) && receiver.isLast ==>
        receiver.fp.data == Stream(sender.cfg) && receiver.lastSeq == |Stream(sender.cfg)|
  {
    hide Coherent, ClientRun, PatientRun, Stream, ServeAll, Actions, Flat, Accepted, FinArrived, WriteAll, Rounds, LoopTrace,
      Describes, SoundRounds, DataJournal;
    ghost var cfg := sender.cfg;
    ghost var data;
    done, data := sender.ConnectionLoop(rounds, finExpiries, finAck);
    n := receiver.ServiceLoop(sweeps);
    ghost var trace, arrivals := LoopTrace(cfg, rounds, finExpiries, finAck), Flat(sweeps[..n]);
    forall steps | Explains(cfg, steps, trace, arrivals)
      ensures Describes(Stream(cfg), Accepted(arrivals), receiver.fp.data)
    {
      EndsNeverWrong(cfg, steps);
    }
    forall steps | Explains(cfg, steps, trace, arrivals) && PatientRun(cfg, Actions(steps)) && receiver.isLast
      ensures receiver.fp.data == Stream(cfg) && receiver.lastSeq == |Stream(cfg)|
    {
      EndsDeliver(cfg, steps);
    }
  }
}

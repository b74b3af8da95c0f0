/** What each end does on its own, and why the two ends, joined by channels that keep the order of
    their packets, behave exactly like the state machine of module Protocol. */
module Traces {
  import opened Payload
  import opened Protocol

  // ---------------------------------------------------------------------
  // The client alone
  // ---------------------------------------------------------------------

  /** One write() on the socket of a channel. */
  datatype Sent = Sent(channel: nat, packet: Packet)

  /** Sending a chunk, a poll that expires, a packet read from a channel, sending FIN. */
  datatype ClientEvent = CSend | CExpire | CRead(ch: nat, packet: Packet) | CFin

  ghost predicate ClientShape(cfg: Config, c: Client) {
    && cfg.Valid() && |c.tmp| == cfg.channels && c.pos <= |cfg.input|
    && (c.phase.Sending? ==> c.phase.i < cfg.channels)
    && (c.phase.Waiting? ==> c.phase.i < cfg.channels)
  }

  predicate Can(c: Client, e: ClientEvent) {
    match e
    case CSend => c.phase.Sending?
    case CExpire => Polling(c)
    case CRead(ch, _) => Polling(c) && ch == Polled(c)
    case CFin => c.phase.SendFin?
  }

  /** The client after an event, and what it writes. */
  ghost function After(cfg: Config, c: Client, e: ClientEvent): (r: (Client, seq<Sent>))
    requires ClientShape(cfg, c) && Can(c, e)
    ensures ClientShape(cfg, r.0)
  {
    match e
    case CSend => var r := SendChunk(cfg, c); (r.0, [Sent(c.phase.i, r.1)])
    case CExpire => (c, [Sent(Polled(c), Outstanding(cfg, c))])
    case CRead(_, p) => (if c.phase.Waiting? then AfterAck(cfg, c, p) else c.(phase := Done), [])
    case CFin => (c.(phase := FinWait), [Sent(0, FinPacket(cfg, c))])
  }

  datatype ClientState = CStuck | CAt(c: Client, journal: seq<Sent>)

  /** The client's variables and its writes after a trace of events. */
  ghost function ClientRun(cfg: Config, trace: seq<ClientEvent>): (r: ClientState)
    requires cfg.Valid()
    ensures r.CAt? ==> ClientShape(cfg, r.c)
  {
    if trace == [] then CAt(InitClient(cfg), [])
    else
      var r, e := ClientRun(cfg, trace[..|trace| - 1]), trace[|trace| - 1];
      if r.CAt? && Can(r.c, e) then var n := After(cfg, r.c, e); CAt(n.0, r.journal + n.1) else CStuck
  }

  lemma ClientStepTaken(cfg: Config, trace: seq<ClientEvent>, e: ClientEvent)
    requires cfg.Valid() && ClientRun(cfg, trace).CAt?
    ensures var r := ClientRun(cfg, trace);
      ClientRun(cfg, trace + [e])
      == if Can(r.c, e) then CAt(After(cfg, r.c, e).0, r.journal + After(cfg, r.c, e).1) else CStuck
  {
    hide After, Can;
    assert (trace + [e])[..|trace|] == trace;
  }

  // ---------------------------------------------------------------------
  // The server alone
  // ---------------------------------------------------------------------

  /** A packet the server reads from a channel, and whether it is dropped. */
  datatype Arrival = Arrival(ch: nat, packet: Packet, drop: bool)

  function InitServer(): Server {
    Server([], 0, false, false)
  }

  function ServeOne(sv: Server, a: Arrival): Server {
    if a.drop then sv else Serve(sv, a.packet)
  }

  /** The server after a number of arrivals. */
  function ServeAll(sv: Server, arrivals: seq<Arrival>): Server {
    if arrivals == [] then sv
    else ServeOne(ServeAll(sv, arrivals[..|arrivals| - 1]), arrivals[|arrivals| - 1])
  }

  lemma ServeAllSnoc(sv: Server, arrivals: seq<Arrival>, a: Arrival)
    ensures ServeAll(sv, arrivals + [a]) == ServeOne(ServeAll(sv, arrivals), a)
  {
    hide ServeOne;
    assert (arrivals + [a])[..|arrivals|] == arrivals;
  }

  // ---------------------------------------------------------------------
  // What has passed through a channel
  // ---------------------------------------------------------------------

  function Written(ch: nat, journal: seq<Sent>): seq<Packet> {
    if journal == [] then []
    else Written(ch, journal[..|journal| - 1]) + WrittenOne(ch, journal[|journal| - 1])
  }

  function WrittenOne(ch: nat, x: Sent): seq<Packet> {
    if x.channel == ch then [x.packet] else []
  }

  function Arrived(ch: nat, arrivals: seq<Arrival>): seq<Packet> {
    if arrivals == [] then []
    else Arrived(ch, arrivals[..|arrivals| - 1]) + ArrivedOne(ch, arrivals[|arrivals| - 1])
  }

  function ArrivedOne(ch: nat, a: Arrival): seq<Packet> {
    if a.ch == ch then [a.packet] else []
  }

  function Answered(ch: nat, arrivals: seq<Arrival>): seq<Packet> {
    if arrivals == [] then []
    else Answered(ch, arrivals[..|arrivals| - 1]) + AnsweredOne(ch, arrivals[|arrivals| - 1])
  }

  function AnsweredOne(ch: nat, a: Arrival): seq<Packet> {
    if a.ch == ch && !a.drop then [Ack(a.packet)] else []
  }

  function ReadBack(ch: nat, trace: seq<ClientEvent>): seq<Packet> {
    if trace == [] then []
    else ReadBack(ch, trace[..|trace| - 1]) + ReadBackOne(ch, trace[|trace| - 1])
  }

  function ReadBackOne(ch: nat, e: ClientEvent): seq<Packet> {
    if e.CRead? && e.ch == ch then [e.packet] else []
  }

  lemma WrittenAdd(ch: nat, journal: seq<Sent>, more: seq<Sent>)
    requires |more| <= 1
    ensures Written(ch, journal + more) == Written(ch, journal) + if more == [] then [] else WrittenOne(ch, more[0])
  {
    if more == [] {
      assert journal + more == journal;
    } else {
      assert (journal + more)[..|journal|] == journal;
    }
  }

  lemma ArrivedSnoc(ch: nat, arrivals: seq<Arrival>, a: Arrival)
    ensures Arrived(ch, arrivals + [a]) == Arrived(ch, arrivals) + ArrivedOne(ch, a)
    ensures Answered(ch, arrivals + [a]) == Answered(ch, arrivals) + AnsweredOne(ch, a)
  {
    assert (arrivals + [a])[..|arrivals|] == arrivals;
  }

  lemma ReadBackSnoc(ch: nat, trace: seq<ClientEvent>, e: ClientEvent)
    ensures ReadBack(ch, trace + [e]) == ReadBack(ch, trace) + ReadBackOne(ch, e)
  {
    assert (trace + [e])[..|trace|] == trace;
  }

  // ---------------------------------------------------------------------
  // Both ends together
  // ---------------------------------------------------------------------

  /** An interleaving of the events of the two ends. */
  datatype Step = ClientStep(e: ClientEvent) | ServerStep(a: Arrival) | ExitStep

  function ClientPart(steps: seq<Step>): seq<ClientEvent> {
    if steps == [] then []
    else
      var front, last := ClientPart(steps[..|steps| - 1]), steps[|steps| - 1];
      if last.ClientStep? then front + [last.e] else front
  }

  function ServerPart(steps: seq<Step>): seq<Arrival> {
    if steps == [] then []
    else
      var front, last := ServerPart(steps[..|steps| - 1]), steps[|steps| - 1];
      if last.ServerStep? then front + [last.a] else front
  }

  ghost predicate Exited(steps: seq<Step>) {
    ExitStep in steps
  }

  function ActionOf(step: Step): Action {
    match step
    case ClientStep(CSend) => Send
    case ClientStep(CExpire) => Expire
    case ClientStep(CRead(_, _)) => Read
    case ClientStep(CFin) => Fin
    case ServerStep(a) => if a.drop then Drop(a.ch) else Accept(a.ch)
    case ExitStep => Exit
  }

  function Actions(steps: seq<Step>): (r: seq<Action>)
    ensures |r| == |steps|
  {
    seq(|steps|, i requires 0 <= i < |steps| => ActionOf(steps[i]))
  }

  /** Each channel hands over, in order, what has been put in: the server has read a prefix of what
      the client wrote, and the client a prefix of what the server answered. */
  ghost predicate Fifo(cfg: Config, journal: seq<Sent>, trace: seq<ClientEvent>, arrivals: seq<Arrival>) {
    forall ch: nat :: ch < cfg.channels ==>
      Arrived(ch, arrivals) <= Written(ch, journal) && ReadBack(ch, trace) <= Answered(ch, arrivals)
  }

  /** Both ends follow their own code at every moment, the channels keep the order, and the server
      serves until it exits, which it does only after a FIN. */
  ghost predicate Coherent(cfg: Config, steps: seq<Step>)
    requires cfg.Valid()
  {
    steps == [] ||
    var front, last := steps[..|steps| - 1], steps[|steps| - 1];
    var r := ClientRun(cfg, ClientPart(steps));
    && Coherent(cfg, front)
    && r.CAt? && Fifo(cfg, r.journal, ClientPart(steps), ServerPart(steps))
    && (last.ServerStep? ==> !Exited(front) && last.a.ch < cfg.channels)
    && (last.ExitStep? ==> !Exited(front) && ServeAll(InitServer(), ServerPart(front)).finSeen)
  }

  /** The machine's state s is the combination of the two ends, its queues being what has been put
      into a channel and not taken out. */
  ghost predicate Combines(cfg: Config, steps: seq<Step>, s: State)
    requires cfg.Valid()
  {
    var trace, arrivals := ClientPart(steps), ServerPart(steps);
    var r := ClientRun(cfg, trace);
    && Shape(cfg, s) && r.CAt? && s.client == r.c
    && s.server == ServeAll(InitServer(), arrivals).(exited := Exited(steps))
    && forall ch: nat :: ch < cfg.channels ==> Queues(s, ch, r.journal, trace, arrivals)
  }

  ghost predicate Queues(s: State, ch: nat, journal: seq<Sent>, trace: seq<ClientEvent>, arrivals: seq<Arrival>)
    requires ch < |s.up| && ch < |s.down|
  {
    && Written(ch, journal) == Arrived(ch, arrivals) + s.up[ch]
    && Answered(ch, arrivals) == ReadBack(ch, trace) + s.down[ch]
  }

  lemma PartsSnoc(steps: seq<Step>, x: Step)
    ensures ClientPart(steps + [x]) == if x.ClientStep? then ClientPart(steps) + [x.e] else ClientPart(steps)
    ensures ServerPart(steps + [x]) == if x.ServerStep? then ServerPart(steps) + [x.a] else ServerPart(steps)
    ensures Exited(steps + [x]) == (Exited(steps) || x.ExitStep?)
    ensures Actions(steps + [x]) == Actions(steps) + [ActionOf(x)]
  {
    hide ActionOf;
    assert (steps + [x])[..|steps|] == steps;
  }

  lemma NextIn<T>(a: seq<T>, x: T, b: seq<T>)
    requires a + [x] <= a + b
    ensures b != [] && b[0] == x && a + b == a + [x] + b[1..]
  {
    assert (a + b)[|a|] == (a + [x])[|a|] == x;
  }

  /** The machine takes the client's step. */
  lemma NextOfClient(cfg: Config, s: State, e: ClientEvent)
    requires Shape(cfg, s) && ClientShape(cfg, s.client) && Can(s.client, e)
    requires e.CRead? ==> s.down[e.ch] != [] && s.down[e.ch][0] == e.packet
    ensures var a, n := ActionOf(ClientStep(e)), After(cfg, s.client, e);
      && Enabled(cfg, s, a)
      && var t := Next(cfg, s, a);
      && t.client == n.0 && t.server == s.server && |n.1| <= 1
      && forall ch: nat :: ch < cfg.channels ==>
           && t.up[ch] == s.up[ch] + (if n.1 == [] then [] else WrittenOne(ch, n.1[0]))
           && t.down[ch] == if ReadBackOne(ch, e) == [] then s.down[ch] else s.down[ch][1..]
  {
    hide SendChunk, AfterAck, FinPacket, Outstanding;
  }

  /** The machine takes the server's step. */
  lemma NextOfServer(cfg: Config, s: State, x: Arrival)
    requires Shape(cfg, s) && x.ch < cfg.channels && !s.server.exited
    requires s.up[x.ch] != [] && s.up[x.ch][0] == x.packet
    ensures var a := ActionOf(ServerStep(x));
      && Enabled(cfg, s, a)
      && var t := Next(cfg, s, a);
      && t.client == s.client && t.server == ServeOne(s.server, x)
      && forall ch: nat :: ch < cfg.channels ==>
           && t.up[ch] == (if ch == x.ch then s.up[ch][1..] else s.up[ch])
           && t.down[ch] == s.down[ch] + AnsweredOne(ch, x)
  {
    hide Serve;
  }

  lemma ServeCommutes(sv: Server, x: Arrival, exited: bool)
    ensures ServeOne(sv.(exited := exited), x) == ServeOne(sv, x).(exited := exited)
  {
  }

  lemma QueuesAfterClient(s: State, t: State, ch: nat, journal: seq<Sent>, more: seq<Sent>,
                          trace: seq<ClientEvent>, e: ClientEvent, arrivals: seq<Arrival>)
    requires ch < |s.up| && ch < |s.down| && ch < |t.up| && ch < |t.down| && |more| <= 1
    requires Queues(s, ch, journal, trace, arrivals)
    requires e.CRead? && e.ch == ch ==> s.down[ch] != [] && s.down[ch][0] == e.packet
    requires t.up[ch] == s.up[ch] + (if more == [] then [] else WrittenOne(ch, more[0]))
    requires t.down[ch] == if ReadBackOne(ch, e) == [] then s.down[ch] else s.down[ch][1..]
    ensures Queues(t, ch, journal + more, trace + [e], arrivals)
  {
    hide Written, Arrived, Answered, ReadBack;
    WrittenAdd(ch, journal, more);
    ReadBackSnoc(ch, trace, e);
  }

  lemma QueuesAfterServer(s: State, t: State, ch: nat, journal: seq<Sent>, trace: seq<ClientEvent>,
                          arrivals: seq<Arrival>, a: Arrival)
    requires ch < |s.up| && ch < |s.down| && ch < |t.up| && ch < |t.down|
    requires Queues(s, ch, journal, trace, arrivals)
    requires ch == a.ch ==> s.up[ch] != [] && s.up[ch][0] == a.packet
    requires t.up[ch] == (if ch == a.ch then s.up[ch][1..] else s.up[ch])
    requires t.down[ch] == s.down[ch] + AnsweredOne(ch, a)
    ensures Queues(t, ch, journal, trace, arrivals + [a])
  {
    hide Written, Arrived, Answered, ReadBack;
    ArrivedSnoc(ch, arrivals, a);
  }

  lemma ClientCombines(cfg: Config, steps: seq<Step>, s: State, e: ClientEvent)
    requires cfg.Valid() && Combines(cfg, steps, s) && Can(s.client, e)
    requires e.CRead? ==> s.down[e.ch] != [] && s.down[e.ch][0] == e.packet
    ensures Enabled(cfg, s, ActionOf(ClientStep(e)))
    ensures Combines(cfg, steps + [ClientStep(e)], Next(cfg, s, ActionOf(ClientStep(e))))
  {
    hide ClientRun, ClientPart, ServerPart, Exited, Next, Enabled, After, Queues, ServeAll, ActionOf, Can, WrittenOne,
      ReadBackOne;
    var trace, arrivals := ClientPart(steps), ServerPart(steps);
    var r := ClientRun(cfg, trace);
    NextOfClient(cfg, s, e);
    PartsSnoc(steps, ClientStep(e));
    ClientStepTaken(cfg, trace, e);
    var t, more := Next(cfg, s, ActionOf(ClientStep(e))), After(cfg, s.client, e).1;
    forall ch: nat | ch < cfg.channels
      ensures Queues(t, ch, r.journal + more, trace + [e], arrivals)
    {
      assert Queues(s, ch, r.journal, trace, arrivals);
      QueuesAfterClient(s, t, ch, r.journal, more, trace, e, arrivals);
    }
  }

  lemma ServerCombines(cfg: Config, steps: seq<Step>, s: State, a: Arrival)
    requires cfg.Valid() && Combines(cfg, steps, s) && a.ch < cfg.channels && !Exited(steps)
    requires s.up[a.ch] != [] && s.up[a.ch][0] == a.packet
    ensures Enabled(cfg, s, ActionOf(ServerStep(a)))
    ensures Combines(cfg, steps + [ServerStep(a)], Next(cfg, s, ActionOf(ServerStep(a))))
  {
    hide ClientRun, ClientPart, ServerPart, Exited, Next, Enabled, Queues, ServeAll, ServeOne, ActionOf, AnsweredOne;
    var trace, arrivals := ClientPart(steps), ServerPart(steps);
    var r := ClientRun(cfg, trace);
    NextOfServer(cfg, s, a);
    PartsSnoc(steps, ServerStep(a));
    ServeAllSnoc(InitServer(), arrivals, a);
    ServeCommutes(ServeAll(InitServer(), arrivals), a, false);
    var t := Next(cfg, s, ActionOf(ServerStep(a)));
    forall ch: nat | ch < cfg.channels
      ensures Queues(t, ch, r.journal, trace, arrivals + [a])
    {
      assert Queues(s, ch, r.journal, trace, arrivals);
      QueuesAfterServer(s, t, ch, r.journal, trace, arrivals, a);
    }
  }

  lemma ExitCombines(cfg: Config, steps: seq<Step>, s: State)
    requires cfg.Valid() && Combines(cfg, steps, s) && !Exited(steps) && s.server.finSeen
    ensures Enabled(cfg, s, Exit) && Combines(cfg, steps + [ExitStep], Next(cfg, s, Exit))
  {
    hide ClientRun, ClientPart, ServerPart, ServeAll, Written, Arrived, Answered, ReadBack;
    PartsSnoc(steps, ExitStep);
    var r := ClientRun(cfg, ClientPart(steps));
    forall ch: nat | ch < cfg.channels
      ensures Queues(Next(cfg, s, Exit), ch, r.journal, ClientPart(steps), ServerPart(steps))
    {
      assert Queues(s, ch, r.journal, ClientPart(steps), ServerPart(steps));
    }
  }

  lemma CombinedIsFifo(cfg: Config, steps: seq<Step>, s: State)
    requires cfg.Valid() && Combines(cfg, steps, s)
    ensures Fifo(cfg, ClientRun(cfg, ClientPart(steps)).journal, ClientPart(steps), ServerPart(steps))
  {
    hide ClientRun, ClientPart, ServerPart, ServeAll, Written, Arrived, Answered, ReadBack;
    var r := ClientRun(cfg, ClientPart(steps));
    forall ch: nat | ch < cfg.channels
      ensures Arrived(ch, ServerPart(steps)) <= Written(ch, r.journal)
      ensures ReadBack(ch, ClientPart(steps)) <= Answered(ch, ServerPart(steps))
    {
      assert Queues(s, ch, r.journal, ClientPart(steps), ServerPart(steps));
    }
  }

  /** A read that keeps the order takes the head of the queue. */
  lemma ReadIsHead(cfg: Config, steps: seq<Step>, s: State, e: ClientEvent)
    requires cfg.Valid() && Combines(cfg, steps, s) && e.CRead? && e.ch < cfg.channels
    requires ReadBack(e.ch, ClientPart(steps) + [e]) <= Answered(e.ch, ServerPart(steps))
    ensures s.down[e.ch] != [] && s.down[e.ch][0] == e.packet
  {
    hide ClientRun, ClientPart, ServerPart, ServeAll, Written, Arrived, Answered, ReadBack;
    var trace, arrivals := ClientPart(steps), ServerPart(steps);
    assert Queues(s, e.ch, ClientRun(cfg, trace).journal, trace, arrivals);
    ReadBackSnoc(e.ch, trace, e);
    NextIn(ReadBack(e.ch, trace), e.packet, s.down[e.ch]);
  }

  lemma ArrivalIsHead(cfg: Config, steps: seq<Step>, s: State, a: Arrival)
    requires cfg.Valid() && Combines(cfg, steps, s) && a.ch < cfg.channels
    requires Arrived(a.ch, ServerPart(steps) + [a]) <= Written(a.ch, ClientRun(cfg, ClientPart(steps)).journal)
    ensures s.up[a.ch] != [] && s.up[a.ch][0] == a.packet
  {
    hide ClientRun, ClientPart, ServerPart, ServeAll, Written, Arrived, Answered, ReadBack;
    var trace, arrivals := ClientPart(steps), ServerPart(steps);
    assert Queues(s, a.ch, ClientRun(cfg, trace).journal, trace, arrivals);
    ArrivedSnoc(a.ch, arrivals, a);
    NextIn(Arrived(a.ch, arrivals), a.packet, s.up[a.ch]);
  }

  lemma ExecSnoc(cfg: Config, actions: seq<Action>, a: Action)
    requires cfg.Valid() && Exec(cfg, actions).At? && Enabled(cfg, Exec(cfg, actions).s, a)
    ensures Exec(cfg, actions + [a]) == At(Next(cfg, Exec(cfg, actions).s, a))
  {
    hide Next, Enabled;
    assert (actions + [a])[..|actions|] == actions;
  }

  lemma InitCombines(cfg: Config)
    requires cfg.Valid()
    ensures Exec(cfg, Actions([])) == At(Init(cfg)) && Combines(cfg, [], Init(cfg))
  {
    hide InitClient;
    assert Actions([]) == [] && ClientPart([]) == [] && ServerPart([]) == [];
    assert ServeAll(InitServer(), []) == InitServer() && !Exited([]);
    forall ch: nat | ch < cfg.channels
      ensures Queues(Init(cfg), ch, [], [], [])
    {
    }
  }

  /** A coherent last step is one the machine can take. */
  lemma StepCombines(cfg: Config, steps: seq<Step>, s: State, x: Step)
    requires cfg.Valid() && Combines(cfg, steps, s) && Coherent(cfg, steps + [x])
    ensures Enabled(cfg, s, ActionOf(x)) && Combines(cfg, steps + [x], Next(cfg, s, ActionOf(x)))
  {
    hide ClientRun, ClientPart, ServerPart, Exited, Next, Enabled, Queues, ServeAll, ServeOne, Written, Arrived,
      Answered, ReadBack;
    var all := steps + [x];
    assert all[..|steps|] == steps;
    PartsSnoc(steps, x);
    var trace := ClientPart(steps);
    match x
    case ClientStep(e) =>
      ClientStepTaken(cfg, trace, e);
      if e.CRead? {
        assert e.ch < cfg.channels;
        ReadIsHead(cfg, steps, s, e);
      }
      ClientCombines(cfg, steps, s, e);
    case ServerStep(a) =>
      ArrivalIsHead(cfg, steps, s, a);
      ServerCombines(cfg, steps, s, a);
    case ExitStep =>
      ExitCombines(cfg, steps, s);
  }

  /** Refinement: two ends that follow their own code and are joined by channels that keep the
      order perform a run of the state machine, and its state is the combination of theirs. */
  lemma {:induction false} EndsFormARun(cfg: Config, steps: seq<Step>)
    requires cfg.Valid() && Coherent(cfg, steps)
    ensures Exec(cfg, Actions(steps)).At? && Combines(cfg, steps, Exec(cfg, Actions(steps)).s)
  {
    hide Combines, Exec, Actions, ActionOf, Enabled, Next, Fifo, ClientRun, ServeAll;
    if steps == [] {
      InitCombines(cfg);
    } else {
      var front, x := steps[..|steps| - 1], steps[|steps| - 1];
      assert steps == front + [x];
      EndsFormARun(cfg, front);
      StepCombines(cfg, front, Exec(cfg, Actions(front)).s, x);
      PartsSnoc(front, x);
      ExecSnoc(cfg, Actions(front), ActionOf(x));
    }
  }

  lemma CoherentSnoc(cfg: Config, steps: seq<Step>, x: Step, s: State, t: State)
    requires cfg.Valid() && Coherent(cfg, steps) && Combines(cfg, steps, s) && Combines(cfg, steps + [x], t)
    requires x.ServerStep? ==> !s.server.exited && x.a.ch < cfg.channels
    requires x.ExitStep? ==> !s.server.exited && s.server.finSeen
    ensures Coherent(cfg, steps + [x])
  {
    hide ClientRun, ClientPart, ServerPart, Exited, Queues, ServeAll, Fifo;
    assert (steps + [x])[..|steps|] == steps;
    CombinedIsFifo(cfg, steps + [x], t);
  }

  /** The step of the two ends behind an action of the machine. */
  lemma ActionSplits(cfg: Config, steps: seq<Step>, s: State, a: Action) returns (x: Step)
    requires cfg.Valid() && Coherent(cfg, steps) && Combines(cfg, steps, s) && Enabled(cfg, s, a)
    ensures ActionOf(x) == a && Coherent(cfg, steps + [x])
  {
    hide ClientRun, ClientPart, ServerPart, Exited, Next, Queues, ServeAll, Coherent;
    var i := Polled(s.client);
    match a {
      case Send => x := ClientStep(CSend);
      case Expire => x := ClientStep(CExpire);
      case Read => x := ClientStep(CRead(i, s.down[i][0]));
      case Fin => x := ClientStep(CFin);
      case Accept(ch) => x := ServerStep(Arrival(ch, s.up[ch][0], false));
      case Drop(ch) => x := ServerStep(Arrival(ch, s.up[ch][0], true));
      case Exit => x := ExitStep;
    }
    match x {
      case ClientStep(e) => ClientCombines(cfg, steps, s, e);
      case ServerStep(b) => ServerCombines(cfg, steps, s, b);
      case ExitStep => ExitCombines(cfg, steps, s);
    }
    CoherentSnoc(cfg, steps, x, s, Next(cfg, s, a));
  }

  /** Conversely, every run of the state machine is such an interleaving of the two ends. */
  lemma {:induction false} RunsSplit(cfg: Config, actions: seq<Action>) returns (steps: seq<Step>)
    requires cfg.Valid() && Exec(cfg, actions).At?
    ensures Coherent(cfg, steps) && Actions(steps) == actions
  {
    hide Combines, Enabled, Next, Coherent, ActionOf;
    if actions == [] {
      steps := [];
      assert Actions(steps) == [];
      CoherentStart(cfg);
    } else {
      var front, a := actions[..|actions| - 1], actions[|actions| - 1];
      steps := RunsSplit(cfg, front);
      EndsFormARun(cfg, steps);
      var x := ActionSplits(cfg, steps, Exec(cfg, front).s, a);
      PartsSnoc(steps, x);
      steps := steps + [x];
      assert actions == front + [a];
    }
  }

  lemma CoherentStart(cfg: Config)
    requires cfg.Valid()
    ensures Coherent(cfg, [])
  {
  }
}

/** Why the round-trip bound is needed: the client takes any acknowledgement for the one it is
    waiting for.  With round trips of more than TIMEOUT a run can end with an incomplete file. */
module Premature {
  import opened Payload
  import opened Reassembly
  import opened Protocol
  import opened PollBudget

  const TWO_BYTES := Config([7, 8], 1, 1)

  /** The data packet with number n and the given payload, as sent on the only channel. */
  function Data(n: nat, payload: seq<Byte>): Packet
    requires |payload| <= 1
  {
    Packet(Header(|payload|, n, false, false, 0), payload + Zeros(1 - |payload|))
  }

  // ---------------------------------------------------------------------
  // One-channel states
  // ---------------------------------------------------------------------

  /** The part of a state of the one-channel run that decides how it continues. */
  datatype Snap = Snap(phase: Phase, n: nat, eofSeq: nat, tmp: Packet,
                       up: seq<Packet>, down: seq<Packet>, file: seq<Byte>)

  ghost predicate Looks(s: State, x: Snap) {
    && Shape(TWO_BYTES, s)
    && s.client.phase == x.phase && s.client.seqNo == s.client.pos == x.n && s.client.eofSeq == x.eofSeq
    && s.client.tmp[0] == x.tmp && (s.client.lastPacket == -1 || s.client.lastPacket == 0)
    && (s.client.isEof <==> x.phase.SendFin? || x.phase.FinWait?)
    && s.up[0] == x.up && s.down[0] == x.down
    && s.server.file == x.file && !s.server.exited
  }

  ghost predicate Goes(s: State, a: Action, y: Snap) {
    Shape(TWO_BYTES, s) && Enabled(TWO_BYTES, s, a) && Looks(Next(TWO_BYTES, s, a), y)
  }

  function Payload1(n: nat): (p: seq<Byte>)
    ensures |p| <= 1
  {
    if n < 2 then [TWO_BYTES.input[n]] else []
  }

  function AfterSend(x: Snap): Snap {
    var p := Data(x.n, Payload1(x.n));
    x.(phase := Waiting(0), n := x.n + |Payload1(x.n)|, tmp := p, up := x.up + [p],
       eofSeq := if x.n < 2 then x.eofSeq else x.n)
  }

  lemma SendGoes(s: State, x: Snap)
    requires Looks(s, x) && x.phase == Sending(0)
    ensures Goes(s, Send, AfterSend(x))
  {
    var payload := Payload1(x.n);
    assert TWO_BYTES.input[x.n..x.n + |payload|] == payload;
    assert StrNCpy(payload, 1) == Data(x.n, payload).data;
  }

  lemma ExpireGoes(s: State, x: Snap)
    requires Looks(s, x) && x.phase == Waiting(0)
    ensures Goes(s, Expire, x.(up := x.up + [x.tmp]))
  {
  }

  function AfterAccept(x: Snap): Snap
    requires x.up != []
  {
    x.(up := x.up[1..], down := x.down + [Ack(x.up[0])], file := WriteAt(x.file, WriteOf(x.up[0])))
  }

  lemma AcceptGoes(s: State, x: Snap)
    requires Looks(s, x) && x.up != [] && !x.up[0].header.isLast
    ensures Goes(s, Accept(0), AfterAccept(x))
  {
  }

  lemma DropGoes(s: State, x: Snap)
    requires Looks(s, x) && x.up != []
    ensures Goes(s, Drop(0), x.(up := x.up[1..]))
  {
  }

  function AfterRead(x: Snap): Snap
    requires x.down != []
  {
    x.(phase := if x.eofSeq == NO_EOF then Sending(0) else SendFin, down := x.down[1..])
  }

  /** The acknowledgement read may be any. */
  ghost predicate Readable(x: Snap) {
    && x.phase == Waiting(0) && x.down != [] && x.down[0].header.isAck && x.down[0].header.seqNo < NO_EOF
    && (x.eofSeq == NO_EOF || x.down[0].header.seqNo == x.eofSeq)
  }

  lemma ReadGoes(s: State, x: Snap)
    requires Looks(s, x) && Readable(x)
    ensures Goes(s, Read, AfterRead(x))
  {
  }

  // ---------------------------------------------------------------------
  // The same with the clock
  // ---------------------------------------------------------------------

  /** The time, when the current poll may expire, how long ago the channel was last transmitted
      on, and how many acknowledgements have reached the client. */
  datatype Clock = Clock(now: nat, due: nat, age: nat, arrived: nat)

  ghost predicate Shows(t: Timed, k: Clock) {
    && TShape(TWO_BYTES, t)
    && t.now == k.now && t.now - t.lastTx[0] == k.age && t.arrived[0] == k.arrived
    && (t.s.client.phase.Waiting? ==> t.pollStart + t.timeout <= k.due)
  }

  ghost predicate Reaches(run: seq<Event>, rtt: nat, x: Snap, k: Clock) {
    && TimelyRun(TWO_BYTES, run, rtt) && k.age < rtt
    && Looks(TExec(TWO_BYTES, run).t.s, x) && Shows(TExec(TWO_BYTES, run).t, k)
  }

  /** A young transmission satisfies the bound whatever has happened to it. */
  lemma YoungIsBounded(t: Timed, k: Clock, rtt: nat)
    requires Shows(t, k) && k.age < rtt
    ensures RoundTripBound(TWO_BYTES, t, rtt)
  {
  }

  /** The effect of an action on the clock. */
  function AfterAct(k: Clock, a: Action): Clock {
    match a
    case Send => k.(due := k.now + TIMEOUT, age := 0)
    case Expire => k.(due := k.now + TIMEOUT, age := 0)
    case Fin => k.(age := 0)
    case Read => k.(arrived := if k.arrived > 0 then k.arrived - 1 else 0)
    case _ => k
  }

  /** What poll() demands of an action. */
  ghost predicate Allowed(k: Clock, a: Action) {
    && (a.Expire? ==> k.arrived == 0 && k.now >= k.due)
    && (a.Read? ==> k.arrived > 0)
  }

  lemma ActShows(t: Timed, k: Clock, a: Action, y: Snap)
    requires Shows(t, k) && BudgetInv(TWO_BYTES, t) && Goes(t.s, a, y) && Allowed(k, a)
    requires a.Expire? ==> t.s.client.phase.Waiting?
    requires a.Read? ==> !y.phase.Waiting?
    ensures TEnabled(TWO_BYTES, t, Act(a)) && Shows(TNext(TWO_BYTES, t, Act(a)), AfterAct(k, a))
  {
  }

  lemma DoAct(run: seq<Event>, rtt: nat, x: Snap, k: Clock, a: Action, y: Snap)
    requires Reaches(run, rtt, x, k) && Goes(TExec(TWO_BYTES, run).t.s, a, y) && Allowed(k, a)
    requires a.Expire? ==> x.phase.Waiting?
    requires a.Read? ==> !y.phase.Waiting?
    ensures Reaches(run + [Act(a)], rtt, y, AfterAct(k, a))
  {
    hide TimelyRun, TExec, Looks, Shows, TNext, TEnabled, Next, Enabled, RoundTripBound, BudgetInv;
    var t := TExec(TWO_BYTES, run).t;
    BudgetHolds(TWO_BYTES, run);
    YoungIsBounded(t, k, rtt);
    LooksPhase(t.s, x);
    ActShows(t, k, a, y);
    TimelyStep(TWO_BYTES, run, rtt, Act(a));
    TNextState(TWO_BYTES, t, Act(a));
  }

  lemma LooksPhase(s: State, x: Snap)
    requires Looks(s, x)
    ensures s.client.phase == x.phase
  {
  }

  lemma DoSend(run: seq<Event>, rtt: nat, x: Snap, k: Clock)
    requires Reaches(run, rtt, x, k) && x.phase == Sending(0)
    ensures Reaches(run + [Act(Send)], rtt, AfterSend(x), AfterAct(k, Send))
  {
    hide Goes, Looks, Shows, TimelyRun, TExec;
    SendGoes(TExec(TWO_BYTES, run).t.s, x);
    DoAct(run, rtt, x, k, Send, AfterSend(x));
  }

  lemma DoExpire(run: seq<Event>, rtt: nat, x: Snap, k: Clock)
    requires Reaches(run, rtt, x, k) && x.phase == Waiting(0) && k.arrived == 0 && k.now >= k.due
    ensures Reaches(run + [Act(Expire)], rtt, x.(up := x.up + [x.tmp]), AfterAct(k, Expire))
  {
    hide Goes, Looks, Shows, TimelyRun, TExec;
    ExpireGoes(TExec(TWO_BYTES, run).t.s, x);
    DoAct(run, rtt, x, k, Expire, x.(up := x.up + [x.tmp]));
  }

  lemma DoDrop(run: seq<Event>, rtt: nat, x: Snap, k: Clock)
    requires Reaches(run, rtt, x, k) && x.up != []
    ensures Reaches(run + [Act(Drop(0))], rtt, x.(up := x.up[1..]), k)
  {
    hide Goes, Looks, Shows, TimelyRun, TExec;
    DropGoes(TExec(TWO_BYTES, run).t.s, x);
    DoAct(run, rtt, x, k, Drop(0), x.(up := x.up[1..]));
  }

  lemma DoTick(run: seq<Event>, rtt: nat, x: Snap, k: Clock, d: nat)
    requires Reaches(run, rtt, x, k) && k.age + d < rtt
    ensures Reaches(run + [Tick(d)], rtt, x, k.(now := k.now + d, age := k.age + d))
  {
    YoungIsBounded(TExec(TWO_BYTES, run).t, k, rtt);
    TimelyStep(TWO_BYTES, run, rtt, Tick(d));
  }

  lemma DoArrive(run: seq<Event>, rtt: nat, x: Snap, k: Clock)
    requires Reaches(run, rtt, x, k) && k.arrived < |x.down|
    ensures Reaches(run + [Arrive(0)], rtt, x, k.(arrived := k.arrived + 1))
  {
    YoungIsBounded(TExec(TWO_BYTES, run).t, k, rtt);
    TimelyStep(TWO_BYTES, run, rtt, Arrive(0));
  }

  lemma DoAccept(run: seq<Event>, rtt: nat, x: Snap, k: Clock)
    requires Reaches(run, rtt, x, k) && x.up != [] && !x.up[0].header.isLast
    ensures Reaches(run + [Act(Accept(0))], rtt, AfterAccept(x), k)
  {
    hide Goes, Looks, Shows, TimelyRun, TExec, AfterAccept;
    AcceptGoes(TExec(TWO_BYTES, run).t.s, x);
    DoAct(run, rtt, x, k, Accept(0), AfterAccept(x));
  }

  lemma DoRead(run: seq<Event>, rtt: nat, x: Snap, k: Clock)
    requires Reaches(run, rtt, x, k) && k.arrived == 1 && Readable(x)
    ensures Reaches(run + [Act(Read)], rtt, AfterRead(x), k.(arrived := 0))
  {
    hide Goes, Looks, Shows, TimelyRun, TExec;
    ReadGoes(TExec(TWO_BYTES, run).t.s, x);
    DoAct(run, rtt, x, k, Read, AfterRead(x));
  }

  /** The server accepts a packet, and its acknowledgement arrives and is read. */
  lemma DoExchange(run: seq<Event>, rtt: nat, x: Snap, k: Clock) returns (r: seq<Event>)
    requires Reaches(run, rtt, x, k) && k.arrived == 0 && x.up != [] && !x.up[0].header.isLast
    requires Readable(AfterAccept(x))
    ensures Reaches(r, rtt, AfterRead(AfterAccept(x)), k)
  {
    hide Reaches, AfterAccept, AfterRead;
    var y := AfterAccept(x);
    DoAccept(run, rtt, x, k);
    r := run + [Act(Accept(0))];
    DoArrive(r, rtt, y, k);
    r := r + [Arrive(0)];
    DoRead(r, rtt, y, k.(arrived := 1));
    r := r + [Act(Read)];
  }

  lemma Start(rtt: nat) returns (x: Snap, k: Clock)
    requires rtt > 0
    ensures x.phase == Sending(0) && x.n == 0 && x.eofSeq == NO_EOF && x.up == x.down == [] && x.file == []
    ensures k == Clock(0, 0, 0, 0) && Reaches([], rtt, x, k)
  {
    x := Snap(Sending(0), 0, NO_EOF, InitClient(TWO_BYTES).tmp[0], [], [], []);
    k := Clock(0, 0, 0, 0);
  }

  // ---------------------------------------------------------------------
  // The run
  // ---------------------------------------------------------------------

  /** Up to the point where the acknowledgement of the duplicate of packet 0 has been taken for
      that of packet 1, which is still under way. */
  lemma WrongAcknowledgement(rtt: nat) returns (run: seq<Event>, x: Snap, k: Clock)
    requires rtt > TIMEOUT
    ensures Reaches(run, rtt, x, k) && k.arrived == 0
    ensures x == Snap(Sending(0), 2, NO_EOF, Data(1, [8]), [Data(1, [8])], [], [7])
  {
    hide Reaches;
    var p, q := Data(0, [7]), Data(1, [8]);
    x, k := Start(rtt);
    DoSend([], rtt, x, k);
    run, x, k := [] + [Act(Send)], AfterSend(x), AfterAct(k, Send);
    DoTick(run, rtt, x, k, TIMEOUT);
    run, k := run + [Tick(TIMEOUT)], k.(now := k.now + TIMEOUT, age := k.age + TIMEOUT);
    DoExpire(run, rtt, x, k);
    run, x, k := run + [Act(Expire)], x.(up := x.up + [x.tmp]), AfterAct(k, Expire);
    assert x.up == [p, p];
    run := DoExchange(run, rtt, x, k);
    x := AfterRead(AfterAccept(x));
    assert x.up == [p] && x.down == [] && x.file == [7];
    DoSend(run, rtt, x, k);
    run, x, k := run + [Act(Send)], AfterSend(x), AfterAct(k, Send);
    assert x.up == [p, q];
    run := DoExchange(run, rtt, x, k);
    x := AfterRead(AfterAccept(x));
    assert x.up == [q] && x.down == [] && x.file == [7];
  }

  lemma EarlyFin(rtt: nat) returns (run: seq<Event>, x: Snap, k: Clock)
    requires rtt > TIMEOUT
    ensures Reaches(run, rtt, x, k)
    ensures x == Snap(SendFin, 2, 2, Data(2, []), [], [], [7])
  {
    hide Reaches;
    var q, e := Data(1, [8]), Data(2, []);
    run, x, k := WrongAcknowledgement(rtt);
    DoSend(run, rtt, x, k);
    run, x, k := run + [Act(Send)], AfterSend(x), AfterAct(k, Send);
    assert x.up == [q, e];
    DoDrop(run, rtt, x, k);
    run, x := run + [Act(Drop(0))], x.(up := x.up[1..]);
    assert x.up == [e];
    run := DoExchange(run, rtt, x, k);
    x := AfterRead(AfterAccept(x));
  }

  /** An action that does not depend on poll(): it takes no time. */
  lemma FreeAct(t: Timed, a: Action)
    requires TShape(TWO_BYTES, t) && Enabled(TWO_BYTES, t.s, a) && !a.Expire? && !a.Read? && t.lastTx[0] <= t.now
    ensures TEnabled(TWO_BYTES, t, Act(a))
    ensures var u := TNext(TWO_BYTES, t, Act(a));
      u.s == Next(TWO_BYTES, t.s, a) && u.now == t.now && t.lastTx[0] <= u.lastTx[0] <= u.now
  {
    hide Next, Enabled;
  }

  lemma RecentIsBounded(t: Timed, rtt: nat)
    requires TShape(TWO_BYTES, t) && t.now < t.lastTx[0] + rtt
    ensures RoundTripBound(TWO_BYTES, t, rtt)
  {
  }

  ghost predicate Recent(run: seq<Event>, rtt: nat)
  {
    TimelyRun(TWO_BYTES, run, rtt)
    && var t := TExec(TWO_BYTES, run).t; t.lastTx[0] <= t.now < t.lastTx[0] + rtt
  }

  lemma LastActs(run: seq<Event>, rtt: nat, a: Action)
    requires Recent(run, rtt) && Enabled(TWO_BYTES, TExec(TWO_BYTES, run).t.s, a) && !a.Expire? && !a.Read?
    ensures Recent(run + [Act(a)], rtt)
    ensures TExec(TWO_BYTES, run + [Act(a)]).t.s == Next(TWO_BYTES, TExec(TWO_BYTES, run).t.s, a)
  {
    hide Next, Enabled, TNext, TEnabled, RoundTripBound, TimelyRun, TExec;
    var t := TExec(TWO_BYTES, run).t;
    RecentIsBounded(t, rtt);
    FreeAct(t, a);
    TimelyStep(TWO_BYTES, run, rtt, Act(a));
  }

  lemma FinGoes(s: State, x: Snap)
    requires Looks(s, x) && x.phase.SendFin? && x.up == [] && x.file == [7]
    ensures Enabled(TWO_BYTES, s, Fin)
    ensures var t := Next(TWO_BYTES, s, Fin);
      && t.up[0] == [FinPacket(TWO_BYTES, s.client)] && t.server.file == [7] && !t.server.exited
  {
  }

  lemma AcceptFinGoes(s: State)
    requires Shape(TWO_BYTES, s) && s.up[0] != [] && s.up[0][0].header.isLast && !s.server.exited
    ensures Enabled(TWO_BYTES, s, Accept(0))
    ensures var t := Next(TWO_BYTES, s, Accept(0));
      t.server.file == s.server.file && t.server.finSeen && !t.server.exited
  {
  }

  /** One timeout that fires while its packet is still under way, and one drop, are enough to
      lose a byte: the server accepts FIN and leaves its loop with an incomplete file. */
  lemma PrematureTimeoutLosesData(rtt: nat) returns (run: seq<Event>)
    requires rtt > TIMEOUT
    ensures TimelyRun(TWO_BYTES, run, rtt)
    ensures var s := TExec(TWO_BYTES, run).t.s;
      s.server.exited && s.server.file == [7] && Stream(TWO_BYTES) == [7, 8]
  {
    hide TimelyRun, TExec, Next;
    var x, k;
    run, x, k := EarlyFin(rtt);
    FinGoes(TExec(TWO_BYTES, run).t.s, x);
    LastActs(run, rtt, Fin);
    run := run + [Act(Fin)];
    AcceptFinGoes(TExec(TWO_BYTES, run).t.s);
    LastActs(run, rtt, Accept(0));
    run := run + [Act(Accept(0))];
    LastActs(run, rtt, Exit);
    ExitGoes(TExec(TWO_BYTES, run).t.s);
    run := run + [Act(Exit)];
    assert Stream(TWO_BYTES) == [7, 8];
  }

  lemma ExitGoes(s: State)
    requires Shape(TWO_BYTES, s) && s.server.finSeen && !s.server.exited
    ensures Enabled(TWO_BYTES, s, Exit)
    ensures var t := Next(TWO_BYTES, s, Exit); t.server == s.server.(exited := true)
  {
  }

  // ---------------------------------------------------------------------
  // Exactly when delivery is guaranteed
  // ---------------------------------------------------------------------

  /** Every transfer of any input over any number of channels whose round trips take at most rtt
      is complete when the server leaves its loop. */
  ghost predicate AlwaysDelivers(rtt: nat) {
    forall cfg: Config, events: seq<Event> ::
      cfg.Valid() && TimelyRun(cfg, events, rtt) && TExec(cfg, events).t.s.server.exited ==>
        TExec(cfg, events).t.s.server.file == Stream(cfg)
  }

  lemma AlwaysDeliversIff(rtt: nat)
    ensures AlwaysDelivers(rtt) <==> rtt <= TIMEOUT
  {
    if rtt <= TIMEOUT {
      forall cfg: Config, events: seq<Event> |
        cfg.Valid() && TimelyRun(cfg, events, rtt) && TExec(cfg, events).t.s.server.exited
        ensures TExec(cfg, events).t.s.server.file == Stream(cfg)
      {
        TimelyEndToEnd(cfg, events, rtt);
      }
    } else {
      var run := PrematureTimeoutLosesData(rtt);
      assert TWO_BYTES.Valid();
    }
  }
}

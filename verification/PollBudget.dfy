/** The protocol with a clock: poll() budgets, arrival of acknowledgements at the client, and
    why timeouts fire only on idle channels when the round trip is short enough. */
module PollBudget {
  import opened Payload
  import opened Protocol
  import opened StopAndWait

  /** TIMEOUT_SECS * 1000. */
  const TIMEOUT: nat := 2000

  /** A protocol state with the time, the poll variables of connection_loop (timeout,
      old_timeout, timed_out and the moment the current poll began), how many of the queued
      acknowledgements have reached the client, and two history variables: the latest
      transmission on each channel and the start of the current round of polls. */
  datatype Timed = Timed(s: State, now: nat, pollStart: nat, timeout: nat, oldTimeout: nat, timedOut: bool,
                         arrived: seq<nat>, lastTx: seq<nat>, roundStart: nat)

  datatype Event = Tick(d: nat) | Arrive(ch: nat) | Act(a: Action)

  ghost predicate TShape(cfg: Config, t: Timed) {
    && Shape(cfg, t.s)
    && |t.arrived| == |t.lastTx| == cfg.channels
    && forall j :: 0 <= j < cfg.channels ==> t.arrived[j] <= |t.s.down[j]|
  }

  function TInit(cfg: Config): Timed {
    var zero := seq(cfg.channels, _ => 0);
    Timed(Init(cfg), 0, 0, TIMEOUT, TIMEOUT, false, zero, zero, 0)
  }

  /** poll() returns 0 only after its budget has passed without input, and a read happens only
      after it has reported input. */
  ghost predicate TEnabled(cfg: Config, t: Timed, e: Event)
    requires TShape(cfg, t)
  {
    match e
    case Tick(_) => true
    case Arrive(j) => j < cfg.channels && t.arrived[j] < |t.s.down[j]|
    case Act(a) =>
      && Enabled(cfg, t.s, a)
      && (a.Expire? ==> t.arrived[Polled(t.s.client)] == 0 && t.now >= t.pollStart + t.timeout)
      && (a.Read? ==> t.arrived[Polled(t.s.client)] > 0)
  }

  ghost function BeginRound(t: Timed): Timed {
    t.(oldTimeout := t.timeout, timedOut := false, pollStart := t.now, roundStart := t.now)
  }

  ghost function TNext(cfg: Config, t: Timed, e: Event): (u: Timed)
    requires TShape(cfg, t) && TEnabled(cfg, t, e)
    ensures TShape(cfg, u)
  {
    match e
    case Tick(d) => t.(now := t.now + d)
    case Arrive(j) => t.(arrived := t.arrived[j := t.arrived[j] + 1])
    case Act(a) =>
      var i := Polled(t.s.client);
      var u := t.(s := Next(cfg, t.s, a));
      match a
      case Send =>
        var v := u.(lastTx := t.lastTx[t.s.client.phase.i := t.now]);
        if u.s.client.phase.Waiting? then BeginRound(v) else v
      case Expire =>
        var v := u.(lastTx := t.lastTx[i := t.now], pollStart := t.now);
        if t.s.client.phase.Waiting? then v.(timeout := t.oldTimeout, timedOut := true) else v
      case Read =>
        var v := u.(arrived := t.arrived[i := t.arrived[i] - 1]);
        if !t.s.client.phase.Waiting? then v
        else if u.s.client.phase.Waiting? && u.s.client.phase.i > 0 then
          v.(timeout := if t.timedOut then 0 else t.timeout, timedOut := false, pollStart := t.now)
        else if u.s.client.phase.Waiting? then BeginRound(v.(timeout := t.oldTimeout))
        else v.(timeout := t.oldTimeout)
      case Fin => u.(lastTx := t.lastTx[0 := t.now], pollStart := t.now)
      case _ => u
  }

  datatype TRun = TStuck | TAt(t: Timed)

  ghost function TExec(cfg: Config, events: seq<Event>): (r: TRun)
    requires cfg.Valid()
    ensures r.TAt? ==> TShape(cfg, r.t)
  {
    if events == [] then TAt(TInit(cfg))
    else
      var r := TExec(cfg, events[..|events| - 1]);
      var e := events[|events| - 1];
      if r.TAt? && TEnabled(cfg, r.t, e) then TAt(TNext(cfg, r.t, e)) else TStuck
  }

  // ---------------------------------------------------------------------
  // The budget never fires early
  // ---------------------------------------------------------------------

  ghost predicate ClockInv(cfg: Config, t: Timed)
    requires TShape(cfg, t)
  {
    && t.oldTimeout == TIMEOUT && (t.timeout == 0 || t.timeout == TIMEOUT)
    && t.roundStart <= t.now && t.pollStart <= t.now
    && forall j :: 0 <= j < cfg.channels ==> t.lastTx[j] <= t.now
  }

  ghost predicate BudgetInv(cfg: Config, t: Timed)
    requires TShape(cfg, t)
  {
    && ClockInv(cfg, t)
    && match t.s.client.phase
       case Waiting(i) =>
         && t.roundStart <= t.pollStart
         && t.lastTx[i] + TIMEOUT <= t.pollStart + t.timeout
         && (forall j :: i < j < cfg.channels ==> t.lastTx[j] <= t.roundStart)
         && (t.timedOut || t.timeout == 0 ==> t.roundStart + TIMEOUT <= t.now)
       case FinWait => t.timeout == TIMEOUT && t.lastTx[0] <= t.pollStart
       case _ => t.timeout == TIMEOUT
  }

  lemma ReadKeepsBudget(cfg: Config, t: Timed)
    requires TShape(cfg, t) && BudgetInv(cfg, t) && TEnabled(cfg, t, Act(Read))
    ensures BudgetInv(cfg, TNext(cfg, t, Act(Read)))
  {
    var c := t.s.client;
    var d := Next(cfg, t.s, Read).client;
    if c.phase.Waiting? {
      assert d.phase == Waiting(c.phase.i + 1) || d.phase == Waiting(0) || d.phase == Sending(0) || d.phase == SendFin;
    }
  }

  lemma SendKeepsBudget(cfg: Config, t: Timed)
    requires TShape(cfg, t) && BudgetInv(cfg, t) && TEnabled(cfg, t, Act(Send))
    ensures BudgetInv(cfg, TNext(cfg, t, Act(Send)))
  {
  }

  lemma ExpireKeepsBudget(cfg: Config, t: Timed)
    requires TShape(cfg, t) && BudgetInv(cfg, t) && TEnabled(cfg, t, Act(Expire))
    ensures BudgetInv(cfg, TNext(cfg, t, Act(Expire)))
  {
    assert Next(cfg, t.s, Expire).client == t.s.client;
  }

  lemma FinKeepsBudget(cfg: Config, t: Timed)
    requires TShape(cfg, t) && BudgetInv(cfg, t) && TEnabled(cfg, t, Act(Fin))
    ensures BudgetInv(cfg, TNext(cfg, t, Act(Fin)))
  {
  }

  lemma ServerKeepsBudget(cfg: Config, t: Timed, a: Action)
    requires TShape(cfg, t) && BudgetInv(cfg, t) && TEnabled(cfg, t, Act(a))
    requires a.Accept? || a.Drop? || a.Exit?
    ensures BudgetInv(cfg, TNext(cfg, t, Act(a)))
  {
    assert Next(cfg, t.s, a).client == t.s.client;
  }

  lemma StepKeepsBudget(cfg: Config, t: Timed, e: Event)
    requires TShape(cfg, t) && BudgetInv(cfg, t) && TEnabled(cfg, t, e)
    ensures BudgetInv(cfg, TNext(cfg, t, e))
  {
    match e
    case Tick(_) =>
    case Arrive(_) =>
    case Act(Send) => SendKeepsBudget(cfg, t);
    case Act(Expire) => ExpireKeepsBudget(cfg, t);
    case Act(Read) => ReadKeepsBudget(cfg, t);
    case Act(Fin) => FinKeepsBudget(cfg, t);
    case Act(a) => ServerKeepsBudget(cfg, t, a);
  }

  lemma {:induction false} BudgetHolds(cfg: Config, events: seq<Event>)
    requires cfg.Valid() && TExec(cfg, events).TAt?
    ensures BudgetInv(cfg, TExec(cfg, events).t)
  {
    hide Next, TNext, TEnabled;
    if events != [] {
      var front := events[..|events| - 1];
      BudgetHolds(cfg, front);
      StepKeepsBudget(cfg, TExec(cfg, front).t, events[|events| - 1]);
    }
  }

  /** Every poll expiry, including the 0 ms polls after an earlier channel has timed out, comes
      at least TIMEOUT after the latest transmission on its channel. */
  lemma NeverFiresEarly(cfg: Config, events: seq<Event>)
    requires cfg.Valid() && TExec(cfg, events).TAt?
    requires TEnabled(cfg, TExec(cfg, events).t, Act(Expire))
    ensures var t := TExec(cfg, events).t;
      t.now >= t.lastTx[Polled(t.s.client)] + TIMEOUT
  {
    BudgetHolds(cfg, events);
  }

  // ---------------------------------------------------------------------
  // The budget, exactly
  // ---------------------------------------------------------------------

  predicate OfClient(a: Action) {
    a.Send? || a.Expire? || a.Read? || a.Fin?
  }

  /** The time that has passed. */
  function Elapsed(events: seq<Event>): nat {
    if events == [] then 0
    else Elapsed(events[..|events| - 1]) + if events[|events| - 1].Tick? then events[|events| - 1].d else 0
  }

  /** The moment of the latest action of the client. */
  function LastAct(events: seq<Event>): nat {
    if events == [] then 0
    else
      var front, e := events[..|events| - 1], events[|events| - 1];
      if e.Act? && OfClient(e.a) then Elapsed(front) else LastAct(front)
  }

  /** Whether the action transmits on channel j. */
  predicate Transmits(c: Client, a: Action, j: nat) {
    || (a.Send? && c.phase == Sending(j))
    || (a.Expire? && Polled(c) == j)
    || (a.Fin? && j == 0)
  }

  /** The moment of the latest transmission on channel j. */
  ghost function LastSent(cfg: Config, events: seq<Event>, j: nat): nat
    requires cfg.Valid() && TExec(cfg, events).TAt?
  {
    if events == [] then 0
    else
      var front, e := events[..|events| - 1], events[|events| - 1];
      if e.Act? && Transmits(TExec(cfg, front).t.s.client, e.a, j) then Elapsed(front) else LastSent(cfg, front, j)
  }

  /** The moment the client last began to poll channel 0 after a batch or another round. */
  ghost function RoundBegan(cfg: Config, events: seq<Event>): nat
    requires cfg.Valid() && TExec(cfg, events).TAt?
  {
    if events == [] then 0
    else
      var front, e := events[..|events| - 1], events[|events| - 1];
      if e.Act? && (e.a.Send? || e.a.Read?) && TExec(cfg, events).t.s.client.phase == Waiting(0)
      then Elapsed(front) else RoundBegan(cfg, front)
  }

  /** The acknowledgements that have reached the client on channel j. */
  function Arrivals(events: seq<Event>, j: nat): nat {
    if events == [] then 0
    else Arrivals(events[..|events| - 1], j) + if events[|events| - 1] == Arrive(j) then 1 else 0
  }

  /** The variables of the clock are what the events so far make them. */
  ghost predicate Recorded(cfg: Config, events: seq<Event>, t: Timed)
    requires cfg.Valid() && TExec(cfg, events).TAt? && TShape(cfg, t)
  {
    && t.now == Elapsed(events)
    && (Polling(t.s.client) ==> t.pollStart == LastAct(events))
    && (t.s.client.phase.Waiting? ==> t.roundStart == RoundBegan(cfg, events))
    && forall j: nat :: j < cfg.channels ==>
         t.lastTx[j] == LastSent(cfg, events, j) && t.arrived[j] + t.s.rd[j] == Arrivals(events, j)
  }

  /** How one event changes them. */
  ghost predicate Records(cfg: Config, t: Timed, e: Event, u: Timed)
    requires TShape(cfg, t) && TShape(cfg, u)
  {
    var c, d := t.s.client, u.s.client;
    var byClient := e.Act? && OfClient(e.a);
    && u.now == t.now + (if e.Tick? then e.d else 0)
    && (Polling(d) ==> u.pollStart == (if byClient then t.now else t.pollStart) && (byClient || Polling(c)))
    && (d.phase.Waiting? ==>
          if e.Act? && (e.a.Send? || e.a.Read?) && d.phase == Waiting(0)
          then u.roundStart == t.now else u.roundStart == t.roundStart && c.phase.Waiting?)
    && forall j: nat :: j < cfg.channels ==>
         && u.lastTx[j] == (if e.Act? && Transmits(c, e.a, j) then t.now else t.lastTx[j])
         && u.arrived[j] + u.s.rd[j] == t.arrived[j] + t.s.rd[j] + (if e == Arrive(j) then 1 else 0)
  }

  lemma SendRecords(cfg: Config, t: Timed)
    requires TShape(cfg, t) && TEnabled(cfg, t, Act(Send))
    ensures Records(cfg, t, Act(Send), TNext(cfg, t, Act(Send)))
  {
    hide StrNCpy, NextChunk;
  }

  lemma ReadRecords(cfg: Config, t: Timed)
    requires TShape(cfg, t) && TEnabled(cfg, t, Act(Read))
    ensures Records(cfg, t, Act(Read), TNext(cfg, t, Act(Read)))
  {
  }

  lemma ExpireRecords(cfg: Config, t: Timed)
    requires TShape(cfg, t) && TEnabled(cfg, t, Act(Expire))
    ensures Records(cfg, t, Act(Expire), TNext(cfg, t, Act(Expire)))
  {
    hide Outstanding;
  }

  lemma FinRecords(cfg: Config, t: Timed)
    requires TShape(cfg, t) && TEnabled(cfg, t, Act(Fin))
    ensures Records(cfg, t, Act(Fin), TNext(cfg, t, Act(Fin)))
  {
    hide FinPacket;
  }

  lemma ServerRecords(cfg: Config, t: Timed, a: Action)
    requires TShape(cfg, t) && TEnabled(cfg, t, Act(a)) && !OfClient(a)
    ensures Records(cfg, t, Act(a), TNext(cfg, t, Act(a)))
  {
    hide Serve;
  }

  lemma WaitRecords(cfg: Config, t: Timed, e: Event)
    requires TShape(cfg, t) && TEnabled(cfg, t, e) && !e.Act?
    ensures Records(cfg, t, e, TNext(cfg, t, e))
  {
  }

  lemma ClockStep(cfg: Config, t: Timed, e: Event)
    requires TShape(cfg, t) && TEnabled(cfg, t, e)
    ensures Records(cfg, t, e, TNext(cfg, t, e))
  {
    hide Records, TNext, TEnabled;
    if !e.Act? {
      WaitRecords(cfg, t, e);
    } else if e.a.Send? {
      SendRecords(cfg, t);
    } else if e.a.Read? {
      ReadRecords(cfg, t);
    } else if e.a.Expire? {
      ExpireRecords(cfg, t);
    } else if e.a.Fin? {
      FinRecords(cfg, t);
    } else {
      ServerRecords(cfg, t, e.a);
    }
  }

  lemma {:induction false} RunRecorded(cfg: Config, events: seq<Event>)
    requires cfg.Valid() && TExec(cfg, events).TAt?
    ensures Recorded(cfg, events, TExec(cfg, events).t)
  {
    hide TNext, TEnabled, Transmits;
    if events != [] {
      var front, e := events[..|events| - 1], events[|events| - 1];
      RunRecorded(cfg, front);
      ClockStep(cfg, TExec(cfg, front).t, e);
    }
  }

  /** An earlier channel of the round has had to be sent again. */
  ghost predicate ExpiredBefore(cfg: Config, t: Timed, i: nat)
    requires TShape(cfg, t) && i <= cfg.channels
  {
    exists j :: 0 <= j < i && t.lastTx[j] > t.roundStart
  }

  /** The budget shrinks to 0 for the first poll of a channel exactly if an earlier channel of the
      round has timed out; after a timeout of its own it is the full one. */
  ghost predicate ShrinkInv(cfg: Config, t: Timed)
    requires TShape(cfg, t)
  {
    && BudgetInv(cfg, t)
    && (t.s.client.phase.Waiting? ==>
          var i := t.s.client.phase.i;
          && (t.timedOut <==> t.lastTx[i] > t.roundStart)
          && t.timeout == if !t.timedOut && ExpiredBefore(cfg, t, i) then 0 else TIMEOUT)
  }

  lemma ShrinkKept(cfg: Config, t: Timed, u: Timed)
    requires TShape(cfg, t) && TShape(cfg, u) && ShrinkInv(cfg, t) && BudgetInv(cfg, u)
    requires u.s.client.phase == t.s.client.phase && u.timedOut == t.timedOut && u.timeout == t.timeout
    requires u.lastTx == t.lastTx && u.roundStart == t.roundStart
    ensures ShrinkInv(cfg, u)
  {
    hide BudgetInv;
  }

  lemma ReadShrinks(cfg: Config, t: Timed)
    requires TShape(cfg, t) && ShrinkInv(cfg, t) && TEnabled(cfg, t, Act(Read))
    ensures ShrinkInv(cfg, TNext(cfg, t, Act(Read)))
  {
    hide Serve, StrNCpy;
    StepKeepsBudget(cfg, t, Act(Read));
    var u := TNext(cfg, t, Act(Read));
    if u.s.client.phase.Waiting? && u.s.client.phase.i > 0 {
      var i := t.s.client.phase.i;
      assert ExpiredBefore(cfg, u, i + 1) <==> ExpiredBefore(cfg, t, i) || t.lastTx[i] > t.roundStart;
    }
  }

  lemma SendShrinks(cfg: Config, t: Timed)
    requires TShape(cfg, t) && ShrinkInv(cfg, t) && TEnabled(cfg, t, Act(Send))
    ensures ShrinkInv(cfg, TNext(cfg, t, Act(Send)))
  {
    hide StrNCpy, NextChunk;
    StepKeepsBudget(cfg, t, Act(Send));
  }

  lemma ExpireShrinks(cfg: Config, t: Timed)
    requires TShape(cfg, t) && ShrinkInv(cfg, t) && TEnabled(cfg, t, Act(Expire))
    ensures ShrinkInv(cfg, TNext(cfg, t, Act(Expire)))
  {
    hide Outstanding;
    StepKeepsBudget(cfg, t, Act(Expire));
  }

  lemma StepShrinks(cfg: Config, t: Timed, e: Event)
    requires TShape(cfg, t) && ShrinkInv(cfg, t) && TEnabled(cfg, t, e)
    ensures ShrinkInv(cfg, TNext(cfg, t, e))
  {
    hide ShrinkInv, TNext, TEnabled;
    if e == Act(Read) {
      ReadShrinks(cfg, t);
    } else if e == Act(Send) {
      SendShrinks(cfg, t);
    } else if e == Act(Expire) {
      ExpireShrinks(cfg, t);
    } else if e == Act(Fin) {
      FinShrinks(cfg, t);
    } else {
      OtherShrinks(cfg, t, e);
    }
  }

  lemma OtherShrinks(cfg: Config, t: Timed, e: Event)
    requires TShape(cfg, t) && ShrinkInv(cfg, t) && TEnabled(cfg, t, e) && !(e.Act? && OfClient(e.a))
    ensures ShrinkInv(cfg, TNext(cfg, t, e))
  {
    hide ShrinkInv, BudgetInv, Serve;
    ShrinkIsBudget(cfg, t);
    StepKeepsBudget(cfg, t, e);
    ShrinkKept(cfg, t, TNext(cfg, t, e));
  }

  lemma ShrinkIsBudget(cfg: Config, t: Timed)
    requires TShape(cfg, t) && ShrinkInv(cfg, t)
    ensures BudgetInv(cfg, t)
  {
  }

  lemma FinShrinks(cfg: Config, t: Timed)
    requires TShape(cfg, t) && ShrinkInv(cfg, t) && TEnabled(cfg, t, Act(Fin))
    ensures ShrinkInv(cfg, TNext(cfg, t, Act(Fin)))
  {
    hide FinPacket;
    StepKeepsBudget(cfg, t, Act(Fin));
  }

  lemma {:induction false} BudgetShrinks(cfg: Config, events: seq<Event>)
    requires cfg.Valid() && TExec(cfg, events).TAt?
    ensures ShrinkInv(cfg, TExec(cfg, events).t)
  {
    hide TNext, TEnabled, ShrinkInv;
    if events == [] {
      ShrinkStarts(cfg);
    } else {
      var front := events[..|events| - 1];
      BudgetShrinks(cfg, front);
      StepShrinks(cfg, TExec(cfg, front).t, events[|events| - 1]);
    }
  }

  lemma ShrinkStarts(cfg: Config)
    requires cfg.Valid()
    ensures ShrinkInv(cfg, TInit(cfg))
  {
  }

  /** Channel j has been sent again in the current round. */
  ghost predicate SentAgain(cfg: Config, events: seq<Event>, j: nat)
    requires cfg.Valid() && TExec(cfg, events).TAt?
  {
    LastSent(cfg, events, j) > RoundBegan(cfg, events)
  }

  /** When exactly a poll may expire, in terms of the events so far: nothing is there to be read, and
      TIMEOUT has passed since the client's last action, or this is the first poll of the channel
      and an earlier channel of the round has been sent again. */
  lemma ExpiresIff(cfg: Config, events: seq<Event>)
    requires cfg.Valid() && TExec(cfg, events).TAt? && Polling(TExec(cfg, events).t.s.client)
    ensures var t := TExec(cfg, events).t; var c := t.s.client; var i := Polled(c);
      TEnabled(cfg, t, Act(Expire)) <==>
        && Arrivals(events, i) == t.s.rd[i]
        && (|| Elapsed(events) >= LastAct(events) + TIMEOUT
            || (c.phase.Waiting? && !SentAgain(cfg, events, i) && exists j: nat :: j < i && SentAgain(cfg, events, j)))
    ensures var t := TExec(cfg, events).t; var i := Polled(t.s.client);
      TEnabled(cfg, t, Act(Read)) <==> Arrivals(events, i) > t.s.rd[i]
  {
    hide TExec, LastSent, RoundBegan, Arrivals, Elapsed, LastAct;
    RunRecorded(cfg, events);
    BudgetShrinks(cfg, events);
    var t := TExec(cfg, events).t;
    if t.s.client.phase.Waiting? {
      var i := t.s.client.phase.i;
      forall j: nat | j <= i
        ensures t.lastTx[j] > t.roundStart <==> SentAgain(cfg, events, j)
      {
      }
    }
  }

  // ---------------------------------------------------------------------
  // Short round trips make runs patient
  // ---------------------------------------------------------------------

  /** On a channel whose latest transmission is at least rtt old nothing is under way any more:
      every packet has been dropped or accepted, and every acknowledgement has reached the client. */
  ghost predicate RoundTripBound(cfg: Config, t: Timed, rtt: nat)
    requires TShape(cfg, t)
  {
    forall j :: 0 <= j < cfg.channels && t.now >= t.lastTx[j] + rtt ==>
      t.s.up[j] == [] && t.arrived[j] == |t.s.down[j]|
  }

  ghost predicate TimelyRun(cfg: Config, events: seq<Event>, rtt: nat)
    requires cfg.Valid()
    ensures TimelyRun(cfg, events, rtt) ==> TExec(cfg, events).TAt?
  {
    events == [] ||
    var front, e := events[..|events| - 1], events[|events| - 1];
    && TimelyRun(cfg, front, rtt)
    && RoundTripBound(cfg, TExec(cfg, front).t, rtt)
    && TEnabled(cfg, TExec(cfg, front).t, e)
  }

  lemma TimelyStep(cfg: Config, events: seq<Event>, rtt: nat, e: Event)
    requires cfg.Valid() && TimelyRun(cfg, events, rtt) && TEnabled(cfg, TExec(cfg, events).t, e)
    requires RoundTripBound(cfg, TExec(cfg, events).t, rtt)
    ensures TimelyRun(cfg, events + [e], rtt)
    ensures TExec(cfg, events + [e]) == TAt(TNext(cfg, TExec(cfg, events).t, e))
  {
    hide TNext, TEnabled, RoundTripBound;
    assert (events + [e])[..|events|] == events;
  }

  /** The protocol actions of a timed run. */
  function Untimed(events: seq<Event>): seq<Action> {
    if events == [] then []
    else
      var front, e := Untimed(events[..|events| - 1]), events[|events| - 1];
      if e.Act? then front + [e.a] else front
  }

  lemma TNextState(cfg: Config, t: Timed, e: Event)
    requires TShape(cfg, t) && TEnabled(cfg, t, e)
    ensures TNext(cfg, t, e).s == if e.Act? then Next(cfg, t.s, e.a) else t.s
    ensures e.Act? ==> Enabled(cfg, t.s, e.a)
  {
    hide Next, Enabled;
  }

  /** A budget that has run out, together with a short round trip, means an idle channel. */
  lemma ExpiryIsPatient(cfg: Config, t: Timed, a: Action, rtt: nat)
    requires TShape(cfg, t) && BudgetInv(cfg, t) && rtt <= TIMEOUT
    requires TEnabled(cfg, t, Act(a)) && RoundTripBound(cfg, t, rtt)
    ensures Patient(cfg, t.s, a)
  {
  }

  /** A timed run whose round trips take at most TIMEOUT is, without its clock, a run in which
      timeouts fire only on idle channels. */
  lemma {:induction false} TimelyRunsArePatient(cfg: Config, events: seq<Event>, rtt: nat)
    requires cfg.Valid() && rtt <= TIMEOUT && TimelyRun(cfg, events, rtt)
    ensures PatientRun(cfg, Untimed(events))
    ensures Exec(cfg, Untimed(events)).s == TExec(cfg, events).t.s
  {
    hide Next, TNext, Enabled, TEnabled, BudgetInv, RoundTripBound, Patient;
    if events == [] {
      assert TInit(cfg).s == Init(cfg);
    } else {
      var front, e := events[..|events| - 1], events[|events| - 1];
      TimelyRunsArePatient(cfg, front, rtt);
      var t := TExec(cfg, front).t;
      TNextState(cfg, t, e);
      if e.Act? {
        BudgetHolds(cfg, front);
        ExpiryIsPatient(cfg, t, e.a, rtt);
        assert Untimed(events)[..|Untimed(events)| - 1] == Untimed(front);
      }
    }
  }

  /** So with round trips of at most TIMEOUT the transfer is complete when the server leaves its
      loop. */
  lemma TimelyEndToEnd(cfg: Config, events: seq<Event>, rtt: nat)
    requires cfg.Valid() && rtt <= TIMEOUT && TimelyRun(cfg, events, rtt)
    requires TExec(cfg, events).t.s.server.exited
    ensures TExec(cfg, events).t.s.server.file == Stream(cfg)
    ensures TExec(cfg, events).t.s.server.lastSeq == |Stream(cfg)|
  {
    TimelyRunsArePatient(cfg, events, rtt);
    EndToEnd(cfg, Untimed(events));
  }
}

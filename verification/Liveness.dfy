/** Transfers can always be completed: every patient run, and every timed run that has kept its
    round-trip bound, extends without further drops to one in which everything is delivered. */
module Liveness {
  import opened Payload
  import opened Protocol
  import opened Safety
  import opened StopAndWait
  import opened PollBudget

  // ---------------------------------------------------------------------
  // Without a clock
  // ---------------------------------------------------------------------

  ghost predicate Complete(cfg: Config, s: State)
    requires cfg.Valid()
  {
    s.client.phase.Done? && s.server.exited && s.server.file == Stream(cfg) && s.server.lastSeq == |Stream(cfg)|
  }

  ghost predicate NoDrops(actions: seq<Action>) {
    forall i :: 0 <= i < |actions| ==> !actions[i].Drop?
  }

  lemma DropsKept(cfg: Config, s: State, a: Action)
    requires Shape(cfg, s) && Enabled(cfg, s, a) && !a.Drop?
    ensures Next(cfg, s, a).drp == s.drp
  {
  }

  lemma PatientLast(cfg: Config, actions: seq<Action>, a: Action)
    requires cfg.Valid() && PatientRun(cfg, actions + [a])
    ensures PatientRun(cfg, actions) && Enabled(cfg, Exec(cfg, actions).s, a)
    ensures Exec(cfg, actions + [a]).s == Next(cfg, Exec(cfg, actions).s, a)
  {
    hide Next, Enabled, Patient;
    assert (actions + [a])[..|actions|] == actions;
  }

  /** Steps a run can still make without further drops. */
  ghost function StepsLeft(cfg: Config, actions: seq<Action>): (n: nat)
    requires cfg.Valid() && PatientRun(cfg, actions)
  {
    BoundedRun(cfg, actions, Sum(Exec(cfg, actions).s.drp));
    3 * (Total(cfg) + 1) + 1 + 2 * Sum(Exec(cfg, actions).s.drp) - |actions|
  }

  lemma StepTaken(cfg: Config, actions: seq<Action>, a: Action)
    requires cfg.Valid() && PatientRun(cfg, actions + [a]) && !a.Drop?
    ensures PatientRun(cfg, actions) && StepsLeft(cfg, actions + [a]) == StepsLeft(cfg, actions) - 1
  {
    hide PatientRun, Exec, Next, Enabled, Total, Sum;
    PatientLast(cfg, actions, a);
    DropsKept(cfg, Exec(cfg, actions).s, a);
  }

  /** Every patient run, whatever has been dropped in it, extends without further drops to one in
      which the client has returned, the server has left its loop, and the file is the stream. */
  lemma {:induction false} Completes(cfg: Config, actions: seq<Action>) returns (more: seq<Action>)
    requires cfg.Valid() && PatientRun(cfg, actions)
    ensures NoDrops(more) && PatientRun(cfg, actions + more)
    ensures Complete(cfg, Exec(cfg, actions + more).s)
    decreases StepsLeft(cfg, actions)
  {
    hide PatientRun, Exec, StepsLeft, Stream;
    var s := Exec(cfg, actions).s;
    if s.client.phase.Done? && s.server.exited {
      EndToEnd(cfg, actions);
      more := [];
      assert actions + more == actions;
    } else {
      var a := Progress(cfg, actions);
      StepTaken(cfg, actions, a);
      var rest := Completes(cfg, actions + [a]);
      more := [a] + rest;
      assert actions + more == actions + [a] + rest;
    }
  }

  // ---------------------------------------------------------------------
  // With the clock
  // ---------------------------------------------------------------------

  ghost predicate NoTimedDrops(events: seq<Event>) {
    forall i :: 0 <= i < |events| ==> !IsDrop(events[i])
  }

  predicate IsDrop(e: Event) {
    e.Act? && e.a.Drop?
  }

  /** Per channel, the acknowledgements that have not reached the client yet. */
  ghost function Missing(cfg: Config, t: Timed): (r: seq<nat>)
    requires TShape(cfg, t)
    ensures |r| == cfg.channels
  {
    seq(cfg.channels, j requires 0 <= j < cfg.channels => |t.s.down[j]| - t.arrived[j])
  }

  /** Time until the current poll may expire. */
  ghost function Remaining(t: Timed): nat {
    if t.now < t.pollStart + t.timeout then t.pollStart + t.timeout - t.now else 0
  }

  ghost predicate AllArrived(cfg: Config, t: Timed)
    requires TShape(cfg, t)
  {
    forall j :: 0 <= j < cfg.channels ==> t.s.up[j] == [] && t.arrived[j] == |t.s.down[j]|
  }

  /** e is possible, is not a drop, and respects the bound; if it is not an action of one of the
      two ends, it brings the next one closer. */
  ghost predicate Helps(cfg: Config, t: Timed, rtt: nat, e: Event)
    requires TShape(cfg, t)
  {
    && TEnabled(cfg, t, e) && !IsDrop(e) && RoundTripBound(cfg, TNext(cfg, t, e), rtt)
    && (e.Tick? ==> e.d == Remaining(t) > 0)
  }

  /** The situation in which a step is looked for. */
  ghost predicate Underway(cfg: Config, t: Timed, rtt: nat) {
    && TShape(cfg, t) && QuietInv(cfg, t.s) && rtt >= 1 && RoundTripBound(cfg, t, rtt)
  }

  lemma SendHelps(cfg: Config, t: Timed, rtt: nat)
    requires Underway(cfg, t, rtt) && t.s.client.phase.Sending?
    ensures Helps(cfg, t, rtt, Act(Send))
  {
    hide QuietInv, SendChunk;
  }

  lemma FinHelps(cfg: Config, t: Timed, rtt: nat)
    requires Underway(cfg, t, rtt) && t.s.client.phase.SendFin?
    ensures Helps(cfg, t, rtt, Act(Fin))
  {
    hide QuietInv, FinPacket;
  }

  lemma ExitHelps(cfg: Config, t: Timed, rtt: nat)
    requires Underway(cfg, t, rtt) && t.s.client.phase.Done? && !t.s.server.exited
    ensures Helps(cfg, t, rtt, Act(Exit))
  {
    hide Inv, ChannelsInv, DeliveredUpTo;
  }

  /** While the client polls, the server is there for whatever is queued. */
  lemma ServerListens(cfg: Config, s: State, j: nat)
    requires QuietInv(cfg, s) && Polling(s.client) && j < cfg.channels && s.up[j] != []
    ensures !s.server.exited
  {
    hide ClientInv, SentInv, NetInv, Conserved, DeliveredUpTo;
    assert ChannelOk(cfg, s, j);
  }

  lemma AcceptHelps(cfg: Config, t: Timed, rtt: nat, j: nat)
    requires Underway(cfg, t, rtt) && Polling(t.s.client) && j < cfg.channels && t.s.up[j] != []
    ensures Helps(cfg, t, rtt, Act(Accept(j)))
  {
    hide QuietInv, Serve;
    ServerListens(cfg, t.s, j);
  }

  lemma ArriveHelps(cfg: Config, t: Timed, rtt: nat, j: nat)
    requires Underway(cfg, t, rtt) && j < cfg.channels && t.arrived[j] < |t.s.down[j]|
    ensures Helps(cfg, t, rtt, Arrive(j))
  {
    hide QuietInv;
  }

  lemma ReadHelps(cfg: Config, t: Timed, rtt: nat)
    requires Underway(cfg, t, rtt) && Polling(t.s.client) && AllArrived(cfg, t)
    requires t.s.down[Polled(t.s.client)] != []
    ensures Helps(cfg, t, rtt, Act(Read))
  {
    hide QuietInv, AfterAck;
  }

  lemma ExpireHelps(cfg: Config, t: Timed, rtt: nat)
    requires Underway(cfg, t, rtt) && Polling(t.s.client) && AllArrived(cfg, t)
    requires t.s.down[Polled(t.s.client)] == [] && Remaining(t) == 0
    ensures Helps(cfg, t, rtt, Act(Expire))
  {
    hide QuietInv, Outstanding;
  }

  lemma TickHelps(cfg: Config, t: Timed, rtt: nat)
    requires Underway(cfg, t, rtt) && AllArrived(cfg, t) && Remaining(t) > 0
    ensures Helps(cfg, t, rtt, Tick(Remaining(t)))
  {
    hide QuietInv;
  }

  /** Some event helps, until both ends have finished. */
  lemma TimedProgress(cfg: Config, t: Timed, rtt: nat) returns (e: Event)
    requires Underway(cfg, t, rtt) && !(t.s.client.phase.Done? && t.s.server.exited)
    ensures Helps(cfg, t, rtt, e)
  {
    hide QuietInv, Helps, RoundTripBound;
    var c := t.s.client;
    if c.phase.Sending? {
      SendHelps(cfg, t, rtt);
      e := Act(Send);
    } else if c.phase.SendFin? {
      FinHelps(cfg, t, rtt);
      e := Act(Fin);
    } else if c.phase.Done? {
      ExitHelps(cfg, t, rtt);
      e := Act(Exit);
    } else {
      if j: nat :| j < cfg.channels && t.s.up[j] != [] {
        AcceptHelps(cfg, t, rtt, j);
        e := Act(Accept(j));
      } else if j: nat :| j < cfg.channels && t.arrived[j] < |t.s.down[j]| {
        ArriveHelps(cfg, t, rtt, j);
        e := Arrive(j);
      } else if t.s.down[Polled(c)] != [] {
        ReadHelps(cfg, t, rtt);
        e := Act(Read);
      } else if Remaining(t) == 0 {
        ExpireHelps(cfg, t, rtt);
        e := Act(Expire);
      } else {
        TickHelps(cfg, t, rtt);
        e := Tick(Remaining(t));
      }
    }
  }

  /** An arrival or the passing of time changes no protocol state, and cannot go on for ever. */
  lemma WaitingEnds(cfg: Config, t: Timed, e: Event)
    requires TShape(cfg, t) && TEnabled(cfg, t, e) && !e.Act?
    requires e.Tick? ==> e.d == Remaining(t) > 0
    ensures var u := TNext(cfg, t, e);
      || Sum(Missing(cfg, u)) < Sum(Missing(cfg, t))
      || (Sum(Missing(cfg, u)) == Sum(Missing(cfg, t)) && Remaining(u) < Remaining(t))
  {
    hide Sum;
    var u := TNext(cfg, t, e);
    if e.Arrive? {
      assert Missing(cfg, t) == Missing(cfg, u)[e.ch := Missing(cfg, u)[e.ch] + 1];
      SumIncrement(Missing(cfg, u), e.ch);
    } else {
      assert Missing(cfg, u) == Missing(cfg, t);
    }
  }

  lemma UntimedSnoc(events: seq<Event>, e: Event)
    ensures Untimed(events + [e]) == if e.Act? then Untimed(events) + [e.a] else Untimed(events)
  {
    assert (events + [e])[..|events|] == events;
  }

  /** The measure of a timed run. */
  ghost function TimedStepsLeft(cfg: Config, events: seq<Event>, rtt: nat): nat
    requires cfg.Valid() && rtt <= TIMEOUT && TimelyRun(cfg, events, rtt)
  {
    TimelyRunsArePatient(cfg, events, rtt);
    StepsLeft(cfg, Untimed(events))
  }

  lemma TimedStepTaken(cfg: Config, events: seq<Event>, rtt: nat, e: Event)
    requires cfg.Valid() && rtt <= TIMEOUT && TimelyRun(cfg, events, rtt) && TimelyRun(cfg, events + [e], rtt)
    requires !IsDrop(e)
    ensures TimedStepsLeft(cfg, events + [e], rtt) == TimedStepsLeft(cfg, events, rtt) - if e.Act? then 1 else 0
  {
    hide TimelyRun, TExec, StepsLeft, PatientRun;
    UntimedSnoc(events, e);
    TimelyRunsArePatient(cfg, events + [e], rtt);
    if e.Act? {
      StepTaken(cfg, Untimed(events), e.a);
    }
  }

  /** Every timed run that has kept a round-trip bound between 1 and TIMEOUT extends, keeping the
      bound and without further drops, to one in which everything is delivered. */
  lemma {:induction false} TimelyCompletes(cfg: Config, events: seq<Event>, rtt: nat) returns (more: seq<Event>)
    requires cfg.Valid() && 1 <= rtt <= TIMEOUT && TimelyRun(cfg, events, rtt)
    requires RoundTripBound(cfg, TExec(cfg, events).t, rtt)
    ensures NoTimedDrops(more) && TimelyRun(cfg, events + more, rtt)
    ensures Complete(cfg, TExec(cfg, events + more).t.s)
    decreases TimedStepsLeft(cfg, events, rtt), Sum(Missing(cfg, TExec(cfg, events).t)), Remaining(TExec(cfg, events).t)
  {
    hide TimelyRun, TExec, TNext, TEnabled, RoundTripBound, TimedStepsLeft, Sum, Remaining, QuietInv, Stream;
    var t := TExec(cfg, events).t;
    TimelyRunsArePatient(cfg, events, rtt);
    PatientRunInv(cfg, Untimed(events));
    if t.s.client.phase.Done? && t.s.server.exited {
      TimelyEndToEnd(cfg, events, rtt);
      more := [];
      assert events + more == events;
    } else {
      var e := TimedProgress(cfg, t, rtt);
      TimelyStep(cfg, events, rtt, e);
      TimedStepTaken(cfg, events, rtt, e);
      if !e.Act? {
        WaitingEnds(cfg, t, e);
      }
      var rest := TimelyCompletes(cfg, events + [e], rtt);
      more := [e] + rest;
      assert events + more == events + [e] + rest;
    }
  }

  // ---------------------------------------------------------------------
  // A bound of 0
  // ---------------------------------------------------------------------

  lemma FirstAction(cfg: Config, t: Timed, a: Action)
    requires TShape(cfg, t) && t.s == Init(cfg) && TEnabled(cfg, t, Act(a))
    ensures a == Send && !RoundTripBound(cfg, TNext(cfg, t, Act(a)), 0)
    ensures !TNext(cfg, t, Act(a)).s.server.exited
  {
    hide SendChunk;
  }

  /** With a round-trip bound of 0 nothing can follow the first transmission, so no run completes:
      for that bound, delivery at the exit is an empty promise. */
  lemma {:induction false} NothingAfterZero(cfg: Config, events: seq<Event>)
    requires cfg.Valid() && TimelyRun(cfg, events, 0)
    ensures var t := TExec(cfg, events).t;
      && !t.s.server.exited
      && (t.s == Init(cfg) || !RoundTripBound(cfg, t, 0))
  {
    hide TNext, TEnabled, RoundTripBound;
    if events != [] {
      var front, e := events[..|events| - 1], events[|events| - 1];
      NothingAfterZero(cfg, front);
      var t := TExec(cfg, front).t;
      if e.Act? {
        FirstAction(cfg, t, e.a);
      } else {
        TNextState(cfg, t, e);
      }
    }
  }
}

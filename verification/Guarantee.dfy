/** For every input, chunk size and number of channels: exactly when delivery is guaranteed. */
module Guarantee {
  import opened Payload
  import opened Reassembly
  import opened Protocol
  import opened PollBudget
  import opened Certain
  import opened Loss

  // ---------------------------------------------------------------------
  // A lost packet is missing from the file
  // ---------------------------------------------------------------------

  lemma NotCovered(cfg: Config, k: nat, log: seq<Write>, n: nat, j: int)
    requires cfg.Valid() && DrawnFromChunks(cfg, n, log) && ChunkWrite(cfg, k) !in log
    requires Off(cfg, k) <= j < Off(cfg, k + 1)
    ensures !Covered(log, j)
  {
    hide Off, StreamLength;
    forall w | w in log
      ensures !Touches(w, j)
    {
      var m: nat :| m < n && w == ChunkWrite(cfg, m);
      if m < k {
        OffMonotone(cfg, m + 1, k);
      } else if m > k {
        OffMonotone(cfg, k + 1, m);
      }
    }
  }

  /** Losing packet k is noticed: one of its bytes is not NUL, or nothing follows it. */
  ghost predicate Noticed(cfg: Config, k: nat)
    requires Losable(cfg, k)
  {
    || (exists j :: Off(cfg, k) <= j < Off(cfg, k + 1) && Stream(cfg)[j] != 0)
    || (k == Total(cfg) - 2 && Part(cfg, Total(cfg) - 1) == [])
  }

  lemma LossIsNoticed(cfg: Config, k: nat, log: seq<Write>, n: nat, file: seq<Byte>)
    requires Losable(cfg, k) && Noticed(cfg, k) && ChunkWrite(cfg, k) !in log
    requires DrawnFromChunks(cfg, n, log) && Describes(Stream(cfg), log, file)
    ensures file != Stream(cfg)
  {
    hide Off, StreamLength, StreamByte, Total, Covered;
    var p := Stream(cfg);
    if j :| Off(cfg, k) <= j < Off(cfg, k + 1) && p[j] != 0 {
      NotCovered(cfg, k, log, n, j);
    } else {
      OffStrict(cfg, k, k + 1);
      TotalReachesEnd(cfg);
      NotCovered(cfg, k, log, n, |p| - 1);
    }
  }

  lemma HarmIsNoticed(cfg: Config) returns (k: nat)
    requires cfg.Valid() && !Harmless(cfg)
    ensures Losable(cfg, k) && Noticed(cfg, k)
  {
    hide Off, StreamLength, StreamByte, Total;
    var last := Total(cfg) - 1;
    if Part(cfg, last) == [] {
      k := last - 1;
    } else {
      var j :| Off(cfg, cfg.channels) <= j < Off(cfg, last) && Stream(cfg)[j] != 0;
      k := PartOf(cfg, last, j);
      if k < cfg.channels {
        OffMonotone(cfg, k + 1, cfg.channels);
        assert false;
      }
    }
  }

  // ---------------------------------------------------------------------
  // A run with one timeout takes little time
  // ---------------------------------------------------------------------

  /** The run has been performed with all acknowledgements read as they arrive and no time passing
      except for its timeouts. */
  ghost predicate Performed(cfg: Config, actions: seq<Action>, events: seq<Event>, rtt: nat)
    requires cfg.Valid()
  {
    && Exec(cfg, actions).At? && TimelyRun(cfg, events, rtt)
    && var t := TExec(cfg, events).t;
    && t.s == Exec(cfg, actions).s && t.now == Expiries(actions) * TIMEOUT
    && Unread(cfg, t)
  }

  ghost predicate Unread(cfg: Config, t: Timed)
    requires TShape(cfg, t)
  {
    forall j :: 0 <= j < cfg.channels ==> t.arrived[j] == 0
  }

  lemma QuickIsBounded(cfg: Config, t: Timed, rtt: nat)
    requires TShape(cfg, t) && t.now < rtt
    ensures RoundTripBound(cfg, t, rtt)
  {
  }

  lemma PlainEvent(cfg: Config, t: Timed, a: Action)
    requires TShape(cfg, t) && Enabled(cfg, t.s, a) && !a.Expire? && !a.Read? && Unread(cfg, t)
    ensures TEnabled(cfg, t, Act(a))
    ensures var u := TNext(cfg, t, Act(a)); u.s == Next(cfg, t.s, a) && u.now == t.now && Unread(cfg, u)
  {
    hide Next, Enabled;
  }

  lemma ReadEvents(cfg: Config, t: Timed)
    requires TShape(cfg, t) && Enabled(cfg, t.s, Read) && Unread(cfg, t)
    ensures Polled(t.s.client) < cfg.channels && TEnabled(cfg, t, Arrive(Polled(t.s.client)))
    ensures var u := TNext(cfg, t, Arrive(Polled(t.s.client)));
      && u.now == t.now && u.s == t.s && TEnabled(cfg, u, Act(Read))
      && var v := TNext(cfg, u, Act(Read)); v.s == Next(cfg, t.s, Read) && v.now == t.now && Unread(cfg, v)
  {
    hide Next;
  }

  lemma ExpireEvents(cfg: Config, t: Timed)
    requires TShape(cfg, t) && Enabled(cfg, t.s, Expire) && Unread(cfg, t) && BudgetInv(cfg, t)
    ensures TEnabled(cfg, t, Tick(TIMEOUT))
    ensures var u := TNext(cfg, t, Tick(TIMEOUT));
      && u.now == t.now + TIMEOUT && u.s == t.s && TEnabled(cfg, u, Act(Expire))
      && var v := TNext(cfg, u, Act(Expire)); v.s == Next(cfg, t.s, Expire) && v.now == u.now && Unread(cfg, v)
  {
    hide Next;
  }

  lemma PerformNext(cfg: Config, actions: seq<Action>, a: Action, events: seq<Event>, rtt: nat)
    returns (more: seq<Event>)
    requires cfg.Valid() && rtt > TIMEOUT && Performed(cfg, actions, events, rtt)
    requires Enabled(cfg, Exec(cfg, actions).s, a) && Expiries(actions) + (if a.Expire? then 1 else 0) <= 1
    ensures Performed(cfg, actions + [a], events + more, rtt)
  {
    hide Exec, TExec, TimelyRun, TNext, TEnabled, Next, Enabled, RoundTripBound, BudgetInv, Unread, Expiries;
    var t := TExec(cfg, events).t;
    OneAction(cfg, actions, a);
    QuickIsBounded(cfg, t, rtt);
    if a.Expire? {
      BudgetHolds(cfg, events);
      ExpireEvents(cfg, t);
      TimelyStep(cfg, events, rtt, Tick(TIMEOUT));
      more := [Tick(TIMEOUT), Act(a)];
      QuickIsBounded(cfg, TNext(cfg, t, Tick(TIMEOUT)), rtt);
      TimelyStep(cfg, events + [Tick(TIMEOUT)], rtt, Act(a));
      assert events + more == events + [Tick(TIMEOUT)] + [Act(a)];
    } else if a.Read? {
      var e := Arrive(Polled(t.s.client));
      ReadEvents(cfg, t);
      TimelyStep(cfg, events, rtt, e);
      more := [e, Act(a)];
      QuickIsBounded(cfg, TNext(cfg, t, e), rtt);
      TimelyStep(cfg, events + [e], rtt, Act(a));
      assert events + more == events + [e] + [Act(a)];
    } else {
      PlainEvent(cfg, t, a);
      TimelyStep(cfg, events, rtt, Act(a));
      more := [Act(a)];
    }
  }

  lemma PerformStart(cfg: Config, rtt: nat)
    requires cfg.Valid()
    ensures Performed(cfg, [], [], rtt)
  {
  }

  /** Every run with at most one timeout can be performed within any round-trip bound above TIMEOUT. */
  lemma {:induction false} Perform(cfg: Config, actions: seq<Action>, rtt: nat) returns (events: seq<Event>)
    requires cfg.Valid() && rtt > TIMEOUT && Exec(cfg, actions).At? && Expiries(actions) <= 1
    ensures Performed(cfg, actions, events, rtt)
  {
    hide Performed, Next, Enabled;
    if actions == [] {
      PerformStart(cfg, rtt);
      events := [];
    } else {
      var front, a := actions[..|actions| - 1], actions[|actions| - 1];
      assert actions == front + [a];
      events := Perform(cfg, front, rtt);
      var more := PerformNext(cfg, front, a, events, rtt);
      events := events + more;
    }
  }

  // ---------------------------------------------------------------------
  // The theorem
  // ---------------------------------------------------------------------

  /** Every transfer of this input whose round trips take at most rtt is complete when the server
      leaves its loop. */
  ghost predicate Delivers(cfg: Config, rtt: nat)
    requires cfg.Valid()
  {
    forall events: seq<Event> :: TimelyRun(cfg, events, rtt) && TExec(cfg, events).t.s.server.exited ==>
      TExec(cfg, events).t.s.server.file == Stream(cfg)
  }

  /** Otherwise some timely run ends without the whole file. */
  lemma HarmHappens(cfg: Config, rtt: nat) returns (events: seq<Event>)
    requires cfg.Valid() && rtt > TIMEOUT && !Harmless(cfg)
    ensures TimelyRun(cfg, events, rtt)
    ensures TExec(cfg, events).t.s.server.exited && TExec(cfg, events).t.s.server.file != Stream(cfg)
  {
    hide Exec, TExec, TimelyRun, Harmless, Noticed, Stream, ChunkWrite, DrawnFromChunks, Describes, ClientInv, Losable;
    var k := HarmIsNoticed(cfg);
    var lossy := PacketLost(cfg, k);
    events := Perform(cfg, lossy, rtt);
    var s := Exec(cfg, lossy).s;
    RunInv(cfg, lossy);
    ChunksAreDrawn(cfg, s.client.issued, s.log);
    FileContents(Stream(cfg), s.log);
    LossIsNoticed(cfg, k, s.log, s.client.issued, s.server.file);
  }

  /** A timed run is a run. */
  lemma {:induction false} TimedIsRun(cfg: Config, events: seq<Event>)
    requires cfg.Valid() && TExec(cfg, events).TAt?
    ensures Exec(cfg, Untimed(events)) == At(TExec(cfg, events).t.s)
  {
    hide Next, TNext, Enabled, TEnabled;
    if events == [] {
      assert TInit(cfg).s == Init(cfg);
    } else {
      var front, e := events[..|events| - 1], events[|events| - 1];
      TimedIsRun(cfg, front);
      TNextState(cfg, TExec(cfg, front).t, e);
      if e.Act? {
        assert Untimed(events)[..|Untimed(events)| - 1] == Untimed(front);
      }
    }
  }

  lemma HarmlessTimed(cfg: Config, events: seq<Event>)
    requires cfg.Valid() && Harmless(cfg) && TExec(cfg, events).TAt? && TExec(cfg, events).t.s.server.exited
    ensures TExec(cfg, events).t.s.server.file == Stream(cfg)
  {
    hide Exec, TExec, Harmless, Stream, ClientInv;
    TimedIsRun(cfg, events);
    RunInv(cfg, Untimed(events));
    HarmlessDelivers(cfg, Untimed(events));
  }

  /** Delivery of this input over these channels is guaranteed if and only if round trips take at most
      TIMEOUT, or the transfer has at most one packet more than channels, or the packets in
      between consist of NULs and the last packet is not empty. */
  lemma DeliversIff(cfg: Config, rtt: nat)
    requires cfg.Valid()
    ensures Delivers(cfg, rtt) <==> rtt <= TIMEOUT || Harmless(cfg)
  {
    hide TimelyRun, TExec, Harmless, Stream;
    if rtt <= TIMEOUT || Harmless(cfg) {
      forall events: seq<Event> | TimelyRun(cfg, events, rtt) && TExec(cfg, events).t.s.server.exited
        ensures TExec(cfg, events).t.s.server.file == Stream(cfg)
      {
        if rtt <= TIMEOUT {
          TimelyEndToEnd(cfg, events, rtt);
        } else {
          HarmlessTimed(cfg, events);
        }
      }
    } else {
      var events := HarmHappens(cfg, rtt);
    }
  }

  lemma NoNuls(s: seq<Byte>, lo: nat, hi: nat)
    requires 0 !in s && lo <= hi <= |s|
    ensures !HasNul(s, lo, hi)
  {
    forall j | lo <= j < hi
      ensures s[j] != 0
    {
      assert s[j] in s;
    }
  }

  lemma NoNulByte(cfg: Config, j: nat)
    requires cfg.Valid() && 0 !in cfg.input && j < |cfg.input|
    ensures StreamByte(cfg, j) != 0
  {
    hide HasNul;
    var lo := j - j % cfg.chunk;
    NoNuls(cfg.input, lo, j + 1);
    assert cfg.input[j] in cfg.input;
  }

  lemma NoNulInStream(cfg: Config, j: nat)
    requires cfg.Valid() && 0 !in cfg.input && j < StreamLength(cfg)
    ensures Stream(cfg)[j] != 0
  {
    hide Stream, StreamByte;
    NoNulByte(cfg, j);
    StreamAt(cfg, j);
  }

  /** For inputs without NULs the number of packets decides. */
  lemma DeliversWithoutNuls(cfg: Config, rtt: nat)
    requires cfg.Valid() && 0 !in cfg.input && rtt > TIMEOUT
    ensures Delivers(cfg, rtt) <==> Total(cfg) <= cfg.channels + 1
  {
    hide Delivers, Total, Off, Stream, StreamLength, Part;
    DeliversIff(cfg, rtt);
    if Total(cfg) > cfg.channels + 1 {
      OffStrict(cfg, cfg.channels, Total(cfg) - 1);
      NoNulInStream(cfg, Off(cfg, cfg.channels));
    }
  }
}

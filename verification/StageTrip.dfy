/**
 Whole trips, from any reachable state in which the device waits to be set up. With CMD 00, a closed door,
 CMD 01 and a CMD 02 with the configured id the device passes through a transport that would survive a
 power cut, and ends with the modelled globals and NVS as they left the factory. With a CMD 02 that comes
 early it passes transport by.
 */
module StageTrip {
  import opened DeviceState
  import opened StageMachine
  import opened StageRecovery
  import opened StageHandover
  import opened DeviceTasks
  import StageSkip

  ghost predicate Reachable(s: State) {
    exists steps :: Run(steps) == s
  }

  lemma StepIsReachable(s: State, step: Step)
    requires Reachable(s)
    ensures Reachable(Next(s, step))
  {
    var steps :| Run(steps) == s;
    RunStep(steps, step);
  }

  lemma CommandIsReachable(s: State, cmd: Command)
    requires Reachable(s) && s.ble.Idle?
    ensures Reachable(Drain(BeginCommand(s, cmd)))
  {
    StepIsReachable(s, Begin(cmd));
    var steps :| Run(steps) == BeginCommand(s, cmd);
    var more := DrainIsReachable(steps);
  }

  /** The stage task moves on `n` times with the door closed. */
  function Onward(s: State, n: nat): State
    decreases n
  {
    if n == 0 then s else Onward(Next(s, StageStep(true)), n - 1)
  }

  lemma {:induction false} OnwardIsReachable(s: State, n: nat)
    requires Reachable(s)
    ensures Reachable(Onward(s, n))
    decreases n
  {
    hide Next, Reachable;
    if n > 0 {
      StepIsReachable(s, StageStep(true));
      OnwardIsReachable(Next(s, StageStep(true)), n - 1);
    }
  }

  function AfterSetup(s: State, setup: SetupCommand): State {
    Onward(Drain(BeginCommand(s, Cmd00(setup))), 6)
  }

  function InTransit(s: State, setup: SetupCommand, e: RouteEntry): State {
    Onward(Drain(BeginCommand(AfterSetup(s, setup), Cmd01(e))), if e.onBoard then 1 else 2)
  }

  function Delivered(s: State, setup: SetupCommand, e: RouteEntry): State {
    var t := InTransit(s, setup, e);
    Onward(Drain(BeginCommand(t, Cmd02(t.ram.config.customerId))), 4)
  }

  lemma SetupEndsInStage2(s: State, setup: SetupCommand)
    requires s.pc == WaitConfig && s.ble.Idle? && Configure(s.ram.config, setup).containerId != ""
    ensures var c := Configure(s.ram.config, setup); var t := AfterSetup(s, setup);
            && t.nvs.wifiSsid == s.nvs.wifiSsid && t.pc == WaitRoute && t.ble.Idle? && InTransport(t.nvs)
            && t.ram == s.ram.(config := c, stage := STAGE_TRANSPORT, door := true)
  {
    var c := Configure(s.ram.config, setup);
    assert Saved(s.nvs, c).wifiSsid == s.nvs.wifiSsid;
    hide Configure, Saved, Drain;
    Cmd00IsFiveSaves(s, setup);
    var a := Drain(BeginCommand(s, Cmd00(setup)));
    assert a == s.(ram := s.ram.(config := c), nvs := Saved(s.nvs, c), log := s.log + [Configured(setup)]);
    hide BeginCommand;
    OnwardSix(a);
  }

  lemma OnwardSix(a: State)
    requires a.pc == WaitConfig && a.ram.config.containerId != ""
    ensures var t := Onward(a, 6);
            && t.pc == WaitRoute && t.ble == a.ble && InTransport(t.nvs) && t.nvs.wifiSsid == a.nvs.wifiSsid
            && t.ram == a.ram.(stage := STAGE_TRANSPORT, door := true)
  {
    hide Onward;
    var b := Next(Next(a, StageStep(true)), StageStep(true));
    assert b == a.(pc := Leave1);
    OnwardTwo(a, 4);
    LeavingStage1(b);
  }

  lemma LeavingStage1(b: State)
    requires b.pc == Leave1
    ensures var t := Onward(b, 4);
            && t.pc == WaitRoute && t.ble == b.ble && InTransport(t.nvs) && t.nvs.wifiSsid == b.nvs.wifiSsid
            && t.ram == b.ram.(stage := STAGE_TRANSPORT, door := true)
  {
    var c := Next(Next(b, StageStep(true)), StageStep(true));
    assert c.pc == SaveTransport && c.ram == b.ram.(stage := STAGE_TRANSPORT, door := true) && c.ble == b.ble;
    var d := Next(Next(c, StageStep(true)), StageStep(true));
    OnwardTwo(b, 2);
    OnwardTwo(c, 0);
    assert Onward(b, 4) == Onward(d, 0) == d;
  }

  lemma OnwardTwo(s: State, n: nat)
    ensures Onward(s, n + 2) == Onward(Next(Next(s, StageStep(true)), StageStep(true)), n)
  {
    hide Next;
    var t := Next(s, StageStep(true));
    assert Onward(s, n + 2) == Onward(t, n + 1) == Onward(Next(t, StageStep(true)), n);
  }

  /** A shipper by sea starts transport at once, one by land if Wi-Fi credentials are stored. */
  predicate CanStart(s: State, e: RouteEntry) {
    e.onBoard || s.nvs.wifiSsid.Or("") != ""
  }

  lemma FirstRouteStartsTransport(t: State, e: RouteEntry)
    requires t.pc == WaitRoute && t.ble.Idle? && CanStart(t, e)
    ensures var u := Onward(Drain(BeginCommand(t, Cmd01(e))), if e.onBoard then 1 else 2);
            && u.pc == Transport && u.ble.Idle? && u.nvs.routeCount == Some(u.ram.count)
            && u.nvs.stage == t.nvs.stage
            && u.ram.config == t.ram.config && u.ram.stage == t.ram.stage && u.ram.door == t.ram.door
            && u.ram.latestLoss == t.ram.latestLoss
            && History(u.ram) == Last16(History(t.ram) + [e])
  {
    AppendTakesLast(t.ram.slots, t.ram.count, e);
    Cmd01IsAppendAndSave(t, e);
    var a := Drain(BeginCommand(t, Cmd01(e)));
    assert a.pc == WaitRoute && a.ram.count > 0 && a.ram.slots[a.ram.count - 1] == e;
    assert a.nvs.wifiSsid == t.nvs.wifiSsid && a.nvs.routeCount == Some(a.ram.count);
    hide Drain, BeginCommand, Last16, AppendRoute;
    var b := Next(a, StageStep(true));
    if e.onBoard {
      assert b == a.(pc := Transport);
      assert Onward(a, 1) == Onward(b, 0) == b;
    } else {
      assert b == a.(pc := WaitWifi);
      OnwardTwo(a, 0);
      assert Onward(a, 2) == Next(b, StageStep(true)) == a.(pc := Transport);
    }
  }

  lemma ConfirmationEndsTrip(u: State)
    requires u.pc == Transport && u.ble.Idle?
    ensures var id := u.ram.config.customerId;
            var v := Onward(Drain(BeginCommand(u, Cmd02(id))), 4);
            && v.pc == Dispatch && v.ble.Idle? && v.nvs == ERASED
            && v.ram == POWER_ON.(latestLoss := u.ram.latestLoss)
            && v.log == u.log +
                   [Compared(id, id), WroteReceive(Transport), LeftTransport, Entered3, WroteStage(STAGE_SETUP), Wiped]
  {
    var id := u.ram.config.customerId;
    Cmd02IsTwoWrites(u);
    var a := Drain(BeginCommand(u, Cmd02(id)));
    assert a.pc == Transport && a.ble.Idle? && a.ram.stage == STAGE_RECEIVE;
    assert a.log == u.log + [Compared(id, id), WroteReceive(Transport)];
    hide Drain, BeginCommand;
    var b := Next(Next(a, StageStep(true)), StageStep(true));
    assert b.pc == Erase && b.log == a.log + [LeftTransport, Entered3];
    var c := Next(Next(b, StageStep(true)), StageStep(true));
    OnwardTwo(a, 2);
    OnwardTwo(b, 0);
    assert Onward(a, 4) == c;
  }

  /** A device fresh from the factory gets there by itself. */
  lemma FactoryWaitsForSetup()
    ensures Reachable(Onward(FACTORY, 8)) && Onward(FACTORY, 8).pc == WaitConfig && Onward(FACTORY, 8).ble.Idle?
  {
    assert Run([]) == FACTORY;
    OnwardIsReachable(FACTORY, 8);
    hide Onward, Reachable;
    var a := Next(Next(FACTORY, StageStep(true)), StageStep(true));
    assert a.pc == BadStage && a.ble.Idle?;
    var b := Next(Next(a, StageStep(true)), StageStep(true));
    assert b.pc == Enter1 && b.ble.Idle? && b.ram.config.containerId == "";
    OnwardTwo(FACTORY, 6);
    OnwardTwo(a, 4);
    EnteringStage1(b);
  }

  lemma EnteringStage1(b: State)
    requires b.pc == Enter1
    ensures Onward(b, 4).ble == b.ble
    ensures Onward(b, 4).pc == if b.ram.config.containerId == "" then WaitConfig else WaitDoor
  {
    var c := Next(Next(b, StageStep(true)), StageStep(true));
    assert c.pc == SaveSetup && c.ble == b.ble && c.ram.config == b.ram.config;
    var d := Next(Next(c, StageStep(true)), StageStep(true));
    OnwardTwo(b, 2);
    OnwardTwo(c, 0);
    assert Onward(b, 4) == Onward(d, 0) == d;
  }

  lemma TransitIsReached(s: State, setup: SetupCommand, e: RouteEntry)
    requires Reachable(s) && s.pc == WaitConfig && s.ble.Idle? && Configure(s.ram.config, setup).containerId != ""
    requires CanStart(s, e)
    ensures var u := InTransit(s, setup, e);
            && Reachable(u) && u.pc == Transport && u.ble.Idle? && u.nvs.routeCount == Some(u.ram.count)
            && InTransport(u.nvs) && u.ram.door && u.ram.latestLoss == s.ram.latestLoss
            && u.ram.config == Configure(s.ram.config, setup)
            && History(u.ram) == Last16(History(s.ram) + [e])
  {
    var t := AfterSetup(s, setup);
    hide Configure;
    SetupEndsInStage2(s, setup);
    FirstRouteStartsTransport(t, e);
    CommandIsReachable(s, Cmd00(setup));
    OnwardIsReachable(Drain(BeginCommand(s, Cmd00(setup))), 6);
    hide Onward, Drain, BeginCommand;
    CommandIsReachable(t, Cmd01(e));
    OnwardIsReachable(Drain(BeginCommand(t, Cmd01(e))), if e.onBoard then 1 else 2);
  }

  lemma TransitSurvives(u: State)
    requires Reachable(u) && u.pc == Transport && u.ble.Idle?
             && u.nvs.routeCount == Some(u.ram.count) && InTransport(u.nvs)
    ensures Persist(Recovered(u).ram.config) == Persist(u.ram.config) && History(Recovered(u).ram) == History(u.ram)
  {
    hide Run, Recovered;
    var steps :| Run(steps) == u;
    TransportSurvivesCrash(steps);
  }

  /** The trip can be made from every reachable state that waits for CMD 00; in transit the five fields and
      the history would survive a power cut, and at the end the modelled globals and NVS are as at first. */
  lemma TripEndsAsItBegan(s: State, setup: SetupCommand, e: RouteEntry)
    requires Reachable(s) && s.pc == WaitConfig && s.ble.Idle? && Configure(s.ram.config, setup).containerId != ""
    requires CanStart(s, e)
    ensures var u := InTransit(s, setup, e);
            && Reachable(u) && u.pc == Transport && u.ram.door && u.ram.config == Configure(s.ram.config, setup)
            && History(u.ram) == Last16(History(s.ram) + [e])
            && Persist(Recovered(u).ram.config) == Persist(u.ram.config)
            && History(Recovered(u).ram) == History(u.ram)
    ensures var v := Delivered(s, setup, e);
            && Reachable(v) && v.pc == Dispatch && v.nvs == ERASED
            && v.ram == POWER_ON.(latestLoss := s.ram.latestLoss)
  {
    var u := InTransit(s, setup, e);
    var id := u.ram.config.customerId;
    TransitIsReached(s, setup, e);
    ConfirmationEndsTrip(u);
    hide InTransit, Onward, Drain, BeginCommand, Configure, Recovered, Last16;
    TransitSurvives(u);
    CommandIsReachable(u, Cmd02(id));
    OnwardIsReachable(Drain(BeginCommand(u, Cmd02(id))), 4);
  }

  // ---------------------------------------------------------------- a trip without transport

  /** The door is closed and stage 1 has just written TRANSPORT. */
  function LeavingSetup(s: State, setup: SetupCommand): State {
    Onward(Drain(BeginCommand(s, Cmd00(setup))), 3)
  }

  /** CMD 02 comes then, before the last two NVS writes, and the stage task goes on. */
  function Skipping(s: State, setup: SetupCommand): State {
    var t := LeavingSetup(s, setup);
    StageSteps(Drain(BeginCommand(t, Cmd02(t.ram.config.customerId))), 3)
  }

  lemma LeavingIsReached(s: State, setup: SetupCommand)
    requires Reachable(s) && s.pc == WaitConfig && s.ble.Idle? && Configure(s.ram.config, setup).containerId != ""
    ensures var t := LeavingSetup(s, setup); Reachable(t) && t.pc == SaveDoorOn && t.ble.Idle?
  {
    CommandIsReachable(s, Cmd00(setup));
    hide Configure, Drain, BeginCommand, Reachable, Saved;
    Cmd00IsFiveSaves(s, setup);
    var a := Drain(BeginCommand(s, Cmd00(setup)));
    OnwardIsReachable(a, 3);
    OnwardTwo(a, 1);
    var b := Next(Next(a, StageStep(true)), StageStep(true));
    assert b.pc == Leave1 && b.ble.Idle?;
    assert Onward(b, 1) == Onward(Next(b, StageStep(true)), 0);
  }

  lemma {:induction false} AloneIsReachable(s: State, n: nat)
    requires Reachable(s)
    ensures Reachable(StageSteps(s, n))
    decreases n
  {
    hide StageTask, Reachable;
    if n > 0 {
      StepIsReachable(s, StageStep(false));
      AloneIsReachable(StageTask(s, false), n - 1);
    }
  }

  /** Reachable from the factory too: a device that is set up and confirmed at once enters stage 3 without
      having been in the transport loop. */
  lemma TransportCanBeSkipped(s: State, setup: SetupCommand)
    requires Reachable(s) && s.pc == WaitConfig && s.ble.Idle? && Configure(s.ram.config, setup).containerId != ""
    ensures var v := Skipping(s, setup);
            Reachable(v) && v.pc == Erase && v.log != [] && Last(v.log) == Entered3 && !StageSkip.LoopEnded(v.log)
  {
    var t := LeavingSetup(s, setup);
    var u := Drain(BeginCommand(t, Cmd02(t.ram.config.customerId)));
    LeavingIsReached(s, setup);
    CommandIsReachable(t, Cmd02(t.ram.config.customerId));
    Cmd02IsTwoWrites(t);
    hide LeavingSetup, Configure, Drain, BeginCommand, Reachable, StageSteps;
    SkipInvariant(u);
    AloneIsReachable(u, 3);
    ConfirmedSkips(u);
  }

  lemma ConfirmedSkips(u: State)
    requires u.pc == SaveDoorOn && u.ram.stage == STAGE_RECEIVE && !StageSkip.LoopEnded(u.log)
    ensures var v := StageSteps(u, 3);
            v.pc == Erase && v.log != [] && Last(v.log) == Entered3 && !StageSkip.LoopEnded(v.log)
  {
    hide StageSteps, StageSkip.LoopEnded;
    StageSkip.SkippingPlacesSkip(u);
  }

  lemma SkipInvariant(s: State)
    requires Reachable(s) && StageSkip.Skips(s.pc) && s.pc != Dispatch
    ensures !StageSkip.LoopEnded(s.log)
  {
    hide Run, StageSkip.LoopEnded, StageSkip.BecameReceive, StageSkip.EntriesOk;
    var steps :| Run(steps) == s;
    StageSkip.RunIsSkipOk(steps);
  }

  /** A device fresh from the factory, whose configured id is empty, enters stage 3 on a CMD 02 with the empty
      id while the stage task stands at its first dispatch. */
  lemma FactoryConfirmsEmptyId()
    ensures var u := Drain(BeginCommand(Next(FACTORY, StageStep(true)), Cmd02("")));
            var v := StageSteps(u, 1);
            Reachable(v) && v.pc == Erase && v.log != [] && Last(v.log) == Entered3 && !StageSkip.LoopEnded(v.log)
  {
    assert Run([]) == FACTORY;
    StepIsReachable(FACTORY, StageStep(true));
    var d := Next(FACTORY, StageStep(true));
    assert d.pc == Dispatch && d.ble.Idle? && d.ram.config.customerId == "" && d.log == [] + [WroteStage(0)];
    CommandIsReachable(d, Cmd02(""));
    Cmd02IsTwoWrites(d);
    var u := Drain(BeginCommand(d, Cmd02("")));
    assert u.log == d.log + [Compared("", "")] + [WroteReceive(Dispatch)];
    assert !StageSkip.LoopEnded([]);
    StageSkip.NotEndedStays([], WroteStage(0));
    StageSkip.NotEndedStays(d.log, Compared("", ""));
    StageSkip.NotEndedStays(d.log + [Compared("", "")], WroteReceive(Dispatch));
    hide Drain, BeginCommand, Run, Reachable, StageSkip.LoopEnded, StageSteps;
    AloneIsReachable(u, 1);
    StageSkip.SkippingPlacesSkip(u);
  }
}

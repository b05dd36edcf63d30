/**
 The command handlers and the straight-line parts of the stage task as the firmware runs them when
 nothing interrupts them, on the globals and the NVS namespace they update in place. Each is tied to the
 step functions of StageMachine, so what is proved of all interleavings holds of these too.
 */
module DeviceTasks {
  import opened DeviceState
  import opened StageMachine
  import opened StageRecovery

  // ---------------------------------------------------------------- requests

  /** The "des" object: each field is there with the right JSON type, or it is not. */
  datatype Des = Des(setup: SetupCommand, shipperId: Option<string>, isOnBoard: Option<bool>,
                     timestamp: Option<string>, value: Option<int>, targetId: Option<string>,
                     ssid: Option<string>, password: Option<string>)

  datatype Request = Request(command: Option<string>, des: Option<Des>)

  function EntryOf(d: Des): RouteEntry {
    RouteEntry(CopyStr(d.shipperId, 32, ""), d.isOnBoard.Or(false), CopyStr(d.timestamp, 32, ""))
  }

  /** The command a request asks for: none if the text is not JSON, the command is missing or
      unknown, "des" is missing, or a field the command cannot do without is missing. */
  function Decode(request: Option<Request>): Option<Command> {
    if request.None? || request.value.command.None? || request.value.des.None? then None
    else
      var d := request.value.des.value;
      match request.value.command.value
      case "00" => Some(Cmd00(d.setup))
      case "01" => Some(Cmd01(EntryOf(d)))
      case "02" => if d.setup.customerId.Some? then Some(Cmd02(d.setup.customerId.value)) else None
      case "03" => if d.value.Some? then Some(Cmd03(d.value.value)) else None
      case "04" => if d.value.Some? then Some(Cmd04(d.value.value)) else None
      case "05" => if d.targetId.Some? then Some(Cmd05(d.targetId.value)) else None
      case "08" => Some(Cmd08(CopyStr(d.ssid, 32, ""), CopyStr(d.password, 64, "")))
      case _ => None
  }

  /** `copy` is what strlcpy leaves of a given text in `size` bytes, or the old text if none is given. */
  predicate IsCopy(copy: string, given: Option<string>, size: nat, old': string) {
    if given.None? then copy == old'
    else copy <= given.value && |copy| == if |given.value| < size then |given.value| else size - 1
  }

  lemma CopyIsCopy(given: Option<string>, size: nat, old': string)
    requires size > 0
    ensures IsCopy(CopyStr(given, size, old'), given, size, old')
  {
  }

  /** The configuration after CMD 00, field by field. */
  predicate IsConfigured(c: Config, setup: SetupCommand, old': Config) {
    && IsCopy(c.containerId, setup.containerId, 32, old'.containerId)
    && IsCopy(c.customerId, setup.customerId, 32, old'.customerId)
    && IsCopy(c.providerId, setup.providerId, 32, old'.providerId)
    && c.humidThreshold == (if setup.humidThreshold.Some? then setup.humidThreshold.value else old'.humidThreshold)
    && c.weight == (if setup.weight.Some? then setup.weight.value else old'.weight)
    && IsCopy(c.product, setup.product, 32, old'.product)
    && IsCopy(c.origin, setup.origin, 64, old'.origin)
    && IsCopy(c.destination, setup.destination, 64, old'.destination)
    && IsCopy(c.released, setup.released, 32, old'.released)
  }

  lemma ConfigureSpeltOut(c: Config, setup: SetupCommand)
    ensures IsConfigured(Configure(c, setup), setup, c)
  {
    CopyIsCopy(setup.containerId, 32, c.containerId);
    CopyIsCopy(setup.customerId, 32, c.customerId);
    CopyIsCopy(setup.providerId, 32, c.providerId);
    CopyIsCopy(setup.product, 32, c.product);
    CopyIsCopy(setup.origin, 64, c.origin);
    CopyIsCopy(setup.destination, 64, c.destination);
    CopyIsCopy(setup.released, 32, c.released);
    hide IsCopy, CopyStr;
  }

  predicate IsEntry(e: RouteEntry, d: Des) {
    && IsCopy(e.shipperId, d.shipperId, 32, "")
    && e.onBoard == (d.isOnBoard.Some? && d.isOnBoard.value)
    && IsCopy(e.timestamp, d.timestamp, 32, "")
  }

  lemma EntrySpeltOut(d: Des)
    ensures IsEntry(EntryOf(d), d)
  {
    CopyIsCopy(d.shipperId, 32, "");
    CopyIsCopy(d.timestamp, 32, "");
    hide IsCopy, CopyStr;
  }

  /** The request parsed, names this command and has a "des" object. */
  predicate Asks(request: Option<Request>, command: string) {
    request.Some? && request.value.command == Some(command) && request.value.des.Some?
  }

  predicate AsksOneOfSeven(request: Option<Request>) {
    || Asks(request, "00") || Asks(request, "01") || Asks(request, "02") || Asks(request, "03")
    || Asks(request, "04") || Asks(request, "05") || Asks(request, "08")
  }

  /** Which command a request is taken for, request by request. */
  lemma DecodeSpeltOut(request: Option<Request>)
    ensures Asks(request, "00") ==> Decode(request) == Some(Cmd00(request.value.des.value.setup))
    ensures Asks(request, "01") ==> Decode(request) == Some(Cmd01(EntryOf(request.value.des.value)))
    ensures Asks(request, "02") ==>
              var id := request.value.des.value.setup.customerId;
              Decode(request) == if id.Some? then Some(Cmd02(id.value)) else None
    ensures Asks(request, "03") ==>
              var v := request.value.des.value.value; Decode(request) == if v.Some? then Some(Cmd03(v.value)) else None
    ensures Asks(request, "04") ==>
              var v := request.value.des.value.value; Decode(request) == if v.Some? then Some(Cmd04(v.value)) else None
    ensures Asks(request, "05") ==>
              var id := request.value.des.value.targetId;
              Decode(request) == if id.Some? then Some(Cmd05(id.value)) else None
    ensures Asks(request, "08") ==>
              var d := request.value.des.value;
              Decode(request) == Some(Cmd08(CopyStr(d.ssid, 32, ""), CopyStr(d.password, 64, "")))
    ensures !AsksOneOfSeven(request) ==> Decode(request) == None
  {
  }

  // ---------------------------------------------------------------- uninterrupted runs of the steps

  function StepsLeft(b: BlePc): nat {
    match b
    case Idle => 0
    case SavingConfig(k) => 5 - k
    case SaveRoutes => 3
    case SaveBlob(_) | DoorOff | SaveSsid(_, _) => 2
    case SaveCount(_) | Receive | SaveFan(_) | SaveUv(_) | SavePass(_) => 1
  }

  /** The command being handled runs to its end. */
  function Drain(s: State): State
    decreases StepsLeft(s.ble)
  {
    if s.ble.Idle? then s else Drain(BleTask(s))
  }

  lemma DrainStep(s: State)
    ensures if s.ble.Idle? then Drain(s) == s
            else Drain(s) == Drain(BleTask(s)) && StepsLeft(BleTask(s).ble) < StepsLeft(s.ble)
  {
  }

  /** A command handled without interruption is one of the interleavings: whatever holds in every run holds after it. */
  lemma {:induction false} DrainIsReachable(steps: seq<Step>) returns (more: seq<Step>)
    ensures Run(steps + more) == Drain(Run(steps))
    decreases StepsLeft(Run(steps).ble)
  {
    hide BleTask, Drain, Run, StepsLeft;
    DrainStep(Run(steps));
    if Run(steps).ble.Idle? {
      more := [];
      assert steps + more == steps;
    } else {
      RunStep(steps, BleStep);
      var rest := DrainIsReachable(steps + [BleStep]);
      more := [BleStep] + rest;
      assert steps + more == steps + [BleStep] + rest;
    }
  }

  function Undisturbed(pc: StagePc, ram: Ram, nvs: Nvs): State {
    State(ram, nvs, pc, Idle, [])
  }

  /** What a command makes of an idle device. */
  function Handled(ram: Ram, nvs: Nvs, cmd: Command): State {
    Drain(BeginCommand(Undisturbed(Dispatch, ram, nvs), cmd))
  }

  class Device {
    var stage: int
    var door: bool
    var fan: bool
    var uv: bool
    var config: Config
    const routes: array<RouteEntry>
    var count: RouteCount
    var latestLoss: real
    var nvs: Nvs

    ghost predicate Valid() {
      routes.Length == MAX_ROUTE_HISTORY
    }

    ghost function Globals(): Ram
      reads this, routes
      requires Valid()
    {
      Ram(stage, door, fan, uv, config, routes[..], count, latestLoss)
    }

    constructor (nvs: Nvs)
      ensures Valid() && fresh(routes) && Globals() == POWER_ON && this.nvs == nvs
    {
      stage, door, fan, uv, config, count, latestLoss := STAGE_SETUP, false, false, false, NO_CONFIG, 0, 0.0;
      routes := new RouteEntry[MAX_ROUTE_HISTORY](_ => NO_ENTRY);
      this.nvs := nvs;
    }

    // -------------------------------------------------------------- BLE commands

    /** ble_handler_process: a request that asks for nothing changes nothing. `flood` is the target of the
        flood that CMD 05 starts. */
    method Process(request: Option<Request>) returns (accepted: bool, flood: Option<string>)
      requires Valid()
      modifies this, routes
      ensures Valid() && (accepted <==> Decode(request).Some?)
      ensures !accepted ==> Globals() == old(Globals()) && nvs == old(nvs)
      ensures accepted ==>
                var t := Handled(old(Globals()), old(nvs), Decode(request).value);
                Globals() == t.ram && nvs == t.nvs
      ensures accepted <==>
                || Asks(request, "00") || Asks(request, "01") || Asks(request, "08")
                || (Asks(request, "02") && request.value.des.value.setup.customerId.Some?)
                || ((Asks(request, "03") || Asks(request, "04")) && request.value.des.value.value.Some?)
                || (Asks(request, "05") && request.value.des.value.targetId.Some?)
      ensures flood == if Asks(request, "05") then request.value.des.value.targetId else None
      ensures Asks(request, "00") ==>
                && IsConfigured(config, request.value.des.value.setup, old(config))
                && Globals() == old(Globals()).(config := config)
                && nvs == old(nvs).(containerId := Some(config.containerId), customerId := Some(config.customerId),
                                    providerId := Some(config.providerId),
                                    humidThreshold := Some(config.humidThreshold), weight := Some(config.weight))
      ensures Asks(request, "01") ==>
                && count > 0 && IsEntry(routes[count - 1], request.value.des.value)
                && routes[..count] == Last16(old(routes[..count]) + [routes[count - 1]])
                && Globals() == old(Globals()).(slots := routes[..], count := count)
                && nvs == old(nvs).(routes := Some(routes[..count]), routeCount := Some(count))
      ensures accepted && Asks(request, "02") ==>
                && nvs == old(nvs)
                && Globals() == if request.value.des.value.setup.customerId.value == old(config.customerId)
                                then old(Globals()).(door := false, stage := 3) else old(Globals())
      ensures accepted && Asks(request, "03") ==>
                var on := request.value.des.value.value.value == 1;
                Globals() == old(Globals()).(fan := on) && nvs == old(nvs).(fan := Some(on))
      ensures accepted && Asks(request, "04") ==>
                var on := request.value.des.value.value.value == 1;
                Globals() == old(Globals()).(uv := on) && nvs == old(nvs).(uv := Some(on))
      ensures Asks(request, "05") ==> Globals() == old(Globals()) && nvs == old(nvs)
      ensures Asks(request, "08") ==>
                && Globals() == old(Globals()) && nvs.wifiSsid.Some? && nvs.wifiPass.Some?
                && IsCopy(nvs.wifiSsid.value, request.value.des.value.ssid, 32, "")
                && IsCopy(nvs.wifiPass.value, request.value.des.value.password, 64, "")
                && nvs == old(nvs).(wifiSsid := nvs.wifiSsid, wifiPass := nvs.wifiPass)
    {
      var cmd := Decode(request);
      DecodeSpeltOut(request);
      hide Decode, Handled, Last16, EntryOf, IsCopy, CopyStr, IsConfigured, IsEntry;
      flood := None;
      accepted := cmd.Some?;
      if accepted {
        match cmd.value
        case Cmd00(setup) => HandleCmd00(setup);
        case Cmd01(e) =>
          HandleCmd01(e);
          EntrySpeltOut(request.value.des.value);
        case Cmd02(id) => var _ := HandleCmd02(id);
        case Cmd03(v) => HandleCmd03(v);
        case Cmd04(v) => HandleCmd04(v);
        case Cmd05(target) =>
          FloodIsNoSave(Globals(), nvs, target);
          flood := Some(target);
        case Cmd08(ssid, pass) =>
          HandleCmd08(ssid, pass);
          CopyIsCopy(request.value.des.value.ssid, 32, "");
          CopyIsCopy(request.value.des.value.password, 64, "");
      }
    }

    method HandleCmd00(setup: SetupCommand)
      requires Valid()
      modifies this
      ensures var t := Handled(old(Globals()), old(nvs), Cmd00(setup)); Globals() == t.ram && nvs == t.nvs
      ensures IsConfigured(config, setup, old(config)) && Globals() == old(Globals()).(config := config)
      ensures nvs == old(nvs).(containerId := Some(config.containerId), customerId := Some(config.customerId),
                               providerId := Some(config.providerId),
                               humidThreshold := Some(config.humidThreshold), weight := Some(config.weight))
    {
      ConfigureSpeltOut(config, setup);
      hide Configure, IsConfigured;
      config := Configure(config, setup);
      SaveConfig();
      Cmd00IsFiveSaves(Undisturbed(Dispatch, old(Globals()), old(nvs)), setup);
    }

    /** nvs_save_container_config. */
    method SaveConfig()
      requires Valid()
      modifies this`nvs
      ensures nvs == Saved(old(nvs), config)
    {
      nvs := nvs.(containerId := Some(config.containerId));
      nvs := nvs.(customerId := Some(config.customerId));
      nvs := nvs.(providerId := Some(config.providerId));
      nvs := nvs.(humidThreshold := Some(config.humidThreshold));
      nvs := nvs.(weight := Some(config.weight));
    }

    /** The history becomes the last 16 of the old one and the new entry, in RAM and in NVS. */
    method HandleCmd01(e: RouteEntry)
      requires Valid()
      modifies this, routes
      ensures var t := Handled(old(Globals()), old(nvs), Cmd01(e)); Globals() == t.ram && nvs == t.nvs
      ensures routes[..count] == Last16(old(routes[..count]) + [e])
      ensures nvs == old(nvs).(routes := Some(routes[..count]), routeCount := Some(count))
      ensures count > 0 && routes[count - 1] == e
      ensures Globals() == old(Globals()).(slots := routes[..], count := count)
    {
      if count < MAX_ROUTE_HISTORY {
        routes[count] := e;
        count := count + 1;
      } else {
        forall i | 0 <= i < MAX_ROUTE_HISTORY - 1 {
          routes[i] := routes[i + 1];
        }
        routes[MAX_ROUTE_HISTORY - 1] := e;
        assert routes[..] == old(routes[..])[1..] + [e];
      }
      SaveRouteHistory(count);
      AppendTakesLast(old(routes[..]), old(count), e);
      assert old(routes[..])[..old(count)] == old(routes[..count]);
      assert routes[..][..count] == routes[..count];
      Cmd01IsAppendAndSave(Undisturbed(Dispatch, old(Globals()), old(nvs)), e);
    }

    /** nvs_save_route_history. */
    method SaveRouteHistory(n: RouteCount)
      requires Valid()
      modifies this`nvs
      ensures nvs == old(nvs).(routes := Some(routes[..n]), routeCount := Some(n))
    {
      nvs := nvs.(routes := Some(routes[..n]));
      nvs := nvs.(routeCount := Some(n));
    }

    method HandleCmd02(customerId: string) returns (confirmed: bool)
      requires Valid()
      modifies this`door, this`stage
      ensures confirmed <==> customerId == config.customerId
      ensures if confirmed then stage == STAGE_RECEIVE && !door else stage == old(stage) && door == old(door)
      ensures var t := Handled(old(Globals()), old(nvs), Cmd02(customerId)); Globals() == t.ram && nvs == t.nvs
    {
      confirmed := customerId == config.customerId;
      if !confirmed {
        return;
      }
      door := false;
      stage := STAGE_RECEIVE;
      Cmd02IsTwoWrites(Undisturbed(Dispatch, old(Globals()), nvs));
    }

    method HandleCmd03(value: int)
      requires Valid()
      modifies this`fan, this`nvs
      ensures var t := Handled(old(Globals()), old(nvs), Cmd03(value)); Globals() == t.ram && nvs == t.nvs
      ensures fan == (value == 1) && nvs == old(nvs).(fan := Some(value == 1))
    {
      fan := value == 1;
      nvs := nvs.(fan := Some(value == 1));
      SwitchIsOneSave(old(Globals()), old(nvs), value);
    }

    method HandleCmd04(value: int)
      requires Valid()
      modifies this`uv, this`nvs
      ensures var t := Handled(old(Globals()), old(nvs), Cmd04(value)); Globals() == t.ram && nvs == t.nvs
      ensures uv == (value == 1) && nvs == old(nvs).(uv := Some(value == 1))
    {
      uv := value == 1;
      nvs := nvs.(uv := Some(value == 1));
      SwitchIsOneSave(old(Globals()), old(nvs), value);
    }

    method HandleCmd08(ssid: string, pass: string)
      requires Valid()
      modifies this`nvs
      ensures var t := Handled(old(Globals()), old(nvs), Cmd08(ssid, pass)); Globals() == t.ram && nvs == t.nvs
      ensures nvs == old(nvs).(wifiSsid := Some(ssid), wifiPass := Some(pass))
    {
      nvs := nvs.(wifiSsid := Some(ssid));
      nvs := nvs.(wifiPass := Some(pass));
      CredentialsAreTwoSaves(old(Globals()), old(nvs), ssid, pass);
    }

    // -------------------------------------------------------------- the stage task

    /** stage_machine_run up to its loop. */
    method Boot()
      requires Valid()
      modifies this, routes
      ensures var t := StageSteps(Undisturbed(BootStage, old(Globals()), nvs), if InTransport(nvs) then 4 else 1);
              Globals() == t.ram && t.pc == Dispatch
      ensures nvs == old(nvs) && latestLoss == old(latestLoss)
      ensures nvs.stage != Some(2) ==> Globals() == old(Globals()).(stage := nvs.stage.Or(0))
      ensures nvs.stage == Some(2) ==>
                && stage == 2 && count == nvs.routeCount.Or(0)
                && door == nvs.door.Or(false) && fan == nvs.fan.Or(false) && uv == nvs.uv.Or(false)
                && config == old(config).(containerId := nvs.containerId.Or(old(config.containerId)),
                                          customerId := nvs.customerId.Or(old(config.customerId)),
                                          providerId := nvs.providerId.Or(old(config.providerId)),
                                          humidThreshold := nvs.humidThreshold.Or(old(config.humidThreshold)),
                                          weight := nvs.weight.Or(old(config.weight)))
      ensures nvs.stage == Some(2) && nvs.routes.Some? && nvs.routeCount == Some(|nvs.routes.value|) ==>
                routes[..count] == nvs.routes.value
    {
      LoadConfigSpeltOut(config, nvs);
      hide LoadConfig;
      var saved := nvs.stage.Or(0);
      stage := saved;
      if saved == STAGE_TRANSPORT {
        config := LoadConfig(config, nvs);
        LoadRouteHistory();
        door := nvs.door.Or(false);
        fan := nvs.fan.Or(false);
        uv := nvs.uv.Or(false);
      }
      BootIsFourSteps(old(Globals()), nvs);
    }

    /** nvs_load_route_history. */
    method LoadRouteHistory()
      requires Valid()
      modifies this`count, routes
      ensures var r := LoadRoutes(old(routes[..]), nvs); routes[..] == r.0 && count == r.1
      ensures count == nvs.routeCount.Or(0)
      ensures nvs.routes.Some? && nvs.routeCount == Some(|nvs.routes.value|) ==> routes[..count] == nvs.routes.value
    {
      count := nvs.routeCount.Or(0);
      if count > 0 && nvs.routes.Some? && |nvs.routes.value| <= count {
        var blob := nvs.routes.value;
        forall i | 0 <= i < |blob| {
          routes[i] := blob[i];
        }
        assert routes[..] == blob + old(routes[..])[|blob|..];
      }
    }

    /** run_stage1 before it waits. */
    method EnterSetup()
      requires Valid()
      modifies this
      ensures var t := StageSteps(Undisturbed(Enter1, old(Globals()), old(nvs)), 3);
              Globals() == t.ram && nvs == t.nvs && t.pc == WaitConfig
      ensures Globals() == old(Globals()).(stage := 1, door := false)
      ensures nvs == old(nvs).(stage := Some(1), door := Some(false))
    {
      door, stage := false, STAGE_SETUP;
      nvs := nvs.(door := Some(false));
      nvs := nvs.(stage := Some(STAGE_SETUP));
      ThreeSteps(Undisturbed(Enter1, old(Globals()), old(nvs)));
    }

    /** run_stage1 once the door is closed. */
    method LeaveSetup()
      requires Valid()
      modifies this
      ensures var t := StageSteps(Undisturbed(Leave1, old(Globals()), old(nvs)), 3);
              Globals() == t.ram && nvs == t.nvs && t.pc == Dispatch
      ensures Globals() == old(Globals()).(stage := 2, door := true)
      ensures nvs == old(nvs).(stage := Some(2), door := Some(true))
    {
      door, stage := true, STAGE_TRANSPORT;
      nvs := nvs.(door := Some(true));
      nvs := nvs.(stage := Some(STAGE_TRANSPORT));
      ThreeSteps(Undisturbed(Leave1, old(Globals()), old(nvs)));
    }

    /** The end of run_stage3: NVS is as it left the factory, and so are these globals but for the latest
        telemetry, whose loss the next trip starts from. */
    method FinishReceive()
      requires Valid()
      modifies this, routes
      ensures Globals() == POWER_ON.(latestLoss := old(latestLoss)) && nvs == ERASED
      ensures var t := StageSteps(Undisturbed(Erase, old(Globals()), old(nvs)), 2);
              Globals() == t.ram && nvs == t.nvs && t.pc == Dispatch
    {
      nvs := ERASED;
      config := NO_CONFIG;
      forall i | 0 <= i < MAX_ROUTE_HISTORY {
        routes[i] := NO_ENTRY;
      }
      assert routes[..] == NO_ROUTES;
      count := 0;
      door, fan, uv := false, false, false;
      stage := STAGE_SETUP;
      TwoSteps(Undisturbed(Erase, old(Globals()), old(nvs)));
    }
  }

  // ---------------------------------------------------------------- the steps spelt out

  lemma LoadConfigSpeltOut(c: Config, n: Nvs)
    ensures LoadConfig(c, n) == c.(containerId := n.containerId.Or(c.containerId),
                                   customerId := n.customerId.Or(c.customerId),
                                   providerId := n.providerId.Or(c.providerId),
                                   humidThreshold := n.humidThreshold.Or(c.humidThreshold),
                                   weight := n.weight.Or(c.weight))
  {
  }

  lemma Cmd00IsFiveSaves(s: State, setup: SetupCommand)
    requires s.ble.Idle?
    ensures var c := Configure(s.ram.config, setup);
            Drain(BeginCommand(s, Cmd00(setup)))
            == s.(ram := s.ram.(config := c), nvs := Saved(s.nvs, c), log := s.log + [Configured(setup)])
  {
    hide Configure, SaveField;
    var s0 := BeginCommand(s, Cmd00(setup));
    var s1 := BleTask(s0);
    var s2 := BleTask(s1);
    var s3 := BleTask(s2);
    var s4 := BleTask(s3);
    var s5 := BleTask(s4);
    assert Drain(s0) == Drain(s1) == Drain(s2) == Drain(s3) == Drain(s4) == Drain(s5) == s5;
  }

  lemma Cmd01IsAppendAndSave(s: State, e: RouteEntry)
    requires s.ble.Idle?
    ensures var r := AppendRoute(s.ram.slots, s.ram.count, e);
            Drain(BeginCommand(s, Cmd01(e)))
            == s.(ram := s.ram.(slots := r.0, count := r.1),
                  nvs := s.nvs.(routes := Some(r.0[..r.1]), routeCount := Some(r.1)),
                  log := s.log + [Routed(e)])
  {
    hide AppendRoute;
    var s0 := BeginCommand(s, Cmd01(e));
    var s1 := BleTask(s0);
    var s2 := BleTask(s1);
    var s3 := BleTask(s2);
    assert Drain(s0) == Drain(s1) == Drain(s2) == Drain(s3) == s3;
  }

  lemma Cmd02IsTwoWrites(s: State)
    requires s.ble.Idle?
    ensures var id := s.ram.config.customerId;
            Drain(BeginCommand(s, Cmd02(id)))
            == s.(ram := s.ram.(door := false, stage := STAGE_RECEIVE),
                  log := s.log + [Compared(id, id), WroteReceive(s.pc)])
  {
    var id := s.ram.config.customerId;
    var s0 := BeginCommand(s, Cmd02(id));
    var s1 := BleTask(s0);
    var s2 := BleTask(s1);
    assert Drain(s0) == Drain(s1) == Drain(s2) == s2;
    assert s.log + [Compared(id, id)] + [WroteReceive(s.pc)] == s.log + [Compared(id, id), WroteReceive(s.pc)];
  }

  lemma SwitchIsOneSave(ram: Ram, nvs: Nvs, value: int)
    ensures var t := Handled(ram, nvs, Cmd03(value));
            t.ram == ram.(fan := value == 1) && t.nvs == nvs.(fan := Some(value == 1))
    ensures var t := Handled(ram, nvs, Cmd04(value));
            t.ram == ram.(uv := value == 1) && t.nvs == nvs.(uv := Some(value == 1))
  {
    var a := BeginCommand(Undisturbed(Dispatch, ram, nvs), Cmd03(value));
    assert Drain(a) == Drain(BleTask(a));
    var b := BeginCommand(Undisturbed(Dispatch, ram, nvs), Cmd04(value));
    assert Drain(b) == Drain(BleTask(b));
  }

  lemma FloodIsNoSave(ram: Ram, nvs: Nvs, target: string)
    ensures var t := Handled(ram, nvs, Cmd05(target)); t.ram == ram && t.nvs == nvs && t.log == [Flooded(target)]
  {
  }

  lemma CredentialsAreTwoSaves(ram: Ram, nvs: Nvs, ssid: string, pass: string)
    ensures var t := Handled(ram, nvs, Cmd08(ssid, pass));
            t.ram == ram && t.nvs == nvs.(wifiSsid := Some(ssid), wifiPass := Some(pass))
  {
    var a := BeginCommand(Undisturbed(Dispatch, ram, nvs), Cmd08(ssid, pass));
    assert Drain(a) == Drain(BleTask(a)) == Drain(BleTask(BleTask(a)));
  }

  lemma TwoSteps(s: State)
    ensures StageSteps(s, 2) == StageTask(StageTask(s, false), false)
  {
    var b := StageTask(s, false);
    hide StageTask;
    assert StageSteps(s, 2) == StageSteps(b, 1) == StageSteps(StageTask(b, false), 0);
  }

  lemma ThreeSteps(s: State)
    ensures StageSteps(s, 3) == StageTask(StageTask(StageTask(s, false), false), false)
  {
    hide StageTask;
    TwoSteps(StageTask(s, false));
  }

  lemma BootIsFourSteps(ram: Ram, nvs: Nvs)
    ensures var t := StageSteps(Undisturbed(BootStage, ram, nvs), if InTransport(nvs) then 4 else 1);
            var r := LoadRoutes(ram.slots, nvs);
            t.pc == Dispatch
            && t.ram == if InTransport(nvs)
                        then Ram(STAGE_TRANSPORT, nvs.door.Or(false), nvs.fan.Or(false), nvs.uv.Or(false),
                                 LoadConfig(ram.config, nvs), r.0, r.1, ram.latestLoss)
                        else ram.(stage := nvs.stage.Or(0))
  {
    hide LoadConfig, LoadRoutes;
    var a := Undisturbed(BootStage, ram, nvs);
    var b := StageTask(a, false);
    if InTransport(nvs) {
      var c := StageTask(b, false);
      var d := StageTask(c, false);
      var e := StageTask(d, false);
      assert StageSteps(a, 4) == StageSteps(b, 3) == StageSteps(c, 2) == StageSteps(d, 1) == StageSteps(e, 0) == e;
    } else {
      assert StageSteps(a, 1) == StageSteps(b, 0) == b;
    }
  }
}

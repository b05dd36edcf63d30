/**
 The stage task (components/stage/stage_machine.c) and the BLE command task
 (components/bluetooth/ble_handler.c) interleaved over RAM and NVS. A step is one critical section or
 one NVS write; a crash can happen between any two steps and clears RAM. NVS writes succeed. The worker
 tasks of stage 2 run while the stage task is in the transport loop.
 */
module StageMachine {
  import opened DeviceState

  datatype StagePc =
    | BootStage | BootConfig | BootRoutes | BootFlags      // stage_machine_run before its loop
    | Dispatch | BadStage                                  // the loop
    | Enter1 | SaveDoorOff | SaveSetup | WaitConfig | WaitDoor | Leave1 | SaveDoorOn | SaveTransport
    | WaitRoute | WaitWifi | Transport
    | Erase | Reset                                        // the end of run_stage3

  datatype BlePc =
    | Idle
    | SavingConfig(field: FieldNo)                         // CMD 00 after its critical section
    | SaveRoutes | SaveBlob(captured: RouteCount) | SaveCount(captured: RouteCount)     // CMD 01
    | DoorOff | Receive                                    // CMD 02 after a match
    | SaveFan(value: bool) | SaveUv(value: bool)           // CMD 03, CMD 04
    | SaveSsid(ssid: string, pass: string) | SavePass(pass: string)       // CMD 08

  datatype Event =
    | Compared(given: string, configured: string)          // CMD 02 compared the customer ids
    | WroteReceive(at: StagePc)                            // CMD 02 wrote it; the stage task stood at `at`
    | WroteStage(stage: int)                               // the stage task wrote the stage variable
    | LeftTransport                                        // the transport loop of run_stage2 ended
    | Entered3                                             // run_stage3 was called
    | Configured(setup: SetupCommand)                      // CMD 00 wrote the configuration
    | Routed(entry: RouteEntry)                            // CMD 01 appended
    | Reloaded(history: seq<RouteEntry>)                   // boot recovery took the history from NVS
    | Flooded(target: string)                              // CMD 05 started a flood
    | Wiped                                                // run_stage3 cleared the globals
    | Crashed

  datatype State = State(ram: Ram, nvs: Nvs, pc: StagePc, ble: BlePc, log: seq<Event>)

  datatype Command =
    | Cmd00(setup: SetupCommand)
    | Cmd01(entry: RouteEntry)
    | Cmd02(customerId: string)
    | Cmd03(value: int)
    | Cmd04(value: int)
    | Cmd05(target: string)
    | Cmd08(ssid: string, pass: string)

  datatype Step =
    | StageStep(doorClosed: bool)     // the stage task moves on
    | Begin(cmd: Command)             // a BLE command is received while none is being handled
    | BleStep                         // the command being handled moves on
    | Measure(loss: real)             // a worker task of stage 2 updates the latest loss
    | Crash

  const FACTORY := State(POWER_ON, ERASED, BootStage, Idle, [])

  predicate Handling01(b: BlePc) {
    b.SaveRoutes? || b.SaveBlob? || b.SaveCount?
  }

  function WriteStage(s: State, stage: int, door: bool, pc: StagePc): State {
    s.(ram := s.ram.(stage := stage, door := door), pc := pc, log := s.log + [WroteStage(stage)])
  }

  function At(s: State, pc: StagePc): State {
    s.(pc := pc)
  }

  // ---------------------------------------------------------------- the stage task

  function ReloadRoutes(s: State): State {
    var r := LoadRoutes(s.ram.slots, s.nvs);
    s.(ram := s.ram.(slots := r.0, count := r.1), pc := BootFlags, log := s.log + [Reloaded(r.0[..r.1])])
  }

  /** The end of run_stage3 clears all these globals but the latest telemetry. */
  function Wipe(s: State): State {
    s.(ram := POWER_ON.(latestLoss := s.ram.latestLoss), pc := Dispatch,
      log := s.log + [WroteStage(STAGE_SETUP), Wiped])
  }

  function StageTask(s: State, doorClosed: bool): State {
    match s.pc
    case BootStage =>
      WriteStage(s, s.nvs.stage.Or(0), s.ram.door,
                 if s.nvs.stage.Or(0) == STAGE_TRANSPORT then BootConfig else Dispatch)
    case BootConfig => s.(ram := s.ram.(config := LoadConfig(s.ram.config, s.nvs)), pc := BootRoutes)
    case BootRoutes => ReloadRoutes(s)
    case BootFlags =>
      s.(ram := s.ram.(door := s.nvs.door.Or(false), fan := s.nvs.fan.Or(false), uv := s.nvs.uv.Or(false)),
        pc := Dispatch)
    case Dispatch =>
      if s.ram.stage == STAGE_SETUP then At(s, Enter1)
      else if s.ram.stage == STAGE_TRANSPORT then At(s, WaitRoute)
      else if s.ram.stage == STAGE_RECEIVE then s.(pc := Erase, log := s.log + [Entered3])
      else At(s, BadStage)
    case BadStage => WriteStage(s, STAGE_SETUP, s.ram.door, Dispatch)
    case Enter1 => WriteStage(s, STAGE_SETUP, false, SaveDoorOff)
    case SaveDoorOff => s.(nvs := s.nvs.(door := Some(false)), pc := SaveSetup)
    case SaveSetup => s.(nvs := s.nvs.(stage := Some(STAGE_SETUP)), pc := WaitConfig)
    case WaitConfig => if s.ram.config.containerId != "" then At(s, WaitDoor) else s
    case WaitDoor => if doorClosed then At(s, Leave1) else s
    case Leave1 => WriteStage(s, STAGE_TRANSPORT, true, SaveDoorOn)
    case SaveDoorOn => s.(nvs := s.nvs.(door := Some(true)), pc := SaveTransport)
    case SaveTransport => s.(nvs := s.nvs.(stage := Some(STAGE_TRANSPORT)), pc := Dispatch)
    case WaitRoute =>
      if s.ram.count == 0 then s
      else if s.ram.slots[s.ram.count - 1].onBoard then At(s, Transport)
      else At(s, WaitWifi)
    case WaitWifi => if s.nvs.wifiSsid.Or("") != "" then At(s, Transport) else s
    case Transport =>
      if s.ram.stage == STAGE_RECEIVE then s.(pc := Dispatch, log := s.log + [LeftTransport]) else s
    case Erase => s.(nvs := ERASED, pc := Reset)
    case Reset => Wipe(s)
  }

  // ---------------------------------------------------------------- the BLE task

  function AddRoute(s: State, e: RouteEntry): State {
    var r := AppendRoute(s.ram.slots, s.ram.count, e);
    s.(ram := s.ram.(slots := r.0, count := r.1), ble := SaveRoutes, log := s.log + [Routed(e)])
  }

  function BeginCommand(s: State, cmd: Command): State {
    match cmd
    case Cmd00(setup) =>
      s.(ram := s.ram.(config := Configure(s.ram.config, setup)), ble := SavingConfig(0),
        log := s.log + [Configured(setup)])
    case Cmd01(e) => AddRoute(s, e)
    case Cmd02(customerId) =>
      s.(ble := if customerId == s.ram.config.customerId then DoorOff else Idle,
         log := s.log + [Compared(customerId, s.ram.config.customerId)])
    case Cmd03(v) => s.(ram := s.ram.(fan := v == 1), ble := SaveFan(v == 1))
    case Cmd04(v) => s.(ram := s.ram.(uv := v == 1), ble := SaveUv(v == 1))
    case Cmd05(target) => s.(log := s.log + [Flooded(target)])
    case Cmd08(ssid, pass) => s.(ble := SaveSsid(ssid, pass))
  }

  function BleTask(s: State): State {
    match s.ble
    case Idle => s
    case SavingConfig(k) =>
      s.(nvs := SaveField(s.nvs, s.ram.config, k), ble := if k == 4 then Idle else SavingConfig(k + 1))
    case SaveRoutes => s.(ble := SaveBlob(s.ram.count))
    case SaveBlob(c) => s.(nvs := s.nvs.(routes := Some(s.ram.slots[..c])), ble := SaveCount(c))
    case SaveCount(c) => s.(nvs := s.nvs.(routeCount := Some(c)), ble := Idle)
    case DoorOff => s.(ram := s.ram.(door := false), ble := Receive)
    case Receive => s.(ram := s.ram.(stage := STAGE_RECEIVE), log := s.log + [WroteReceive(s.pc)], ble := Idle)
    case SaveFan(v) => s.(nvs := s.nvs.(fan := Some(v)), ble := Idle)
    case SaveUv(v) => s.(nvs := s.nvs.(uv := Some(v)), ble := Idle)
    case SaveSsid(ssid, pass) => s.(nvs := s.nvs.(wifiSsid := Some(ssid)), ble := SavePass(pass))
    case SavePass(pass) => s.(nvs := s.nvs.(wifiPass := Some(pass)), ble := Idle)
  }

  function Next(s: State, step: Step): State {
    match step
    case StageStep(doorClosed) => StageTask(s, doorClosed)
    case Begin(cmd) => if s.ble.Idle? then BeginCommand(s, cmd) else s
    case BleStep => BleTask(s)
    case Measure(loss) => if s.pc.Transport? then s.(ram := s.ram.(latestLoss := loss)) else s
    case Crash => State(POWER_ON, s.nvs, BootStage, Idle, s.log + [Crashed])
  }

  function Run(steps: seq<Step>): State {
    if steps == [] then FACTORY else Next(Run(steps[..|steps| - 1]), steps[|steps| - 1])
  }

  lemma RunStep(steps: seq<Step>, step: Step)
    ensures Run(steps + [step]) == Next(Run(steps), step)
  {
    hide Next;
    assert (steps + [step])[..|steps|] == steps;
  }
}

/**
 What NVS says about the stage in every reachable state, and what a reboot makes of it, over all
 interleavings of the stage task, BLE commands and crashes.
 */
module StageRecovery {
  import opened DeviceState
  import opened StageMachine

  predicate InTransport(n: Nvs) {
    n.stage == Some(STAGE_TRANSPORT)
  }

  /** Persisted stage: never RECEIVE, and TRANSPORT only with the door alert armed. */
  predicate NvsStageOk(n: Nvs) {
    && (n.stage == None || n.stage == Some(STAGE_SETUP) || n.stage == Some(STAGE_TRANSPORT))
    && (InTransport(n) ==> n.door == Some(true))
  }

  predicate Under2Or3(r: Ram) {
    r.stage == STAGE_TRANSPORT || r.stage == STAGE_RECEIVE
  }

  predicate PcOk(s: State) {
    match s.pc
    case BootStage | Erase => true
    case BootConfig | BootRoutes | BootFlags | WaitRoute => InTransport(s.nvs) && Under2Or3(s.ram)
    case WaitWifi | Transport => InTransport(s.nvs) && Under2Or3(s.ram) && s.ram.count > 0
    case Dispatch => s.ram.stage == STAGE_RECEIVE || (s.ram.stage == STAGE_TRANSPORT <==> InTransport(s.nvs))
    case BadStage | Enter1 | SaveDoorOff | SaveSetup | Reset => !InTransport(s.nvs)
    case WaitConfig | WaitDoor | Leave1 => s.nvs.stage == Some(STAGE_SETUP)
    case SaveDoorOn => s.nvs.stage == Some(STAGE_SETUP) && Under2Or3(s.ram)
    case SaveTransport => s.nvs.stage == Some(STAGE_SETUP) && Under2Or3(s.ram) && s.nvs.door == Some(true)
  }

  predicate StageOk(s: State) {
    NvsStageOk(s.nvs) && PcOk(s)
  }

  lemma StageTaskKeepsStageOk(s: State, doorClosed: bool)
    requires StageOk(s)
    ensures StageOk(StageTask(s, doorClosed))
  {
    hide LoadConfig, LoadRoutes;
  }

  lemma BeginKeepsStageOk(s: State, cmd: Command)
    requires StageOk(s)
    ensures StageOk(BeginCommand(s, cmd))
  {
    hide Configure;
  }

  lemma BleTaskKeepsStageOk(s: State)
    requires StageOk(s)
    ensures StageOk(BleTask(s))
  {
  }

  lemma StepKeepsStageOk(s: State, step: Step)
    requires StageOk(s)
    ensures StageOk(Next(s, step))
  {
    hide StageTask, BleTask, BeginCommand;
    match step
    case StageStep(closed) => StageTaskKeepsStageOk(s, closed);
    case Begin(cmd) => BeginKeepsStageOk(s, cmd);
    case BleStep => BleTaskKeepsStageOk(s);
    case Measure(_) =>
    case Crash =>
  }

  /** In every run the persisted stage is never RECEIVE, a persisted TRANSPORT comes with an armed door
      alert, and the transport loop never reads the route history while it is empty. */
  lemma {:induction false} RunIsStageOk(steps: seq<Step>)
    ensures StageOk(Run(steps))
  {
    if steps != [] {
      RunIsStageOk(steps[..|steps| - 1]);
      StepKeepsStageOk(Run(steps[..|steps| - 1]), steps[|steps| - 1]);
    }
  }

  // ---------------------------------------------------------------- the configuration

  /** The first `k` keys of the configuration say what RAM says; an absent key stands for the empty value. */
  predicate Kept(n: Nvs, c: Config, k: nat) {
    && (k > 0 ==> n.containerId.Or("") == c.containerId)
    && (k > 1 ==> n.customerId.Or("") == c.customerId)
    && (k > 2 ==> n.providerId.Or("") == c.providerId)
    && (k > 3 ==> n.humidThreshold.Or(0.0) == c.humidThreshold)
    && (k > 4 ==> n.weight.Or(0.0) == c.weight)
  }

  function FieldsSaved(b: BlePc): nat {
    if b.SavingConfig? then b.field else 5
  }

  predicate BeforeSetup(s: State) {
    match s.pc
    case BootStage | BootConfig => true
    case Dispatch | BadStage | Enter1 | SaveDoorOff | SaveSetup | WaitConfig | Erase => !InTransport(s.nvs)
    case _ => false
  }

  /** NVS agrees with RAM as far as CMD 00 has got, except while the device is not set up and inside the
      window between the erase and the reset at the end of stage 3. */
  predicate ConfigOk(s: State) {
    || s.pc.Reset?
    || Kept(s.nvs, s.ram.config, FieldsSaved(s.ble))
    || (Persist(s.ram.config) == NOTHING_PERSISTED && BeforeSetup(s))
  }

  lemma LoadKeeps(n: Nvs, c: Config, k: nat)
    requires Kept(n, c, k)
    ensures Kept(n, LoadConfig(c, n), k)
  {
  }

  lemma LoadIntoNothing(n: Nvs, c: Config, k: nat)
    requires Persist(c) == NOTHING_PERSISTED
    ensures Kept(n, LoadConfig(c, n), k)
  {
  }

  lemma SaveKeepsMore(n: Nvs, c: Config, k: FieldNo)
    requires Kept(n, c, k)
    ensures Kept(SaveField(n, c, k), c, k + 1)
  {
  }

  /** Nothing the configuration fields depend on is different. */
  predicate SameConfig(s: State, t: State) {
    && t.ram.config == s.ram.config && FieldsSaved(t.ble) == FieldsSaved(s.ble)
    && t.nvs.containerId == s.nvs.containerId && t.nvs.customerId == s.nvs.customerId
    && t.nvs.providerId == s.nvs.providerId && t.nvs.humidThreshold == s.nvs.humidThreshold
    && t.nvs.weight == s.nvs.weight
  }

  lemma StageTaskKeepsConfig(s: State, doorClosed: bool)
    requires !s.pc.BootConfig? && !s.pc.Erase? && !s.pc.Reset?
    ensures SameConfig(s, StageTask(s, doorClosed))
  {
    hide LoadRoutes;
  }

  lemma StaysBeforeSetup(s: State, doorClosed: bool)
    requires StageOk(s) && BeforeSetup(s) && !s.pc.BootConfig?
    requires s.pc.WaitConfig? ==> s.ram.config.containerId == ""
    ensures var t := StageTask(s, doorClosed); t.pc.Reset? || BeforeSetup(t)
  {
    hide LoadRoutes, LoadConfig;
  }

  lemma SameConfigKeeps(s: State, t: State)
    requires SameConfig(s, t) && Kept(s.nvs, s.ram.config, FieldsSaved(s.ble))
    ensures Kept(t.nvs, t.ram.config, FieldsSaved(t.ble))
  {
  }

  lemma StageTaskKeepsConfigOk(s: State, doorClosed: bool)
    requires StageOk(s) && ConfigOk(s)
    ensures ConfigOk(StageTask(s, doorClosed))
  {
    if s.pc.BootConfig? {
      hide Kept, LoadConfig;
      if Kept(s.nvs, s.ram.config, FieldsSaved(s.ble)) {
        LoadKeeps(s.nvs, s.ram.config, FieldsSaved(s.ble));
      } else {
        LoadIntoNothing(s.nvs, s.ram.config, FieldsSaved(s.ble));
      }
    } else if !s.pc.Erase? && !s.pc.Reset? {
      hide StageTask, Kept, StageOk, BeforeSetup;
      StageTaskKeepsConfig(s, doorClosed);
      if Kept(s.nvs, s.ram.config, FieldsSaved(s.ble)) {
        SameConfigKeeps(s, StageTask(s, doorClosed));
      } else {
        StaysBeforeSetup(s, doorClosed);
      }
    }
  }

  lemma BleKeepsConfigOk(s: State, step: Step)
    requires ConfigOk(s) && (step.Begin? || step.BleStep?)
    ensures ConfigOk(Next(s, step))
  {
    hide Configure, AppendRoute, Kept, BleTask, BeginCommand, BeforeSetup, ConfigOk;
    if step.BleStep? && s.ble.SavingConfig? {
      SavingKeepsConfigOk(s);
    } else if step == BleStep {
      OtherBleKeepsConfig(s);
    } else if s.ble.Idle? {
      BeginKeepsConfig(s, step.cmd);
    }
  }

  lemma SavingKeepsConfigOk(s: State)
    requires ConfigOk(s) && s.ble.SavingConfig?
    ensures ConfigOk(BleTask(s))
  {
    hide Kept, SaveField;
    if Kept(s.nvs, s.ram.config, s.ble.field) {
      SaveKeepsMore(s.nvs, s.ram.config, s.ble.field);
    }
    FieldsAreNotStage(s.nvs, s.ram.config, s.ble.field);
  }

  lemma FieldsAreNotStage(n: Nvs, c: Config, k: FieldNo)
    ensures SaveField(n, c, k).stage == n.stage
  {
  }

  lemma OtherBleKeepsConfig(s: State)
    requires ConfigOk(s) && !s.ble.SavingConfig?
    ensures ConfigOk(BleTask(s))
  {
    hide Kept;
    var t := BleTask(s);
    assert SameConfig(s, t) && t.pc == s.pc && t.nvs.stage == s.nvs.stage by { hide ConfigOk; }
    if Kept(s.nvs, s.ram.config, FieldsSaved(s.ble)) {
      SameConfigKeeps(s, t);
    }
    hide BleTask;
  }

  lemma BeginKeepsConfig(s: State, cmd: Command)
    requires ConfigOk(s) && s.ble.Idle?
    ensures ConfigOk(BeginCommand(s, cmd))
  {
    hide Configure, AppendRoute;
  }

  lemma {:induction false} RunIsConfigOk(steps: seq<Step>)
    ensures ConfigOk(Run(steps))
  {
    if steps != [] {
      var init, step := steps[..|steps| - 1], steps[|steps| - 1];
      RunIsConfigOk(init);
      RunIsStageOk(init);
      hide BleTask, BeginCommand, StageTask, StageOk;
      match step
      case StageStep(closed) => StageTaskKeepsConfigOk(Run(init), closed);
      case Begin(_) => BleKeepsConfigOk(Run(init), step);
      case BleStep => BleKeepsConfigOk(Run(init), step);
      case Measure(_) =>
      case Crash =>
    }
  }

  // ---------------------------------------------------------------- the route history

  function History(r: Ram): seq<RouteEntry> {
    r.slots[..r.count]
  }

  predicate BeforeReload(pc: StagePc) {
    pc.BootStage? || pc.BootConfig? || pc.BootRoutes?
  }

  predicate Blank(r: Ram) {
    r.count == 0 && r.slots == NO_ROUTES
  }

  /** A reboot would read back the first of the slots, as many as the stored count says. */
  predicate Backed(n: Nvs, slots: Slots) {
    var loaded := LoadRoutes(NO_ROUTES, n);
    loaded.0[..loaded.1] == slots[..loaded.1]
  }

  /** Outside a CMD 01 the slots are backed by NVS, or as at power-on; between its two writes the blob is the
      first of the slots. Nothing is said of the window between the erase and the reset after stage 3. */
  predicate RouteOk(s: State) {
    s.pc.Reset? ||
    match s.ble
    case SaveRoutes => true
    case SaveBlob(_) => true
    case SaveCount(c) => s.nvs.routes == Some(s.ram.slots[..c]) || (Blank(s.ram) && !BeforeReload(s.pc))
    case _ => Blank(s.ram) || Backed(s.nvs, s.ram.slots)
  }

  lemma ReloadIsBacked(n: Nvs, slots: Slots)
    requires Backed(n, slots) || slots == NO_ROUTES
    ensures Backed(n, LoadRoutes(slots, n).0)
  {
  }

  lemma ReloadKeepsBlob(n: Nvs, slots: Slots, c: RouteCount)
    requires n.routes == Some(slots[..c])
    ensures LoadRoutes(slots, n).0[..c] == slots[..c]
  {
  }

  lemma ReloadKeepsRouteOk(s: State)
    requires RouteOk(s) && s.pc.BootRoutes?
    ensures RouteOk(ReloadRoutes(s))
  {
    if s.ble.SaveCount? {
      ReloadKeepsBlob(s.nvs, s.ram.slots, s.ble.captured);
    } else if !Handling01(s.ble) {
      ReloadIsBacked(s.nvs, s.ram.slots);
    }
    hide Backed, LoadRoutes;
  }

  lemma LoadedCount(slots: Slots, n: Nvs)
    ensures LoadRoutes(slots, n).1 == n.routeCount.Or(0)
  {
  }

  /** Nothing that RouteOk speaks about is different, except that the erase window may have begun. */
  predicate SameRoutes(s: State, t: State) {
    && t.ram.slots == s.ram.slots && t.ram.count == s.ram.count && t.ble == s.ble
    && (BeforeReload(t.pc) ==> BeforeReload(s.pc))
    && (t.pc.Reset? || (!s.pc.Reset? && t.nvs.routes == s.nvs.routes && t.nvs.routeCount == s.nvs.routeCount))
  }

  lemma SameBacked(n: Nvs, m: Nvs, slots: Slots)
    requires n.routes == m.routes && n.routeCount == m.routeCount
    ensures Backed(n, slots) == Backed(m, slots)
  {
  }

  lemma SameRoutesKeep(s: State, t: State)
    requires RouteOk(s) && SameRoutes(s, t)
    ensures RouteOk(t)
  {
    if !t.pc.Reset? {
      SameBacked(s.nvs, t.nvs, s.ram.slots);
    }
    hide Backed;
  }

  lemma StageTaskKeepsRoutes(s: State, doorClosed: bool)
    requires !s.pc.BootRoutes? && !s.pc.Reset?
    ensures SameRoutes(s, StageTask(s, doorClosed))
  {
    hide LoadConfig, LoadRoutes;
  }

  lemma StageTaskKeepsRouteOk(s: State, doorClosed: bool)
    requires RouteOk(s)
    ensures RouteOk(StageTask(s, doorClosed))
  {
    if s.pc.BootRoutes? {
      hide ReloadRoutes, RouteOk;
      ReloadKeepsRouteOk(s);
    } else if !s.pc.Reset? {
      hide StageTask, RouteOk, SameRoutes;
      StageTaskKeepsRoutes(s, doorClosed);
      SameRoutesKeep(s, StageTask(s, doorClosed));
    }
  }

  lemma CountMakesBacked(s: State)
    requires RouteOk(s) && s.ble.SaveCount?
    ensures RouteOk(BleTask(s))
  {
    var c := s.ble.captured;
    if s.nvs.routes == Some(s.ram.slots[..c]) {
      ReloadRestores(s.ram.slots, c, BleTask(s).nvs);
    }
    hide LoadRoutes;
  }

  lemma BlobFollows(s: State)
    requires RouteOk(s) && (s.ble.SaveBlob? || s.ble.SaveRoutes?)
    ensures RouteOk(BleTask(s))
  {
    hide LoadRoutes;
  }

  lemma OtherBleKeepsRoutes(s: State)
    requires RouteOk(s) && !Handling01(s.ble)
    ensures RouteOk(BleTask(s))
  {
    hide SaveField, LoadRoutes, Backed;
    if s.ble.SavingConfig? {
      FieldsAreNotRoutes(s.nvs, s.ram.config, s.ble.field);
    }
    SameBacked(s.nvs, BleTask(s).nvs, s.ram.slots);
  }

  lemma FieldsAreNotRoutes(n: Nvs, c: Config, k: FieldNo)
    ensures SaveField(n, c, k).routes == n.routes && SaveField(n, c, k).routeCount == n.routeCount
  {
  }

  lemma BeginKeepsRouteOk(s: State, cmd: Command)
    requires RouteOk(s) && s.ble.Idle?
    ensures RouteOk(BeginCommand(s, cmd))
  {
    hide Configure, LoadRoutes, Backed;
  }

  lemma BleKeepsRouteOk(s: State, step: Step)
    requires RouteOk(s) && (step.Begin? || step.BleStep?)
    ensures RouteOk(Next(s, step))
  {
    hide BleTask, BeginCommand, RouteOk;
    if step.Begin? {
      if s.ble.Idle? {
        BeginKeepsRouteOk(s, step.cmd);
      }
    } else if s.ble.SaveCount? {
      CountMakesBacked(s);
    } else if Handling01(s.ble) {
      BlobFollows(s);
    } else {
      OtherBleKeepsRoutes(s);
    }
  }

  lemma {:induction false} RunIsRouteOk(steps: seq<Step>)
    ensures RouteOk(Run(steps))
  {
    if steps != [] {
      var init, step := steps[..|steps| - 1], steps[|steps| - 1];
      RunIsRouteOk(init);
      hide BleTask, BeginCommand, StageTask, Backed;
      match step
      case StageStep(closed) => StageTaskKeepsRouteOk(Run(init), closed);
      case Begin(_) => BleKeepsRouteOk(Run(init), step);
      case BleStep => BleKeepsRouteOk(Run(init), step);
      case Measure(_) =>
      case Crash =>
    } else {
      assert Blank(FACTORY.ram);
    }
  }

  // ---------------------------------------------------------------- reboot

  /** `n` uninterrupted steps of the stage task. */
  function StageSteps(s: State, n: nat): State
    decreases n
  {
    if n == 0 then s else StageSteps(StageTask(s, false), n - 1)
  }

  function PowerCycled(s: State): State {
    Next(s, Crash)
  }

  /** What the four boot steps make of a device whose NVS says TRANSPORT. */
  function Recovered(s: State): State {
    StageSteps(PowerCycled(s), 4)
  }

  function RecoveredRam(n: Nvs): Ram {
    var loaded := LoadRoutes(NO_ROUTES, n);
    Ram(n.stage.Or(0), n.door.Or(false), n.fan.Or(false), n.uv.Or(false), LoadConfig(NO_CONFIG, n),
        loaded.0, loaded.1, 0.0)
  }

  lemma RecoveryReadsNvs(s: State)
    requires InTransport(s.nvs)
    ensures Recovered(s).ram == RecoveredRam(s.nvs)
    ensures Recovered(s).pc == Dispatch && Recovered(s).ble == Idle && Recovered(s).nvs == s.nvs
  {
    hide LoadConfig, LoadRoutes;
    var a := PowerCycled(s);
    var b := StageTask(a, false);
    var c := StageTask(b, false);
    var d := StageTask(c, false);
    var e := StageTask(d, false);
    assert b.ram == POWER_ON.(stage := STAGE_TRANSPORT) && b.pc == BootConfig;
    assert c.ram == b.ram.(config := LoadConfig(NO_CONFIG, s.nvs)) && c.pc == BootRoutes;
    assert StageSteps(a, 4) == StageSteps(b, 3) == StageSteps(c, 2) == StageSteps(d, 1) == StageSteps(e, 0) == e;
  }

  /** A device that crashes in transport resumes in transport with the door alert armed. Whenever no CMD 00
      is half saved it has the five persisted fields back; and whenever no CMD 01 is half saved it has the
      route history back if and only if the stored count is the count in RAM. */
  lemma TransportSurvivesCrash(steps: seq<Step>)
    requires InTransport(Run(steps).nvs)
    ensures var s, r := Run(steps), Recovered(Run(steps));
            && r.pc == Dispatch && r.ram.stage == STAGE_TRANSPORT && r.ram.door
            && (!s.pc.BootStage? && !s.pc.BootConfig? && !s.ble.SavingConfig? ==>
                  Persist(r.ram.config) == Persist(s.ram.config))
            && (!Handling01(s.ble) ==>
                  (History(r.ram) == History(s.ram) <==> s.nvs.routeCount.Or(0) == s.ram.count))
  {
    var s := Run(steps);
    RunIsStageOk(steps);
    RunIsConfigOk(steps);
    RunIsRouteOk(steps);
    hide Run, Recovered, LoadRoutes;
    RecoveryReadsNvs(s);
    LoadedCount(NO_ROUTES, s.nvs);
    if !s.pc.BootStage? && !s.pc.BootConfig? && !s.ble.SavingConfig? {
      LoadKept(s.nvs, s.ram.config);
    }
    hide LoadConfig, ConfigOk;
    var r := RecoveredRam(s.nvs);
    assert |History(r)| == s.nvs.routeCount.Or(0) && |History(s.ram)| == s.ram.count;
  }

  lemma LoadKept(n: Nvs, c: Config)
    requires Kept(n, c, 5)
    ensures Persist(LoadConfig(NO_CONFIG, n)) == Persist(c)
  {
  }

  /** Any other NVS content leads a stage task that is left alone to stage 1 within one round of the main loop. */
  lemma OtherwiseRebootEntersStage1(steps: seq<Step>)
    requires !InTransport(Run(steps).nvs)
    ensures exists n :: n <= 4 && StageSteps(PowerCycled(Run(steps)), n).pc == Enter1
  {
    var s := Run(steps);
    RunIsStageOk(steps);
    hide Run;
    var a := PowerCycled(s);
    var b := StageTask(a, false);
    var c := StageTask(b, false);
    assert StageSteps(a, 2) == StageSteps(b, 1) == StageSteps(c, 0) == c;
    if s.nvs.stage == None {
      var d := StageTask(c, false);
      var e := StageTask(d, false);
      assert StageSteps(a, 4) == StageSteps(b, 3) == StageSteps(c, 2) == StageSteps(d, 1) == StageSteps(e, 0) == e;
      assert e.pc == Enter1;
    } else {
      assert c.pc == Enter1;
    }
  }

  // ---------------------------------------------------------------- where recovery falls short

  /** A crash between the two writes of a CMD 01 keeps the history if and only if the stored count already is
      the count in RAM, and where the blob does not reach, or is not read because it is longer, the entries
      in RAM are blank as well. */
  lemma TornSaveKeepsHistoryIff(steps: seq<Step>)
    requires var s := Run(steps); InTransport(s.nvs) && s.ble.SaveCount?
    ensures var s := Run(steps);
            && (History(Recovered(s).ram) == History(s.ram) <==>
                  s.nvs.routeCount.Or(0) == s.ram.count && BlankFrom(s.ram, s.ble.captured))
            && (s.ram.count > 0 && s.nvs.routeCount.Or(0) < s.ble.captured ==>
                  History(Recovered(s).ram) == NO_ROUTES[..s.nvs.routeCount.Or(0)])
  {
    var s := Run(steps);
    RunIsStageOk(steps);
    RunIsRouteOk(steps);
    assert !s.pc.Reset?;
    hide Run, Recovered, LoadConfig, StageOk, RouteOk;
    RecoveryReadsNvs(s);
    LoadedCount(NO_ROUTES, s.nvs);
    if s.ram.count > 0 {
      TornLoad(s.ram.slots, s.ram.count, s.ble.captured, s.nvs);
    }
  }

  /** The entries of the history that a blob of `c` entries leaves out, or all if it is too long, are blank. */
  predicate BlankFrom(r: Ram, c: RouteCount) {
    forall i :: (if c <= r.count then c else 0) <= i < r.count ==> r.slots[i] == NO_ENTRY
  }

  lemma TornLoad(slots: Slots, count: RouteCount, c: RouteCount, n: Nvs)
    requires n.routes == Some(slots[..c])
    ensures var r, k := LoadRoutes(NO_ROUTES, n), n.routeCount.Or(0);
            && (r.0[..r.1] == slots[..count] <==>
                  k == count && forall i :: (if c <= count then c else 0) <= i < count ==> slots[i] == NO_ENTRY)
            && (k < c ==> r.0[..r.1] == NO_ROUTES[..k])
  {
    var r, k := LoadRoutes(NO_ROUTES, n), n.routeCount.Or(0);
    LoadedCount(NO_ROUTES, n);
    assert |r.0[..r.1]| == k && |slots[..count]| == count;
    if k == count {
      var from := if c <= count then c else 0;
      assert forall i :: 0 <= i < from ==> r.0[i] == slots[i];
      assert forall i :: from <= i < count ==> r.0[i] == NO_ENTRY;
      hide LoadRoutes;
      if r.0[..count] == slots[..count] {
        assert forall i :: 0 <= i < count ==> r.0[..count][i] == r.0[i] && slots[..count][i] == slots[i];
      }
    }
  }

  /** The steps of one CMD 01 handled without interruption. */
  function Command01(s: State, e: RouteEntry): State {
    BleTask(BleTask(BleTask(Next(s, Begin(Cmd01(e))))))
  }

  /** A CMD 01 that is handled after a crash and before boot recovery has reloaded the history replaces it,
      in RAM and in NVS, by its one entry. */
  lemma EarlyCommandReplacesHistory(steps: seq<Step>, e: RouteEntry)
    requires InTransport(Run(steps).nvs)
    ensures var s := StageSteps(Command01(PowerCycled(Run(steps)), e), 4);
            && s.pc == Dispatch && s.ram.stage == STAGE_TRANSPORT
            && History(s.ram) == [e] && s.nvs.routes == Some([e]) && s.nvs.routeCount == Some(1)
  {
    hide Run, LoadConfig;
    var a := Command01(PowerCycled(Run(steps)), e);
    assert a.ram.slots[..1] == [e];
    assert a.ram.count == 1 && a.nvs.routes == Some([e]) && a.nvs.routeCount == Some(1) && a.pc == BootStage;
    assert InTransport(a.nvs);
    hide Command01;
    BootReloadsOne(a, e);
  }

  lemma BootReloadsOne(a: State, e: RouteEntry)
    requires a.pc == BootStage && InTransport(a.nvs) && a.nvs.routes == Some([e]) && a.nvs.routeCount == Some(1)
    ensures var s := StageSteps(a, 4);
            s.pc == Dispatch && s.ram.stage == STAGE_TRANSPORT && History(s.ram) == [e] && s.nvs == a.nvs
  {
    hide LoadConfig;
    var b := StageTask(a, false);
    var c := StageTask(b, false);
    var d := StageTask(c, false);
    var f := StageTask(d, false);
    assert c.ram.slots == a.ram.slots && c.nvs == a.nvs && c.pc == BootRoutes;
    assert d.ram.slots == [e] + a.ram.slots[1..] && d.ram.count == 1;
    assert StageSteps(a, 4) == StageSteps(b, 3) == StageSteps(c, 2) == StageSteps(d, 1) == StageSteps(f, 0) == f;
  }
}

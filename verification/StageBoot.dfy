/**
 BLE commands that are handled between power-on and the end of boot recovery, over all interleavings of
 the two tasks: what boot recovery then makes of the saved route history and of the saved configuration.
 */
module StageBoot {
  import opened DeviceState
  import opened StageMachine
  import opened StageRecovery
  import opened StageHandover
  import opened DeviceTasks
  import StageSkip

  /** A run, a power cut, and what comes after it. */
  function AfterCut(steps: seq<Step>, more: seq<Step>): State {
    Run(steps + [Crash] + more)
  }

  lemma CutByOne(steps: seq<Step>, more: seq<Step>)
    ensures AfterCut(steps, []) == Next(Run(steps), Crash)
    ensures more != [] ==> AfterCut(steps, more) == Next(AfterCut(steps, more[..|more| - 1]), more[|more| - 1])
  {
    hide Run, Next;
    assert steps + [Crash] + [] == steps + [Crash];
    RunStep(steps, Crash);
    if more != [] {
      var before, last := steps + [Crash] + more[..|more| - 1], more[|more| - 1];
      RunStep(before, last);
      assert before + [last] == steps + [Crash] + more;
    }
  }

  // ---------------------------------------------------------------- the route history

  /** The slots after these entries were appended to empty ones. */
  function Padded(entries: seq<RouteEntry>): Slots {
    if |entries| <= MAX_ROUTE_HISTORY then entries + NO_ROUTES[|entries|..] else Last16(entries)
  }

  function AtMost16(n: nat): RouteCount {
    if n <= MAX_ROUTE_HISTORY then n else MAX_ROUTE_HISTORY
  }

  /** How many of the CMD 01s since power-on have written the blob, and how many the count. */
  function BlobsWritten(s: State): int {
    |Since(s.log)| - if s.ble.SaveRoutes? || s.ble.SaveBlob? then 1 else 0
  }

  function CountsWritten(s: State): int {
    |Since(s.log)| - if Handling01(s.ble) then 1 else 0
  }

  /** NVS after `m` blob and `q` count writes for these entries. */
  predicate Overwritten(n: Nvs, saved: Nvs, entries: seq<RouteEntry>, m: int, q: int) {
    && 0 <= q <= m <= |entries|
    && n.routes == (if m == 0 then saved.routes else Some(Last16(entries[..m])))
    && n.routeCount == (if q == 0 then saved.routeCount else Some(AtMost16(q)))
  }

  predicate RoutesBoot(s: State, saved: Nvs) {
    var entries := Since(s.log);
    && s.ram.count == AtMost16(|entries|) && s.ram.slots == Padded(entries)
    && (s.ble.SaveBlob? || s.ble.SaveCount? ==> s.ble.captured == s.ram.count)
    && Overwritten(s.nvs, saved, entries, BlobsWritten(s), CountsWritten(s))
  }

  lemma PaddedExtends(entries: seq<RouteEntry>, e: RouteEntry)
    ensures AppendRoute(Padded(entries), AtMost16(|entries|), e) == (Padded(entries + [e]), AtMost16(|entries| + 1))
  {
    hide Padded;
    if |entries| < MAX_ROUTE_HISTORY {
      PaddedGrows(entries, e);
    } else {
      PaddedShifts(entries, e);
    }
  }

  lemma PaddedGrows(entries: seq<RouteEntry>, e: RouteEntry)
    requires |entries| < MAX_ROUTE_HISTORY
    ensures Padded(entries)[|entries| := e] == Padded(entries + [e])
  {
    var n := |entries|;
    assert Padded(entries) == entries + NO_ROUTES[n..];
    assert Padded(entries + [e]) == (entries + [e]) + NO_ROUTES[n + 1..];
    hide Padded, Last16;
    assert (entries + NO_ROUTES[n..])[n := e] == (entries + [e]) + NO_ROUTES[n + 1..];
  }

  lemma PaddedShifts(entries: seq<RouteEntry>, e: RouteEntry)
    requires |entries| >= MAX_ROUTE_HISTORY
    ensures Padded(entries)[1..] + [e] == Padded(entries + [e])
  {
    var from := |entries| - MAX_ROUTE_HISTORY;
    var all := entries + [e];
    assert Padded(entries) == entries[from..] by { assert from == 0 ==> entries + [] == entries[from..]; }
    assert Padded(all) == all[from + 1..];
    hide Padded, Last16;
    assert entries[from..][1..] == entries[from + 1..];
    assert all[from + 1..] == entries[from + 1..] + [e];
  }

  lemma PaddedHistory(entries: seq<RouteEntry>)
    ensures Padded(entries)[..AtMost16(|entries|)] == Last16(entries)
  {
  }

  lemma BeginKeepsRoutesBoot(s: State, saved: Nvs, cmd: Command)
    requires RoutesBoot(s, saved) && s.ble.Idle?
    ensures RoutesBoot(BeginCommand(s, cmd), saved)
  {
    hide Configure, Padded, AppendRoute, Last16, Since;
    var entries := Since(s.log);
    var t := BeginCommand(s, cmd);
    if cmd.Cmd01? {
      PaddedExtends(entries, cmd.entry);
      SinceStep(s.log, Routed(cmd.entry));
      assert forall k :: 0 <= k <= |entries| ==> (entries + [cmd.entry])[..k] == entries[..k];
    } else if t.log != s.log {
      var e := t.log[|s.log|];
      assert t.log == s.log + [e];
      SinceStep(s.log, e);
    }
  }

  lemma BleTaskKeepsRoutesBoot(s: State, saved: Nvs)
    requires RoutesBoot(s, saved)
    ensures RoutesBoot(BleTask(s), saved)
  {
    hide SaveField, Padded, Last16, Since, AppendRoute;
    var entries := Since(s.log);
    match s.ble
    case SavingConfig(k) => FieldsAreNotRoutes(s.nvs, s.ram.config, k);
    case SaveBlob(_) =>
      PaddedHistory(entries);
      assert entries[..|entries|] == entries;
    case Receive => SinceStep(s.log, WroteReceive(s.pc));
    case _ =>
  }

  lemma StageTaskKeepsRoutesBoot(s: State, saved: Nvs, doorClosed: bool)
    requires RoutesBoot(s, saved) && BeforeReload(s.pc) && !s.pc.BootRoutes?
    ensures RoutesBoot(StageTask(s, doorClosed), saved)
  {
    hide LoadConfig, Since, Padded, Overwritten;
    if s.pc.BootStage? {
      SinceStep(s.log, WroteStage(s.nvs.stage.Or(0)));
    }
  }

  lemma NoWayBack(s: State, step: Step)
    requires step != Crash && BeforeReload(Next(s, step).pc)
    ensures BeforeReload(s.pc) && (step.StageStep? ==> !s.pc.BootRoutes?)
  {
    hide LoadConfig, LoadRoutes, Configure, AppendRoute, SaveField;
  }

  lemma {:induction false} BootKeepsRoutes(steps: seq<Step>, more: seq<Step>)
    requires Crash !in more && BeforeReload(AfterCut(steps, more).pc)
    ensures RoutesBoot(AfterCut(steps, more), Run(steps).nvs)
  {
    CutByOne(steps, more);
    hide AfterCut, Run;
    if more == [] {
      PowerOnRoutes(Run(steps));
    } else {
      var init, step := more[..|more| - 1], more[|more| - 1];
      var s, saved := AfterCut(steps, init), Run(steps).nvs;
      NoWayBack(s, step);
      hide RoutesBoot, BleTask, BeginCommand, StageTask;
      BootKeepsRoutes(steps, init);
      match step
      case StageStep(closed) => StageTaskKeepsRoutesBoot(s, saved, closed);
      case Begin(cmd) => if s.ble.Idle? { BeginKeepsRoutesBoot(s, saved, cmd); }
      case BleStep => BleTaskKeepsRoutesBoot(s, saved);
      case Measure(_) =>
    }
  }

  lemma PowerOnRoutes(s: State)
    ensures RoutesBoot(PowerCycled(s), s.nvs)
  {
    hide Since;
    SinceStep(s.log, Crashed);
  }

  /** A saved history, completely saved. */
  predicate Complete(n: Nvs, history: seq<RouteEntry>) {
    |history| <= MAX_ROUTE_HISTORY
    && ((n.routes == Some(history) && n.routeCount == Some(|history|)) || (history == [] && n.routeCount.Or(0) == 0))
  }

  /** What the reload finds once a blob has been written since power-on: nothing of what was saved but,
      until the first count write, its length. */
  function EarlyHistory(entries: seq<RouteEntry>, m: nat, q: nat, savedCount: RouteCount): seq<RouteEntry>
    requires 0 < m <= |entries| && q <= m
  {
    if q == 0 then ([entries[0]] + NO_ROUTES)[..savedCount]
    else if q < MAX_ROUTE_HISTORY then entries[..q]
    else Last16(entries[..m])
  }

  lemma ReloadOverwritten(entries: seq<RouteEntry>, n: Nvs, saved: Nvs, m: int, q: int)
    requires Overwritten(n, saved, entries, m, q) && 0 < m && m <= q + 1 && |entries| <= q + 1
    ensures var r := LoadRoutes(Padded(entries), n); r.0[..r.1] == EarlyHistory(entries, m, q, saved.routeCount.Or(0))
  {
    var slots := Padded(entries);
    var r := LoadRoutes(slots, n);
    LoadedCount(slots, n);
    if q == 0 {
      assert entries[..1] == [entries[0]] && Last16(entries[..1]) == entries[..1];
      assert slots == [entries[0]] + NO_ROUTES[1..];
      assert ([entries[0]] + NO_ROUTES)[..16] == slots;
      assert [entries[0]] + slots[1..] == slots;
    } else if q < MAX_ROUTE_HISTORY {
      assert Last16(entries[..m]) == entries[..m] && slots[..m] == entries[..m];
      assert entries[..m] + slots[m..] == slots;
      assert slots[..q] == entries[..q];
    } else {
      assert |Last16(entries[..m])| == 16;
      assert r.0[..16] == r.0;
    }
  }

  lemma ReloadComplete(slots: Slots, n: Nvs, history: seq<RouteEntry>)
    requires Complete(n, history)
    ensures var r := LoadRoutes(slots, n); r.0[..r.1] == history
  {
    LoadedCount(slots, n);
  }

  /** The reload, exactly. Whatever the BLE task has done since power-on, boot recovery takes back the saved
      history as long as no CMD 01 has reached its blob write; afterwards it gets what the early commands
      left, so the saved history comes back if and only if they happen to spell it. */
  lemma ReloadGivesHistoryIff(steps: seq<Step>, more: seq<Step>, history: seq<RouteEntry>)
    requires Crash !in more && AfterCut(steps, more).pc == BootRoutes && Complete(Run(steps).nvs, history)
    ensures var u := AfterCut(steps, more);
            var entries, m, q := Since(u.log), BlobsWritten(u), CountsWritten(u);
            && 0 <= q <= m <= |entries|
            && (m == 0 ==> History(ReloadRoutes(u).ram) == history)
            && (m > 0 ==> History(ReloadRoutes(u).ram) == EarlyHistory(entries, m, q, |history|))
            && (History(ReloadRoutes(u).ram) == history
                <==> m == 0 || history == EarlyHistory(entries, m, q, |history|))
  {
    var u, saved := AfterCut(steps, more), Run(steps).nvs;
    BootKeepsRoutes(steps, more);
    hide AfterCut, Run, Since, LoadRoutes, EarlyHistory, Padded, Last16;
    var entries, m, q := Since(u.log), BlobsWritten(u), CountsWritten(u);
    if m == 0 {
      assert q == 0;
      ReloadComplete(u.ram.slots, u.nvs, history);
    } else {
      ReloadOverwritten(entries, u.nvs, saved, m, q);
      assert saved.routeCount.Or(0) == |history|;
    }
  }

  // ---------------------------------------------------------------- the configuration

  datatype Value = Text(text: string) | Number(number: real)

  function Field(c: Config, k: FieldNo): Value {
    match k
    case 0 => Text(c.containerId)
    case 1 => Text(c.customerId)
    case 2 => Text(c.providerId)
    case 3 => Number(c.humidThreshold)
    case _ => Number(c.weight)
  }

  function TextKey(key: Option<string>): Option<Value> {
    if key.Some? then Some(Text(key.value)) else None
  }

  function NumberKey(key: Option<real>): Option<Value> {
    if key.Some? then Some(Number(key.value)) else None
  }

  function Key(n: Nvs, k: FieldNo): Option<Value> {
    match k
    case 0 => TextKey(n.containerId)
    case 1 => TextKey(n.customerId)
    case 2 => TextKey(n.providerId)
    case 3 => NumberKey(n.humidThreshold)
    case _ => NumberKey(n.weight)
  }

  lemma SavedKey(n: Nvs, c: Config, j: FieldNo, k: FieldNo)
    ensures Key(SaveField(n, c, j), k) == if k == j then Some(Field(c, k)) else Key(n, k)
  {
  }

  lemma LoadedField(c: Config, n: Nvs, k: FieldNo)
    ensures Field(LoadConfig(c, n), k) == Key(n, k).Or(Field(c, k))
  {
  }

  lemma SamePersisted(c: Config, d: Config)
    ensures Persist(c) == Persist(d) <==> forall k: FieldNo :: Field(c, k) == Field(d, k)
  {
    if forall k: FieldNo :: Field(c, k) == Field(d, k) {
      assert Field(c, 0) == Field(d, 0) && Field(c, 1) == Field(d, 1) && Field(c, 2) == Field(d, 2);
      assert Field(c, 3) == Field(d, 3) && Field(c, 4) == Field(d, 4);
    }
  }

  /** The CMD 00s since power-on. */
  function Setups(log: seq<Event>): seq<SetupCommand> {
    if log == [] || Last(log).Crashed? then []
    else if Last(log).Configured? then Setups(Init(log)) + [Last(log).setup]
    else Setups(Init(log))
  }

  /** What these commands make of the empty configuration. */
  function EarlyConfig(setups: seq<SetupCommand>): Config {
    if setups == [] then NO_CONFIG
    else Configure(EarlyConfig(setups[..|setups| - 1]), setups[|setups| - 1])
  }

  /** How many of them have written key `k`. */
  function KeyWrites(s: State, k: FieldNo): int {
    |Setups(s.log)| - if s.ble.SavingConfig? && s.ble.field <= k then 1 else 0
  }

  predicate KeyOverwritten(n: Nvs, saved: Nvs, setups: seq<SetupCommand>, k: FieldNo, w: int) {
    && 0 <= w <= |setups|
    && Key(n, k) == if w == 0 then Key(saved, k) else Some(Field(EarlyConfig(setups[..w]), k))
  }

  predicate ConfigBoot(s: State, saved: Nvs) {
    var setups := Setups(s.log);
    s.ram.config == EarlyConfig(setups) && forall k: FieldNo :: KeyOverwritten(s.nvs, saved, setups, k, KeyWrites(s, k))
  }

  lemma SetupsStep(log: seq<Event>, e: Event)
    ensures Setups(log + [e]) ==
            if e.Crashed? then [] else if e.Configured? then Setups(log) + [e.setup] else Setups(log)
  {
    assert Init(log + [e]) == log;
  }

  lemma BeginKeepsConfigBoot(s: State, saved: Nvs, cmd: Command)
    requires ConfigBoot(s, saved) && s.ble.Idle?
    ensures ConfigBoot(BeginCommand(s, cmd), saved)
  {
    hide Configure, AppendRoute, Setups, Key, Field;
    var setups := Setups(s.log);
    var t := BeginCommand(s, cmd);
    if cmd.Cmd00? {
      SetupsStep(s.log, Configured(cmd.setup));
      var longer := setups + [cmd.setup];
      assert longer[..|setups|] == setups;
      forall k: FieldNo
        ensures KeyOverwritten(t.nvs, saved, longer, k, KeyWrites(t, k))
      {
        assert KeyOverwritten(s.nvs, saved, setups, k, KeyWrites(s, k));
        assert setups[..|setups|] == setups;
      }
    } else {
      SameSetups(s, t);
      SameConfigBoot(s, t, saved);
    }
  }

  lemma SameSetups(s: State, t: State)
    requires t.log == s.log || (exists e :: t.log == s.log + [e] && !e.Crashed? && !e.Configured?)
    ensures Setups(t.log) == Setups(s.log)
  {
    if t.log != s.log {
      var e :| t.log == s.log + [e] && !e.Crashed? && !e.Configured?;
      SetupsStep(s.log, e);
    }
  }

  lemma SameConfigBoot(s: State, t: State, saved: Nvs)
    requires ConfigBoot(s, saved) && Setups(t.log) == Setups(s.log) && t.ram.config == s.ram.config
    requires !s.ble.SavingConfig? && !t.ble.SavingConfig? && forall k: FieldNo :: Key(t.nvs, k) == Key(s.nvs, k)
    ensures ConfigBoot(t, saved)
  {
    hide Setups, Key, Field, EarlyConfig;
    forall k: FieldNo
      ensures KeyOverwritten(t.nvs, saved, Setups(t.log), k, KeyWrites(t, k))
    {
      assert KeyOverwritten(s.nvs, saved, Setups(s.log), k, KeyWrites(s, k));
    }
  }

  lemma SavingKeepsConfigBoot(s: State, saved: Nvs)
    requires ConfigBoot(s, saved) && s.ble.SavingConfig?
    ensures ConfigBoot(BleTask(s), saved)
  {
    hide Setups, Key, Field, EarlyConfig, SaveField;
    var t, setups := BleTask(s), Setups(s.log);
    forall k: FieldNo
      ensures KeyOverwritten(t.nvs, saved, setups, k, KeyWrites(t, k))
    {
      assert KeyOverwritten(s.nvs, saved, setups, k, KeyWrites(s, k));
      SavedKey(s.nvs, s.ram.config, s.ble.field, k);
      assert setups[..|setups|] == setups;
    }
  }

  lemma OtherBleKeepsConfigBoot(s: State, saved: Nvs)
    requires ConfigBoot(s, saved) && !s.ble.SavingConfig?
    ensures ConfigBoot(BleTask(s), saved)
  {
    hide Setups, Field, EarlyConfig, SaveField, ConfigBoot;
    if s.ble.Receive? {
      assert BleTask(s).log == s.log + [WroteReceive(s.pc)];
    }
    SameSetups(s, BleTask(s));
    SameConfigBoot(s, BleTask(s), saved);
  }

  lemma BootStageKeepsConfigBoot(s: State, saved: Nvs, doorClosed: bool)
    requires ConfigBoot(s, saved) && s.pc.BootStage?
    ensures ConfigBoot(StageTask(s, doorClosed), saved)
  {
    hide Setups, Key, Field, EarlyConfig;
    var t := StageTask(s, doorClosed);
    assert t.log == s.log + [WroteStage(s.nvs.stage.Or(0))];
    SameSetups(s, t);
    forall k: FieldNo
      ensures KeyOverwritten(t.nvs, saved, Setups(t.log), k, KeyWrites(t, k))
    {
      assert KeyOverwritten(s.nvs, saved, Setups(s.log), k, KeyWrites(s, k));
    }
  }

  predicate BeforeLoad(pc: StagePc) {
    pc.BootStage? || pc.BootConfig?
  }

  lemma NoWayBackToLoad(s: State, step: Step)
    requires step != Crash && BeforeLoad(Next(s, step).pc)
    ensures BeforeLoad(s.pc) && (step.StageStep? ==> s.pc.BootStage?)
  {
    hide LoadConfig, LoadRoutes, Configure, AppendRoute, SaveField;
  }

  lemma PowerOnConfig(s: State)
    ensures ConfigBoot(PowerCycled(s), s.nvs)
  {
    hide Setups, Key, Field;
    SetupsStep(s.log, Crashed);
  }

  lemma {:induction false} BootKeepsConfig(steps: seq<Step>, more: seq<Step>)
    requires Crash !in more && BeforeLoad(AfterCut(steps, more).pc)
    ensures ConfigBoot(AfterCut(steps, more), Run(steps).nvs)
  {
    CutByOne(steps, more);
    hide AfterCut, Run;
    if more == [] {
      PowerOnConfig(Run(steps));
    } else {
      var init, step := more[..|more| - 1], more[|more| - 1];
      var s, saved := AfterCut(steps, init), Run(steps).nvs;
      NoWayBackToLoad(s, step);
      hide ConfigBoot, BleTask, BeginCommand, StageTask;
      BootKeepsConfig(steps, init);
      match step
      case StageStep(closed) => BootStageKeepsConfigBoot(s, saved, closed);
      case Begin(cmd) => if s.ble.Idle? { BeginKeepsConfigBoot(s, saved, cmd); }
      case BleStep =>
        if s.ble.SavingConfig? {
          SavingKeepsConfigBoot(s, saved);
        } else {
          OtherBleKeepsConfigBoot(s, saved);
        }
      case Measure(_) =>
    }
  }

  /** What was saved, as an undisturbed boot reads it. */
  function SavedField(n: Nvs, k: FieldNo): Value {
    Key(n, k).Or(Field(NO_CONFIG, k))
  }

  /** After the CMD 00s since power-on, field `k` still loads as it was saved: no command has written its key,
      and none has filled in what was never saved; or the last that wrote the key wrote the same value. */
  predicate Spared(s: State, saved: Nvs, k: FieldNo)
    requires 0 <= KeyWrites(s, k) <= |Setups(s.log)|
  {
    var setups, w := Setups(s.log), KeyWrites(s, k);
    if w == 0 then Key(saved, k).Some? || Field(EarlyConfig(setups), k) == Field(NO_CONFIG, k)
    else Field(EarlyConfig(setups[..w]), k) == SavedField(saved, k)
  }

  /** The configuration, exactly: whatever the BLE task has done since power-on, boot recovery gives back the
      five saved fields if and only if every one of them was spared. */
  lemma LoadGivesConfigIff(steps: seq<Step>, more: seq<Step>)
    requires Crash !in more && AfterCut(steps, more).pc == BootConfig
    ensures var u, saved := AfterCut(steps, more), Run(steps).nvs;
            && (forall k: FieldNo :: 0 <= KeyWrites(u, k) <= |Setups(u.log)|)
            && (Persist(LoadConfig(u.ram.config, u.nvs)) == Persist(LoadConfig(NO_CONFIG, saved))
                <==> forall k: FieldNo :: Spared(u, saved, k))
  {
    var u, saved := AfterCut(steps, more), Run(steps).nvs;
    BootKeepsConfig(steps, more);
    hide AfterCut, Run, Setups, Key, Field, EarlyConfig, LoadConfig;
    var c, d := LoadConfig(u.ram.config, u.nvs), LoadConfig(NO_CONFIG, saved);
    SamePersisted(c, d);
    forall k: FieldNo
      ensures 0 <= KeyWrites(u, k) <= |Setups(u.log)| && (Field(c, k) == Field(d, k) <==> Spared(u, saved, k))
    {
      assert KeyOverwritten(u.nvs, saved, Setups(u.log), k, KeyWrites(u, k));
      LoadedField(u.ram.config, u.nvs, k);
      LoadedField(NO_CONFIG, saved, k);
    }
  }

  /** For instance: a CMD 00 handled in between replaces all five saved fields, in RAM and in NVS, those it does
      not give by empty ones. */
  lemma EarlySetupReplacesConfig(steps: seq<Step>, setup: SetupCommand)
    requires InTransport(Run(steps).nvs)
    ensures var s := StageSteps(Drain(BeginCommand(PowerCycled(Run(steps)), Cmd00(setup))), 4);
            && s.pc == Dispatch && s.ram.stage == STAGE_TRANSPORT
            && Persist(s.ram.config) == Persist(Configure(NO_CONFIG, setup)) == Persist(LoadConfig(NO_CONFIG, s.nvs))
  {
    var a := PowerCycled(Run(steps));
    var c := Configure(NO_CONFIG, setup);
    hide Run, Configure;
    assert a.ram == POWER_ON && a.ble.Idle?;
    Cmd00IsFiveSaves(a, setup);
    var b := Drain(BeginCommand(a, Cmd00(setup)));
    hide Drain, BeginCommand;
    assert b.nvs.stage == a.nvs.stage && InTransport(b.nvs) && b.pc == BootStage && b.ram.config == c;
    LoadInvertsSave(c, c, a.nvs);
    LoadInvertsSave(c, NO_CONFIG, a.nvs);
    hide Saved;
    BootLoadsConfig(b);
  }

  lemma BootLoadsConfig(a: State)
    requires a.pc == BootStage && InTransport(a.nvs)
    ensures var s := StageSteps(a, 4);
            && s.pc == Dispatch && s.ram.stage == STAGE_TRANSPORT && s.nvs == a.nvs
            && s.ram.config == LoadConfig(a.ram.config, a.nvs)
  {
    hide LoadConfig, LoadRoutes;
    var b := StageTask(a, false);
    var c := StageTask(b, false);
    var d := StageTask(c, false);
    var e := StageTask(d, false);
    assert c.ram.config == LoadConfig(a.ram.config, a.nvs) && c.nvs == a.nvs && c.pc == BootRoutes;
    assert StageSteps(a, 4) == StageSteps(b, 3) == StageSteps(c, 2) == StageSteps(d, 1) == StageSteps(e, 0) == e;
  }

  // ---------------------------------------------------------------- a command caught by the reload

  /** A CMD 01 begun after power-on and before the reload, which finishes only after boot recovery. */
  function CaughtCommand(s: State, e: RouteEntry): State {
    BleTask(BleTask(StageSteps(BleTask(Next(PowerCycled(s), Begin(Cmd01(e)))), 4)))
  }

  /** The reload is not the last word: with a command caught by it the device goes on with the whole history in
      RAM and no command in progress, but NVS holds the first entry only, and the next power cut loses the rest. */
  lemma CaughtCommandLosesHistory(steps: seq<Step>, e: RouteEntry, history: seq<RouteEntry>)
    requires InTransport(Run(steps).nvs) && Complete(Run(steps).nvs, history) && |history| >= 2
    ensures var s := CaughtCommand(Run(steps), e);
            && s.pc == Dispatch && s.ble == Idle && History(s.ram) == history
            && InTransport(s.nvs) && History(Recovered(s).ram) == history[..1]
  {
    hide Run, LoadConfig;
    var begun := BleTask(Next(PowerCycled(Run(steps)), Begin(Cmd01(e))));
    assert begun.pc == BootStage && begun.ble == SaveBlob(1) && begun.nvs == Run(steps).nvs;
    var booted := StageSteps(begun, 4);
    BootLoadsHistory(begun, history);
    assert booted.ram.slots[..1] == history[..1] by { assert booted.ram.slots[..1] == History(booted.ram)[..1]; }
    var s := BleTask(BleTask(booted));
    assert s == booted.(nvs := booted.nvs.(routes := Some(history[..1]), routeCount := Some(1)), ble := Idle);
    hide BleTask, StageSteps, Complete, LoadRoutes;
    RecoveryReadsNvs(s);
    ReloadRestores(booted.ram.slots, 1, s.nvs);
  }

  lemma BootLoadsHistory(a: State, history: seq<RouteEntry>)
    requires a.pc == BootStage && InTransport(a.nvs) && Complete(a.nvs, history)
    ensures var s := StageSteps(a, 4);
            && s.pc == Dispatch && s.nvs == a.nvs && s.ble == a.ble
            && History(s.ram) == history && s.ram.count == |history|
  {
    ReloadComplete(a.ram.slots, a.nvs, history);
    LoadedCount(a.ram.slots, a.nvs);
    hide LoadConfig, LoadRoutes;
    var b := StageTask(a, false);
    var c := StageTask(b, false);
    var d := StageTask(c, false);
    var f := StageTask(d, false);
    assert c.ram.slots == a.ram.slots && c.nvs == a.nvs && c.pc == BootRoutes;
    assert StageSteps(a, 4) == StageSteps(b, 3) == StageSteps(c, 2) == StageSteps(d, 1) == StageSteps(f, 0) == f;
  }

  // ---------------------------------------------------------------- a reboot outside transport

  predicate InFirstRound(pc: StagePc) {
    pc.BootStage? || pc.Dispatch? || pc.BadStage?
  }

  /** After a power cut the stage task has not left the first round of the main loop yet. */
  predicate StillInFirstRound(steps: seq<Step>, more: seq<Step>) {
    forall n :: 0 <= n <= |more| ==> InFirstRound(AfterCut(steps, more[..n]).pc)
  }

  function StageStepsTaken(more: seq<Step>): nat {
    if more == [] then 0
    else StageStepsTaken(more[..|more| - 1]) + if more[|more| - 1].StageStep? then 1 else 0
  }

  /** Where the stage task stands after `n` of its steps, with this content of NVS. */
  predicate FirstRound(s: State, saved: Nvs, n: nat) {
    && s.nvs.stage == saved.stage
    && match s.pc
       case BootStage => n == 0
       case Dispatch =>
         || (n == 1 && (s.ram.stage == saved.stage.Or(0) || s.ram.stage == STAGE_RECEIVE))
         || (n == 3 && (s.ram.stage == STAGE_SETUP || s.ram.stage == STAGE_RECEIVE))
       case BadStage => n == 2
       case _ => true
  }

  lemma StepKeepsFirstRound(s: State, saved: Nvs, n: nat, step: Step)
    requires FirstRound(s, saved, n) && InFirstRound(s.pc) && step != Crash && NvsStageOk(saved) && !InTransport(saved)
    requires InFirstRound(Next(s, step).pc)
    ensures FirstRound(Next(s, step), saved, n + if step.StageStep? then 1 else 0)
  {
    hide Configure, AppendRoute, LoadRoutes, LoadConfig;
  }

  lemma {:induction false} FirstRoundOfReboot(steps: seq<Step>, more: seq<Step>)
    requires !InTransport(Run(steps).nvs) && Crash !in more && StillInFirstRound(steps, more)
    ensures FirstRound(AfterCut(steps, more), Run(steps).nvs, StageStepsTaken(more))
  {
    CutByOne(steps, more);
    RunIsStageOk(steps);
    assert more[..|more|] == more;
    hide AfterCut, Run;
    if more != [] {
      var init, step := more[..|more| - 1], more[|more| - 1];
      assert forall n :: 0 <= n <= |init| ==> init[..n] == more[..n];
      assert InFirstRound(AfterCut(steps, more[..|init|]).pc) && InFirstRound(AfterCut(steps, more[..|more|]).pc);
      FirstRoundOfReboot(steps, init);
      hide FirstRound, Next, NvsStageOk;
      StepKeepsFirstRound(AfterCut(steps, init), Run(steps).nvs, StageStepsTaken(init), step);
    }
  }

  /** A reboot with any other NVS content than TRANSPORT, over all interleavings with BLE commands: the stage
      task leaves the first round of the main loop after at most four of its steps, for stage 1, or for
      stage 3 if and only if it stands at the dispatch and a CMD 02 has set the stage variable. */
  lemma RebootEntersStage1Or3(steps: seq<Step>, more: seq<Step>, doorClosed: bool)
    requires !InTransport(Run(steps).nvs) && Crash !in more && StillInFirstRound(steps, more)
    ensures var u := AfterCut(steps, more);
            var t := StageTask(u, doorClosed);
            && StageStepsTaken(more) <= 3 && !InTransport(u.nvs)
            && (InFirstRound(t.pc) || t.pc == Enter1 || t.pc == Erase)
            && (InFirstRound(t.pc) ==> StageStepsTaken(more) < 3)
            && (t.pc == Erase <==> u.pc == Dispatch && StageSkip.BecameReceive(u.log).Some?)
  {
    RunIsStageOk(steps);
    FirstRoundOfReboot(steps, more);
    assert more[..|more|] == more;
    assert InFirstRound(AfterCut(steps, more[..|more|]).pc);
    StageSkip.RunIsSkipOk(steps + [Crash] + more);
    hide Run, StageSkip.BecameReceive, StageSkip.EntriesOk, StageSkip.PlaceOk;
  }

  // ---------------------------------------------------------------- a power cut inside CMD 00

  /** A power cut while CMD 00 saves: of the five fields those saved so far come back, and of the others exactly
      those whose key already holds the value in RAM. */
  lemma HalfSavedFieldsIff(steps: seq<Step>, j: FieldNo)
    requires var s := Run(steps);
             InTransport(s.nvs) && s.ble.SavingConfig? && !s.pc.BootStage? && !s.pc.BootConfig?
    ensures var s := Run(steps);
            Field(Recovered(s).ram.config, j) == Field(s.ram.config, j)
            <==> j < s.ble.field || SavedField(s.nvs, j) == Field(s.ram.config, j)
  {
    var s := Run(steps);
    RunIsStageOk(steps);
    RunIsConfigOk(steps);
    hide Run, Recovered, LoadConfig;
    RecoveryReadsNvs(s);
    LoadedField(NO_CONFIG, s.nvs, j);
    if j < s.ble.field {
      KeptField(s.nvs, s.ram.config, s.ble.field, j);
    }
  }

  lemma KeptField(n: Nvs, c: Config, k: nat, j: FieldNo)
    requires Kept(n, c, k) && j < k
    ensures SavedField(n, j) == Field(c, j)
  {
  }

  function BleSteps(s: State, n: nat): State
    decreases n
  {
    if n == 0 then s else BleTask(BleSteps(s, n - 1))
  }

  /** So a CMD 00 cut after `k` of its writes leaves a mixture: the first `k` fields as the command has them, the
      others as before it. */
  lemma SetupCutMidway(steps: seq<Step>, setup: SetupCommand, k: FieldNo, j: FieldNo)
    requires var s := Run(steps); InTransport(s.nvs) && s.ble.Idle? && !s.pc.BootStage? && !s.pc.BootConfig?
    ensures var s := Run(steps);
            var cut := BleSteps(BeginCommand(s, Cmd00(setup)), k);
            Field(Recovered(cut).ram.config, j)
            == Field(if j < k then Configure(s.ram.config, setup) else s.ram.config, j)
  {
    var s := Run(steps);
    RunIsStageOk(steps);
    RunIsConfigOk(steps);
    var begun := BeginCommand(s, Cmd00(setup));
    assert Kept(s.nvs, s.ram.config, 5);
    assert begun.nvs == s.nvs && begun.ble == SavingConfig(0) && begun.ram.config == Configure(s.ram.config, setup);
    hide Run, Recovered, LoadConfig, Configure, BeginCommand;
    FieldsWritten(begun, k, j);
    var cut := BleSteps(begun, k);
    RecoveryReadsNvs(cut);
    LoadedField(NO_CONFIG, cut.nvs, j);
    KeptField(s.nvs, s.ram.config, 5, j);
  }

  lemma {:induction false} FieldsWritten(s: State, k: nat, j: FieldNo)
    requires s.ble == SavingConfig(0) && k < 5
    ensures var t := BleSteps(s, k);
            && t.ble == SavingConfig(k) && t.ram == s.ram && t.nvs.stage == s.nvs.stage
            && Key(t.nvs, j) == if j < k then Some(Field(s.ram.config, j)) else Key(s.nvs, j)
  {
    if k > 0 {
      FieldsWritten(s, k - 1, j);
      var before := BleSteps(s, k - 1);
      SavedKey(before.nvs, before.ram.config, k - 1, j);
      FieldsAreNotStage(before.nvs, before.ram.config, k - 1);
      hide SaveField, Key, Field;
    }
  }
}

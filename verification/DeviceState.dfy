/**
 The globals in RAM and the "container" namespace in NVS (components/globals/globals.h,
 components/storage/nvs_manager.c), and the single reads and writes the firmware makes on them.
 */
module DeviceState {

  datatype Option<T> = None | Some(value: T) {
    function Or(default: T): T {
      if Some? then value else default
    }
  }

  const STAGE_SETUP := 1
  const STAGE_TRANSPORT := 2
  const STAGE_RECEIVE := 3
  const MAX_ROUTE_HISTORY: nat := 16

  type RouteCount = n: nat | n <= MAX_ROUTE_HISTORY
  datatype RouteEntry = RouteEntry(shipperId: string, onBoard: bool, timestamp: string)

  const NO_ENTRY := RouteEntry("", false, "")

  datatype Config = Config(containerId: string, customerId: string, providerId: string,
                           humidThreshold: real, weight: real,
                           product: string, origin: string, destination: string, released: string)

  const NO_CONFIG := Config("", "", "", 0.0, 0.0, "", "", "", "")

  /** The five configuration fields that are kept in NVS. */
  datatype Persisted = Persisted(containerId: string, customerId: string, providerId: string,
                                 humidThreshold: real, weight: real)

  const NOTHING_PERSISTED := Persisted("", "", "", 0.0, 0.0)

  function Persist(c: Config): Persisted {
    Persisted(c.containerId, c.customerId, c.providerId, c.humidThreshold, c.weight)
  }

  type Slots = s: seq<RouteEntry> | |s| == MAX_ROUTE_HISTORY witness NO_ROUTES

  /** g_route_history is `slots`, g_route_count is `count`, and `latestLoss` the loss in g_latest_telemetry. */
  datatype Ram = Ram(stage: int, door: bool, fan: bool, uv: bool, config: Config, slots: Slots, count: RouteCount,
                     latestLoss: real)

  const NO_ROUTES: seq<RouteEntry> :=
    [NO_ENTRY, NO_ENTRY, NO_ENTRY, NO_ENTRY, NO_ENTRY, NO_ENTRY, NO_ENTRY, NO_ENTRY,
     NO_ENTRY, NO_ENTRY, NO_ENTRY, NO_ENTRY, NO_ENTRY, NO_ENTRY, NO_ENTRY, NO_ENTRY]
  const POWER_ON := Ram(STAGE_SETUP, false, false, false, NO_CONFIG, NO_ROUTES, 0, 0.0)

  datatype Nvs = Nvs(containerId: Option<string>, customerId: Option<string>, providerId: Option<string>,
                     humidThreshold: Option<real>, weight: Option<real>,
                     stage: Option<int>, door: Option<bool>, fan: Option<bool>, uv: Option<bool>,
                     routes: Option<seq<RouteEntry>>, routeCount: Option<RouteCount>,
                     wifiSsid: Option<string>, wifiPass: Option<string>)

  const ERASED := Nvs(None, None, None, None, None, None, None, None, None, None, None, None, None)

  // ---------------------------------------------------------------- CMD 00

  datatype SetupCommand = SetupCommand(containerId: Option<string>,
                                       customerId: Option<string>, providerId: Option<string>,
                                       humidThreshold: Option<real>, weight: Option<real>,
                                       product: Option<string>, origin: Option<string>,
                                       destination: Option<string>, released: Option<string>)

  /** strlcpy into a field of `size` bytes. */
  function Copied(s: string, size: nat): string
    requires size > 0
  {
    if |s| < size then s else s[..size - 1]
  }

  function CopyStr(field: Option<string>, size: nat, old': string): string
    requires size > 0
  {
    if field.Some? then Copied(field.value, size) else old'
  }

  /** Fields that are given overwrite the configuration, the others stay. */
  function Configure(c: Config, cmd: SetupCommand): Config {
    Config(CopyStr(cmd.containerId, 32, c.containerId), CopyStr(cmd.customerId, 32, c.customerId),
           CopyStr(cmd.providerId, 32, c.providerId), cmd.humidThreshold.Or(c.humidThreshold), cmd.weight.Or(c.weight),
           CopyStr(cmd.product, 32, c.product), CopyStr(cmd.origin, 64, c.origin),
           CopyStr(cmd.destination, 64, c.destination), CopyStr(cmd.released, 32, c.released))
  }

  type FieldNo = k: nat | k < 5

  /** The `k`-th write of nvs_save_container_config. */
  function SaveField(n: Nvs, c: Config, k: FieldNo): Nvs {
    match k
    case 0 => n.(containerId := Some(c.containerId))
    case 1 => n.(customerId := Some(c.customerId))
    case 2 => n.(providerId := Some(c.providerId))
    case 3 => n.(humidThreshold := Some(c.humidThreshold))
    case _ => n.(weight := Some(c.weight))
  }

  /** nvs_save_container_config as a whole. */
  function Saved(n: Nvs, c: Config): Nvs {
    SaveField(SaveField(SaveField(SaveField(SaveField(n, c, 0), c, 1), c, 2), c, 3), c, 4)
  }

  /** nvs_load_container_config: a missing key leaves the field alone. */
  function LoadConfig(c: Config, n: Nvs): Config {
    c.(containerId := n.containerId.Or(c.containerId), customerId := n.customerId.Or(c.customerId),
       providerId := n.providerId.Or(c.providerId), humidThreshold := n.humidThreshold.Or(c.humidThreshold),
       weight := n.weight.Or(c.weight))
  }

  // ---------------------------------------------------------------- CMD 01 and the route history

  /** Append while there is room, else shift left and discard the oldest. */
  function AppendRoute(slots: Slots, count: RouteCount, e: RouteEntry): (r: (Slots, RouteCount)) {
    if count < MAX_ROUTE_HISTORY then (slots[count := e], count + 1)
    else (slots[1..] + [e], count)
  }

  /** nvs_load_route_history: the count is taken over, the blob only if it fits into `count` entries. */
  function LoadRoutes(slots: Slots, n: Nvs): (r: (Slots, RouteCount)) {
    var count: RouteCount := n.routeCount.Or(0);
    if count > 0 && n.routes.Some? && |n.routes.value| <= count then
      (n.routes.value + slots[|n.routes.value|..], count)
    else (slots, count)
  }

  /** The last 16 of a list. */
  function Last16(entries: seq<RouteEntry>): seq<RouteEntry> {
    if |entries| <= MAX_ROUTE_HISTORY then entries else entries[|entries| - MAX_ROUTE_HISTORY..]
  }

  function AppendAll(slots: Slots, count: RouteCount, entries: seq<RouteEntry>): (r: (Slots, RouteCount)) {
    if entries == [] then (slots, count)
    else
      var r := AppendAll(slots, count, entries[..|entries| - 1]);
      AppendRoute(r.0, r.1, entries[|entries| - 1])
  }

  lemma AppendTakesLast(slots: Slots, count: RouteCount, e: RouteEntry)
    ensures var r := AppendRoute(slots, count, e); r.0[..r.1] == Last16(slots[..count] + [e])
  {
    var r := AppendRoute(slots, count, e);
    if count < MAX_ROUTE_HISTORY {
      assert r.0[..count + 1] == slots[..count] + [e];
    } else {
      assert slots[..count] == slots;
      assert (slots + [e])[1..] == slots[1..] + [e];
      assert r.0[..count] == r.0;
    }
  }

  lemma Last16Twice(entries: seq<RouteEntry>, e: RouteEntry)
    ensures Last16(Last16(entries) + [e]) == Last16(entries + [e])
  {
    var n := |entries|;
    if n >= 16 {
      assert (entries[n - 16..] + [e])[1..] == entries[n - 15..] + [e];
      assert (entries + [e])[n - 15..] == entries[n - 15..] + [e];
      if n == 16 {
        assert entries[0..] == entries;
      }
    }
  }

  /** After any sequence of CMD 01 the array holds exactly the last min(n, 16) entries, in order. */
  lemma {:induction false} HistoryIsLast16(entries: seq<RouteEntry>)
    ensures var r := AppendAll(NO_ROUTES, 0, entries);
            r.0[..r.1] == Last16(entries) && r.1 == if |entries| < 16 then |entries| else 16
  {
    if entries != [] {
      var init, last := entries[..|entries| - 1], entries[|entries| - 1];
      HistoryIsLast16(init);
      assert entries == init + [last];
      var q := AppendAll(NO_ROUTES, 0, init);
      AppendTakesLast(q.0, q.1, last);
      Last16Twice(init, last);
    }
  }

  /** What a reboot reads back is independent of what the slots held, as far as the blob covers them. */
  lemma ReloadRestores(slots: Slots, count: RouteCount, n: Nvs)
    requires n.routes == Some(slots[..count]) && n.routeCount == Some(count)
    ensures var r := LoadRoutes(NO_ROUTES, n); r.1 == count && r.0[..count] == slots[..count]
  {
  }

  /** Loading what was saved gives the five persisted fields back, whatever they were before. */
  lemma LoadInvertsSave(c: Config, before: Config, n: Nvs)
    ensures Persist(LoadConfig(before, Saved(n, c))) == Persist(c)
  {
  }

  /** A customer can confirm with the id given at set-up exactly if the id is shorter than its 32-byte field. */
  lemma SetupIdConfirmsIffShort(c: Config, cmd: SetupCommand)
    requires cmd.customerId.Some?
    ensures Configure(c, cmd).customerId == cmd.customerId.value <==> |cmd.customerId.value| < 32
  {
  }
}

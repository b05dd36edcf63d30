/**
 What the log of a run says about how the device got where it is: who authorised the handover, why the
 door alert is off, and which route entries the history holds.
 */
module StageHandover {
  import opened DeviceState
  import opened StageMachine
  import opened StageRecovery

  function Init(log: seq<Event>): seq<Event>
    requires log != []
  {
    log[..|log| - 1]
  }

  function Last(log: seq<Event>): Event
    requires log != []
  {
    log[|log| - 1]
  }

  predicate Matches(e: Event) {
    e.Compared? && e.given == e.configured
  }

  // ---------------------------------------------------------------- authorisation

  /** The latest comparison since the last crash was a match. */
  predicate JustMatched(log: seq<Event>) {
    if log == [] || Last(log).Crashed? then false
    else if Last(log).Compared? then Matches(Last(log))
    else JustMatched(Init(log))
  }

  /** The stage variable was last written by a CMD 02, right after a match. */
  predicate Authorised(log: seq<Event>) {
    if log == [] || Last(log).Crashed? || Last(log).WroteStage? then false
    else if Last(log).WroteReceive? then JustMatched(Init(log))
    else Authorised(Init(log))
  }

  predicate MatchAt(log: seq<Event>, c: nat) {
    && c < |log| && Matches(log[c])
    && forall i :: c < i < |log| ==> !log[i].Compared? && !log[i].Crashed?
  }

  predicate ReceiveAt(log: seq<Event>, w: nat) {
    && w < |log| && log[w].WroteReceive?
    && forall i :: w < i < |log| ==> !log[i].WroteReceive? && !log[i].WroteStage? && !log[i].Crashed?
  }

  lemma {:induction false} JustMatchedMeans(log: seq<Event>)
    ensures JustMatched(log) <==> exists c :: MatchAt(log, c)
  {
    if log != [] {
      JustMatchedMeans(Init(log));
      if JustMatched(log) {
        if Last(log).Compared? {
          assert MatchAt(log, |log| - 1);
        } else {
          var c :| MatchAt(Init(log), c);
          assert MatchAt(log, c);
        }
      }
      if c: nat :| MatchAt(log, c) {
        if c < |log| - 1 {
          assert MatchAt(Init(log), c);
        }
      }
    }
  }

  /** Authorised spelt out: some CMD 02 compared two equal ids and wrote the stage variable, no other
      comparison and no crash came between, and no write of the variable and no crash since. */
  lemma {:induction false} AuthorisedMeans(log: seq<Event>)
    ensures Authorised(log) <==> exists c: nat, w: nat :: ReceiveAt(log, w) && MatchAt(log[..w], c)
  {
    if log != [] {
      AuthorisedMeans(Init(log));
      if Authorised(log) {
        if Last(log).WroteReceive? {
          JustMatchedMeans(Init(log));
          var c :| MatchAt(Init(log), c);
          assert ReceiveAt(log, |log| - 1) && MatchAt(log[..|log| - 1], c);
        } else {
          var c: nat, w: nat :| ReceiveAt(Init(log), w) && MatchAt(Init(log)[..w], c);
          assert Init(log)[..w] == log[..w];
          assert ReceiveAt(log, w) && MatchAt(log[..w], c);
        }
      }
      if c: nat, w: nat :| ReceiveAt(log, w) && MatchAt(log[..w], c) {
        if w < |log| - 1 {
          assert Init(log)[..w] == log[..w];
          assert ReceiveAt(Init(log), w) && MatchAt(Init(log)[..w], c);
        } else {
          JustMatchedMeans(Init(log));
        }
      }
    }
  }

  predicate EntriesAuthorised(log: seq<Event>) {
    forall i :: 0 <= i < |log| && log[i].Entered3? ==> Authorised(log[..i])
  }

  predicate HandoverOk(s: State) {
    && (s.ram.stage == STAGE_RECEIVE <==> Authorised(s.log))
    && (s.ble.DoorOff? || s.ble.Receive? ==> JustMatched(s.log))
    && EntriesAuthorised(s.log)
  }

  /** What one more event makes of the three log predicates. */
  lemma LogGrows(log: seq<Event>, e: Event)
    requires EntriesAuthorised(log) && (e.Entered3? ==> Authorised(log))
    ensures EntriesAuthorised(log + [e])
    ensures JustMatched(log + [e]) <==> !e.Crashed? && if e.Compared? then Matches(e) else JustMatched(log)
    ensures Authorised(log + [e]) <==>
            !e.Crashed? && !e.WroteStage? && if e.WroteReceive? then JustMatched(log) else Authorised(log)
  {
    forall i | 0 <= i < |log + [e]| && (log + [e])[i].Entered3? ensures Authorised((log + [e])[..i]) {
      assert (log + [e])[..i] == log[..i];
      assert log[..|log|] == log;
    }
    assert Init(log + [e]) == log;
  }

  lemma WipeKeepsHandover(s: State)
    requires HandoverOk(s)
    ensures HandoverOk(Wipe(s))
  {
    hide EntriesAuthorised, JustMatched, Authorised;
    var log1 := s.log + [WroteStage(STAGE_SETUP)];
    LogGrows(s.log, WroteStage(STAGE_SETUP));
    LogGrows(log1, Wiped);
    assert Wipe(s).log == log1 + [Wiped];
  }

  lemma WriteKeepsHandover(s: State, stage: int, door: bool, pc: StagePc)
    requires HandoverOk(s) && stage != STAGE_RECEIVE
    ensures HandoverOk(WriteStage(s, stage, door, pc))
  {
    hide EntriesAuthorised, JustMatched, Authorised;
    LogGrows(s.log, WroteStage(stage));
  }

  /** Neither the log nor what HandoverOk says about the rest has changed. */
  predicate SameHandover(s: State, t: State) {
    t.log == s.log && t.ble == s.ble && t.ram.stage == s.ram.stage
  }

  lemma StageTaskKeepsHandover(s: State, doorClosed: bool)
    requires StageOk(s) && HandoverOk(s)
    ensures HandoverOk(StageTask(s, doorClosed))
  {
    hide LoadConfig, LoadRoutes, JustMatched, Authorised, EntriesAuthorised, WriteStage, Wipe, HandoverOk;
    var t := StageTask(s, doorClosed);
    if s.pc.Reset? {
      WipeKeepsHandover(s);
    } else if s.pc.BootStage? || s.pc.BadStage? || s.pc.Enter1? || s.pc.Leave1? {
      WritingKeepsHandover(s, doorClosed);
    } else if s.pc.BootRoutes? || s.pc.Dispatch? || s.pc.Transport? {
      LoggingKeepsHandover(s, doorClosed);
    } else {
      assert SameHandover(s, t);
      SameKeepsHandover(s, t);
    }
  }

  lemma SameKeepsHandover(s: State, t: State)
    requires HandoverOk(s) && SameHandover(s, t)
    ensures HandoverOk(t)
  {
  }

  lemma WritingKeepsHandover(s: State, doorClosed: bool)
    requires StageOk(s) && HandoverOk(s)
    requires s.pc.BootStage? || s.pc.BadStage? || s.pc.Enter1? || s.pc.Leave1?
    ensures HandoverOk(StageTask(s, doorClosed))
  {
    hide JustMatched, Authorised, EntriesAuthorised, WriteStage, HandoverOk;
    var t := StageTask(s, doorClosed);
    if s.pc.BootStage? {
      var saved := s.nvs.stage.Or(0);
      WriteKeepsHandover(s, saved, s.ram.door, if saved == STAGE_TRANSPORT then BootConfig else Dispatch);
    } else if s.pc.BadStage? {
      WriteKeepsHandover(s, STAGE_SETUP, s.ram.door, Dispatch);
    } else if s.pc.Enter1? {
      WriteKeepsHandover(s, STAGE_SETUP, false, SaveDoorOff);
    } else {
      WriteKeepsHandover(s, STAGE_TRANSPORT, true, SaveDoorOn);
    }
  }

  lemma LoggingKeepsHandover(s: State, doorClosed: bool)
    requires HandoverOk(s) && (s.pc.BootRoutes? || s.pc.Dispatch? || s.pc.Transport?)
    ensures HandoverOk(StageTask(s, doorClosed))
  {
    hide LoadRoutes, EntriesAuthorised, JustMatched, Authorised;
    var t := StageTask(s, doorClosed);
    if s.pc.BootRoutes? {
      LogGrows(s.log, Reloaded(History(t.ram)));
    } else if s.ram.stage == STAGE_RECEIVE {
      LogGrows(s.log, if s.pc.Transport? then LeftTransport else Entered3);
    }
  }

  lemma BleKeepsHandover(s: State, step: Step)
    requires HandoverOk(s) && (step.Begin? || step.BleStep?)
    ensures HandoverOk(Next(s, step))
  {
    hide Configure, AppendRoute, EntriesAuthorised, JustMatched, Authorised;
    var t := Next(s, step);
    if t.log != s.log {
      var e := t.log[|s.log|];
      assert t.log == s.log + [e];
      LogGrows(s.log, e);
    }
  }

  /** In every run the stage variable says RECEIVE exactly while a CMD 02 with the configured id was the last
      to write it, and every execution of run_stage3 was entered that way. */
  lemma {:induction false} EveryHandoverIsAuthorised(steps: seq<Step>)
    ensures HandoverOk(Run(steps))
  {
    if steps != [] {
      var init, step := steps[..|steps| - 1], steps[|steps| - 1];
      EveryHandoverIsAuthorised(init);
      RunIsStageOk(init);
      hide BleTask, BeginCommand, StageTask, StageOk;
      match step
      case StageStep(closed) => StageTaskKeepsHandover(Run(init), closed);
      case Begin(_) => BleKeepsHandover(Run(init), step);
      case BleStep => BleKeepsHandover(Run(init), step);
      case Measure(_) =>
      case Crash =>
        hide HandoverOk, EntriesAuthorised;
        assert HandoverOk(Next(Run(init), Crash)) by {
          assert EntriesAuthorised(Run(init).log) by { assert HandoverOk(Run(init)); }
          LogGrows(Run(init).log, Crashed);
        }
    }
  }

  // ---------------------------------------------------------------- the door alert

  /** Some comparison since the last crash was a match. */
  predicate Matched(log: seq<Event>) {
    log != [] && !Last(log).Crashed? && (Matches(Last(log)) || Matched(Init(log)))
  }

  predicate InStage2(s: State) {
    s.pc.WaitRoute? || s.pc.WaitWifi? || s.pc.Transport? || s.pc.SaveDoorOn? || s.pc.SaveTransport?
    || (s.pc.Dispatch? && s.ram.stage == STAGE_TRANSPORT)
  }

  predicate DoorOk(s: State) {
    (InStage2(s) ==> s.ram.door || Matched(s.log)) && (s.ble.DoorOff? || s.ble.Receive? ==> Matched(s.log))
  }

  lemma MatchedStays(log: seq<Event>, e: Event)
    requires !e.Crashed?
    ensures Matched(log + [e]) <==> Matched(log) || Matches(e)
  {
    assert Init(log + [e]) == log;
  }

  lemma StageTaskLog(s: State, doorClosed: bool)
    ensures Matched(StageTask(s, doorClosed).log) <==> Matched(s.log)
  {
    hide LoadConfig, LoadRoutes, Matched;
    var t := StageTask(s, doorClosed);
    if s.pc.Reset? {
      MatchedStays(s.log, WroteStage(STAGE_SETUP));
      MatchedStays(s.log + [WroteStage(STAGE_SETUP)], Wiped);
      assert t.log == s.log + [WroteStage(STAGE_SETUP)] + [Wiped];
    } else if t.log != s.log {
      var e := t.log[|s.log|];
      assert t.log == s.log + [e];
      MatchedStays(s.log, e);
    }
  }

  lemma StageTaskKeepsDoorOk(s: State, doorClosed: bool)
    requires StageOk(s) && DoorOk(s)
    ensures DoorOk(StageTask(s, doorClosed))
  {
    StageTaskLog(s, doorClosed);
    hide LoadConfig, LoadRoutes, Matched;
  }

  lemma BleKeepsDoorOk(s: State, step: Step)
    requires DoorOk(s) && (step.Begin? || step.BleStep?)
    ensures DoorOk(Next(s, step))
  {
    hide Configure, AppendRoute, Matched;
    var t := Next(s, step);
    if t.log != s.log {
      var e := t.log[|s.log|];
      assert t.log == s.log + [e];
      MatchedStays(s.log, e);
    }
  }

  /** In transport the door alert is on unless a CMD 02 with the configured id came since power was last on. */
  lemma {:induction false} DoorAlertStaysArmed(steps: seq<Step>)
    ensures DoorOk(Run(steps))
  {
    if steps != [] {
      var init, step := steps[..|steps| - 1], steps[|steps| - 1];
      DoorAlertStaysArmed(init);
      RunIsStageOk(init);
      hide BleTask, BeginCommand, StageTask, StageOk, Matched;
      match step
      case StageStep(closed) => StageTaskKeepsDoorOk(Run(init), closed);
      case Begin(_) => BleKeepsDoorOk(Run(init), step);
      case BleStep => BleKeepsDoorOk(Run(init), step);
      case Measure(_) =>
      case Crash =>
    }
  }

  // ---------------------------------------------------------------- the route history

  function Extended(entries: seq<RouteEntry>, e: Event): seq<RouteEntry> {
    match e
    case Routed(entry) => entries + [entry]
    case Reloaded(history) => history
    case Wiped | Crashed => []
    case _ => entries
  }

  /** Every entry since the history was last set, without a limit. */
  function Since(log: seq<Event>): seq<RouteEntry> {
    if log == [] then [] else Extended(Since(Init(log)), Last(log))
  }

  predicate HistoryOk(s: State) {
    History(s.ram) == Last16(Since(s.log))
  }

  lemma SinceStep(log: seq<Event>, e: Event)
    ensures Since(log + [e]) == Extended(Since(log), e)
  {
    assert Init(log + [e]) == log;
  }

  lemma StageTaskKeepsHistoryOk(s: State, doorClosed: bool)
    requires HistoryOk(s)
    ensures HistoryOk(StageTask(s, doorClosed))
  {
    hide LoadConfig, LoadRoutes, Since, Last16;
    var t := StageTask(s, doorClosed);
    if s.pc.Reset? {
      var log1 := s.log + [WroteStage(STAGE_SETUP)];
      SinceStep(log1, Wiped);
      assert t.log == log1 + [Wiped];
      ShortIsItsLast16([]);
    } else if t.log != s.log {
      var e := t.log[|s.log|];
      assert t.log == s.log + [e];
      SinceStep(s.log, e);
      ShortIsItsLast16(History(t.ram));
    }
  }

  lemma ShortIsItsLast16(entries: seq<RouteEntry>)
    requires |entries| <= MAX_ROUTE_HISTORY
    ensures Last16(entries) == entries
  {
  }

  lemma BleKeepsHistoryOk(s: State, step: Step)
    requires HistoryOk(s) && (step.Begin? || step.BleStep?)
    ensures HistoryOk(Next(s, step))
  {
    hide Configure, Since, AppendRoute, Last16;
    var t := Next(s, step);
    if t.log != s.log {
      var e := t.log[|s.log|];
      assert t.log == s.log + [e];
      SinceStep(s.log, e);
      if e.Routed? {
        AppendTakesLast(s.ram.slots, s.ram.count, e.entry);
        Last16Twice(Since(s.log), e.entry);
      }
    }
  }

  /** In every run the history is the last 16 of all entries CMD 01 appended since it was last reloaded or
      cleared. */
  lemma {:induction false} HistoryIsTailOfLog(steps: seq<Step>)
    ensures HistoryOk(Run(steps))
    ensures var entries := Since(Run(steps).log);
            Run(steps).ram.count == if |entries| < MAX_ROUTE_HISTORY then |entries| else MAX_ROUTE_HISTORY
  {
    if steps != [] {
      var init, step := steps[..|steps| - 1], steps[|steps| - 1];
      HistoryIsTailOfLog(init);
      hide BleTask, BeginCommand, StageTask;
      match step
      case StageStep(closed) => StageTaskKeepsHistoryOk(Run(init), closed);
      case Begin(_) => BleKeepsHistoryOk(Run(init), step);
      case BleStep => BleKeepsHistoryOk(Run(init), step);
      case Measure(_) =>
      case Crash => SinceStep(Run(init).log, Crashed);
    }
  }

  // ---------------------------------------------------------------- a finished CMD 01 is saved

  /** The history was last touched by a CMD 01. */
  predicate LastIsRouted(log: seq<Event>) {
    if log == [] || Last(log).Reloaded? || Last(log).Wiped? || Last(log).Crashed? then false
    else Last(log).Routed? || LastIsRouted(Init(log))
  }

  predicate CountOk(s: State) {
    LastIsRouted(s.log) && !s.pc.Reset? ==>
      match s.ble
      case SaveRoutes => true
      case SaveBlob(c) => c == s.ram.count
      case SaveCount(c) => c == s.ram.count
      case _ => s.nvs.routeCount == Some(s.ram.count)
  }

  lemma LastIsRoutedStep(log: seq<Event>, e: Event)
    ensures LastIsRouted(log + [e]) <==>
            !e.Reloaded? && !e.Wiped? && !e.Crashed? && (e.Routed? || LastIsRouted(log))
  {
    assert Init(log + [e]) == log;
  }

  lemma StageTaskKeepsCountOk(s: State, doorClosed: bool)
    requires CountOk(s)
    ensures CountOk(StageTask(s, doorClosed))
  {
    hide LoadConfig, LoadRoutes, LastIsRouted;
    var t := StageTask(s, doorClosed);
    if s.pc.Reset? {
      var log1 := s.log + [WroteStage(STAGE_SETUP)];
      LastIsRoutedStep(log1, Wiped);
      assert t.log == log1 + [Wiped];
    } else if t.log != s.log {
      var e := t.log[|s.log|];
      assert t.log == s.log + [e];
      LastIsRoutedStep(s.log, e);
    }
  }

  lemma BleKeepsCountOk(s: State, step: Step)
    requires CountOk(s) && (step.Begin? || step.BleStep?)
    ensures CountOk(Next(s, step))
  {
    hide Configure, AppendRoute, LastIsRouted, SaveField;
    var t := Next(s, step);
    if step.BleStep? && s.ble.SavingConfig? {
      FieldsAreNotRoutes(s.nvs, s.ram.config, s.ble.field);
    }
    if t.log != s.log {
      var e := t.log[|s.log|];
      assert t.log == s.log + [e];
      LastIsRoutedStep(s.log, e);
    }
  }

  lemma {:induction false} RunIsCountOk(steps: seq<Step>)
    ensures CountOk(Run(steps))
  {
    if steps != [] {
      var init, step := steps[..|steps| - 1], steps[|steps| - 1];
      RunIsCountOk(init);
      hide BleTask, BeginCommand, StageTask, LastIsRouted;
      match step
      case StageStep(closed) => StageTaskKeepsCountOk(Run(init), closed);
      case Begin(_) => BleKeepsCountOk(Run(init), step);
      case BleStep => BleKeepsCountOk(Run(init), step);
      case Measure(_) =>
      case Crash => LastIsRoutedStep(Run(init).log, Crashed);
    }
  }

  /** Once a CMD 01 accepted since the history was last reloaded or cleared is finished, a power cut in
      transport restores the history, whatever else has been going on. */
  lemma FinishedHistorySurvives(steps: seq<Step>)
    requires InTransport(Run(steps).nvs) && LastIsRouted(Run(steps).log) && !Handling01(Run(steps).ble)
    ensures History(Recovered(Run(steps)).ram) == History(Run(steps).ram)
  {
    RunIsStageOk(steps);
    RunIsCountOk(steps);
    hide Run, Recovered, LastIsRouted, NvsStageOk;
    TransportSurvivesCrash(steps);
  }
}

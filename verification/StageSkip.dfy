/**
 Whether a device that enters stage 3 has been through the transport loop of stage 2: decided by where the
 stage task stood when the stage variable was set to RECEIVE.
 */
module StageSkip {
  import opened DeviceState
  import opened StageMachine
  import opened StageRecovery
  import opened StageHandover

  /** In these places of the stage task a CMD 02 that writes RECEIVE is seen before the transport loop is. */
  predicate Skips(pc: StagePc) {
    pc.BootConfig? || pc.BootRoutes? || pc.BootFlags? || pc.Dispatch? || pc.SaveDoorOn? || pc.SaveTransport?
  }

  predicate InLoop(pc: StagePc) {
    pc.WaitRoute? || pc.WaitWifi? || pc.Transport?
  }

  // ---------------------------------------------------------------- what the log says

  predicate Restarts(e: Event) {
    e.Crashed? || e.WroteStage?
  }

  /** Where the stage task stood when the stage variable became RECEIVE: at the first such write since the
      stage task itself last wrote the variable or power was last on. */
  function BecameReceive(log: seq<Event>): Option<StagePc> {
    if log == [] || Restarts(Last(log)) then None
    else
      var before := BecameReceive(Init(log));
      if before == None && Last(log).WroteReceive? then Some(Last(log).at) else before
  }

  /** The transport loop has ended since then. */
  predicate LoopEnded(log: seq<Event>) {
    log != [] && !Restarts(Last(log)) && (Last(log).LeftTransport? || LoopEnded(Init(log)))
  }

  predicate Undisturbed(log: seq<Event>, from: nat) {
    forall i :: from <= i < |log| ==> !Restarts(log[i])
  }

  /** Position `w` is that first write. */
  predicate BecameAt(log: seq<Event>, w: nat) {
    && w < |log| && log[w].WroteReceive? && Undisturbed(log, w)
    && forall v :: 0 <= v < w && log[v].WroteReceive? ==> !Undisturbed(log, v)
  }

  lemma UndisturbedGrows(log: seq<Event>)
    requires log != []
    ensures Restarts(Last(log)) ==> forall v :: 0 <= v < |log| ==> !Undisturbed(log, v)
    ensures !Restarts(Last(log)) ==> forall v :: 0 <= v < |log| ==> (Undisturbed(log, v) <==> Undisturbed(Init(log), v))
  {
    forall v | 0 <= v < |log| && Restarts(Last(log))
      ensures !Undisturbed(log, v)
    {
      assert Restarts(log[|log| - 1]);
    }
  }

  lemma {:induction false} NotBecameReceive(log: seq<Event>)
    ensures BecameReceive(log) == None <==> forall v :: 0 <= v < |log| && log[v].WroteReceive? ==> !Undisturbed(log, v)
  {
    if log != [] {
      NotBecameReceive(Init(log));
      UndisturbedGrows(log);
      assert forall v :: 0 <= v < |Init(log)| ==> Init(log)[v] == log[v];
      assert Undisturbed(Init(log), |log| - 1);
      hide Undisturbed;
    }
  }

  /** BecameReceive finds the first write of RECEIVE that no restart or write of the stage task followed. */
  lemma {:induction false} BecameReceiveMeans(log: seq<Event>, pc: StagePc)
    ensures BecameReceive(log) == Some(pc) <==> exists w: nat :: BecameAt(log, w) && log[w].at == pc
  {
    if log != [] {
      var init := Init(log);
      BecameReceiveMeans(init, pc);
      NotBecameReceive(init);
      UndisturbedGrows(log);
      assert forall v :: 0 <= v < |init| ==> init[v] == log[v];
      assert Undisturbed(init, |log| - 1);
      hide Undisturbed;
      if !Restarts(Last(log)) {
        assert forall w: nat :: w < |init| ==> (BecameAt(log, w) <==> BecameAt(init, w));
        if w: nat :| BecameAt(init, w) && init[w].at == pc {
          assert BecameAt(log, w);
        }
        if BecameReceive(init) == None && Last(log).WroteReceive? {
          assert BecameAt(log, |log| - 1);
        }
      }
    }
  }

  lemma {:induction false} LoopEndedMeans(log: seq<Event>)
    ensures LoopEnded(log) <==> exists j :: 0 <= j < |log| && log[j].LeftTransport? && Undisturbed(log, j)
  {
    if log != [] {
      LoopEndedMeans(Init(log));
      UndisturbedGrows(log);
      assert forall v :: 0 <= v < |Init(log)| ==> Init(log)[v] == log[v];
      assert Undisturbed(Init(log), |log| - 1);
      hide Undisturbed;
      if LoopEnded(log) {
        if Last(log).LeftTransport? {
          assert log[|log| - 1].LeftTransport? && Undisturbed(log, |log| - 1);
        } else {
          var j :| 0 <= j < |Init(log)| && Init(log)[j].LeftTransport? && Undisturbed(Init(log), j);
          assert log[j].LeftTransport? && Undisturbed(log, j);
        }
      }
    }
  }

  // ---------------------------------------------------------------- invariant

  /** Stage 3 was entered with the stage variable set in one of eight places, and through the transport loop
      exactly if that was in stage 2. */
  predicate EntryOk(log: seq<Event>) {
    var at := BecameReceive(log);
    at.Some? && (Skips(at.value) || InLoop(at.value)) && (LoopEnded(log) <==> InLoop(at.value))
  }

  predicate EntriesOk(log: seq<Event>) {
    forall i :: 0 <= i < |log| && log[i].Entered3? ==> EntryOk(log[..i])
  }

  predicate PlaceOk(s: State) {
    var at := BecameReceive(s.log);
    if InLoop(s.pc) then !LoopEnded(s.log) && (at.Some? ==> InLoop(at.value))
    else if s.pc.Dispatch? then if at.Some? then EntryOk(s.log) else !LoopEnded(s.log)
    else Skips(s.pc) ==> !LoopEnded(s.log) && (at.Some? ==> Skips(at.value))
  }

  predicate SkipOk(s: State) {
    && (s.ram.stage == STAGE_RECEIVE <==> BecameReceive(s.log).Some?)
    && PlaceOk(s) && EntriesOk(s.log)
  }

  /** What one more event makes of the three. */
  lemma LogGrows(log: seq<Event>, e: Event)
    requires EntriesOk(log) && (e.Entered3? ==> EntryOk(log))
    ensures EntriesOk(log + [e])
    ensures BecameReceive(log + [e]) ==
            if Restarts(e) then None
            else if BecameReceive(log) == None && e.WroteReceive? then Some(e.at)
            else BecameReceive(log)
    ensures LoopEnded(log + [e]) <==> !Restarts(e) && (e.LeftTransport? || LoopEnded(log))
  {
    forall i | 0 <= i < |log + [e]| && (log + [e])[i].Entered3?
      ensures EntryOk((log + [e])[..i])
    {
      assert (log + [e])[..i] == log[..i];
      assert log[..|log|] == log;
    }
    assert Init(log + [e]) == log;
  }

  lemma WipeKeepsSkipOk(s: State)
    requires SkipOk(s)
    ensures SkipOk(Wipe(s))
  {
    hide EntriesOk, BecameReceive, LoopEnded;
    var log1 := s.log + [WroteStage(STAGE_SETUP)];
    LogGrows(s.log, WroteStage(STAGE_SETUP));
    LogGrows(log1, Wiped);
    assert Wipe(s).log == log1 + [Wiped];
  }

  lemma WriteKeepsSkipOk(s: State, stage: int, door: bool, pc: StagePc)
    requires SkipOk(s) && stage != STAGE_RECEIVE
    ensures SkipOk(WriteStage(s, stage, door, pc))
  {
    hide EntriesOk, BecameReceive, LoopEnded;
    LogGrows(s.log, WroteStage(stage));
  }

  lemma WritingKeepsSkipOk(s: State, doorClosed: bool)
    requires StageOk(s) && SkipOk(s)
    requires s.pc.BootStage? || s.pc.BadStage? || s.pc.Enter1? || s.pc.Leave1?
    ensures SkipOk(StageTask(s, doorClosed))
  {
    hide WriteStage, SkipOk;
    if s.pc.BootStage? {
      var saved := s.nvs.stage.Or(0);
      WriteKeepsSkipOk(s, saved, s.ram.door, if saved == STAGE_TRANSPORT then BootConfig else Dispatch);
    } else if s.pc.BadStage? {
      WriteKeepsSkipOk(s, STAGE_SETUP, s.ram.door, Dispatch);
    } else if s.pc.Enter1? {
      WriteKeepsSkipOk(s, STAGE_SETUP, false, SaveDoorOff);
    } else {
      WriteKeepsSkipOk(s, STAGE_TRANSPORT, true, SaveDoorOn);
    }
  }

  lemma LoggingKeepsSkipOk(s: State, doorClosed: bool)
    requires StageOk(s) && SkipOk(s) && (s.pc.BootRoutes? || s.pc.Dispatch? || s.pc.Transport?)
    ensures SkipOk(StageTask(s, doorClosed))
  {
    hide LoadRoutes, EntriesOk, BecameReceive, LoopEnded;
    var t := StageTask(s, doorClosed);
    if s.pc.BootRoutes? {
      LogGrows(s.log, Reloaded(History(t.ram)));
    } else if s.ram.stage == STAGE_RECEIVE {
      LogGrows(s.log, if s.pc.Transport? then LeftTransport else Entered3);
    }
  }

  lemma SilentKeepsSkipOk(s: State, doorClosed: bool)
    requires StageOk(s) && SkipOk(s)
    requires var t := StageTask(s, doorClosed); t.log == s.log && t.ram.stage == s.ram.stage
    requires !s.pc.Dispatch?
    ensures SkipOk(StageTask(s, doorClosed))
  {
    hide LoadConfig, LoadRoutes, EntriesOk, BecameReceive, LoopEnded;
  }

  lemma StageTaskKeepsSkipOk(s: State, doorClosed: bool)
    requires StageOk(s) && SkipOk(s)
    ensures SkipOk(StageTask(s, doorClosed))
  {
    hide LoadConfig, LoadRoutes, SkipOk, StageOk, ReloadRoutes, WriteStage, Wipe;
    if s.pc.Reset? {
      WipeKeepsSkipOk(s);
    } else if s.pc.BootStage? || s.pc.BadStage? || s.pc.Enter1? || s.pc.Leave1? {
      WritingKeepsSkipOk(s, doorClosed);
    } else if s.pc.BootRoutes? || s.pc.Dispatch? || s.pc.Transport? {
      LoggingKeepsSkipOk(s, doorClosed);
    } else {
      SilentKeepsSkipOk(s, doorClosed);
    }
  }

  lemma BleKeepsSkipOk(s: State, step: Step)
    requires SkipOk(s) && (step.Begin? || step.BleStep?)
    ensures SkipOk(Next(s, step))
  {
    hide Configure, AppendRoute, SaveField, EntriesOk, BecameReceive, LoopEnded;
    var t := Next(s, step);
    if t.log != s.log {
      var e := t.log[|s.log|];
      assert t.log == s.log + [e];
      LogGrows(s.log, e);
    }
  }

  lemma {:induction false} RunIsSkipOk(steps: seq<Step>)
    ensures SkipOk(Run(steps))
  {
    if steps != [] {
      var init, step := steps[..|steps| - 1], steps[|steps| - 1];
      RunIsSkipOk(init);
      RunIsStageOk(init);
      hide BleTask, BeginCommand, StageTask, StageOk;
      match step
      case StageStep(closed) => StageTaskKeepsSkipOk(Run(init), closed);
      case Begin(_) => BleKeepsSkipOk(Run(init), step);
      case BleStep => BleKeepsSkipOk(Run(init), step);
      case Measure(_) =>
      case Crash =>
        hide EntriesOk, BecameReceive, LoopEnded;
        LogGrows(Run(init).log, Crashed);
    }
  }

  /** Stage 3 without the transport loop, exactly: in every run, every execution of run_stage3 follows a first
      write of RECEIVE that found the stage task in one of eight places, and it was not preceded by the
      transport loop if and only if that place was during boot recovery, at the dispatch, or between the
      last two NVS writes of stage 1. */
  lemma TransportSkippedIff(steps: seq<Step>, i: nat)
    requires i < |Run(steps).log| && Run(steps).log[i].Entered3?
    ensures var log := Run(steps).log[..i];
            exists w: nat :: BecameAt(log, w)
              && (Skips(log[w].at) || InLoop(log[w].at))
              && (!LoopEnded(log) <==> Skips(log[w].at))
  {
    RunIsSkipOk(steps);
    hide Run;
    var log := Run(steps).log[..i];
    assert EntryOk(log);
    BecameReceiveMeans(log, BecameReceive(log).value);
  }

  // ---------------------------------------------------------------- the other direction, constructed

  function StepsToStage3(pc: StagePc): nat {
    match pc
    case BootConfig => 4
    case BootRoutes | SaveDoorOn => 3
    case BootFlags | SaveTransport => 2
    case _ => 1
  }

  lemma OneStepCloser(s: State)
    requires s.ram.stage == STAGE_RECEIVE && Skips(s.pc) && !LoopEnded(s.log)
    ensures var t := StageTask(s, false);
            && t.ram.stage == STAGE_RECEIVE && !LoopEnded(t.log)
            && if s.pc.Dispatch? then t.pc.Erase? && t.log == s.log + [Entered3]
               else Skips(t.pc) && StepsToStage3(t.pc) == StepsToStage3(s.pc) - 1
  {
    hide LoadConfig, LoadRoutes, LoopEnded;
    var t := StageTask(s, false);
    if t.log != s.log {
      var e := t.log[|s.log|];
      assert t.log == s.log + [e];
      NotEndedStays(s.log, e);
    }
  }

  lemma NotEndedStays(log: seq<Event>, e: Event)
    requires !LoopEnded(log) && !e.LeftTransport?
    ensures !LoopEnded(log + [e])
  {
    assert Init(log + [e]) == log;
  }

  /** In each of the six places a write of RECEIVE does skip the loop: the stage task, left alone, is in stage 3
      after at most four steps. */
  lemma {:induction false} SkippingPlacesSkip(s: State)
    requires s.ram.stage == STAGE_RECEIVE && Skips(s.pc) && !LoopEnded(s.log)
    ensures var t := StageSteps(s, StepsToStage3(s.pc)); t.pc == Erase && !LoopEnded(t.log)
    ensures var t := StageSteps(s, StepsToStage3(s.pc)); t.log != [] && Last(t.log) == Entered3
    decreases StepsToStage3(s.pc)
  {
    OneStepCloser(s);
    hide StageTask, LoopEnded;
    var t := StageTask(s, false);
    if s.pc.Dispatch? {
      assert StageSteps(s, 1) == StageSteps(t, 0) == t;
    } else {
      SkippingPlacesSkip(t);
      assert StageSteps(s, StepsToStage3(s.pc)) == StageSteps(t, StepsToStage3(t.pc));
    }
  }

  // ---------------------------------------------------------------- confirmations that are lost

  /** From these places the stage task sees RECEIVE before it writes the stage variable itself. */
  predicate Keeps(pc: StagePc) {
    Skips(pc) || InLoop(pc)
  }

  /** What decides about a write of RECEIVE: stage 3, or a write of the stage task, or a power cut. */
  predicate Settles(e: Event) {
    e.Entered3? || Restarts(e)
  }

  predicate Unsettled(log: seq<Event>, w: nat, j: nat)
    requires j <= |log|
  {
    forall i :: w < i < j ==> !Settles(log[i])
  }

  /** Every write of RECEIVE still undecided was made in a place of the same kind as where the task stands. */
  predicate UndecidedOk(s: State) {
    forall w: nat :: w < |s.log| && s.log[w].WroteReceive? && Unsettled(s.log, w, |s.log|) ==>
      (Keeps(s.log[w].at) <==> Keeps(s.pc)) && s.ram.stage == STAGE_RECEIVE
  }

  predicate DecidedOk(log: seq<Event>) {
    forall w: nat, j: nat :: w < j < |log| && log[w].WroteReceive? && Settles(log[j]) && Unsettled(log, w, j) ==>
      if log[j].Entered3? then Keeps(log[w].at) else log[j].WroteStage? ==> !Keeps(log[w].at)
  }

  lemma UnsettledGrows(log: seq<Event>, e: Event)
    ensures forall w: nat, j: nat :: w < |log| && j <= |log| ==> (Unsettled(log + [e], w, j) <==> Unsettled(log, w, j))
    ensures forall w: nat :: w < |log| ==> (Unsettled(log + [e], w, |log| + 1)
            <==> Unsettled(log, w, |log|) && !Settles(e))
  {
    assert (log + [e])[|log|] == e;
    forall w: nat, j: nat | w < |log| && j <= |log|
      ensures Unsettled(log + [e], w, j) <==> Unsettled(log, w, j)
    {
      assert forall i :: w < i < j ==> (log + [e])[i] == log[i];
    }
    forall w: nat | w < |log|
      ensures Unsettled(log + [e], w, |log| + 1) <==> Unsettled(log, w, |log|) && !Settles(e)
    {
      assert forall i :: w < i < |log| ==> (log + [e])[i] == log[i];
    }
  }

  /** One event decides about what was undecided, or leaves it so. */
  lemma DecidedGrows(s: State, e: Event)
    requires UndecidedOk(s) && DecidedOk(s.log)
    requires e.Entered3? ==> Keeps(s.pc)
    requires e.WroteStage? && s.ram.stage == STAGE_RECEIVE ==> !Keeps(s.pc)
    ensures DecidedOk(s.log + [e])
  {
    var log := s.log + [e];
    UnsettledGrows(s.log, e);
    hide Keeps;
    forall w: nat, j: nat | w < j < |log| && log[w].WroteReceive? && Settles(log[j]) && Unsettled(log, w, j)
      ensures if log[j].Entered3? then Keeps(log[w].at) else log[j].WroteStage? ==> !Keeps(log[w].at)
    {
      assert log[w] == s.log[w];
      if j < |s.log| {
        assert log[j] == s.log[j];
      }
    }
  }

  /** After an event that decides, nothing is undecided; any other must leave the task where it was. */
  lemma UndecidedGrows(s: State, t: State, e: Event)
    requires UndecidedOk(s) && t.log == s.log + [e]
    requires Settles(e) || ((Keeps(t.pc) <==> Keeps(s.pc))
                            && (e.WroteReceive? ==> e.at == s.pc)
                            && (s.ram.stage == STAGE_RECEIVE || e.WroteReceive? ==>
                                                                        t.ram.stage == STAGE_RECEIVE))
    ensures UndecidedOk(t)
  {
    UnsettledGrows(s.log, e);
    hide Keeps, Unsettled;
    forall w: nat | w < |t.log| && t.log[w].WroteReceive? && Unsettled(t.log, w, |t.log|)
      ensures (Keeps(t.log[w].at) <==> Keeps(t.pc)) && t.ram.stage == STAGE_RECEIVE
    {
      if w < |s.log| {
        assert t.log[w] == s.log[w];
      }
    }
  }

  lemma UndecidedStays(s: State, t: State)
    requires UndecidedOk(s) && t.log == s.log && t.ram.stage == s.ram.stage
    requires s.ram.stage == STAGE_RECEIVE ==> (Keeps(t.pc) <==> Keeps(s.pc))
    ensures UndecidedOk(t)
  {
    hide Keeps, Unsettled;
  }

  /** Nothing is undecided while the stage variable says something else. */
  lemma NothingUndecided(s: State, t: State)
    requires UndecidedOk(s) && s.ram.stage != STAGE_RECEIVE && t.log == s.log
    ensures UndecidedOk(t)
  {
    hide Keeps, Unsettled;
  }

  lemma WipeDecides(s: State)
    requires UndecidedOk(s) && DecidedOk(s.log) && s.pc.Reset?
    ensures UndecidedOk(Wipe(s)) && DecidedOk(Wipe(s).log)
  {
    hide UndecidedOk, DecidedOk;
    var e := WroteStage(STAGE_SETUP);
    var mid := s.(log := s.log + [e], ram := POWER_ON);
    DecidedGrows(s, e);
    UndecidedGrows(s, mid, e);
    DecidedGrows(mid, Wiped);
    assert Wipe(s).log == mid.log + [Wiped];
    NoneUndecidedAfter(mid.log, s.log, e);
    SettledStays(mid.log, Wipe(s));
  }

  lemma NoneUndecidedAfter(log: seq<Event>, before: seq<Event>, e: Event)
    requires log == before + [e] && Settles(e)
    ensures forall w: nat :: w < |log| && log[w].WroteReceive? ==> !Unsettled(log, w, |log|)
  {
    UnsettledGrows(before, e);
    assert |log| == |before| + 1 && log[|before|] == e;
    hide Unsettled;
    forall w: nat | w < |log| && log[w].WroteReceive?
      ensures !Unsettled(log, w, |log|)
    {
      assert w < |before|;
      assert !Unsettled(before + [e], w, |before| + 1);
    }
  }

  lemma SettledStays(log: seq<Event>, t: State)
    requires forall w: nat :: w < |log| && log[w].WroteReceive? ==> !Unsettled(log, w, |log|)
    requires t.log == log + [Wiped]
    ensures UndecidedOk(t)
  {
    UnsettledGrows(log, Wiped);
    hide Keeps, Unsettled;
    assert forall w: nat :: w < |log| ==> t.log[w] == log[w];
  }

  lemma StageTaskDecides(s: State, doorClosed: bool)
    requires UndecidedOk(s) && DecidedOk(s.log)
    ensures UndecidedOk(StageTask(s, doorClosed)) && DecidedOk(StageTask(s, doorClosed).log)
  {
    hide LoadConfig, LoadRoutes, UndecidedOk, DecidedOk, Wipe;
    var t := StageTask(s, doorClosed);
    if s.pc.Reset? {
      WipeDecides(s);
    } else if t.log != s.log {
      var e := t.log[|s.log|];
      assert t.log == s.log + [e];
      DecidedGrows(s, e);
      UndecidedGrows(s, t, e);
    } else if s.pc.Dispatch? {
      NothingUndecided(s, t);
    } else {
      UndecidedStays(s, t);
    }
  }

  lemma BleDecides(s: State, step: Step)
    requires UndecidedOk(s) && DecidedOk(s.log) && (step.Begin? || step.BleStep?)
    ensures UndecidedOk(Next(s, step)) && DecidedOk(Next(s, step).log)
  {
    hide Configure, AppendRoute, SaveField, UndecidedOk, DecidedOk;
    var t := Next(s, step);
    if t.log != s.log {
      var e := t.log[|s.log|];
      assert t.log == s.log + [e];
      DecidedGrows(s, e);
      UndecidedGrows(s, t, e);
    } else {
      UndecidedStays(s, t);
    }
  }

  lemma {:induction false} RunDecides(steps: seq<Step>)
    ensures UndecidedOk(Run(steps)) && DecidedOk(Run(steps).log)
  {
    if steps != [] {
      var init, step := steps[..|steps| - 1], steps[|steps| - 1];
      RunDecides(init);
      hide BleTask, BeginCommand, StageTask, UndecidedOk, DecidedOk;
      match step
      case StageStep(closed) => StageTaskDecides(Run(init), closed);
      case Begin(_) => BleDecides(Run(init), step);
      case BleStep => BleDecides(Run(init), step);
      case Measure(_) => UndecidedStays(Run(init), Run(steps));
      case Crash =>
        DecidedGrows(Run(init), Crashed);
        UndecidedGrows(Run(init), Run(steps), Crashed);
    }
  }

  /** A confirmation that is lost, exactly: in every run, of what the stage task does next after a CMD 02 has
      written RECEIVE, and before any power cut, it enters stage 3 if the write found it in one of the eight
      places above, and overwrites the stage variable if it found it anywhere else. */
  lemma ConfirmationLostIff(steps: seq<Step>, w: nat, j: nat)
    requires w < j < |Run(steps).log|
    requires Run(steps).log[w].WroteReceive? && Unsettled(Run(steps).log, w, j)
    requires Run(steps).log[j].Entered3? || Run(steps).log[j].WroteStage?
    ensures Run(steps).log[j].WroteStage? <==> !Keeps(Run(steps).log[w].at)
  {
    RunDecides(steps);
    hide Run, Keeps, Unsettled;
    assert Settles(Run(steps).log[j]);
  }
}

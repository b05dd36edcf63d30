/**
 What the stage task waits for: over all runs, it gets past each of its polls only if what it polls for was
 seen, and goes on waiting otherwise.
 */
module StageWaits {
  import opened DeviceState
  import opened StageMachine

  /** The stage task entered `pc` at step `i` of the run and has been there since, without a power cut. */
  predicate EnteredAt(steps: seq<Step>, i: nat, pc: StagePc) {
    && i < |steps| && steps[i].StageStep? && Run(steps[..i]).pc != pc
    && forall m :: i < m <= |steps| ==> Run(steps[..m]).pc == pc && (m < |steps| ==> steps[m] != Crash)
  }

  /** The door sensor was polled and showed a closed door. */
  predicate SawDoorClosed(steps: seq<Step>, i: nat)
    requires i < |steps|
  {
    Run(steps[..i]).pc == WaitDoor && steps[i] == StageStep(true)
  }

  /** The last shipper is by sea, or Wi-Fi credentials are stored. */
  predicate MayStart(s: State) {
    || (s.pc == WaitRoute && s.ram.count > 0 && s.ram.slots[s.ram.count - 1].onBoard)
    || (s.pc == WaitWifi && s.nvs.wifiSsid.Or("") != "")
  }

  lemma OneMove(s: State, step: Step)
    ensures var t := Next(s, step);
            && (t.pc == Leave1 ==> (s.pc == Leave1 && step != Crash) || (s.pc == WaitDoor && step == StageStep(true)))
            && (t.pc == WaitDoor ==>
                  || (s.pc == WaitDoor && step != Crash)
                  || (s.pc == WaitConfig && step.StageStep? && s.ram.config.containerId != ""))
            && (t.pc == Transport ==> (s.pc == Transport && step != Crash) || (step.StageStep? && MayStart(s)))
  {
    hide Configure, AppendRoute, LoadConfig, LoadRoutes, SaveField;
  }

  lemma SamePrefix(init: seq<Step>, steps: seq<Step>, m: nat)
    requires init <= steps && m <= |init|
    ensures init[..m] == steps[..m] && (m < |init| ==> init[m] == steps[m])
  {
  }

  lemma StillThere(init: seq<Step>, steps: seq<Step>, i: nat, pc: StagePc, m: nat)
    requires init <= steps && |steps| == |init| + 1 && EnteredAt(init, i, pc) && Run(steps).pc == pc
    requires steps[|init|] != Crash && i < m <= |steps|
    ensures Run(steps[..m]).pc == pc && (m < |steps| ==> steps[m] != Crash)
  {
    hide Run;
    if m == |steps| {
      assert steps[..m] == steps;
    } else {
      SamePrefix(init, steps, m);
      assert Run(init[..m]).pc == pc;
    }
  }

  /** Entered at step `i` and still there one step later. */
  lemma EnteredStays(steps: seq<Step>, i: nat, pc: StagePc)
    requires steps != [] && EnteredAt(steps[..|steps| - 1], i, pc) && Run(steps).pc == pc && steps[|steps| - 1] != Crash
    ensures EnteredAt(steps, i, pc) && steps[..|steps| - 1][i] == steps[i]
  {
    var init := steps[..|steps| - 1];
    assert i < |init| && init[i].StageStep? && Run(init[..i]).pc != pc;
    hide Run, EnteredAt;
    SamePrefix(init, steps, i);
    assert steps[i].StageStep? && Run(steps[..i]).pc != pc;
    forall m | i < m <= |steps|
      ensures Run(steps[..m]).pc == pc && (m < |steps| ==> steps[m] != Crash)
    {
      StillThere(init, steps, i, pc, m);
    }
    EnteredFrom(steps, i, pc);
  }

  lemma EnteredFrom(steps: seq<Step>, i: nat, pc: StagePc)
    requires i < |steps| && steps[i].StageStep? && Run(steps[..i]).pc != pc
    requires forall m :: i < m <= |steps| ==> Run(steps[..m]).pc == pc && (m < |steps| ==> steps[m] != Crash)
    ensures EnteredAt(steps, i, pc)
  {
  }

  lemma EnteredNow(steps: seq<Step>, pc: StagePc)
    requires steps != [] && steps[|steps| - 1].StageStep? && Run(steps[..|steps| - 1]).pc != pc && Run(steps).pc == pc
    ensures EnteredAt(steps, |steps| - 1, pc)
  {
    hide Run;
    assert steps[..|steps|] == steps;
  }

  /** Stage 1 gets to its write of TRANSPORT only after it has seen the door closed, and from there without a
      power cut. */
  lemma {:induction false} DoorWasClosed(steps: seq<Step>)
    requires Run(steps).pc == Leave1
    ensures exists i: nat :: EnteredAt(steps, i, Leave1) && SawDoorClosed(steps, i)
  {
    assert steps != [];
    var init, step := steps[..|steps| - 1], steps[|steps| - 1];
    assert Run(steps) == Next(Run(init), step);
    OneMove(Run(init), step);
    hide Run, Next;
    if Run(init).pc == Leave1 {
      DoorWasClosed(init);
      var i: nat :| EnteredAt(init, i, Leave1) && SawDoorClosed(init, i);
      EnteredStays(steps, i, Leave1);
      assert init[..i] == steps[..i];
      assert SawDoorClosed(steps, i);
    } else {
      EnteredNow(steps, Leave1);
      assert SawDoorClosed(steps, |steps| - 1);
    }
  }

  /** It waits for the door only once a container id has been configured. */
  lemma {:induction false} ConfigWasSeen(steps: seq<Step>)
    requires Run(steps).pc == WaitDoor
    ensures exists i: nat :: EnteredAt(steps, i, WaitDoor) && Run(steps[..i]).pc == WaitConfig
                             && Run(steps[..i]).ram.config.containerId != ""
  {
    assert steps != [];
    var init, step := steps[..|steps| - 1], steps[|steps| - 1];
    assert Run(steps) == Next(Run(init), step);
    OneMove(Run(init), step);
    hide Run, Next;
    if Run(init).pc == WaitDoor {
      ConfigWasSeen(init);
      var i: nat :| EnteredAt(init, i, WaitDoor) && Run(init[..i]).pc == WaitConfig
                    && Run(init[..i]).ram.config.containerId != "";
      EnteredStays(steps, i, WaitDoor);
      assert init[..i] == steps[..i];
    } else {
      EnteredNow(steps, WaitDoor);
    }
  }

  /** It enters the transport loop only with a shipper by sea or with credentials. */
  lemma {:induction false} TransportWasStarted(steps: seq<Step>)
    requires Run(steps).pc == Transport
    ensures exists i: nat :: EnteredAt(steps, i, Transport) && MayStart(Run(steps[..i]))
  {
    assert steps != [];
    var init, step := steps[..|steps| - 1], steps[|steps| - 1];
    assert Run(steps) == Next(Run(init), step);
    OneMove(Run(init), step);
    hide Run, Next, MayStart;
    if Run(init).pc == Transport {
      TransportWasStarted(init);
      var i: nat :| EnteredAt(init, i, Transport) && MayStart(Run(init[..i]));
      EnteredStays(steps, i, Transport);
      assert init[..i] == steps[..i];
    } else {
      EnteredNow(steps, Transport);
    }
  }

  /** Stage 1 writes TRANSPORT, in any run, only from there: so each such write is preceded, with no power cut
      between, by a poll that saw the door closed. */
  lemma TransportIsWrittenBehindClosedDoor(steps: seq<Step>, closed: bool)
    requires var s := Run(steps); Next(s, StageStep(closed)).log == s.log + [WroteStage(STAGE_TRANSPORT)]
    requires Run(steps).pc != BootStage
    ensures exists i: nat :: EnteredAt(steps, i, Leave1) && SawDoorClosed(steps, i)
  {
    var s := Run(steps);
    OnlyLeave1WritesTransport(s, closed);
    hide Run, Next, EnteredAt, SawDoorClosed;
    DoorWasClosed(steps);
  }

  lemma OnlyLeave1WritesTransport(s: State, closed: bool)
    requires Next(s, StageStep(closed)).log == s.log + [WroteStage(STAGE_TRANSPORT)] && s.pc != BootStage
    ensures s.pc == Leave1
  {
    hide LoadConfig, LoadRoutes;
    var t := Next(s, StageStep(closed));
    assert t.log[|s.log|] == WroteStage(STAGE_TRANSPORT);
  }

  /** As long as only open doors are seen and power stays on, the stage task stays at its door poll. */
  lemma {:induction false} StaysAtOpenDoor(steps: seq<Step>, more: seq<Step>)
    requires Run(steps).pc == WaitDoor && StageStep(true) !in more && Crash !in more
    ensures Run(steps + more).pc == WaitDoor
  {
    hide Run, Next;
    if more == [] {
      assert steps + more == steps;
    } else {
      var init, step := more[..|more| - 1], more[|more| - 1];
      StaysAtOpenDoor(steps, init);
      RunStep(steps + init, step);
      assert steps + init + [step] == steps + more;
      StaysOneStep(Run(steps + init), step);
    }
  }

  lemma StaysOneStep(s: State, step: Step)
    requires s.pc == WaitDoor && step != StageStep(true) && step != Crash
    ensures Next(s, step).pc == WaitDoor
  {
    hide Configure, AppendRoute, SaveField;
  }

  // ---------------------------------------------------------------- the latest loss

  /** The loss last measured in the transport loop since power was last on. */
  function LastMeasured(steps: seq<Step>): real {
    if steps == [] || steps[|steps| - 1] == Crash then 0.0
    else
      var init, last := steps[..|steps| - 1], steps[|steps| - 1];
      if last.Measure? && Run(init).pc == Transport then last.loss else LastMeasured(init)
  }

  /** The latest loss is what was last measured: a power cut forgets it, the reset after stage 3 does not, so the
      next trip starts from it. */
  lemma {:induction false} LatestLossIsLastMeasured(steps: seq<Step>)
    ensures Run(steps).ram.latestLoss == LastMeasured(steps)
  {
    if steps != [] {
      var init, step := steps[..|steps| - 1], steps[|steps| - 1];
      LatestLossIsLastMeasured(init);
      assert Run(steps) == Next(Run(init), step);
      hide Run;
      LossStep(Run(init), step);
    }
  }

  lemma LossStep(s: State, step: Step)
    ensures Next(s, step).ram.latestLoss ==
            if step == Crash then 0.0
            else if step.Measure? && s.pc == Transport then step.loss
            else s.ram.latestLoss
  {
    hide Configure, AppendRoute, LoadConfig, LoadRoutes, SaveField;
  }
}

/**
 The latching fan controller of components/actuators/actuators.c, together with BLE CMD 03 and
 the two places outside that overwrite its state: the Stage 3 reset and a reboot.
 */
module FanControl {

  const FAN_PWM_MAX: nat := 1023

  /** `savedEnable` is the NVS copy of the flag; the other three fields live in RAM and hardware. */
  datatype Fan = Fan(enable: bool, prevHumidity: real, duty: int, savedEnable: bool)

  datatype Sample = Sample(surface: real, inside: real, humidity: real, threshold: real)

  datatype Event =
    | Reading(sample: Sample)
    | Command03(value: int)
    | StageReset                        // end of Stage 3: NVS erased, RAM and actuator cleared
    | Reboot(recovering: bool)          // `recovering`: boot into transport reloads the flag

  const FACTORY := Fan(false, 0.0, 0, false)

  /** The humidity of this sample rose above a positive previous one. */
  predicate Rising(f: Fan, s: Sample) {
    f.prevHumidity > 0.0 && s.humidity > f.prevHumidity
  }

  /** The duty asked for by a sample served with the fan enabled and humidity not rising. */
  function Demand(s: Sample): int {
    var delta := s.surface - s.inside;
    if delta > 2.0 then
      var ratio := if delta / 5.0 > 1.0 then 1.0 else delta / 5.0;
      (ratio * FAN_PWM_MAX as real).Floor
    else if s.humidity > s.threshold then (0.80 * FAN_PWM_MAX as real).Floor
    else 0
  }

  function Clamp(duty: int): int {
    if duty > FAN_PWM_MAX then FAN_PWM_MAX else duty
  }

  function AfterReading(f: Fan, s: Sample): Fan {
    if !f.enable then f.(duty := 0)
    else if Rising(f, s) then f.(enable := false, duty := 0, prevHumidity := s.humidity)
    else f.(duty := Clamp(Demand(s)), prevHumidity := s.humidity)
  }

  function Apply(f: Fan, e: Event): Fan {
    match e
    case Reading(s) => AfterReading(f, s)
    case Command03(v) => f.(enable := v == 1, savedEnable := v == 1)
    case StageReset => FACTORY
    case Reboot(recovering) => Fan(recovering && f.savedEnable, 0.0, 0, f.savedEnable)
  }

  function Run(f: Fan, events: seq<Event>): Fan {
    if events == [] then f else Apply(Run(f, events[..|events| - 1]), events[|events| - 1])
  }

  class FanController {
    var enable: bool
    var prevHumidity: real
    var duty: int
    var savedEnable: bool

    ghost function State(): Fan
      reads this
    {
      Fan(enable, prevHumidity, duty, savedEnable)
    }

    constructor ()
      ensures State() == FACTORY
    {
      enable, prevHumidity, duty, savedEnable := false, 0.0, 0, false;
    }

    method SetDuty(requested: int)
      modifies this`duty
      ensures duty == Clamp(requested)
    {
      var d := requested;
      if d > FAN_PWM_MAX {
        d := FAN_PWM_MAX;
      }
      duty := d;
    }

    method AutoControl(surface: real, inside: real, humidity: real, threshold: real)
      modifies this
      ensures State() == AfterReading(old(State()), Sample(surface, inside, humidity, threshold))
      ensures savedEnable == old(savedEnable)
      ensures !old(enable) ==> !enable && duty == 0 && prevHumidity == old(prevHumidity)
      ensures old(enable) ==> prevHumidity == humidity
      ensures old(enable) ==> (enable <==> !(old(prevHumidity) > 0.0 && humidity > old(prevHumidity)))
      ensures !enable ==> duty == 0
      ensures enable ==>
                duty == if surface - inside >= 5.0 then 1023
                        else if surface - inside > 2.0 then ((surface - inside) / 5.0 * 1023.0).Floor
                        else if humidity > threshold then 818
                        else 0
    {
      DemandRange(Sample(surface, inside, humidity, threshold));
      var enabled, previous := enable, prevHumidity;
      if !enabled {
        SetDuty(0);
        return;
      }
      var delta := surface - inside;
      var wanted := 0;
      if previous > 0.0 && humidity > previous {
        enable := false;
        SetDuty(0);
        prevHumidity := humidity;
        return;
      }
      if delta > 2.0 {
        var ratio := delta / 5.0;
        if ratio > 1.0 {
          ratio := 1.0;
        }
        wanted := (ratio * FAN_PWM_MAX as real).Floor;
      } else if humidity > threshold {
        wanted := (0.80 * FAN_PWM_MAX as real).Floor;
      } else {
        wanted := 0;
      }
      SetDuty(wanted);
      prevHumidity := humidity;
    }

    method Command03(value: int)
      modifies this
      ensures State() == Apply(old(State()), Event.Command03(value))
      ensures enable == savedEnable == (value == 1) && duty == old(duty) && prevHumidity == old(prevHumidity)
    {
      enable := value == 1;
      savedEnable := enable;
    }
  }

  // ---------------------------------------------------------------- one reading

  /** Over the temperature rule the duty is at least 40% of full scale, over the humidity rule it is
      818, and it never exceeds full scale, so the clamp in `SetDuty` never acts. */
  lemma DemandRange(s: Sample)
    ensures 0 <= Demand(s) <= FAN_PWM_MAX
    ensures Clamp(Demand(s)) == Demand(s)
    ensures Demand(s) > 0 <==> s.surface - s.inside > 2.0 || s.humidity > s.threshold
    ensures Demand(s) == FAN_PWM_MAX <==> s.surface - s.inside >= 5.0
    ensures s.surface - s.inside > 2.0 ==> Demand(s) >= 409
    ensures 2.0 < s.surface - s.inside < 5.0 ==> Demand(s) == ((s.surface - s.inside) / 5.0 * 1023.0).Floor
    ensures s.surface - s.inside <= 2.0 && s.humidity > s.threshold ==> Demand(s) == 818
  {
    var delta := s.surface - s.inside;
    if 2.0 < delta < 5.0 {
      var x := delta / 5.0 * 1023.0;
      assert 409.0 < x < 1023.0;
    }
  }

  // ---------------------------------------------------------------- whole runs

  /** At reading granularity: after any run that ends with a reading the duty is in range, and a
      positive duty means that the fan is enabled. */
  lemma DutyAfterReading(events: seq<Event>, s: Sample)
    ensures var f := Run(FACTORY, events + [Reading(s)]);
            0 <= f.duty <= FAN_PWM_MAX && (f.duty > 0 ==> f.enable)
  {
    DemandRange(s);
    var all := events + [Reading(s)];
    assert all[..|all| - 1] == events;
  }

  lemma {:induction false} DutyInRange(events: seq<Event>)
    ensures 0 <= Run(FACTORY, events).duty <= FAN_PWM_MAX
  {
    if events != [] {
      var n := |events| - 1;
      DutyInRange(events[..n]);
      if events[n].Reading? {
        DemandRange(events[n].sample);
      }
    }
  }

  /** The saved copy of the flag is cleared: by Stage 3, or by a CMD 03 with another value than 1. */
  predicate Unsaves(e: Event) {
    e.StageReset? || (e.Command03? && e.value != 1)
  }

  predicate Unsaved(events: seq<Event>) {
    exists i :: 0 <= i < |events| && Unsaves(events[i])
  }

  /** No operator switches the fan on, and no recovering reboot finds the saved flag still set. */
  predicate NeverReenabled(events: seq<Event>) {
    forall i :: 0 <= i < |events| ==> events[i] != Command03(1) && (events[i] == Reboot(true) ==> Unsaved(events[..i]))
  }

  /** The fan is off after every prefix of the events. */
  predicate OffThroughout(f: Fan, events: seq<Event>) {
    forall k :: 0 <= k <= |events| ==> !Run(f, events[..k]).enable
  }

  lemma {:induction false} RunAppend(f: Fan, a: seq<Event>, b: seq<Event>)
    ensures Run(f, a + b) == Run(Run(f, a), b)
  {
    if b == [] {
      assert a + b == a;
    } else {
      assert (a + b)[..|a + b| - 1] == a + b[..|b| - 1];
      RunAppend(f, a, b[..|b| - 1]);
    }
  }

  lemma UnsavedGrows(events: seq<Event>, e: Event)
    ensures Unsaved(events + [e]) <==> Unsaved(events) || Unsaves(e)
  {
    var all := events + [e];
    assert forall i :: 0 <= i < |events| ==> all[i] == events[i];
    assert all[|events|] == e;
  }

  lemma NeverReenabledGrows(events: seq<Event>, e: Event)
    ensures NeverReenabled(events + [e]) <==>
            NeverReenabled(events) && e != Command03(1) && (e == Reboot(true) ==> Unsaved(events))
  {
    var all := events + [e];
    assert forall i :: 0 <= i <= |events| ==> all[..i] == events[..i];
    assert events[..|events|] == events && all[|events|] == e;
    assert forall i :: 0 <= i < |events| ==> all[i] == events[i];
  }

  lemma OffThroughoutGrows(f: Fan, events: seq<Event>, e: Event)
    ensures OffThroughout(f, events + [e]) <==> OffThroughout(f, events) && !Run(f, events + [e]).enable
  {
    hide Run;
    var all := events + [e];
    assert forall k :: 0 <= k <= |events| ==> all[..k] == events[..k];
    assert all[..|all|] == all;
  }

  /** What follows a latch: off throughout exactly if never re-enabled, and then the duty is zero and the
      saved flag is set until something clears it. */
  lemma {:induction false} LatchedRun(f: Fan, events: seq<Event>)
    requires !f.enable && f.savedEnable && f.duty == 0
    ensures OffThroughout(f, events) <==> NeverReenabled(events)
    ensures NeverReenabled(events) ==> Run(f, events).duty == 0 && (Run(f, events).savedEnable <==> !Unsaved(events))
  {
    if events == [] {
      assert events[..0] == [];
    } else {
      var init, e := events[..|events| - 1], events[|events| - 1];
      assert events == init + [e];
      LatchedRun(f, init);
      UnsavedGrows(init, e);
      NeverReenabledGrows(init, e);
      OffThroughoutGrows(f, init, e);
      assert OffThroughout(f, init) ==> !Run(f, init).enable by { assert init[..|init|] == init; }
      hide Unsaved, NeverReenabled, OffThroughout;
    }
  }

  /** The latch, exactly: once a rising reading has cleared the flag, the fan is off after every later event
      if and only if no CMD 03 with value 1 arrives and every reboot into transport comes after Stage 3 or
      after a CMD 03 with another value. As long as that holds the duty is zero. */
  lemma RisingHumidityLatches(before: seq<Event>, s: Sample, after: seq<Event>)
    requires Run(FACTORY, before).enable && Rising(Run(FACTORY, before), s)
    ensures (forall k :: 0 <= k <= |after| ==> !Run(FACTORY, before + [Reading(s)] + after[..k]).enable)
            <==> NeverReenabled(after)
    ensures NeverReenabled(after) ==> Run(FACTORY, before + [Reading(s)] + after).duty == 0
  {
    var first := before + [Reading(s)];
    var f := Run(FACTORY, first);
    assert first[..|first| - 1] == before;
    EnabledWasSaved(before);
    assert !f.enable && f.savedEnable && f.duty == 0;
    hide Run, NeverReenabled;
    forall k | 0 <= k <= |after|
      ensures Run(FACTORY, first + after[..k]) == Run(f, after[..k])
    {
      RunAppend(FACTORY, first, after[..k]);
    }
    RunAppend(FACTORY, first, after);
    LatchedRun(f, after);
  }

  /** The latch is not persistent: rule 4 does not touch NVS, so a reboot into transport right after it
      switches the fan back on. */
  lemma RebootForgetsLatch(before: seq<Event>, s: Sample)
    requires Run(FACTORY, before).enable && Rising(Run(FACTORY, before), s)
    ensures Run(FACTORY, before + [Reading(s), Reboot(true)]).enable
  {
    var all := before + [Reading(s), Reboot(true)];
    var mid := before + [Reading(s)];
    assert all[..|all| - 1] == mid;
    assert mid[..|mid| - 1] == before;
    EnabledWasSaved(before);
  }

  lemma {:induction false} EnabledWasSaved(events: seq<Event>)
    ensures Run(FACTORY, events).enable ==> Run(FACTORY, events).savedEnable
  {
    if events != [] {
      EnabledWasSaved(events[..|events| - 1]);
    }
  }

  function Readings(samples: seq<Sample>): (r: seq<Event>)
    ensures |r| == |samples| && forall i :: 0 <= i < |r| ==> r[i] == Reading(samples[i])
  {
    seq(|samples|, i requires 0 <= i < |samples| => Reading(samples[i]))
  }

  /** Within any stretch of readings the fan survives enabled exactly when no reading rises above
      a positive predecessor. */
  lemma {:induction false} EnabledIffNotRising(f: Fan, samples: seq<Sample>)
    requires f.enable
    ensures Run(f, Readings(samples)).enable <==>
            (samples != [] ==> !Rising(f, samples[0]))
            && forall k :: 0 < k < |samples| && samples[k - 1].humidity > 0.0 ==>
                 samples[k].humidity <= samples[k - 1].humidity
    ensures Run(f, Readings(samples)).enable && samples != [] ==>
              Run(f, Readings(samples)).prevHumidity == samples[|samples| - 1].humidity
  {
    if samples != [] {
      var n := |samples| - 1;
      assert Readings(samples)[..n] == Readings(samples[..n]);
      EnabledIffNotRising(f, samples[..n]);
      var g := Run(f, Readings(samples[..n]));
      assert Run(f, Readings(samples)) == AfterReading(g, samples[n]);
      if g.enable && n > 0 {
        assert g.prevHumidity == samples[n - 1].humidity;
      }
    }
  }

  /** Hence a stretch of positive readings served with the fan staying enabled never rises. */
  lemma {:induction false} EnabledStretchIsMonotone(f: Fan, samples: seq<Sample>, i: nat, j: nat)
    requires f.enable && Run(f, Readings(samples)).enable
    requires forall s <- samples :: s.humidity > 0.0
    requires i <= j < |samples|
    ensures samples[j].humidity <= samples[i].humidity
    decreases j - i
  {
    EnabledIffNotRising(f, samples);
    if i < j {
      EnabledStretchIsMonotone(f, samples, i, j - 1);
      assert samples[j - 1] in samples;
    }
  }
}

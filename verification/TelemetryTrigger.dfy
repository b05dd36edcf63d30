/**
 What a fired send trigger says about the card, and runs from boot that show the pipeline's two
 irregularities: a batch of three, and a record sent twice.
 */
module TelemetryTrigger {
  import opened JsonText
  import opened SdCard
  import opened TelemetryPipeline

  function OnCard(s: State): int {
    |s.appended| - s.start
  }

  function Uncounted(s: State): int {
    if s.uncounted then 1 else 0
  }

  // ---------------------------------------------------------------- three records, or four

  /** The trigger counts appends, not records on the card: one record may have been cleared before it was
      counted. Whenever it has fired at least three records are there. */
  lemma TriggerMeansThreeRecords(onCard: seq<string>, steps: seq<Step>)
    requires AllRecords(onCard) && RecordSteps(steps) && Run(Boot(onCard), steps).phase.Checked?
    ensures OnCard(Run(Boot(onCard), steps)) >= 3
  {
    RunKeepsInv(onCard, steps);
  }

  /** Step `r` resets the counter although the producer still has to count a record, and that record is no
      longer on the card. */
  predicate LateReset(onCard: seq<string>, steps: seq<Step>, r: nat) {
    r < |steps| && steps[r] == Reset
    && var s := Run(Boot(onCard), steps[..r]); s.phase.Cleared? && s.uncounted && s.start == |s.appended|
  }

  /** The counter never claims more records than the card holds, but for the moment before a reset. */
  predicate Settled(s: State) {
    s.count >= 0 && (s.phase.Cleared? || (Uncounted(s) <= OnCard(s) && s.count + Uncounted(s) <= OnCard(s)))
  }

  lemma StepKeepsSettled(s: State, step: Step)
    requires Inv(s) && Settled(s)
    requires !(step == Reset && s.phase.Cleared? && s.uncounted && s.start == |s.appended|)
    ensures Settled(Next(s, step))
  {
    hide Record, ReadLines, ValidBatch, Partition, WithinRead;
  }

  lemma {:induction false} RunIsSettled(onCard: seq<string>, steps: seq<Step>)
    requires AllRecords(onCard) && RecordSteps(steps)
    requires forall r :: 0 <= r < |steps| ==> !LateReset(onCard, steps, r)
    ensures Settled(Run(Boot(onCard), steps))
  {
    if steps != [] {
      var n := |steps| - 1;
      RecordStepsPrefix(steps, n);
      RunKeepsInv(onCard, steps[..n]);
      hide Next, Record, Inv, Settled;
      forall r | 0 <= r < n
        ensures !LateReset(onCard, steps[..n], r)
      {
        assert steps[..n][..r] == steps[..r];
        assert !LateReset(onCard, steps, r);
      }
      RunIsSettled(onCard, steps[..n]);
      assert !LateReset(onCard, steps, n);
      StepKeepsSettled(Run(Boot(onCard), steps[..n]), steps[n]);
    } else {
      assert Settled(Boot(onCard));
    }
  }

  /** In a run without a late reset a fired trigger means four records. */
  lemma TriggerMeansFourRecords(onCard: seq<string>, steps: seq<Step>)
    requires AllRecords(onCard) && RecordSteps(steps) && Run(Boot(onCard), steps).phase.Checked?
    requires forall r :: 0 <= r < |steps| ==> !LateReset(onCard, steps, r)
    ensures OnCard(Run(Boot(onCard), steps)) >= 4
  {
    RunKeepsInv(onCard, steps);
    RunIsSettled(onCard, steps);
  }

  /** Until the next successful clear: the counter claims no more than the file holds. */
  predicate Covered(s: State) {
    && s.count >= 0 && Uncounted(s) <= OnCard(s)
    && (s.count + Uncounted(s) <= OnCard(s) || (s.phase.Cleared? && OnCard(s) >= 1))
  }

  lemma StepKeepsCovered(s: State, step: Step)
    requires Inv(s) && Covered(s) && Next(s, step).start == s.start
    ensures Covered(Next(s, step))
  {
    hide Record, ReadLines, Partition, WithinRead;
  }

  lemma RunAppend(s: State, a: seq<Step>, b: seq<Step>)
    ensures Run(s, a + b) == Run(Run(s, a), b)
  {
    hide Next;
    if b == [] {
      assert a + b == a;
    } else {
      assert (a + b)[..|a + b| - 1] == a + b[..|b| - 1];
      RunAppend(s, a, b[..|b| - 1]);
    }
  }

  lemma RecordStepsAppend(a: seq<Step>, b: seq<Step>)
    requires RecordSteps(a) && RecordSteps(b)
    ensures RecordSteps(a + b)
  {
    hide Record;
  }

  lemma {:induction false} RunStaysCovered(onCard: seq<string>, steps: seq<Step>, more: seq<Step>)
    requires AllRecords(onCard) && RecordSteps(steps) && RecordSteps(more)
    requires Covered(Run(Boot(onCard), steps))
             && Run(Boot(onCard), steps + more).start == Run(Boot(onCard), steps).start
    ensures Covered(Run(Boot(onCard), steps + more))
  {
    if more == [] {
      assert steps + more == steps;
    } else {
      var n := |more| - 1;
      RecordStepsPrefix(more, n);
      RunByOne(Boot(onCard), steps, more);
      StepFromPrefix(onCard, steps, more[..n], more[n]);
      hide *;
      RunStaysCovered(onCard, steps, more[..n]);
      StepKeepsCovered(Run(Boot(onCard), steps + more[..n]), more[n]);
    }
  }

  lemma RunByOne(s: State, a: seq<Step>, b: seq<Step>)
    requires b != []
    ensures Run(s, a + b) == Next(Run(s, a + b[..|b| - 1]), b[|b| - 1])
  {
    hide Next;
    assert (a + b)[..|a + b| - 1] == a + b[..|b| - 1];
  }

  lemma StepFromPrefix(onCard: seq<string>, steps: seq<Step>, more: seq<Step>, step: Step)
    requires AllRecords(onCard) && RecordSteps(steps) && RecordSteps(more)
    ensures var s := Run(Boot(onCard), steps + more);
            Inv(s) && Run(Boot(onCard), steps).start <= s.start <= Next(s, step).start
  {
    hide Record, Next, Inv, Run;
    RecordStepsAppend(steps, more);
    RunKeepsInv(onCard, steps + more);
    StartOnlyGrows(onCard, steps, more);
    NextMovesStart(Run(Boot(onCard), steps + more), step);
  }

  lemma {:induction false} StartOnlyGrows(onCard: seq<string>, steps: seq<Step>, more: seq<Step>)
    requires AllRecords(onCard) && RecordSteps(steps) && RecordSteps(more)
    ensures Run(Boot(onCard), steps).start <= Run(Boot(onCard), steps + more).start
            <= |Run(Boot(onCard), steps + more).appended|
  {
    var all := steps + more;
    RecordStepsAppend(steps, more);
    StartMovesWithClears(onCard, all, |steps|, |all|);
    RunKeepsInv(onCard, steps);
    assert all[..|steps|] == steps && all[..|all|] == all;
  }

  /** Whatever happens up to the next successful clear, a fired trigger means four records. */
  ghost predicate GuaranteesFour(onCard: seq<string>, steps: seq<Step>) {
    forall more :: RecordSteps(more) ==>
      var t := Run(Boot(onCard), steps + more);
      t.start == Run(Boot(onCard), steps).start && t.phase.Checked? ==> OnCard(t) >= 4
  }

  /** After a reset the next trigger is sure to mean four records exactly if the reset was not late. */
  lemma FourRecordsIffNotLate(onCard: seq<string>, steps: seq<Step>, line: string)
    requires AllRecords(onCard) && RecordSteps(steps) && Record(line)
    requires steps != [] && steps[|steps| - 1] == Reset && Run(Boot(onCard), steps[..|steps| - 1]).phase.Cleared?
    ensures GuaranteesFour(onCard, steps) <==> !LateReset(onCard, steps, |steps| - 1)
  {
    var n := |steps| - 1;
    RecordStepsPrefix(steps, n);
    RunKeepsInv(onCard, steps[..n]);
    var s := Run(Boot(onCard), steps);
    hide Record;
    if LateReset(onCard, steps, n) {
      var more := ThreeMore(line);
      ThreeRecordsTrigger(s, line);
      RunAppend(Boot(onCard), steps, more);
      hide Run;
      assert RecordSteps(more);
    } else {
      assert Covered(s);
      forall more | RecordSteps(more)
        ensures var t := Run(Boot(onCard), steps + more);
                t.start == s.start && t.phase.Checked? ==> OnCard(t) >= 4
      {
        var t := Run(Boot(onCard), steps + more);
        if t.start == s.start && t.phase.Checked? {
          RunStaysCovered(onCard, steps, more);
          RecordStepsAppend(steps, more);
          RunKeepsInv(onCard, steps + more);
        }
      }
    }
  }

  // ---------------------------------------------------------------- pieces of runs

  /** The producer appends one record and counts it. */
  function Recorded(line: string): seq<Step> {
    [Append(line, true), Count]
  }

  function ThreeMore(line: string): seq<Step> {
    [Count] + (Recorded(line) + (Recorded(line) + (Recorded(line) + [Check(true, true, true)])))
  }

  lemma RunOne(s: State, a: Step)
    ensures Run(s, [a]) == Next(s, a)
  {
    hide Next;
    assert [a][..0] == [];
  }

  lemma RunFirst(s: State, a: Step, rest: seq<Step>)
    ensures Run(s, [a] + rest) == Run(Next(s, a), rest)
  {
    hide Next;
    RunAppend(s, [a], rest);
    RunOne(s, a);
  }

  function WithRecord(s: State, line: string): State {
    s.(appended := s.appended + [line], count := s.count + 1)
  }

  lemma RecordedCounts(s: State, line: string, rest: seq<Step>)
    requires !s.uncounted
    ensures Run(s, Recorded(line) + rest) == Run(WithRecord(s, line), rest)
  {
    assert Next(Next(s, Append(line, true)), Count) == WithRecord(s, line);
    hide Run, Next, WithRecord;
    RunFirst(s, Append(line, true), [Count] + rest);
    RunFirst(Next(s, Append(line, true)), Count, rest);
    assert Recorded(line) + rest == [Append(line, true)] + ([Count] + rest);
  }

  lemma ThreeRecordsTrigger(s: State, line: string)
    requires s.phase.Idle? && s.count == 0 && s.uncounted && s.start == |s.appended|
    ensures var t := Run(s, ThreeMore(line)); t.phase.Checked? && OnCard(t) == 3 && t.start == s.start
  {
    var check := [Check(true, true, true)];
    var s1 := Next(s, Count);
    var s2 := WithRecord(s1, line);
    var s3 := WithRecord(s2, line);
    var s4 := WithRecord(s3, line);
    hide Run, Recorded;
    RunFirst(s, Count, Recorded(line) + (Recorded(line) + (Recorded(line) + check)));
    RecordedCounts(s1, line, Recorded(line) + (Recorded(line) + check));
    RecordedCounts(s2, line, Recorded(line) + check);
    RecordedCounts(s3, line, check);
    RunOne(s4, Check(true, true, true));
  }

  /** One cycle of the consumer up to its reset, in which everything works but perhaps the truncation. */
  function CycleSteps(clears: bool): seq<Step> {
    [Check(true, true, true)] + ([Read] + ([Send(true)] + [Clear(clears)]))
  }

  lemma CycleRuns(s: State, clears: bool)
    requires Inv(s) && s.phase.Idle? && s.count >= BATCH_SIZE
    requires s.start < |s.appended| && |s.appended[s.start]| <= READ_LIMIT
    ensures var t := Run(s, CycleSteps(clears));
            && t.phase.Cleared? && t.appended == s.appended && t.uncounted == s.uncounted
            && t.start == (if clears then |s.appended| else s.start)
            && |t.sent| == |s.sent| + 1 && t.sent[..|s.sent|] == s.sent
            && t.sent[|s.sent|] != [] && t.sent[|s.sent|][0] == s.appended[s.start]
  {
    var s1 := Next(s, Check(true, true, true));
    var s2 := Next(s1, Read);
    assert AllRecords(s.appended) && s1 == s.(phase := Checked);
    ReadFindsFirst(s1);
    CycleEnds(s2, clears);
    hide *;
    RunFirst(s, Check(true, true, true), [Read] + ([Send(true)] + [Clear(clears)]));
    RunFirst(s1, Read, [Send(true)] + [Clear(clears)]);
  }

  lemma CycleEnds(s: State, clears: bool)
    requires s.phase.Holding?
    ensures var t := Run(s, [Send(true)] + [Clear(clears)]);
            && t.phase.Cleared? && t.appended == s.appended && t.uncounted == s.uncounted
            && t.start == (if clears then |s.appended| else s.start)
            && t.sent == s.sent + [s.phase.batch.lines]
  {
    var t := Next(s, Send(true));
    RunFirst(s, Send(true), [Clear(clears)]);
    RunOne(t, Clear(clears));
    hide Run;
  }

  lemma ReadFindsFirst(s: State)
    requires s.phase.Checked? && AllRecords(s.appended)
    requires s.start < |s.appended| && |s.appended[s.start]| <= READ_LIMIT
    ensures var t := Next(s, Read);
            t.phase.Holding? && t == s.(phase := Holding(t.phase.batch)) && t.phase.batch.lines != []
            && t.phase.batch.lines[0] == s.appended[s.start]
  {
    var records := s.appended[s.start..];
    hide Record;
    assert AllRecords(records);
    ReadYieldsRecords(records, READ_LIMIT);
    hide ReadLines, AllRecords;
  }

  // ---------------------------------------------------------------- runs from boot

  /** A run from boot with a late reset, after which three records fire the trigger: one record is appended
      while the batch is under way and cleared with it before it is counted. */
  lemma ThreeRecordsCanTrigger(onCard: seq<string>, line: string)
    requires AllRecords(onCard) && Record(line) && |onCard| >= 4 && |onCard[0]| <= READ_LIMIT
    ensures var steps := [Append(line, true)] + CycleSteps(true) + [Reset];
            && LateReset(onCard, steps, |steps| - 1)
            && var t := Run(Boot(onCard), steps + ThreeMore(line)); t.phase.Checked? && OnCard(t) == 3
  {
    var boot := Boot(onCard);
    var s1 := Next(boot, Append(line, true));
    hide Record;
    assert Inv(s1) by {
      RunKeepsInv(onCard, [Append(line, true)]);
      RunOne(boot, Append(line, true));
    }
    assert s1.start == 0 && s1.appended[0] == onCard[0];
    CycleRuns(s1, true);
    RunFirst(boot, Append(line, true), CycleSteps(true));
    var cycle := [Append(line, true)] + CycleSteps(true);
    var steps := cycle + [Reset];
    assert steps[..|steps| - 1] == cycle;
    var s2 := Run(boot, cycle);
    assert s2.phase.Cleared? && s2.uncounted && s2.start == |s2.appended|;
    RunAppend(boot, cycle, [Reset]);
    RunOne(s2, Reset);
    var s3 := Next(s2, Reset);
    hide Run, Inv;
    ThreeRecordsTrigger(s3, line);
    RunAppend(boot, steps, ThreeMore(line));
  }

  lemma FailedCycle(onCard: seq<string>)
    requires AllRecords(onCard) && |onCard| >= 4 && |onCard[0]| <= READ_LIMIT
    ensures var s := Run(Boot(onCard), CycleSteps(false) + [Reset]);
            && s.phase.Idle? && !s.uncounted && s.count == 0 && s.start == 0 && s.appended == onCard
            && |s.sent| == 1 && s.sent[0] != [] && s.sent[0][0] == onCard[0]
  {
    var boot := Boot(onCard);
    assert Inv(boot) by { BootSatisfiesInv(onCard); }
    CycleRuns(boot, false);
    RunAppend(boot, CycleSteps(false), [Reset]);
    RunOne(Run(boot, CycleSteps(false)), Reset);
    hide Run, Inv, Record;
  }

  /** A run from boot that sends its first record twice: the truncation after the first publish fails. */
  lemma RecordCanBeSentTwice(onCard: seq<string>, line: string)
    requires AllRecords(onCard) && Record(line) && |onCard| >= 4 && |onCard[0]| <= READ_LIMIT
    ensures var again := FourRecorded(line) + CycleSteps(true);
            var sent := Run(Boot(onCard), CycleSteps(false) + [Reset] + again).sent;
            |sent| == 2 && sent[0] != [] && sent[1] != [] && sent[0][0] == sent[1][0] == onCard[0]
  {
    hide Record, Run, Next, Inv, FourRecorded;
    var first := CycleSteps(false) + [Reset];
    FailedCycle(onCard);
    assert RecordSteps(first);
    hide CycleSteps;
    FourMore(onCard, first, line);
    var s := Run(Boot(onCard), first + FourRecorded(line));
    assert s.appended[0] == onCard[0];
    CycleRuns(s, true);
    RunAppend(Boot(onCard), first + FourRecorded(line), CycleSteps(true));
    assert first + (FourRecorded(line) + CycleSteps(true)) == first + FourRecorded(line) + CycleSteps(true);
  }

  function FourRecorded(line: string): seq<Step> {
    Recorded(line) + (Recorded(line) + (Recorded(line) + (Recorded(line) + [])))
  }

  lemma FourMore(onCard: seq<string>, first: seq<Step>, line: string)
    requires AllRecords(onCard) && RecordSteps(first) && Record(line)
    requires var s := Run(Boot(onCard), first); s.phase.Idle? && !s.uncounted && s.count == 0
    ensures var s, t := Run(Boot(onCard), first), Run(Boot(onCard), first + FourRecorded(line));
            && t.phase.Idle? && !t.uncounted && t.count == 4 && t.sent == s.sent && t.start == s.start
            && s.appended <= t.appended && Inv(t)
  {
    var s := Run(Boot(onCard), first);
    var four := FourRecorded(line);
    assert RecordSteps(four) by { hide Record; }
    RecordStepsAppend(first, four);
    RunKeepsInv(onCard, first + four);
    RunAppend(Boot(onCard), first, four);
    hide Inv, Record;
    var s1 := WithRecord(s, line);
    var s2 := WithRecord(s1, line);
    var s3 := WithRecord(s2, line);
    var s4 := WithRecord(s3, line);
    assert s4.phase.Idle? && !s4.uncounted && s4.count == 4 && s4.sent == s.sent && s4.start == s.start
      && s.appended <= s4.appended;
    assert Run(s4, []) == s4;
    assert !s1.uncounted && !s2.uncounted && !s3.uncounted;
    hide Run, Recorded, WithRecord;
    RecordedCounts(s, line, Recorded(line) + (Recorded(line) + (Recorded(line) + [])));
    RecordedCounts(s1, line, Recorded(line) + (Recorded(line) + []));
    RecordedCounts(s2, line, Recorded(line) + []);
    RecordedCounts(s3, line, []);
  }
}

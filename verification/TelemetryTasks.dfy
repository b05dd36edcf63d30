/**
 One uninterrupted round of the sensor task and of the send task, as the code runs them on the card,
 the counter and the latest loss, tied to the steps of the interleaved pipeline.
 */
module TelemetryTasks {
  import opened Lines
  import opened SdCard
  import opened TelemetryPipeline
  import JsonText
  import CargoLoss
  import TelemetryBatch

  datatype Serialized = NotSerialized | Line(text: string)

  /** The guards and outcomes of one send round: connected, container id set, buffer allocated, publish
      result, and whether the truncating fopen succeeds. */
  datatype SendEnv = SendEnv(connected: bool, configured: bool, memory: bool, published: bool, clearOpens: bool)

  function SensorSteps(line: Serialized, opens: bool): seq<Step> {
    if line.NotSerialized? then [] else [Append(line.text, opens), Count]
  }

  /** Without a mounted card the read returns an error, which ends the round like a missing buffer. */
  function SendSteps(e: SendEnv, mounted: bool): seq<Step> {
    [Check(e.connected, e.configured, e.memory && mounted), Read, Send(e.published), Clear(e.clearOpens), Reset]
  }

  /** The lines of a batch, without the losses written into it. */
  function EntryLines(entries: seq<TelemetryBatch.Entry>): seq<string> {
    if entries == [] then [] else [entries[0].line] + EntryLines(entries[1..])
  }

  class Tasks {
    const card: Card
    var count: int
    var latestLoss: real
    ghost var state: State

    ghost predicate Valid()
      reads this, card
    {
      && state.start <= |state.appended| && state.phase.Idle? && !state.uncounted
      && state.count == count
      && Contents(card.files, Telemetry) == FileText(state)
    }

    /** At boot into transport: the counter is the number of records on the card. */
    constructor (card: Card, ghost onCard: seq<string>, counted: int)
      requires Contents(card.files, Telemetry) == Join(onCard) && counted == |onCard|
      ensures Valid() && this.card == card && state == Boot(onCard)
    {
      this.card, count, latestLoss, state := card, counted, 0.0, Boot(onCard);
      new;
      assert onCard[0..] == onCard;
    }

    /** task_sensor_read: compute the loss from the previous one, publish it in RAM, append, count. */
    method SensorRound(humidity: real, threshold: real, weight: real, serialize: real -> Serialized, opens: bool)
      requires Valid()
      modifies this, card`files
      ensures Valid()
      ensures latestLoss == CargoLoss.CalcLoss(if old(latestLoss) > 0.0 then weight - old(latestLoss) else weight,
                                               humidity, threshold, weight)
      ensures state == Run(old(state), SensorSteps(serialize(latestLoss), card.mounted && opens))
      ensures var line := serialize(latestLoss);
              var stored := line.Line? && card.mounted && opens;
              && count == old(count) + (if stored then 1 else 0)
              && card.files == if stored then SdCard.Append(old(card.files), Telemetry, line.text) else old(card.files)
    {
      var quantity := if latestLoss > 0.0 then weight - latestLoss else weight;
      latestLoss := CargoLoss.CalcLoss(quantity, humidity, threshold, weight);
      match serialize(latestLoss) {
        case NotSerialized =>
        case Line(text) =>
          var status := card.AppendLine(Telemetry, text, opens);
          ghost var stored := card.mounted && opens;
          FileGrows(state, text, stored);
          RunOfTwo(state, Append(text, stored), Count);
          state := Next(Next(state, Append(text, stored)), Count);
          if status.Ok? {
            count := count + 1;
          }
      }
    }

    /** task_telemetry_send: trigger, read, rebuild the losses, publish, clear, reset. What it sends and
        changes, the latest loss included, is stated for every parser; that the pipeline's steps describe it, for
        parsers that take exactly the lines read that close their object. */
    method SendRound(e: SendEnv, parse: string -> TelemetryBatch.Item, threshold: real, weight: real)
        returns (batch: seq<TelemetryBatch.Entry>, sent: bool)
      requires Valid()
      modifies this, card`files
      ensures var lines := LinesRead(old(card.files));
              && (sent <==> old(count) >= BATCH_SIZE && e.connected && e.configured && e.memory && card.mounted
                            && TelemetryBatch.Entries(lines, parse, threshold, weight) != [] && e.published)
              && (sent ==> batch == TelemetryBatch.Entries(lines, parse, threshold, weight))
      ensures card.files == if sent && e.clearOpens then old(card.files)[Telemetry := ""] else old(card.files)
      ensures count == if sent then 0 else old(count)
      ensures var entries := TelemetryBatch.Entries(LinesRead(old(card.files)), parse, threshold, weight);
              latestLoss == if old(count) >= BATCH_SIZE && e.connected && e.configured && e.memory && card.mounted
                               && entries != [] && entries[|entries| - 1].WithLoss?
                            then entries[|entries| - 1].loss else old(latestLoss)
      ensures (forall l <- LinesRead(old(card.files)) :: parse(l).Invalid? <==> !JsonText.ClosesObject(l)) ==>
                && Valid() && state == Run(old(state), SendSteps(e, card.mounted))
                && state.sent == old(state).sent + if sent then [EntryLines(batch)] else []
    {
      hide JsonText.ClosesObject, Join, Split, CString, TelemetryBatch.Entries,
           Run, Next, ReadLines, FileText, SendSteps;
      batch, sent := [], false;
      ghost var before, lines := state, LinesRead(card.files);
      state := Run(state, SendSteps(e, card.mounted));
      SendInPipeline(before, e, card.mounted);
      LinesAgree(card.files, before, parse, threshold, weight);
      if count < BATCH_SIZE || !e.connected || !e.configured || !e.memory {
        return;
      }
      var status, raw := card.ReadAll(READ_LIMIT + 1);
      if !status.Ok? {
        return;
      }
      batch := TelemetryBatch.BuildBatch(raw, parse, threshold, weight);
      if |batch| == 0 {
        return;
      }
      if batch[|batch| - 1].WithLoss? {
        latestLoss := batch[|batch| - 1].loss;
      }
      if e.published {
        sent := true;
        status := card.Clear(Telemetry, e.clearOpens);
        count := 0;
      }
    }
  }

  /** What the five steps of a send round make of an idle pipeline. */
  lemma SendInPipeline(s: State, e: SendEnv, mounted: bool)
    requires s.start <= |s.appended| && s.phase.Idle? && !s.uncounted
    ensures var t, lines := Run(s, SendSteps(e, mounted)), ReadLines(FileText(s), READ_LIMIT);
            var ok := s.count >= BATCH_SIZE && e.connected && e.configured && e.memory && mounted
                && lines != [] && e.published;
            && t.start <= |t.appended| && t.phase.Idle? && !t.uncounted
            && t.count == (if ok then 0 else s.count)
            && t.sent == s.sent + (if ok then [lines] else [])
            && FileText(t) == if ok && e.clearOpens then "" else FileText(s)
  {
    RunOfSend(s, e, mounted);
    var checked := Next(s, Check(e.connected, e.configured, e.memory && mounted));
    var sent := Next(Next(checked, Read), Send(e.published));
    hide ReadLines, Join, Run;
    if sent.phase.Published? {
      ClearedFile(sent, e.clearOpens);
    }
  }

  lemma LinesAgree(files: Files, s: State, parse: string -> TelemetryBatch.Item, threshold: real, weight: real)
    requires s.start <= |s.appended| && Contents(files, Telemetry) == FileText(s)
    ensures var entries := TelemetryBatch.Entries(LinesRead(files), parse, threshold, weight);
            (forall l <- LinesRead(files) :: parse(l).Invalid? <==> !JsonText.ClosesObject(l)) ==>
              EntryLines(entries) == ReadLines(FileText(s), READ_LIMIT)
              && (entries == [] <==> ReadLines(FileText(s), READ_LIMIT) == [])
  {
    hide JsonText.ClosesObject, TelemetryBatch.Entries, Split, CString, Parsed;
    if forall l <- LinesRead(files) :: parse(l).Invalid? <==> !JsonText.ClosesObject(l) {
      EntriesAreParsed(LinesRead(files), parse, threshold, weight);
    }
  }

  /** The non-empty lines of what a read of the telemetry file returns. */
  function LinesRead(files: Files): seq<string> {
    Split(CString(FirstBytes(Contents(files, Telemetry), 65535)))
  }

  lemma FileGrows(s: State, line: string, opens: bool)
    requires s.start <= |s.appended| && !s.uncounted
    ensures FileText(Next(s, Append(line, opens))) == if opens then FileText(s) + line + [NEWLINE] else FileText(s)
  {
    if opens {
      var records := s.appended[s.start..];
      assert (s.appended + [line])[s.start..] == records + [line];
      assert (records + [line])[..|records|] == records;
    }
  }

  lemma ClearedFile(s: State, opens: bool)
    requires s.start <= |s.appended| && s.phase.Published?
    ensures FileText(Next(s, Clear(opens))) == if opens then "" else FileText(s)
  {
    assert s.appended[|s.appended|..] == [];
  }

  lemma RunExtends(s: State, steps: seq<Step>, last: Step)
    ensures Run(s, steps + [last]) == Next(Run(s, steps), last)
  {
    hide Next;
    assert (steps + [last])[..|steps|] == steps;
  }

  lemma RunOfTwo(s: State, a: Step, b: Step)
    ensures Run(s, [a, b]) == Next(Next(s, a), b)
  {
    hide Next;
    RunExtends(s, [], a);
    assert [] + [a] == [a] && [a] + [b] == [a, b];
    RunExtends(s, [a], b);
  }

  /** A round that stops early leaves the remaining steps without effect. */
  lemma RunOfSend(s: State, e: SendEnv, mounted: bool)
    ensures var checked := Next(s, Check(e.connected, e.configured, e.memory && mounted));
            Run(s, SendSteps(e, mounted))
            == Next(Next(Next(Next(checked, Read), Send(e.published)), Clear(e.clearOpens)), Reset)
  {
    hide Next, Run;
    var check := Check(e.connected, e.configured, e.memory && mounted);
    var first := [check, Read];
    RunOfTwo(s, check, Read);
    RunExtends(s, first, Send(e.published));
    RunExtends(s, first + [Send(e.published)], Clear(e.clearOpens));
    RunExtends(s, first + [Send(e.published)] + [Clear(e.clearOpens)], Reset);
    assert SendSteps(e, mounted) == first + [Send(e.published)] + [Clear(e.clearOpens)] + [Reset];
  }

  lemma {:induction false} EntryLinesAppend(a: seq<TelemetryBatch.Entry>, b: seq<TelemetryBatch.Entry>)
    ensures EntryLines(a + b) == EntryLines(a) + EntryLines(b)
    ensures EntryLines(a) == [] <==> a == []
  {
    if a == [] {
      assert a + b == b;
    } else {
      assert (a + b)[1..] == a[1..] + b;
      EntryLinesAppend(a[1..], b);
    }
  }

  lemma {:induction false} ParsedAppend(a: seq<string>, b: seq<string>)
    ensures Parsed(a + b) == Parsed(a) + Parsed(b)
  {
    hide JsonText.ClosesObject;
    if a == [] {
      assert a + b == b;
    } else {
      assert (a + b)[1..] == a[1..] + b;
      ParsedAppend(a[1..], b);
    }
  }

  /** The batch is made of exactly the lines that parse. */
  lemma {:induction false} EntriesAreParsed(lines: seq<string>, parse: string -> TelemetryBatch.Item,
                                            threshold: real, weight: real)
    requires forall l <- lines :: parse(l).Invalid? <==> !JsonText.ClosesObject(l)
    ensures EntryLines(TelemetryBatch.Entries(lines, parse, threshold, weight)) == Parsed(lines)
    ensures Parsed(lines) == [] <==> TelemetryBatch.Entries(lines, parse, threshold, weight) == []
  {
    hide JsonText.ClosesObject, CargoLoss.CalcLoss, CargoLoss.Remaining;
    if lines != [] {
      var init, last := lines[..|lines| - 1], lines[|lines| - 1];
      EntriesAreParsed(init, parse, threshold, weight);
      assert lines == init + [last];
      ParsedAppend(init, [last]);
      var entries := TelemetryBatch.Entries(init, parse, threshold, weight);
      assert [last][1..] == [];
      match parse(last)
      case Invalid =>
        assert entries + [] == entries;
      case Bare =>
        EntryLinesAppend(entries, [TelemetryBatch.Unchanged(last)]);
      case Reading(h) =>
        var loss :=
          CargoLoss.CalcLoss(CargoLoss.Remaining(weight, TelemetryBatch.Humidities(init, parse), threshold, weight),
                                       h, threshold, weight);
        EntryLinesAppend(entries, [TelemetryBatch.WithLoss(last, loss)]);
    }
    EntryLinesAppend(TelemetryBatch.Entries(lines, parse, threshold, weight), []);
  }

  /** What run_stage3 sums up: the first 65535 bytes of the file, whole records and perhaps a broken one,
      which does not parse. The total is the sum over exactly the records that end within those bytes. */
  lemma HandoverTotalOfRead(records: seq<string>, stored: string -> TelemetryBatch.Stored)
    requires AllRecords(records)
    requires forall l :: !JsonText.ClosesObject(l) ==> stored(l).NoLoss?
    ensures var lines, read := Split(CString(FirstBytes(Join(records), READ_LIMIT))), WholeRecords(records, READ_LIMIT);
            && TelemetryBatch.Sum(TelemetryBatch.StoredLosses(lines, stored))
               == TelemetryBatch.Sum(TelemetryBatch.StoredLosses(records[..read], stored))
            && TelemetryBatch.AddUp(lines, stored, 0) == TelemetryBatch.AddUp(records[..read], stored, 0)
  {
    hide JsonText.ClosesObject, Join, Split, CString, WholeRecords;
    ReadYieldsRecords(records, READ_LIMIT);
    var lines := Split(CString(FirstBytes(Join(records), READ_LIMIT)));
    var read := records[..WholeRecords(records, READ_LIMIT)];
    UnparsedLinesStoreNothing(lines, stored);
    TelemetryBatch.TotalAddsUp(lines, stored, 0);
    TelemetryBatch.TotalAddsUp(read, stored, 0);
    assert lines[0..] == lines && read[0..] == read;
  }

  lemma {:induction false} UnparsedLinesStoreNothing(lines: seq<string>, stored: string -> TelemetryBatch.Stored)
    requires forall l :: !JsonText.ClosesObject(l) ==> stored(l).NoLoss?
    ensures TelemetryBatch.StoredLosses(lines, stored) == TelemetryBatch.StoredLosses(Parsed(lines), stored)
  {
    hide JsonText.ClosesObject;
    if lines != [] {
      var init, last := lines[..|lines| - 1], lines[|lines| - 1];
      UnparsedLinesStoreNothing(init, stored);
      assert lines == init + [last];
      ParsedAppend(init, [last]);
      assert [last][1..] == [];
      if JsonText.ClosesObject(last) {
        assert Parsed(lines) == Parsed(init) + [last];
        assert Parsed(lines)[..|Parsed(lines)| - 1] == Parsed(init);
      } else {
        assert Parsed(lines) == Parsed(init);
      }
    }
  }
}

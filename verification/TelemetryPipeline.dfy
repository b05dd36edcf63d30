/**
 The telemetry producer (components/sensors/sensor_manager.c) and consumer
 (components/telemetry/telemetry_engine.c) interleaved step by step over one file and one counter.
 A step is what happens between two points where the other task can run: an append, a counter update
 under its mutex, a read, a publish, a truncation.
 */
module TelemetryPipeline {
  import opened Lines
  import opened JsonText
  import opened SdCard

  const BATCH_SIZE: int := 4
  const READ_LIMIT: nat := 65535      // SD_READ_BUF_SIZE - 1

  // ---------------------------------------------------------------- records and reads

  /** A serialised record: one storable line that parses, while none of its proper prefixes does. */
  predicate Record(line: string) {
    Storable(line) && ClosesObject(line) && forall n :: 0 <= n < |line| ==> !ClosesObject(line[..n])
  }

  predicate AllRecords(lines: seq<string>) {
    forall i :: 0 <= i < |lines| ==> Record(lines[i])
  }

  /** Whatever telemetry_serialize prints is a record. */
  lemma PrintedObjectIsRecord(members: seq<Member>)
    requires PlainNumbers(Object(members))
    ensures Record(Print(Object(members)))
  {
    var text := Print(Object(members));
    PrintedObjectIsStorable(members);
    PrefixClosesIffWhole(members, |text|);
    assert text[..|text|] == text;
    forall n | 0 <= n < |text|
      ensures !ClosesObject(text[..n])
    {
      PrefixClosesIffWhole(members, n);
    }
  }

  function Parsed(lines: seq<string>): seq<string> {
    if lines == [] then []
    else (if ClosesObject(lines[0]) then [lines[0]] else []) + Parsed(lines[1..])
  }

  /** The lines a consumer gets out of a file, reading at most `limit` bytes of it. */
  function ReadLines(file: string, limit: nat): seq<string> {
    Parsed(Split(CString(FirstBytes(file, limit))))
  }

  /** How many records lie completely, except perhaps for their newline, in the first `n` bytes. */
  function WholeRecords(records: seq<string>, n: nat): (k: nat)
    ensures k <= |records|
  {
    if records == [] || n < |records[0]| then 0
    else if n == |records[0]| then 1
    else 1 + WholeRecords(records[1..], n - |records[0]| - 1)
  }

  /** Record `i` is read exactly when its last byte is among the first `n`. */
  lemma {:induction false} WholeRecordsIff(records: seq<string>, n: nat, i: nat)
    requires i < |records|
    ensures i < WholeRecords(records, n) <==> |Join(records[..i + 1])| - 1 <= n
    decreases i
  {
    var head, tail := records[0], records[1..];
    assert [head][..0] == [] && Join([head]) == head + [NEWLINE];
    if i == 0 {
      assert records[..1] == [head];
    } else {
      assert records[..i + 1] == [head] + tail[..i];
      JoinAppend([head], tail[..i]);
      if n > |head| {
        WholeRecordsIff(tail, n - |head| - 1, i - 1);
      } else {
        JoinIsNotEmpty(tail[..i]);
      }
    }
  }

  lemma JoinIsNotEmpty(lines: seq<string>)
    requires lines != []
    ensures |Join(lines)| >= 1
  {
  }

  /** What the parser gets to see of a read cut after `n` bytes. */
  function CutRead(records: seq<string>, n: nat): seq<string>
    requires n <= |Join(records)|
  {
    Parsed(Split(CString(Join(records)[..n])))
  }

  /** A read that ends inside a record yields exactly the whole records before the cut. */
  lemma {:induction false} CutReadYieldsWholeRecords(records: seq<string>, n: nat)
    requires AllRecords(records) && n <= |Join(records)|
    ensures CutRead(records, n) == records[..WholeRecords(records, n)]
    decreases |records|
  {
    hide ClosesObject, Join, CutRead;
    if records == [] {
      assert Join(records) == "" by { JoinOfNone(); }
      CutReadOfNone();
    } else {
      var head, tail := records[0], records[1..];
      assert records == [head] + tail;
      assert Record(head);
      CutIn(head, tail, n);
      if n <= |head| {
        CutInFirst(head, tail, n);
      } else {
        var m := n - |head| - 1;
        CutReadYieldsWholeRecords(tail, m);
        CutPastFirst(head, tail, n);
        hide WholeRecords, Record;
        assert records[..1 + WholeRecords(tail, m)] == [head] + tail[..WholeRecords(tail, m)];
      }
    }
  }

  lemma JoinOfNone()
    ensures Join([]) == ""
  {
  }

  lemma CutReadOfNone()
    ensures Join([]) == "" && CutRead([], 0) == []
  {
    CutReadHasNoNul([], 0);
    hide ClosesObject;
    assert Split("") == [];
  }

  lemma CutInFirst(head: string, tail: seq<string>, n: nat)
    requires AllRecords([head] + tail) && n <= |Join([head] + tail)| && n <= |head|
    ensures CutRead([head] + tail, n) == if n == |head| then [head] else []
  {
    assert Record(([head] + tail)[0]);
    CutReadHasNoNul([head] + tail, n);
    CutIn(head, tail, n);
    hide ClosesObject, CString, Split, Parsed, Join, Record;
    ParsedHead(head, n);
  }

  lemma CutPastFirst(head: string, tail: seq<string>, n: nat)
    requires AllRecords([head] + tail) && AllRecords(tail) && |head| < n <= |Join([head] + tail)|
    ensures n - |head| - 1 <= |Join(tail)| && CutRead([head] + tail, n) == [head] + CutRead(tail, n - |head| - 1)
  {
    assert Record(([head] + tail)[0]);
    CutReadHasNoNul([head] + tail, n);
    CutIn(head, tail, n);
    var m := n - |head| - 1;
    CutReadHasNoNul(tail, m);
    hide ClosesObject, CString, Split, Parsed, Join, AllRecords;
    SplitUnfolds(head, Join(tail)[..m]);
    hide Record;
    ParsedCons(head, Split(Join(tail)[..m]));
  }

  lemma CutReadHasNoNul(records: seq<string>, n: nat)
    requires AllRecords(records) && n <= |Join(records)|
    ensures CString(Join(records)[..n]) == Join(records)[..n]
  {
    JoinOfRecordsHasNoNul(records);
    hide ClosesObject, Join;
    assert NUL !in Join(records)[..n];
    CStringOfClean(Join(records)[..n], "");
  }

  /** Where a cut of a file falls: inside its first line, or at a cut of the rest. */
  lemma CutIn(head: string, tail: seq<string>, n: nat)
    requires Record(head) && n <= |Join([head] + tail)|
    ensures n <= |head| ==> Join([head] + tail)[..n] == head[..n] && Split(head[..n]) == NonEmpty(head[..n])
    ensures n > |head| ==> n - |head| - 1 <= |Join(tail)|
                           && Join([head] + tail)[..n] == head + [NEWLINE] + Join(tail)[..n - |head| - 1]
  {
    hide ClosesObject;
    var file := Join([head] + tail);
    JoinFromFront(head, tail, "");
    assert file + "" == file && Join(tail) + "" == Join(tail);
    if n <= |head| {
      assert file[..n] == head[..n];
    }
  }

  lemma ParsedHead(head: string, n: nat)
    requires Record(head) && n <= |head|
    ensures Parsed(NonEmpty(head[..n])) == if n == |head| then [head] else []
  {
    hide ClosesObject;
    assert head[..|head|] == head;
    assert Parsed([]) == [];
  }

  lemma ParsedCons(head: string, rest: seq<string>)
    requires Record(head)
    ensures Parsed(NonEmpty(head) + rest) == [head] + Parsed(rest)
  {
    hide ClosesObject;
    assert NonEmpty(head) == [head] && ([head] + rest)[1..] == rest;
  }

  lemma JoinOfRecordsHasNoNul(records: seq<string>)
    requires AllRecords(records)
    ensures NUL !in Join(records)
  {
    hide ClosesObject;
    JoinHasNoNul(records);
  }

  /** Reading a file of records: all of it when it fits, the whole records of the prefix otherwise. */
  lemma ReadYieldsRecords(records: seq<string>, limit: nat)
    requires AllRecords(records)
    ensures ReadLines(Join(records), limit) == records[..WholeRecords(records, limit)]
    ensures |Join(records)| <= limit ==> ReadLines(Join(records), limit) == records
  {
    hide Join, Split, CString, Parsed, Record;
    var file := Join(records);
    var n := if |file| <= limit then |file| else limit;
    assert file[..|file|] == file;
    CutReadYieldsWholeRecords(records, n);
    if |file| <= limit && records != [] {
      assert records[..|records|] == records;
      WholeRecordsIff(records, limit, |records| - 1);
      WholeRecordsIff(records, n, |records| - 1);
    }
  }

  // ---------------------------------------------------------------- the two tasks

  /** What one consumer cycle holds: records `lo..hi`, read when `readAt` records had been appended. */
  datatype Batch = Batch(lo: nat, hi: nat, readAt: nat, lines: seq<string>)

  datatype Phase = Idle | Checked | Holding(batch: Batch) | Published(batch: Batch) | Cleared

  /** A completed cycle: `batch` was published and the file cleared when it ended at record `end`. */
  datatype Cycle = Cycle(batch: Batch, end: nat)

  /** The file holds the records from `start` on. `uncounted`: the producer has appended a record and not
      yet counted it. `clearFailed`: some truncation after a publish failed. */
  datatype State = State(appended: seq<string>, start: nat, uncounted: bool, count: int, phase: Phase,
                         sent: seq<seq<string>>, cycles: seq<Cycle>, clearFailed: bool)

  datatype Step =
    | Append(line: string, opens: bool)                              // sd_telemetry_append
    | Count                                                          // g_telem_count++
    | Check(connected: bool, configured: bool, memory: bool)         // trigger and the other guards
    | Read                                                           // sd_telemetry_read_all and parsing
    | Send(ok: bool)                                                 // mqtt_publish
    | Clear(opens: bool)                                             // sd_telemetry_clear
    | Reset                                                          // g_telem_count = 0

  /** At boot: the records already on the card are counted. */
  function Boot(onCard: seq<string>): State {
    State(onCard, 0, false, |onCard|, Idle, [], [], false)
  }

  function FileText(s: State): string
    requires s.start <= |s.appended|
  {
    Join(s.appended[s.start..])
  }

  function Next(s: State, step: Step): State {
    match step
    case Append(line, opens) =>
      if s.uncounted || !opens then s else s.(appended := s.appended + [line], uncounted := true)
    case Count =>
      if s.uncounted then s.(count := s.count + 1, uncounted := false) else s
    case Check(connected, configured, memory) =>
      if s.phase.Idle? && s.count >= BATCH_SIZE && connected && configured && memory then s.(phase := Checked) else s
    case Read =>
      if s.phase.Checked? && s.start <= |s.appended| then
        var lines := ReadLines(FileText(s), READ_LIMIT);
        if lines == [] then s.(phase := Idle)
        else s.(phase := Holding(Batch(s.start, s.start + |lines|, |s.appended|, lines)))
      else s
    case Send(ok) =>
      if !s.phase.Holding? then s
      else if ok then s.(phase := Published(s.phase.batch), sent := s.sent + [s.phase.batch.lines])
      else s.(phase := Idle)
    case Clear(opens) =>
      if !s.phase.Published? then s
      else if opens then
        s.(phase := Cleared, start := |s.appended|, cycles := s.cycles + [Cycle(s.phase.batch, |s.appended|)])
      else s.(phase := Cleared, clearFailed := true)
    case Reset =>
      if s.phase.Cleared? then s.(phase := Idle, count := 0) else s
  }

  function Run(s: State, steps: seq<Step>): State {
    if steps == [] then s else Next(Run(s, steps[..|steps| - 1]), steps[|steps| - 1])
  }

  predicate RecordSteps(steps: seq<Step>) {
    forall i :: 0 <= i < |steps| && steps[i].Append? ==> Record(steps[i].line)
  }

  // ---------------------------------------------------------------- invariant

  /** Record `i` ends within the bytes that a read of the file starting at record `lo` returns. */
  ghost predicate WithinRead(appended: seq<string>, lo: nat, i: nat) {
    lo <= i < |appended| && |Join(appended[lo..i + 1])| - 1 <= READ_LIMIT
  }

  /** The batch is a run of consecutive records: of those in the file when it was read, exactly the ones
      that end within the read limit. */
  ghost predicate ValidBatch(b: Batch, appended: seq<string>) {
    && b.lo < b.hi <= b.readAt <= |appended|
    && b.lines == appended[b.lo..b.hi]
    && forall i :: b.lo <= i < b.readAt ==> (i < b.hi <==> WithinRead(appended, b.lo, i))
  }

  ghost predicate ValidCycle(c: Cycle, appended: seq<string>) {
    ValidBatch(c.batch, appended) && c.batch.readAt <= c.end <= |appended|
  }

  /** The completed cycles cut the records before `start` into consecutive pieces. */
  ghost predicate Partition(cycles: seq<Cycle>, start: nat) {
    && (cycles == [] ==> start == 0)
    && (cycles != [] ==> cycles[0].batch.lo == 0 && cycles[|cycles| - 1].end == start)
    && forall k :: 0 < k < |cycles| ==> cycles[k].batch.lo == cycles[k - 1].end
  }

  function CycleLines(cycles: seq<Cycle>): (r: seq<seq<string>>)
    ensures |r| == |cycles| && forall k :: 0 <= k < |r| ==> r[k] == cycles[k].batch.lines
  {
    seq(|cycles|, k requires 0 <= k < |cycles| => cycles[k].batch.lines)
  }

  ghost predicate Inv(s: State) {
    && s.start <= |s.appended| && AllRecords(s.appended)
    && (forall k :: 0 <= k < |s.cycles| ==> ValidCycle(s.cycles[k], s.appended))
    && Partition(s.cycles, s.start)
    && (s.phase.Holding? || s.phase.Published? ==> ValidBatch(s.phase.batch, s.appended) && s.phase.batch.lo == s.start)
    && (!s.clearFailed ==> s.sent == CycleLines(s.cycles) + if s.phase.Published? then [s.phase.batch.lines] else [])
    && (!s.phase.Cleared? ==> s.count + (if s.uncounted then 1 else 0) <= |s.appended| - s.start + 1)
    && (s.phase.Checked? ==> s.count >= BATCH_SIZE)
  }

  lemma ValidBatchGrows(b: Batch, appended: seq<string>, line: string)
    requires ValidBatch(b, appended)
    ensures ValidBatch(b, appended + [line])
  {
    var longer := appended + [line];
    assert longer[b.lo..b.hi] == appended[b.lo..b.hi];
    forall i | b.lo <= i < b.readAt
      ensures i < b.hi <==> WithinRead(longer, b.lo, i)
    {
      assert i < b.hi <==> WithinRead(appended, b.lo, i);
      assert longer[b.lo..i + 1] == appended[b.lo..i + 1];
    }
  }

  lemma AppendKeepsInv(s: State, line: string, opens: bool)
    requires Inv(s) && Record(line)
    ensures Inv(Next(s, Append(line, opens)))
  {
    hide Record, ValidBatch, Partition;
    var s' := Next(s, Append(line, opens));
    if s' != s {
      forall k | 0 <= k < |s.cycles|
        ensures ValidCycle(s.cycles[k], s'.appended)
      {
        ValidBatchGrows(s.cycles[k].batch, s.appended, line);
      }
      if s.phase.Holding? || s.phase.Published? {
        ValidBatchGrows(s.phase.batch, s.appended, line);
      }
    }
  }

  lemma ReadKeepsInv(s: State)
    requires Inv(s)
    ensures Inv(Next(s, Read))
  {
    hide Record, Partition, ReadLines, Join, WholeRecords;
    if s.phase.Checked? {
      var records := s.appended[s.start..];
      assert AllRecords(records);
      ReadYieldsRecords(records, READ_LIMIT);
      var lines := ReadLines(FileText(s), READ_LIMIT);
      var hi := s.start + |lines|;
      assert lines == records[..WholeRecords(records, READ_LIMIT)] == s.appended[s.start..hi];
      forall i | s.start <= i < |s.appended|
        ensures i < hi <==> WithinRead(s.appended, s.start, i)
      {
        WholeRecordsIff(records, READ_LIMIT, i - s.start);
        assert records[..i - s.start + 1] == s.appended[s.start..i + 1];
      }
    }
  }

  lemma ClearKeepsInv(s: State, opens: bool)
    requires Inv(s)
    ensures Inv(Next(s, Clear(opens)))
  {
    hide Record, ValidBatch;
    if s.phase.Published? && opens {
      var c := Cycle(s.phase.batch, |s.appended|);
      assert ValidBatch(c.batch, s.appended) && c.batch.readAt <= |s.appended|
      by { ReadHappenedBefore(s.phase.batch, s.appended); }
      assert CycleLines(s.cycles + [c]) == CycleLines(s.cycles) + [c.batch.lines];
    }
  }

  lemma ReadHappenedBefore(b: Batch, appended: seq<string>)
    requires ValidBatch(b, appended)
    ensures b.readAt <= |appended|
  {
  }

  lemma SendKeepsInv(s: State, ok: bool)
    requires Inv(s)
    ensures Inv(Next(s, Send(ok)))
  {
    hide Record, ValidBatch, Partition, CycleLines;
    if s.phase.Holding? && !s.clearFailed {
      assert s.sent == CycleLines(s.cycles);
    }
  }

  lemma OtherStepsKeepInv(s: State, step: Step)
    requires Inv(s) && (step.Count? || step.Check? || step.Reset?)
    ensures Inv(Next(s, step))
  {
    hide Record, ValidBatch, Partition, CycleLines;
  }

  lemma {:induction false} RunKeepsInv(onCard: seq<string>, steps: seq<Step>)
    requires AllRecords(onCard) && RecordSteps(steps)
    ensures Inv(Run(Boot(onCard), steps))
  {
    hide Record, Next, Inv;
    if steps == [] {
      assert Inv(Boot(onCard)) by { BootSatisfiesInv(onCard); }
    } else {
      var n := |steps| - 1;
      RunKeepsInv(onCard, steps[..n]);
      var s := Run(Boot(onCard), steps[..n]);
      match steps[n]
      case Append(line, opens) => AppendKeepsInv(s, line, opens);
      case Read => ReadKeepsInv(s);
      case Send(ok) => SendKeepsInv(s, ok);
      case Clear(opens) => ClearKeepsInv(s, opens);
      case _ => OtherStepsKeepInv(s, steps[n]);
    }
  }

  lemma BootSatisfiesInv(onCard: seq<string>)
    requires AllRecords(onCard)
    ensures Inv(Boot(onCard))
  {
  }

  // ---------------------------------------------------------------- what every interleaving guarantees

  /** Every batch ever published is a run of consecutive appended records, and different completed
      cycles published disjoint runs, in order: no record is in two successful batches. */
  lemma NoRecordIsSentTwice(onCard: seq<string>, steps: seq<Step>, j: nat, k: nat)
    requires AllRecords(onCard) && RecordSteps(steps)
    requires var s := Run(Boot(onCard), steps); !s.clearFailed && j < k < |s.sent|
    ensures var s := Run(Boot(onCard), steps);
            && |s.cycles| <= |s.sent| <= |s.cycles| + 1
            && (k < |s.cycles| ==> s.cycles[j].batch.hi <= s.cycles[k].batch.lo)
            && (k == |s.cycles| ==> s.phase.Published? && s.cycles[j].batch.hi <= s.phase.batch.lo)
            && s.cycles[j].batch.lo <= s.cycles[j].batch.hi <= |s.appended|
            && s.sent[j] == s.appended[s.cycles[j].batch.lo..s.cycles[j].batch.hi]
  {
    RunKeepsInv(onCard, steps);
    var s := Run(Boot(onCard), steps);
    hide Run, Record, Join;
    assert ValidCycle(s.cycles[j], s.appended);
    if k < |s.cycles| {
      CyclesAreOrdered(s.cycles, s.appended, s.start, j, k);
    } else {
      CyclesAreOrdered(s.cycles, s.appended, s.start, j, |s.cycles|);
    }
  }

  /** A cycle ends before every later one begins, and before the start of the current file. */
  lemma {:induction false} CyclesAreOrdered(cycles: seq<Cycle>, appended: seq<string>, start: nat, j: nat, k: nat)
    requires Partition(cycles, start) && j < k <= |cycles|
    requires forall i :: 0 <= i < |cycles| ==> ValidCycle(cycles[i], appended)
    ensures cycles[j].batch.hi <= cycles[j].end <= if k < |cycles| then cycles[k].batch.lo else start
    decreases k - j
  {
    hide Join;
    assert ValidCycle(cycles[j], appended);
    if j + 1 < k {
      CyclesAreOrdered(cycles, appended, start, j + 1, k);
      assert ValidCycle(cycles[j + 1], appended);
    }
  }

  /** A record that is no longer in the file went with one cycle, and was published by it exactly if it was
      appended before the cycle's read and ended within the bytes read. */
  lemma {:induction false} MissingRecordsAreExplained(cycles: seq<Cycle>, appended: seq<string>, start: nat, i: nat)
      returns (k: nat)
    requires Partition(cycles, start) && i < start
    requires forall c :: 0 <= c < |cycles| ==> ValidCycle(cycles[c], appended)
    ensures k < |cycles| && cycles[k].batch.lo <= i < cycles[k].end
    ensures i < cycles[k].batch.hi <==> i < cycles[k].batch.readAt && WithinRead(appended, cycles[k].batch.lo, i)
  {
    hide Join;
    k := |cycles| - 1;
    while cycles[k].batch.lo > i
      invariant k < |cycles| && i < cycles[k].end
    {
      k := k - 1;
    }
    assert ValidCycle(cycles[k], appended);
  }

  lemma RunExplainsMissing(onCard: seq<string>, steps: seq<Step>, i: nat) returns (k: nat)
    requires AllRecords(onCard) && RecordSteps(steps)
    requires i < Run(Boot(onCard), steps).start
    ensures var s := Run(Boot(onCard), steps);
            && k < |s.cycles| && s.cycles[k].batch.lo <= i < s.cycles[k].end
            && (i < s.cycles[k].batch.hi
                <==> i < s.cycles[k].batch.readAt && WithinRead(s.appended, s.cycles[k].batch.lo, i))
  {
    RunKeepsInv(onCard, steps);
    var s := Run(Boot(onCard), steps);
    hide Run, Record, Join;
    k := MissingRecordsAreExplained(s.cycles, s.appended, s.start, i);
  }

  function Concat(batches: seq<seq<string>>): seq<string> {
    if batches == [] then [] else Concat(batches[..|batches| - 1]) + batches[|batches| - 1]
  }

  // ---------------------------------------------------------------- conservation

  /** A cycle that published all it cleared, judged by what happened: nothing was appended between its read
      and its clear, and everything fitted into the read. */
  ghost predicate Clean(c: Cycle, appended: seq<string>) {
    c.batch.readAt == c.end && forall i :: c.batch.lo <= i < c.end ==> WithinRead(appended, c.batch.lo, i)
  }

  lemma CleanMeansWhole(c: Cycle, appended: seq<string>)
    requires ValidCycle(c, appended)
    ensures Clean(c, appended) <==> c.batch.hi == c.end
    ensures |c.batch.lines| == c.batch.hi - c.batch.lo <= c.end - c.batch.lo
  {
    hide WithinRead;
    if Clean(c, appended) {
      assert WithinRead(appended, c.batch.lo, c.end - 1);
    }
  }

  /** The batches cover what was cleared exactly if every cycle was clean, and otherwise they are shorter. */
  lemma {:induction false} BatchesCoverPrefix(cycles: seq<Cycle>, appended: seq<string>, start: nat)
    requires start <= |appended| && Partition(cycles, start)
    requires forall c :: 0 <= c < |cycles| ==> ValidCycle(cycles[c], appended)
    ensures |Concat(CycleLines(cycles))| <= start
    ensures |Concat(CycleLines(cycles))| == start <==> forall c :: 0 <= c < |cycles| ==> Clean(cycles[c], appended)
    ensures |Concat(CycleLines(cycles))| == start ==> Concat(CycleLines(cycles)) == appended[..start]
  {
    if cycles != [] {
      var n := |cycles| - 1;
      var c := cycles[n];
      assert ValidCycle(c, appended);
      BatchesCoverPrefix(cycles[..n], appended, c.batch.lo);
      assert CycleLines(cycles)[..n] == CycleLines(cycles[..n]);
      assert Concat(CycleLines(cycles)) == Concat(CycleLines(cycles[..n])) + c.batch.lines;
      CleanMeansWhole(c, appended);
      CoverOneMore(Concat(CycleLines(cycles[..n])), appended, c.batch.lo, c.batch.hi, c.end);
      hide Concat, WithinRead, Join, ValidCycle, Partition, CycleLines, Clean;
      AllButLast(cycles, appended);
    }
  }

  lemma AllButLast(cycles: seq<Cycle>, appended: seq<string>)
    requires cycles != []
    ensures var n := |cycles| - 1;
            (forall c :: 0 <= c < |cycles| ==> Clean(cycles[c], appended)) <==>
              (forall c :: 0 <= c < n ==> Clean(cycles[..n][c], appended)) && Clean(cycles[n], appended)
  {
    hide Clean;
    var n := |cycles| - 1;
    assert forall c :: 0 <= c < n ==> cycles[..n][c] == cycles[c];
  }

  lemma CoverOneMore(before: seq<string>, appended: seq<string>, lo: nat, hi: nat, end: nat)
    requires lo <= hi <= end <= |appended| && |before| <= lo && (|before| == lo ==> before == appended[..lo])
    ensures var all := before + appended[lo..hi];
            |all| <= end && (|all| == end <==> |before| == lo && hi == end) && (|all| == end ==> all == appended[..end])
  {
  }

  /** Between cycles, and as long as no truncation has failed: concat(batches) ++ file is everything appended
      if and only if every cycle was clean. */
  lemma PipelineConserves(onCard: seq<string>, steps: seq<Step>)
    requires AllRecords(onCard) && RecordSteps(steps)
    requires var s := Run(Boot(onCard), steps); !s.clearFailed && !s.phase.Published?
    ensures var s := Run(Boot(onCard), steps);
            && s.start <= |s.appended|
            && (Concat(s.sent) + s.appended[s.start..] == s.appended
                <==> forall k :: 0 <= k < |s.cycles| ==> Clean(s.cycles[k], s.appended))
  {
    RunKeepsInv(onCard, steps);
    var s := Run(Boot(onCard), steps);
    hide Run, Record, Join, Concat, WithinRead, CycleLines, Clean;
    assert s.sent == CycleLines(s.cycles) + [] == CycleLines(s.cycles);
    BatchesCoverPrefix(s.cycles, s.appended, s.start);
    assert s.appended[..s.start] + s.appended[s.start..] == s.appended;
    assert |Concat(s.sent) + s.appended[s.start..]| == |Concat(s.sent)| + |s.appended| - s.start;
  }

  // ---------------------------------------------------------------- records sent twice

  /** Step `j` of the run publishes a batch. */
  predicate Publishes(onCard: seq<string>, steps: seq<Step>, j: nat) {
    j < |steps| && steps[j] == Send(true) && Run(Boot(onCard), steps[..j]).phase.Holding?
  }

  function BatchOf(onCard: seq<string>, steps: seq<Step>, j: nat): Batch
    requires Publishes(onCard, steps, j)
  {
    Run(Boot(onCard), steps[..j]).phase.batch
  }

  /** Step `c` of the run empties the file after a publish. */
  predicate Clears(onCard: seq<string>, steps: seq<Step>, c: nat) {
    c < |steps| && steps[c] == Clear(true) && Run(Boot(onCard), steps[..c]).phase.Published?
  }

  predicate NoClear(onCard: seq<string>, steps: seq<Step>, i: nat, k: nat) {
    forall c :: i <= c < k ==> !Clears(onCard, steps, c)
  }

  predicate Carries(b: Batch, i: int) {
    b.lo <= i < b.hi
  }

  ghost predicate Overlap(a: Batch, b: Batch) {
    exists i: nat :: Carries(a, i) && Carries(b, i)
  }

  lemma RunPrefix(s: State, steps: seq<Step>, k: nat)
    requires k < |steps|
    ensures Run(s, steps[..k + 1]) == Next(Run(s, steps[..k]), steps[k])
  {
    hide Next;
    assert steps[..k + 1][..k] == steps[..k];
  }

  lemma RecordStepsPrefix(steps: seq<Step>, k: nat)
    requires RecordSteps(steps) && k <= |steps|
    ensures RecordSteps(steps[..k])
  {
    hide Record;
  }

  lemma NextMovesStart(s: State, step: Step)
    requires Inv(s)
    ensures var t := Next(s, step);
            s.appended <= t.appended
            && t.start == if step == Clear(true) && s.phase.Published? then |s.appended| else s.start
  {
    hide Record, ReadLines, ValidBatch, Partition, WithinRead;
  }

  lemma NoClearByOne(onCard: seq<string>, steps: seq<Step>, i: nat, k: nat)
    requires i < k
    ensures NoClear(onCard, steps, i, k) <==> NoClear(onCard, steps, i, k - 1) && !Clears(onCard, steps, k - 1)
  {
    hide Clears;
  }

  /** The start of the file moves only with a clear, and then past everything appended so far. */
  lemma {:induction false} StartMovesWithClears(onCard: seq<string>, steps: seq<Step>, i: nat, k: nat)
    requires AllRecords(onCard) && RecordSteps(steps) && i <= k <= |steps|
    ensures var s, t := Run(Boot(onCard), steps[..i]), Run(Boot(onCard), steps[..k]);
            && s.appended <= t.appended && t.start <= |t.appended|
            && (NoClear(onCard, steps, i, k) ==> t.start == s.start)
            && (!NoClear(onCard, steps, i, k) ==> t.start >= |s.appended|)
    decreases k
  {
    RecordStepsPrefix(steps, k);
    RunKeepsInv(onCard, steps[..k]);
    if i < k {
      RecordStepsPrefix(steps, k - 1);
      RunKeepsInv(onCard, steps[..k - 1]);
      RunPrefix(Boot(onCard), steps, k - 1);
      StartMovesWithClears(onCard, steps, i, k - 1);
      var u := Run(Boot(onCard), steps[..k - 1]);
      NextMovesStart(u, steps[k - 1]);
      assert u.start <= |u.appended|;
      NoClearByOne(onCard, steps, i, k);
      assert Clears(onCard, steps, k - 1) <==> steps[k - 1] == Clear(true) && u.phase.Published?;
      hide Run, Next, Record, Inv, NoClear, Clears, RecordSteps, AllRecords;
    }
  }

  /** A publish has a non-empty run of consecutive records in hand, from the start of the file on. */
  lemma BatchIsFileHead(onCard: seq<string>, steps: seq<Step>, j: nat)
    requires AllRecords(onCard) && RecordSteps(steps) && Publishes(onCard, steps, j)
    ensures var s, b := Run(Boot(onCard), steps[..j]), BatchOf(onCard, steps, j);
            b.lo == s.start && b.lo < b.hi <= |s.appended| && b.lines == s.appended[b.lo..b.hi]
  {
    RecordStepsPrefix(steps, j);
    RunKeepsInv(onCard, steps[..j]);
    hide Run, Record, WithinRead;
  }

  /** A record is in two batches exactly if no clear succeeded between their publishes; then both batches
      begin with the same record, and otherwise the second begins behind the first. */
  lemma SentTwiceIffNotCleared(onCard: seq<string>, steps: seq<Step>, j: nat, k: nat)
    requires AllRecords(onCard) && RecordSteps(steps) && j < k
    requires Publishes(onCard, steps, j) && Publishes(onCard, steps, k)
    ensures var a, b := BatchOf(onCard, steps, j), BatchOf(onCard, steps, k);
            && (Overlap(a, b) <==> NoClear(onCard, steps, j, k))
            && (Overlap(a, b) ==> a.lo == b.lo && a.lines != [] && b.lines != [] && a.lines[0] == b.lines[0])
            && (!Overlap(a, b) ==> a.hi <= b.lo)
  {
    var a, b := BatchOf(onCard, steps, j), BatchOf(onCard, steps, k);
    BatchIsFileHead(onCard, steps, j);
    BatchIsFileHead(onCard, steps, k);
    StartMovesWithClears(onCard, steps, j, k);
    hide Run, NoClear, BatchOf, Publishes, Record;
    if a.lo == b.lo {
      assert Carries(a, a.lo) && Carries(b, a.lo);
    }
  }
}

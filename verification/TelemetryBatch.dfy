/**
 The two loops that read the telemetry file back line by line: building a batch with recomputed
 losses (components/telemetry/telemetry_engine.c) and summing the stored losses at handover
 (components/stage/stage_machine.c). What cJSON finds in a line is given by functions on lines.
 */
module TelemetryBatch {
  import opened Lines
  import opened CargoLoss

  /** A line for the batch: not JSON, JSON without a telemetry object, or a humidity (0 if missing). */
  datatype Item = Invalid | Bare | Reading(humidity: real)

  /** An element of the published array: the line it came from, with the loss written into it. */
  datatype Entry = Unchanged(line: string) | WithLoss(line: string, loss: real)

  function Humidities(lines: seq<string>, parse: string -> Item): seq<real> {
    if lines == [] then []
    else
      var item := parse(lines[|lines| - 1]);
      Humidities(lines[..|lines| - 1], parse) + if item.Reading? then [item.humidity] else []
  }

  /** One entry per valid line, in order; a reading gets the loss the recurrence assigns to it. */
  function Entries(lines: seq<string>, parse: string -> Item, threshold: real, weight: real): seq<Entry> {
    if lines == [] then []
    else
      var init, last := lines[..|lines| - 1], lines[|lines| - 1];
      var before := Remaining(weight, Humidities(init, parse), threshold, weight);
      Entries(init, parse, threshold, weight) +
      match parse(last) {
        case Invalid => []
        case Bare => [Unchanged(last)]
        case Reading(h) => [WithLoss(last, CalcLoss(before, h, threshold, weight))]
      }
  }

  function WrittenLosses(entries: seq<Entry>): seq<real> {
    if entries == [] then []
    else
      var e := entries[|entries| - 1];
      WrittenLosses(entries[..|entries| - 1]) + if e.WithLoss? then [e.loss] else []
  }

  function Sum(xs: seq<real>): real {
    if xs == [] then 0.0 else Sum(xs[..|xs| - 1]) + xs[|xs| - 1]
  }

  ghost predicate Batched(done: seq<string>, parse: string -> Item, threshold: real, weight: real,
                          entries: seq<Entry>, quantity: real) {
    && entries == Entries(done, parse, threshold, weight)
    && quantity == Remaining(weight, Humidities(done, parse), threshold, weight)
  }

  lemma NothingBatched(parse: string -> Item, threshold: real, weight: real)
    ensures Batched([], parse, threshold, weight, [], weight)
  {
  }

  method BatchLine(text: string, parse: string -> Item, threshold: real, weight: real,
                   entries: seq<Entry>, quantity: real, ghost done: seq<string>)
      returns (entries': seq<Entry>, quantity': real)
    requires Batched(done, parse, threshold, weight, entries, quantity)
    ensures Batched(done + NonEmpty(text), parse, threshold, weight, entries', quantity')
  {
    hide CalcLoss, Carry;
    entries', quantity' := entries, quantity;
    if |text| > 0 {
      assert (done + [text])[..|done|] == done;
      match parse(text) {
        case Invalid =>
          assert Humidities(done + [text], parse) == Humidities(done, parse);
        case Bare =>
          assert Humidities(done + [text], parse) == Humidities(done, parse);
          entries' := entries + [Unchanged(text)];
        case Reading(humidity) =>
          ghost var hs := Humidities(done, parse) + [humidity];
          assert hs[..|hs| - 1] == Humidities(done, parse);
          var loss := CalcLoss(quantity, humidity, threshold, weight);
          entries' := entries + [WithLoss(text, loss)];
          quantity' := Carry(quantity, loss);
      }
    } else {
      assert done + NonEmpty(text) == done;
    }
  }

  /** The parsing loop of task_telemetry_send over the bytes read from the card. */
  method BuildBatch(raw: string, parse: string -> Item, threshold: real, weight: real) returns (entries: seq<Entry>)
    ensures entries == Entries(Split(CString(raw)), parse, threshold, weight)
  {
    hide *;
    ghost var lines := Split(CString(raw));
    var buffer := LoadBuffer(raw);
    var line, quantity := 0, weight;
    entries := [];
    NothingBatched(parse, threshold, weight);
    ghost var done: seq<string> := [];
    var at := NextNewline(buffer, line, lines, done);
    while at >= 0
      invariant AtWork(buffer, line, lines, done) && AtLine(buffer, line, at)
      invariant Batched(done, parse, threshold, weight, entries, quantity)
      invariant line < buffer.Length && at < buffer.Length && (at >= 0 ==> line <= at)
      decreases buffer.Length - line
    {
      var text := TakeLine(buffer, line, at, lines, done);
      entries, quantity := BatchLine(text, parse, threshold, weight, entries, quantity, done);
      done := done + NonEmpty(text);
      line := at + 1;
      at := NextNewline(buffer, line, lines, done);
    }
    var last := TakeLastLine(buffer, line, at, lines, done);
    entries, quantity := BatchLine(last, parse, threshold, weight, entries, quantity, done);
    assert entries == Entries(lines, parse, threshold, weight) by {
      BatchedMeansEntries(lines, parse, threshold, weight, entries, quantity);
    }
  }

  lemma BatchedMeansEntries(lines: seq<string>, parse: string -> Item, threshold: real, weight: real,
                            entries: seq<Entry>, quantity: real)
    requires Batched(lines, parse, threshold, weight, entries, quantity)
    ensures entries == Entries(lines, parse, threshold, weight)
  {
  }

  /** The losses written into a batch sum up to the total loss of the recurrence. */
  lemma {:induction false} BatchTotals(lines: seq<string>, parse: string -> Item, threshold: real, weight: real)
    ensures Sum(WrittenLosses(Entries(lines, parse, threshold, weight)))
            == TotalLoss(weight, Humidities(lines, parse), threshold, weight)
  {
    hide CalcLoss, Remaining, Sum, WrittenLosses;
    if lines == [] {
      assert Sum(WrittenLosses([])) == 0.0 by { NoLosses(); }
    } else {
      var init, last := lines[..|lines| - 1], lines[|lines| - 1];
      BatchTotals(init, parse, threshold, weight);
      BatchTotalsStep(init, last, parse, threshold, weight);
      assert init + [last] == lines;
    }
  }

  lemma NoLosses()
    ensures Sum(WrittenLosses([])) == 0.0
  {
  }

  lemma BatchTotalsStep(init: seq<string>, last: string, parse: string -> Item, threshold: real, weight: real)
    requires Sum(WrittenLosses(Entries(init, parse, threshold, weight)))
             == TotalLoss(weight, Humidities(init, parse), threshold, weight)
    ensures Sum(WrittenLosses(Entries(init + [last], parse, threshold, weight)))
            == TotalLoss(weight, Humidities(init + [last], parse), threshold, weight)
  {
    hide CalcLoss, Remaining, Sum, WrittenLosses;
    assert (init + [last])[..|init|] == init;
    var entries, hs := Entries(init, parse, threshold, weight), Humidities(init, parse);
    match parse(last)
    case Invalid =>
      assert entries + [] == entries && hs + [] == hs;
    case Bare =>
      assert hs + [] == hs;
      LossesAppend(entries, Unchanged(last));
    case Reading(h) =>
      LossesAppend(entries, WithLoss(last, CalcLoss(Remaining(weight, hs, threshold, weight), h, threshold, weight)));
      assert (hs + [h])[..|hs|] == hs;
  }

  lemma LossesAppend(entries: seq<Entry>, e: Entry)
    ensures Sum(WrittenLosses(entries + [e])) == Sum(WrittenLosses(entries)) + if e.WithLoss? then e.loss else 0.0
  {
    assert (entries + [e])[..|entries|] == entries;
    var losses := WrittenLosses(entries);
    if e.WithLoss? {
      assert (losses + [e.loss])[..|losses|] == losses;
    } else {
      assert losses + [] == losses;
    }
  }

  /** A published batch accounts for the whole cargo: the losses it reports and the remaining quantity
      add up to the weight exactly when no record is overdrawn. */
  lemma BatchBalance(lines: seq<string>, parse: string -> Item, threshold: real, weight: real)
    requires weight >= 0.0
    ensures var hs := Humidities(lines, parse);
            var losses := Sum(WrittenLosses(Entries(lines, parse, threshold, weight)));
            losses + Remaining(weight, hs, threshold, weight) == weight <==> !Overdrawn(hs, threshold, weight)
  {
    hide *;
    BatchTotals(lines, parse, threshold, weight);
    LossBalance(weight, Humidities(lines, parse), threshold, weight);
    if weight == 0.0 {
      WeightlessIsNotOverdrawn(Humidities(lines, parse), threshold);
    }
  }

  // ---------------------------------------------------------------- handover total

  datatype Stored = NoLoss | Loss(kg: real)

  function StoredLosses(lines: seq<string>, stored: string -> Stored): seq<real> {
    if lines == [] then []
    else
      var s := stored(lines[|lines| - 1]);
      StoredLosses(lines[..|lines| - 1], stored) + if s.Loss? then [s.kg] else []
  }

  ghost predicate Summed(done: seq<string>, stored: string -> Stored, total: real) {
    total == Sum(StoredLosses(done, stored))
  }

  lemma NothingSummed(stored: string -> Stored)
    ensures Summed([], stored, 0.0)
  {
  }

  method AddLine(text: string, stored: string -> Stored, total: real, ghost done: seq<string>) returns (total': real)
    requires Summed(done, stored, total)
    ensures Summed(done + NonEmpty(text), stored, total')
  {
    total' := total;
    if |text| > 0 {
      assert (done + [text])[..|done|] == done;
      ghost var losses := StoredLosses(done, stored);
      match stored(text) {
        case NoLoss =>
          assert losses + [] == losses;
        case Loss(kg) =>
          assert (losses + [kg])[..|losses|] == losses;
          total' := total + kg;
      }
    } else {
      assert done + NonEmpty(text) == done;
    }
  }

  /** The summing loop of run_stage3. */
  method SumStoredLosses(raw: string, stored: string -> Stored) returns (total: real)
    ensures total == Sum(StoredLosses(Split(CString(raw)), stored))
    ensures total == AddUp(Split(CString(raw)), stored, 0)
  {
    hide *;
    ghost var lines := Split(CString(raw));
    var buffer := LoadBuffer(raw);
    var line := 0;
    total := 0.0;
    NothingSummed(stored);
    ghost var done: seq<string> := [];
    var at := NextNewline(buffer, line, lines, done);
    while at >= 0
      invariant AtWork(buffer, line, lines, done) && AtLine(buffer, line, at)
      invariant Summed(done, stored, total)
      invariant line < buffer.Length && at < buffer.Length && (at >= 0 ==> line <= at)
      decreases buffer.Length - line
    {
      var text := TakeLine(buffer, line, at, lines, done);
      total := AddLine(text, stored, total, done);
      done := done + NonEmpty(text);
      line := at + 1;
      at := NextNewline(buffer, line, lines, done);
    }
    var last := TakeLastLine(buffer, line, at, lines, done);
    total := AddLine(last, stored, total, done);
    assert total == Sum(StoredLosses(lines, stored)) by { SummedMeansSum(lines, stored, total); }
    assert lines[0..] == lines;
    TotalAddsUp(lines, stored, 0);
  }

  lemma SummedMeansSum(lines: seq<string>, stored: string -> Stored, total: real)
    requires Summed(lines, stored, total)
    ensures total == Sum(StoredLosses(lines, stored))
  {
  }

  /** For a file of appended records that is read as a whole, the handover total is the sum of the losses
      stored in exactly those records. */
  lemma HandoverTotal(records: seq<string>, stored: string -> Stored)
    requires AllStorable(records)
    ensures Sum(StoredLosses(Split(CString(Join(records))), stored)) == Sum(StoredLosses(records, stored))
    ensures AddUp(Split(CString(Join(records))), stored, 0) == AddUp(records, stored, 0)
  {
    JoinHasNoNul(records);
    CStringOfClean(Join(records), "");
    SplitInvertsJoin(records);
  }

  // ---------------------------------------------------------------- what the total is

  /** The loss stored in a line, zero where there is none. */
  function Kg(l: string, stored: string -> Stored): real {
    if stored(l).Loss? then stored(l).kg else 0.0
  }

  /** The losses of all lines added up position by position, from the first on. */
  function AddUp(lines: seq<string>, stored: string -> Stored, from: nat): real
    requires from <= |lines|
    decreases |lines| - from
  {
    if from == |lines| then 0.0 else Kg(lines[from], stored) + AddUp(lines, stored, from + 1)
  }

  /** The total of one line is what is stored in it. */
  lemma TotalOfOne(l: string, stored: string -> Stored)
    ensures Sum(StoredLosses([l], stored)) == Kg(l, stored)
    ensures Sum(StoredLosses([], stored)) == 0.0
  {
    assert [l][..0] == [];
    assert StoredLosses([l][..0], stored) == [];
    assert StoredLosses([l], stored) == if stored(l).Loss? then [stored(l).kg] else [];
    if stored(l).Loss? {
      assert [stored(l).kg][..0] == [];
    }
  }

  lemma TotalGrows(lines: seq<string>, l: string, stored: string -> Stored)
    ensures Sum(StoredLosses(lines + [l], stored)) == Sum(StoredLosses(lines, stored)) + Kg(l, stored)
  {
    assert (lines + [l])[..|lines|] == lines;
    var losses := StoredLosses(lines, stored);
    if stored(l).Loss? {
      assert (losses + [stored(l).kg])[..|losses|] == losses;
    } else {
      assert losses + [] == losses;
    }
  }

  /** The total over one list of lines after another is the sum of their totals. */
  lemma {:induction false} TotalIsAdditive(a: seq<string>, b: seq<string>, stored: string -> Stored)
    ensures Sum(StoredLosses(a + b, stored)) == Sum(StoredLosses(a, stored)) + Sum(StoredLosses(b, stored))
    decreases |b|
  {
    hide Sum, StoredLosses, Kg;
    if b == [] {
      assert a + b == a;
      TotalOfOne("", stored);
    } else {
      var init, last := b[..|b| - 1], b[|b| - 1];
      TotalIsAdditive(a, init, stored);
      TotalGrows(a + init, last, stored);
      TotalGrows(init, last, stored);
      assert a + b == a + init + [last] && b == init + [last];
    }
  }

  /** The total is the sum over all positions. */
  lemma {:induction false} TotalAddsUp(lines: seq<string>, stored: string -> Stored, from: nat)
    requires from <= |lines|
    ensures Sum(StoredLosses(lines[from..], stored)) == AddUp(lines, stored, from)
    decreases |lines| - from
  {
    hide Sum, StoredLosses, Kg;
    if from == |lines| {
      TotalOfOne("", stored);
    } else {
      TotalAddsUp(lines, stored, from + 1);
      assert lines[from..] == [lines[from]] + lines[from + 1..];
      TotalIsAdditive([lines[from]], lines[from + 1..], stored);
      TotalOfOne(lines[from], stored);
    }
  }

  /** Entry by entry: an unparsed line has none; what a humidity costs depends on all before it, and nothing else. */
  lemma EntryOfLine(init: seq<string>, last: string, parse: string -> Item, threshold: real, weight: real)
    ensures Entries(init + [last], parse, threshold, weight) == Entries(init, parse, threshold, weight) +
            if parse(last).Invalid? then []
            else if parse(last).Bare? then [Unchanged(last)]
            else [WithLoss(last, CalcLoss(Remaining(weight, Humidities(init, parse), threshold, weight),
                                          parse(last).humidity, threshold, weight))]
  {
    assert (init + [last])[..|init|] == init;
  }
}

/**
 The alert backlog kept in pending.jsonl over whole runs: alerts are appended first and flushed
 later, any number of times, with any outcome of every single publish.
 */
module AlertQueue {
  import opened Lines
  import opened SdCard

  datatype Op =
    | Raise(line: string, opens: bool)     // sd_alert_append
    | Flush(env: FlushEnv)                 // sd_alert_flush

  /** The files, and what became of every alert: `appended` and `published` in the order it happened,
      `dropped` the failed lines of flushes whose temporary file did not open. */
  datatype Queue = Queue(files: Files, appended: seq<string>, published: seq<string>, dropped: seq<string>)

  const FRESH := Queue(map[], [], [], [])

  /** A flush in which some publish fails while the temporary file is not open. */
  predicate Drops(files: Files, env: FlushEnv) {
    Flushes(files, env) && !env.tmpOpens && Kept(Pending(files), env) != []
  }

  function Apply(q: Queue, op: Op): Queue {
    match op
    case Raise(line, opens) =>
      if opens then q.(files := Append(q.files, Alerts, line), appended := q.appended + [line]) else q
    case Flush(env) =>
      q.(files := AfterFlush(q.files, env),
         published := q.published + FlushSent(q.files, env),
         dropped := q.dropped + if Drops(q.files, env) then Kept(Pending(q.files), env) else [])
  }

  function Run(q: Queue, ops: seq<Op>): Queue {
    if ops == [] then q else Apply(Run(q, ops[..|ops| - 1]), ops[|ops| - 1])
  }

  predicate StorableOps(ops: seq<Op>) {
    forall i :: 0 <= i < |ops| && ops[i].Raise? ==> Storable(ops[i].line)
  }

  // ---------------------------------------------------------------- order

  predicate Subsequence<T(==)>(a: seq<T>, b: seq<T>)
    decreases |b|
  {
    if a == [] then true
    else if b == [] then false
    else
      || (a[|a| - 1] == b[|b| - 1] && Subsequence(a[..|a| - 1], b[..|b| - 1]))
      || Subsequence(a, b[..|b| - 1])
  }

  lemma {:induction false} SubsequenceTransitive<T>(a: seq<T>, b: seq<T>, c: seq<T>)
    requires Subsequence(a, b) && Subsequence(b, c)
    ensures Subsequence(a, c)
    decreases |b| + |c|
  {
    if a != [] {
      if Subsequence(b, c[..|c| - 1]) {
        SubsequenceTransitive(a, b, c[..|c| - 1]);
      } else if Subsequence(a, b[..|b| - 1]) {
        SubsequenceTransitive(a, b[..|b| - 1], c[..|c| - 1]);
      } else {
        SubsequenceTransitive(a[..|a| - 1], b[..|b| - 1], c[..|c| - 1]);
      }
    }
  }

  lemma SubsequenceExtends<T>(a: seq<T>, b: seq<T>, x: T)
    requires Subsequence(a, b)
    ensures Subsequence(a, b + [x]) && Subsequence(a + [x], b + [x])
  {
    assert (b + [x])[..|b|] == b && (a + [x])[..|a|] == a;
  }

  lemma {:induction false} KeptIsSubsequence(lines: seq<string>, env: FlushEnv)
    ensures Subsequence(Kept(lines, env), lines)
  {
    if lines != [] {
      var n := |lines| - 1;
      KeptIsSubsequence(lines[..n], env);
      SubsequenceExtends(Kept(lines[..n], env), lines[..n], lines[n]);
      assert lines == lines[..n] + [lines[n]];
      assert Kept(lines[..n], env) + [] == Kept(lines[..n], env);
    }
  }

  // ---------------------------------------------------------------- one flush

  lemma {:induction false} SentAndKeptPartition(lines: seq<string>, env: FlushEnv)
    ensures multiset(lines) == multiset(Sent(lines, env)) + multiset(Kept(lines, env))
  {
    if lines != [] {
      var n := |lines| - 1;
      SentAndKeptPartition(lines[..n], env);
      assert lines == lines[..n] + [lines[n]];
    }
  }

  lemma {:induction false} KeptIsStorable(lines: seq<string>, env: FlushEnv)
    requires AllStorable(lines)
    ensures AllStorable(Kept(lines, env))
  {
    if lines != [] {
      KeptIsStorable(lines[..|lines| - 1], env);
    }
  }

  /** The file holds exactly the pending alerts, one storable line each, and no temporary file is left. */
  predicate WellFormed(files: Files) {
    && AlertsTmp !in files
    && AllStorable(Pending(files))
    && Contents(files, Alerts) == Join(Pending(files))
  }

  lemma PendingOfJoin(files: Files, lines: seq<string>)
    requires Contents(files, Alerts) == Join(lines) && AllStorable(lines)
    ensures Pending(files) == lines
  {
    JoinHasNoNul(lines);
    CStringOfClean(Join(lines), "");
    SplitInvertsJoin(lines);
  }

  lemma RaiseAppends(files: Files, line: string)
    requires WellFormed(files) && Storable(line)
    ensures WellFormed(Append(files, Alerts, line))
    ensures Pending(Append(files, Alerts, line)) == Pending(files) + [line]
  {
    var lines := Pending(files) + [line];
    assert lines[..|lines| - 1] == Pending(files);
    PendingOfJoin(Append(files, Alerts, line), lines);
  }

  lemma JoinIsEmptyIffNoLines(lines: seq<string>)
    ensures Join(lines) == "" <==> lines == []
  {
  }

  /** After a flush exactly the failed lines are pending, unless the flush drops them. */
  lemma FlushKeepsFailed(files: Files, env: FlushEnv)
    requires WellFormed(files)
    ensures WellFormed(AfterFlush(files, env))
    ensures Pending(AfterFlush(files, env)) ==
            if !Flushes(files, env) then Pending(files)
            else if Drops(files, env) then []
            else Kept(Pending(files), env)
  {
    if Flushes(files, env) {
      var kept := Kept(Pending(files), env);
      var after := AfterFlush(files, env);
      KeptIsStorable(Pending(files), env);
      JoinIsEmptyIffNoLines(kept);
      var remaining := if Drops(files, env) then [] else kept;
      FlushLeavesFile(files, env);
      PendingOfJoin(after, remaining);
    }
  }

  lemma FlushLeavesFile(files: Files, env: FlushEnv)
    requires AlertsTmp !in files && Flushes(files, env)
    ensures AlertsTmp !in AfterFlush(files, env)
    ensures Contents(AfterFlush(files, env), Alerts) ==
            if Drops(files, env) then "" else Join(Kept(Pending(files), env))
  {
    hide Kept, Pending, Join;
    var kept := Kept(Pending(files), env);
    assert kept == [] ==> Join(kept) == "" by { JoinIsEmptyIffNoLines(kept); }
  }

  /** A single flush loses nothing exactly when its temporary file opened or no publish failed. */
  lemma FlushLosesNothingIff(files: Files, env: FlushEnv)
    requires WellFormed(files)
    ensures multiset(Pending(files)) == multiset(FlushSent(files, env)) + multiset(Pending(AfterFlush(files, env)))
            <==> !Flushes(files, env) || env.tmpOpens || Kept(Pending(files), env) == []
  {
    hide Kept, Sent, Pending, WellFormed, AfterFlush;
    var kept := Kept(Pending(files), env);
    FlushKeepsFailed(files, env);
    SentAndKeptPartition(Pending(files), env);
    if Drops(files, env) {
      var sent := multiset(FlushSent(files, env));
      assert (sent + multiset(kept))[kept[0]] == sent[kept[0]] + multiset(kept)[kept[0]];
      assert kept[0] in multiset(kept);
      assert multiset(Pending(AfterFlush(files, env))) == multiset{};
    }
  }

  // ---------------------------------------------------------------- whole runs

  /** Every alert ever appended is accounted for exactly once. */
  predicate Conserved(q: Queue) {
    && WellFormed(q.files)
    && multiset(q.appended) == multiset(q.published) + multiset(Pending(q.files)) + multiset(q.dropped)
    && Subsequence(Pending(q.files), q.appended)
  }

  lemma RaiseConserves(q: Queue, line: string, opens: bool)
    requires Conserved(q) && Storable(line)
    ensures Conserved(Apply(q, Raise(line, opens)))
  {
    if opens {
      RaiseAppends(q.files, line);
      SubsequenceExtends(Pending(q.files), q.appended, line);
    }
  }

  lemma FlushConserves(q: Queue, env: FlushEnv)
    requires Conserved(q)
    ensures Conserved(Apply(q, Flush(env)))
  {
    hide Kept, Sent, Pending, Subsequence, WellFormed;
    var lines := Pending(q.files);
    FlushKeepsFailed(q.files, env);
    SentAndKeptPartition(lines, env);
    KeptIsSubsequence(lines, env);
    SubsequenceTransitive(Kept(lines, env), lines, q.appended);
    assert Subsequence([], q.appended) by { EmptyIsSubsequence(q.appended); }
  }

  lemma EmptyIsSubsequence<T>(b: seq<T>)
    ensures Subsequence([], b)
  {
  }

  /** Over any run, with any publish outcomes, appended = published + pending + dropped as multisets,
      and the pending alerts stand in append order. */
  lemma {:induction false} RunConserves(ops: seq<Op>)
    requires StorableOps(ops)
    ensures Conserved(Run(FRESH, ops))
  {
    if ops == [] {
      PendingOfJoin(map[], []);
    } else {
      var n := |ops| - 1;
      RunConserves(ops[..n]);
      match ops[n]
      case Raise(line, opens) => RaiseConserves(Run(FRESH, ops[..n]), line, opens);
      case Flush(env) => FlushConserves(Run(FRESH, ops[..n]), env);
    }
  }

  /** Nothing was dropped exactly when no flush of the run had a failing publish without a temporary file. */
  lemma {:induction false} NothingDroppedIff(ops: seq<Op>)
    ensures Run(FRESH, ops).dropped == [] <==>
            forall k :: 0 <= k < |ops| && ops[k].Flush? ==> !Drops(Run(FRESH, ops[..k]).files, ops[k].env)
  {
    if ops != [] {
      var n := |ops| - 1;
      NothingDroppedIff(ops[..n]);
      assert forall k :: 0 <= k < n ==> ops[..n][k] == ops[k] && ops[..n][..k] == ops[..k];
    }
  }

  /** With working temporary files: appended = published + pending, so no alert is published more
      often than it was appended, and the backlog keeps append order. */
  lemma AlertsAreConserved(ops: seq<Op>)
    requires StorableOps(ops)
    requires forall k :: 0 <= k < |ops| && ops[k].Flush? ==> ops[k].env.tmpOpens
    ensures var q := Run(FRESH, ops);
            && multiset(q.appended) == multiset(q.published) + multiset(Pending(q.files))
            && multiset(q.published) <= multiset(q.appended)
            && Subsequence(Pending(q.files), q.appended)
  {
    RunConserves(ops);
    NothingDroppedIff(ops);
    var q := Run(FRESH, ops);
    assert multiset(q.dropped) == multiset{};
  }

  lemma {:induction false} AllSent(lines: seq<string>, env: FlushEnv)
    requires forall k :: 0 <= k < |lines| ==> env.Publishes(k)
    ensures Sent(lines, env) == lines && Kept(lines, env) == []
  {
    if lines != [] {
      AllSent(lines[..|lines| - 1], env);
    }
  }

  /** A flush in which every publish succeeds sends the whole backlog in append order and empties it. */
  lemma SuccessfulFlushDrains(ops: seq<Op>, env: FlushEnv)
    requires StorableOps(ops) && env.memory
    requires forall k :: 0 <= k < |Pending(Run(FRESH, ops).files)| ==> env.Publishes(k)
    ensures var q := Run(FRESH, ops);
            var q' := Run(FRESH, ops + [Flush(env)]);
            q'.published == q.published + Pending(q.files) && Pending(q'.files) == []
  {
    assert (ops + [Flush(env)])[..|ops|] == ops;
    RunConserves(ops);
    var q := Run(FRESH, ops);
    FlushKeepsFailed(q.files, env);
    AllSent(Pending(q.files), env);
    JoinIsEmptyIffNoLines(Pending(q.files));
  }
}

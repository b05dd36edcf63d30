/**
 The alert backlog over whole runs in which flushes are also cut short by power cuts, after any of their
 steps: what is published again, and what is lost.
 */
module AlertCuts {
  import opened Lines
  import opened SdCard
  import opened AlertQueue
  import FlushSteps

  /** An append, a whole flush, or a flush cut after `n` of its steps. */
  datatype CutOp = Whole(op: Op) | Cut(env: FlushEnv, n: nat)

  /** `again`: lines published by a flush that was cut while they were still in the file. `lost`: failed lines of
      a flush that was cut between remove and rename. */
  datatype Ledger = Ledger(files: Files, appended: seq<string>, published: seq<string>, again: seq<string>,
                           lost: seq<string>)

  const FRESH_LEDGER := Ledger(map[], [], [], [], [])

  predicate BeforeRemove(phase: FlushSteps.Phase) {
    phase.Publish? || phase.Write? || phase.Close? || phase.Remove?
  }

  /** What a flush cut after `n` steps has published. */
  function SentBefore(files: Files, env: FlushEnv, n: nat): seq<string> {
    var s := FlushSteps.CutAfter(files, env, n);
    if s.next <= |Pending(files)| then Sent(Pending(files)[..s.next], env) else []
  }

  function Repeated(files: Files, env: FlushEnv, n: nat): seq<string> {
    if Flushes(files, env) && BeforeRemove(FlushSteps.CutAfter(files, env, n).phase) then SentBefore(files, env, n)
    else []
  }

  function Stranded(files: Files, env: FlushEnv, n: nat): seq<string> {
    if Flushes(files, env) && FlushSteps.CutAfter(files, env, n).phase.Replace? then Kept(Pending(files), env) else []
  }

  function ApplyCut(q: Ledger, op: CutOp): Ledger {
    match op
    case Whole(Raise(line, opens)) =>
      if opens then q.(files := Append(q.files, Alerts, line), appended := q.appended + [line]) else q
    case Whole(Flush(env)) => q.(files := AfterFlush(q.files, env), published := q.published + FlushSent(q.files, env))
    case Cut(env, n) =>
      if !Flushes(q.files, env) then q
      else
        q.(files := FlushSteps.CutAfter(q.files, env, n).files,
           published := q.published + SentBefore(q.files, env, n),
           again := q.again + Repeated(q.files, env, n),
           lost := q.lost + Stranded(q.files, env, n))
  }

  function RunCuts(ops: seq<CutOp>): Ledger {
    if ops == [] then FRESH_LEDGER else ApplyCut(RunCuts(ops[..|ops| - 1]), ops[|ops| - 1])
  }

  /** Storable lines are raised, and the temporary file of every whole flush opens. */
  predicate Regular(op: CutOp) {
    match op
    case Whole(Raise(line, _)) => Storable(line)
    case Whole(Flush(env)) => env.tmpOpens
    case Cut(_, _) => true
  }

  /** Every alert is accounted for, those published by a cut flush once more. */
  predicate Balanced(q: Ledger) {
    && Contents(q.files, Alerts) == Join(Pending(q.files))
    && multiset(q.appended) + multiset(q.again)
       == multiset(q.published) + multiset(Pending(q.files)) + multiset(q.lost)
  }

  /** The sum on both sides grows by the same lines. */
  lemma LedgerSum(a: multiset<string>, g: multiset<string>, p: multiset<string>, w: multiset<string>,
                  l: multiset<string>, sent: multiset<string>, again: multiset<string>, w': multiset<string>,
                  lost: multiset<string>)
    requires a + g == p + w + l && w' + sent + lost == w + again
    ensures a + (g + again) == (p + sent) + w' + (l + lost)
  {
    calc {
      a + (g + again);
      (a + g) + again;
      (p + l) + (w + again);
      (p + l) + (w' + sent + lost);
      (p + sent) + w' + (l + lost);
    }
  }

  lemma RaiseBalances(q: Ledger, line: string, opens: bool)
    requires Balanced(q) && Storable(line)
    ensures Balanced(ApplyCut(q, Whole(Raise(line, opens))))
  {
    if opens {
      RaiseAppendsLine(q.files, line);
      var q' := ApplyCut(q, Whole(Raise(line, opens)));
      hide Pending, Join, Append;
      MultisetOfSum(Pending(q.files), [line]);
      MultisetOfSum(q.appended, [line]);
      assert multiset(q'.appended) + multiset(q'.again) == multiset(q.appended) + multiset(q.again) + multiset([line]);
    }
  }

  lemma RaiseAppendsLine(files: Files, line: string)
    requires Contents(files, Alerts) == Join(Pending(files)) && Storable(line)
    ensures var after := Append(files, Alerts, line);
            Pending(after) == Pending(files) + [line] && Contents(after, Alerts) == Join(Pending(after))
  {
    var lines := Pending(files) + [line];
    FlushSteps.PendingIsStorable(files);
    assert lines[..|lines| - 1] == Pending(files);
    PendingOfJoin(Append(files, Alerts, line), lines);
  }

  /** A whole flush is one that is cut after its last step. */
  lemma WholeIsCutLate(files: Files, env: FlushEnv) returns (n: nat)
    requires Flushes(files, env) && env.tmpOpens
    ensures FlushSteps.CutAfter(files, env, n).phase.Done?
    ensures FlushSteps.CutAfter(files, env, n).files == AfterFlush(files, env)
    ensures SentBefore(files, env, n) == FlushSent(files, env)
  {
    n := |Pending(files)| + |Kept(Pending(files), env)| + 4;
    hide Pending, Kept, FlushSteps.CutAfter, Sent, AfterFlush, Flushes;
    FlushSteps.PhaseAtStep(files, env, n);
    FlushSteps.StepsRefineFlush(files, env, n);
    AllWasTried(files, env, n);
  }

  lemma AllWasTried(files: Files, env: FlushEnv, n: nat)
    requires var phase := FlushSteps.CutAfter(files, env, n).phase; phase.Replace? || phase.Done?
    ensures SentBefore(files, env, n) == Sent(Pending(files), env)
  {
    FlushSteps.CutIsConsistent(files, env, n);
    hide Pending, Kept, FlushSteps.CutAfter, Sent;
    assert Pending(files)[..|Pending(files)|] == Pending(files);
  }

  /** What a cut leaves in the file, in terms of the lines it had. */
  lemma CutLeaves(files: Files, env: FlushEnv, n: nat)
    requires Contents(files, Alerts) == Join(Pending(files))
    ensures var s := FlushSteps.CutAfter(files, env, n);
            && Contents(s.files, Alerts) == Join(Pending(s.files))
            && Pending(s.files) == (if s.phase.Replace? then []
                                    else if s.phase.Done? then Kept(Pending(files), env)
                                    else Pending(files))
            && s.next <= |Pending(files)| && (s.phase.Replace? || s.phase.Done? ==> s.next == |Pending(files)|)
  {
    var s := FlushSteps.CutAfter(files, env, n);
    FlushSteps.CutIsDurable(files, env, n);
    FlushSteps.CutIsConsistent(files, env, n);
    var lines := Pending(files);
    assert lines[..|lines|] == lines;
    hide FlushSteps.CutAfter, Kept;
    if s.phase.Replace? {
      NoFileIsEmpty(s.files);
    } else if s.phase.Done? {
      JoinIsEmptyIffNoLines(Kept(lines, env));
      hide Pending, Join;
    } else {
      FlushSteps.SameFileSamePending(s.files, files);
    }
  }

  lemma NoFileIsEmpty(files: Files)
    requires Alerts !in files
    ensures Pending(files) == [] && Contents(files, Alerts) == Join([])
  {
  }

  lemma CutBalances(q: Ledger, env: FlushEnv, n: nat)
    requires Balanced(q)
    ensures Balanced(ApplyCut(q, Cut(env, n)))
  {
    if Flushes(q.files, env) {
      CutLeaves(q.files, env, n);
      CutPartition(q.files, env, n);
      var q' := ApplyCut(q, Cut(env, n));
      var sent, again, lost := SentBefore(q.files, env, n), Repeated(q.files, env, n), Stranded(q.files, env, n);
      hide FlushSteps.CutAfter, Pending, Join, SentBefore, Repeated, Stranded, Flushes;
      MultisetOfSum(q.published, sent);
      MultisetOfSum(q.again, again);
      MultisetOfSum(q.lost, lost);
      LedgerSum(multiset(q.appended), multiset(q.again), multiset(q.published), multiset(Pending(q.files)),
                multiset(q.lost), multiset(sent), multiset(again), multiset(Pending(q'.files)), multiset(lost));
    }
  }

  /** Lines left, sent and lost are together the lines there were and those to be sent again. */
  predicate Splits(left: seq<string>, sent: seq<string>, lost: seq<string>, lines: seq<string>, again: seq<string>) {
    multiset(left) + multiset(sent) + multiset(lost) == multiset(lines) + multiset(again)
  }

  lemma CutPartition(files: Files, env: FlushEnv, n: nat)
    requires Contents(files, Alerts) == Join(Pending(files)) && Flushes(files, env)
    ensures Splits(Pending(FlushSteps.CutAfter(files, env, n).files), SentBefore(files, env, n),
                   Stranded(files, env, n), Pending(files), Repeated(files, env, n))
  {
    PhaseParts(files, env, n);
    hide *;
    WholePartition(Pending(files), env);
    NoPartition(Pending(files), SentBefore(files, env, n));
  }

  lemma PhaseParts(files: Files, env: FlushEnv, n: nat)
    requires Contents(files, Alerts) == Join(Pending(files)) && Flushes(files, env)
    ensures var left := Pending(FlushSteps.CutAfter(files, env, n).files);
            var sent, kept := Sent(Pending(files), env), Kept(Pending(files), env);
            var parts := (left, SentBefore(files, env, n), Stranded(files, env, n), Repeated(files, env, n));
            || parts == (kept, sent, [], [])
            || parts == ([], sent, kept, [])
            || parts == (Pending(files), SentBefore(files, env, n), [], SentBefore(files, env, n))
  {
    CutLeaves(files, env, n);
    var phase := FlushSteps.CutAfter(files, env, n).phase;
    hide FlushSteps.CutAfter, Pending, Kept, Sent, Join, SentBefore, Contents;
    if phase.Replace? || phase.Done? {
      AllWasTried(files, env, n);
    }
  }

  lemma WholePartition(lines: seq<string>, env: FlushEnv)
    ensures Splits(Kept(lines, env), Sent(lines, env), [], lines, [])
    ensures Splits([], Sent(lines, env), Kept(lines, env), lines, [])
  {
    SentAndKeptPartition(lines, env);
    hide Sent, Kept;
  }

  lemma NoPartition(lines: seq<string>, sent: seq<string>)
    ensures Splits(lines, sent, [], lines, sent)
  {
  }

  lemma MultisetOfSum(a: seq<string>, b: seq<string>)
    ensures multiset(a + b) == multiset(a) + multiset(b)
  {
  }

  lemma LateCutIsWhole(q: Ledger, env: FlushEnv, n: nat)
    requires Flushes(q.files, env) && FlushSteps.CutAfter(q.files, env, n).phase.Done?
    requires FlushSteps.CutAfter(q.files, env, n).files == AfterFlush(q.files, env)
    requires SentBefore(q.files, env, n) == FlushSent(q.files, env)
    ensures ApplyCut(q, Whole(Flush(env))) == ApplyCut(q, Cut(env, n))
  {
    assert Repeated(q.files, env, n) == [] && Stranded(q.files, env, n) == [];
    hide FlushSteps.CutAfter, SentBefore, FlushSent, AfterFlush, Flushes, Repeated, Stranded;
    assert q.again + [] == q.again && q.lost + [] == q.lost;
  }

  lemma FlushBalances(q: Ledger, env: FlushEnv)
    requires Balanced(q) && env.tmpOpens
    ensures Balanced(ApplyCut(q, Whole(Flush(env))))
  {
    if Flushes(q.files, env) {
      var n := WholeIsCutLate(q.files, env);
      CutBalances(q, env, n);
      LateCutIsWhole(q, env, n);
    } else {
      assert q.published + [] == q.published;
    }
  }

  /** Over any appends, flushes and cut flushes: appended and published again, together, are what was published,
      is pending, or was lost. So nothing is published twice or both published and pending but for what a flush
      published before it was cut, and nothing is lost but what a cut stranded. */
  lemma {:induction false} CutRunBalances(ops: seq<CutOp>)
    requires forall i :: 0 <= i < |ops| ==> Regular(ops[i])
    ensures Balanced(RunCuts(ops))
  {
    if ops == [] {
      NoFileIsEmpty(FRESH_LEDGER.files);
    } else {
      var q, op := RunCuts(ops[..|ops| - 1]), ops[|ops| - 1];
      CutRunBalances(ops[..|ops| - 1]);
      assert Regular(op);
      hide Balanced, ApplyCut, Storable;
      match op
      case Whole(Raise(line, opens)) => RaiseBalances(q, line, opens);
      case Whole(Flush(env)) => FlushBalances(q, env);
      case Cut(env, n) => CutBalances(q, env, n);
    }
  }

  /** Published-or-pending equals appended, line for line, if and only if what was published again is what was
      lost: in particular if neither happened. */
  lemma EachOnceIff(ops: seq<CutOp>)
    requires forall i :: 0 <= i < |ops| ==> Regular(ops[i])
    ensures var q := RunCuts(ops);
            multiset(q.published) + multiset(Pending(q.files)) == multiset(q.appended)
            <==> multiset(q.again) == multiset(q.lost)
  {
    CutRunBalances(ops);
    var q := RunCuts(ops);
    hide RunCuts, Pending;
    var p, a, g, l := multiset(q.published) + multiset(Pending(q.files)), multiset(q.appended), multiset(q.again),
      multiset(q.lost);
    assert a + g == p + l;
    if p == a {
      assert forall x: string :: g[x] == l[x] by {
        forall x: string
          ensures g[x] == l[x]
        {
          assert (a + g)[x] == a[x] + g[x] && (p + l)[x] == p[x] + l[x];
        }
      }
    }
    if g == l {
      forall x: string
        ensures p[x] == a[x]
      {
        assert (a + g)[x] == a[x] + g[x] && (p + l)[x] == p[x] + l[x];
      }
    }
  }

  lemma {:induction false} SentSomething(lines: seq<string>, env: FlushEnv)
    ensures Sent(lines, env) == [] <==> forall i :: 0 <= i < |lines| ==> !env.Publishes(i)
  {
    if lines != [] {
      SentSomething(lines[..|lines| - 1], env);
    }
  }

  /** The flush is cut before its remove step, after some publish succeeded. */
  predicate Repeats(files: Files, op: CutOp) {
    op.Cut? && Flushes(files, op.env)
    && var s := FlushSteps.CutAfter(files, op.env, op.n); BeforeRemove(s.phase) && s.published != {}
  }

  /** The flush is cut between remove and rename, after some publish failed. */
  predicate Strands(files: Files, op: CutOp) {
    op.Cut? && Flushes(files, op.env) && FlushSteps.CutAfter(files, op.env, op.n).phase.Replace?
    && exists i :: 0 <= i < |Pending(files)| && !op.env.Publishes(i)
  }

  lemma StepRepeats(q: Ledger, op: CutOp)
    ensures ApplyCut(q, op).again == [] <==> q.again == [] && !Repeats(q.files, op)
    ensures ApplyCut(q, op).lost == [] <==> q.lost == [] && !Strands(q.files, op)
  {
    if op.Cut? {
      RepeatedIff(q.files, op.env, op.n);
      KeptSomething(Pending(q.files), op.env);
    }
    hide FlushSteps.CutAfter, Repeated, SentBefore, AfterFlush, Append, Pending, Kept, FlushSent;
  }

  lemma RepeatedIff(files: Files, env: FlushEnv, n: nat)
    ensures var s := FlushSteps.CutAfter(files, env, n);
            Repeated(files, env, n) == [] <==> (Flushes(files, env) && BeforeRemove(s.phase) ==> s.published == {})
  {
    var s := FlushSteps.CutAfter(files, env, n);
    FlushSteps.CutIsConsistent(files, env, n);
    hide FlushSteps.CutAfter, Pending, Sent, Kept;
    SentSomething(Pending(files)[..s.next], env);
    assert s.published == {} <==> forall i :: i !in s.published;
    assert forall i :: i in s.published <==> 0 <= i < s.next && env.Publishes(i);
  }

  /** A line is published and stays pending exactly if some flush of the run is cut before its remove step after
      some publish succeeded. */
  lemma {:induction false} PublishedAgainIff(ops: seq<CutOp>)
    ensures RunCuts(ops).again == [] <==>
            forall k :: 0 <= k < |ops| ==> !Repeats(RunCuts(ops[..k]).files, ops[k])
  {
    hide ApplyCut, Repeats, Strands;
    if ops != [] {
      PublishedAgainIff(ops[..|ops| - 1]);
      RunCutsByOne(ops);
      hide RunCuts;
    }
  }

  /** An alert is lost exactly if some flush of the run is cut between remove and rename after some publish
      failed. */
  lemma {:induction false} LostIff(ops: seq<CutOp>)
    ensures RunCuts(ops).lost == [] <==>
            forall k :: 0 <= k < |ops| ==> !Strands(RunCuts(ops[..k]).files, ops[k])
  {
    hide ApplyCut, Repeats, Strands;
    if ops != [] {
      LostIff(ops[..|ops| - 1]);
      RunCutsByOne(ops);
      hide RunCuts;
    }
  }

  lemma RunCutsByOne(ops: seq<CutOp>)
    requires ops != []
    ensures var m := |ops| - 1;
            && RunCuts(ops) == ApplyCut(RunCuts(ops[..m]), ops[m])
            && (RunCuts(ops).again == []
                <==> RunCuts(ops[..m]).again == [] && !Repeats(RunCuts(ops[..m]).files, ops[m]))
            && (RunCuts(ops).lost == []
                <==> RunCuts(ops[..m]).lost == [] && !Strands(RunCuts(ops[..m]).files, ops[m]))
            && forall k :: 0 <= k < m ==> ops[..m][..k] == ops[..k] && ops[..m][k] == ops[k]
  {
    hide ApplyCut, Repeats, Strands;
    StepRepeats(RunCuts(ops[..|ops| - 1]), ops[|ops| - 1]);
  }

  lemma {:induction false} KeptSomething(lines: seq<string>, env: FlushEnv)
    ensures Kept(lines, env) == [] <==> forall i :: 0 <= i < |lines| ==> env.Publishes(i)
  {
    if lines != [] {
      KeptSomething(lines[..|lines| - 1], env);
    }
  }
}

/**
 The same flush cut into single steps, so that it can be interrupted between any two of them: one
 callback call, one write to the temporary file, closing it, removing the original, and renaming.
 What a power cut leaves of a temporary file that is still open is not relied on: until the file is
 closed its contents are modelled as empty.
 */
module FlushSteps {
  import opened Lines
  import opened SdCard
  import opened AlertQueue

  datatype Phase = Publish | Write | Close | Remove | Replace | Done

  /** `published` holds the positions of the lines whose callback returned ESP_OK. */
  datatype State = State(files: Files, phase: Phase, next: nat, published: set<nat>, written: seq<string>)

  function Start(files: Files): State {
    State(files[AlertsTmp := ""], Publish, 0, {}, [])
  }

  function Step(s: State, lines: seq<string>, env: FlushEnv): State {
    match s.phase
    case Publish =>
      if s.next >= |lines| then s.(phase := Close)
      else if env.Publishes(s.next) then s.(next := s.next + 1, published := s.published + {s.next})
      else s.(phase := Write)
    case Write =>
      if s.next >= |lines| then s
      else s.(phase := Publish, next := s.next + 1, written := s.written + [lines[s.next]])
    case Close => s.(phase := Remove, files := s.files[AlertsTmp := Join(s.written)])
    case Remove => s.(phase := Replace, files := s.files - {Alerts})
    case Replace =>
      s.(phase := Done,
         files := if s.written == [] then s.files - {AlertsTmp} else Rename(s.files, AlertsTmp, Alerts))
    case Done => s
  }

  /** The flush of `files` interrupted after `n` steps. */
  function CutAfter(files: Files, env: FlushEnv, n: nat): State {
    if n == 0 then Start(files) else Step(CutAfter(files, env, n - 1), Pending(files), env)
  }

  // ---------------------------------------------------------------- invariant of all cuts

  ghost predicate Consistent(s: State, files: Files, lines: seq<string>, env: FlushEnv) {
    && s.next <= |lines|
    && (s.phase == Write ==> s.next < |lines| && !env.Publishes(s.next))
    && (!s.phase.Publish? && !s.phase.Write? ==> s.next == |lines|)
    && s.written == Kept(lines[..s.next], env)
    && (forall i :: i in s.published <==> 0 <= i < s.next && env.Publishes(i))
    && s.files == match s.phase {
         case Publish => files[AlertsTmp := ""]
         case Write => files[AlertsTmp := ""]
         case Close => files[AlertsTmp := ""]
         case Remove => files[AlertsTmp := Join(s.written)]
         case Replace => files[AlertsTmp := Join(s.written)] - {Alerts}
         case Done => if s.written == [] then files - {Alerts} - {AlertsTmp}
                      else (files - {Alerts} - {AlertsTmp})[Alerts := Join(s.written)]
       }
  }

  lemma StepIsConsistent(s: State, files: Files, lines: seq<string>, env: FlushEnv)
    requires Consistent(s, files, lines, env)
    ensures Consistent(Step(s, lines, env), files, lines, env)
  {
    hide Join;
    if s.next < |lines| {
      assert lines[..s.next + 1][..s.next] == lines[..s.next];
      assert Kept(lines[..s.next], env) + [] == Kept(lines[..s.next], env);
    }
  }

  lemma {:induction false} CutIsConsistent(files: Files, env: FlushEnv, n: nat)
    ensures Consistent(CutAfter(files, env, n), files, Pending(files), env)
  {
    hide Pending, Step;
    if n > 0 {
      CutIsConsistent(files, env, n - 1);
      StepIsConsistent(CutAfter(files, env, n - 1), files, Pending(files), env);
    }
  }

  lemma {:induction false} FailedLineIsKept(lines: seq<string>, env: FlushEnv, i: nat)
    requires i < |lines| && !env.Publishes(i)
    ensures lines[i] in Kept(lines, env)
  {
    if i < |lines| - 1 {
      FailedLineIsKept(lines[..|lines| - 1], env, i);
    }
  }

  lemma {:induction false} CStringHasNoNul(text: string)
    ensures NUL !in CString(text)
  {
    if text != "" && text[0] != NUL {
      CStringHasNoNul(text[1..]);
    }
  }

  lemma {:induction false} SplitIsStorable(text: string)
    requires NUL !in text
    ensures AllStorable(Split(text))
    decreases |text|
  {
    if NEWLINE in text {
      SplitIsStorable(text[FirstNewline(text) + 1..]);
    }
  }

  /** Whatever bytes the file holds, its lines are storable. */
  lemma PendingIsStorable(files: Files)
    ensures AllStorable(Pending(files))
  {
    CStringHasNoNul(Contents(files, Alerts));
    SplitIsStorable(CString(Contents(files, Alerts)));
  }

  // ---------------------------------------------------------------- durability

  /** Wherever the flush is cut, whatever the card held: before the remove the original is untouched,
      between remove and rename the failed alerts are all in the closed temporary file, and afterwards they
      are pending again. */
  lemma CutIsDurable(files: Files, env: FlushEnv, n: nat)
    ensures var s := CutAfter(files, env, n);
            match s.phase {
              case Replace => Alerts !in s.files && Contents(s.files, AlertsTmp) == Join(Kept(Pending(files), env))
              case Done => AlertsTmp !in s.files && Pending(s.files) == Kept(Pending(files), env)
              case _ => Contents(s.files, Alerts) == Contents(files, Alerts)
            }
  {
    var lines := Pending(files);
    CutIsConsistent(files, env, n);
    PendingIsStorable(files);
    var s := CutAfter(files, env, n);
    hide Join, Kept, CutAfter, Pending;
    if s.phase.Replace? || s.phase.Done? {
      assert lines[..|lines|] == lines;
    }
    if s.phase.Done? {
      KeptIsStorable(lines, env);
      JoinIsEmptyIffNoLines(Kept(lines, env));
      PendingOfJoin(s.files, Kept(lines, env));
    }
  }

  /** The lines of the pending file or, without it, of the temporary file. The firmware reads only the
      former: what is left in pending.tmp is on the card, and lost to it. */
  function OnCard(files: Files): seq<string> {
    if Alerts in files then Pending(files) else Split(CString(Contents(files, AlertsTmp)))
  }

  /** Cut anywhere, every alert not yet published is still on the card. */
  lemma UnpublishedSurvivesCut(files: Files, env: FlushEnv, n: nat, i: nat)
    requires Alerts in files && i < |Pending(files)|
    requires i !in CutAfter(files, env, n).published
    ensures Pending(files)[i] in OnCard(CutAfter(files, env, n).files)
  {
    var lines := Pending(files);
    var s := CutAfter(files, env, n);
    CutIsConsistent(files, env, n);
    CutIsDurable(files, env, n);
    PendingIsStorable(files);
    hide Join, Kept, CutAfter, Pending, Split, CString;
    if s.phase.Replace? || s.phase.Done? {
      assert lines[..|lines|] == lines;
      FailedLineIsKept(lines, env, i);
      var kept := Kept(lines, env);
      KeptIsStorable(lines, env);
      OnCardOfJoin(s.files, kept);
    } else {
      assert s.files[Alerts] == files[Alerts];
      SameFileSamePending(s.files, files);
    }
  }

  lemma {:induction false} KeptLineFailed(lines: seq<string>, env: FlushEnv)
    requires Kept(lines, env) != []
    ensures exists i :: 0 <= i < |lines| && !env.Publishes(i)
  {
    var n := |lines| - 1;
    if env.Publishes(n) {
      KeptLineFailed(lines[..n], env);
    }
  }

  /** A cut strands alerts exactly between remove and rename, if some publish failed: everywhere else every
      alert not yet published is pending for the next flush. */
  lemma UnpublishedStaysPendingIff(files: Files, env: FlushEnv, n: nat)
    ensures var s := CutAfter(files, env, n);
            (forall i :: 0 <= i < |Pending(files)| && i !in s.published ==> Pending(files)[i] in Pending(s.files))
            <==> s.phase != Replace || Kept(Pending(files), env) == []
  {
    var lines := Pending(files);
    var s := CutAfter(files, env, n);
    CutIsConsistent(files, env, n);
    CutIsDurable(files, env, n);
    if s.phase.Replace? {
      assert Pending(s.files) == [];
      hide Join, Kept, CutAfter, Pending;
      if Kept(lines, env) != [] {
        KeptLineFailed(lines, env);
        var i :| 0 <= i < |lines| && !env.Publishes(i);
        assert i !in s.published;
      }
      forall i | 0 <= i < |lines| && i !in s.published
        ensures Kept(lines, env) != []
      {
        FailedLineIsKept(lines, env, i);
      }
    } else {
      SameOrKept(files, s);
      hide Join, Kept, CutAfter, Pending;
      forall i | 0 <= i < |lines| && i !in s.published
        ensures lines[i] in Pending(s.files)
      {
        if s.phase.Done? {
          FailedLineIsKept(lines, env, i);
        }
      }
    }
  }

  lemma SameOrKept(files: Files, s: State)
    requires !s.phase.Done? ==> Contents(s.files, Alerts) == Contents(files, Alerts)
    ensures !s.phase.Done? ==> Pending(s.files) == Pending(files)
  {
  }

  lemma SameFileSamePending(a: Files, b: Files)
    requires Contents(a, Alerts) == Contents(b, Alerts)
    ensures Pending(a) == Pending(b)
  {
  }

  lemma OnCardOfJoin(files: Files, lines: seq<string>)
    requires AllStorable(lines)
    requires Alerts !in files ==> Contents(files, AlertsTmp) == Join(lines)
    requires Alerts in files ==> Pending(files) == lines
    ensures OnCard(files) == lines
  {
    if Alerts !in files {
      JoinHasNoNul(lines);
      CStringOfClean(Join(lines), "");
      SplitInvertsJoin(lines);
    }
  }

  // ---------------------------------------------------------------- completion

  lemma {:induction false} StepNumber(files: Files, env: FlushEnv, n: nat)
    ensures var s := CutAfter(files, env, n);
            match s.phase {
              case Publish => n == s.next + |s.written|
              case Write => n == s.next + |s.written| + 1
              case Close => n == s.next + |s.written| + 1
              case Remove => n == s.next + |s.written| + 2
              case Replace => n == s.next + |s.written| + 3
              case Done => n >= s.next + |s.written| + 4
            }
  {
    hide Pending, Join;
    if n > 0 {
      StepNumber(files, env, n - 1);
      CutIsConsistent(files, env, n - 1);
    }
  }

  lemma {:induction false} KeptGrows(lines: seq<string>, env: FlushEnv, i: nat)
    requires i <= |lines|
    ensures |Kept(lines[..i], env)| <= |Kept(lines, env)|
  {
    if i < |lines| {
      KeptGrows(lines[..|lines| - 1], env, i);
      assert lines[..|lines| - 1][..i] == lines[..i];
    } else {
      assert lines[..i] == lines;
    }
  }

  /** One callback per line, one write per failed line, and four steps more: the flush stands between remove
      and rename after exactly one number of steps, and is done after the next. */
  lemma PhaseAtStep(files: Files, env: FlushEnv, n: nat)
    ensures var last := |Pending(files)| + |Kept(Pending(files), env)| + 3;
            && (CutAfter(files, env, n).phase == Replace <==> n == last)
            && (CutAfter(files, env, n).phase == Done <==> n > last)
  {
    StepNumber(files, env, n);
    CutIsConsistent(files, env, n);
    hide CutAfter, Pending, Kept;
    var lines, s := Pending(files), CutAfter(files, env, n);
    KeptGrows(lines, env, s.next);
    assert lines[..|lines|] == lines;
  }

  /** Uninterrupted, the steps do what the flush as a whole does: same files, same lines published. */
  lemma StepsRefineFlush(files: Files, env: FlushEnv, n: nat)
    requires Flushes(files, env) && env.tmpOpens
    requires n > |Pending(files)| + |Kept(Pending(files), env)| + 3
    ensures CutAfter(files, env, n).files == AfterFlush(files, env)
    ensures forall i :: i in CutAfter(files, env, n).published <==> 0 <= i < |Pending(files)| && env.Publishes(i)
  {
    PhaseAtStep(files, env, n);
    CutIsConsistent(files, env, n);
    hide Pending, Kept, Join, CutAfter;
    var lines := Pending(files);
    assert lines[..|lines|] == lines;
    var s := CutAfter(files, env, n);
    assert s.written == Kept(lines, env);
    var w := files[AlertsTmp := Join(s.written)] - {Alerts};
    if s.written == [] {
      assert w - {AlertsTmp} == files - {Alerts} - {AlertsTmp};
    } else {
      assert (w - {AlertsTmp})[Alerts := Join(s.written)]
        == (files - {Alerts} - {AlertsTmp})[Alerts := Join(s.written)];
    }
  }

  // ---------------------------------------------------------------- what recovery does not do

  /** Nothing reads pending.tmp back. Without pending.jsonl a flush publishes nothing; the first flush after a
      new alert erases what was stranded, unless its own temporary file does not open and its publish fails:
      then the stranded alerts are renamed into place, and the new one is lost. */
  lemma StrandedAlertsAreErased(files: Files, line: string, env: FlushEnv)
    requires Alerts !in files && Storable(line) && env.memory
    ensures FlushSent(files, env) == [] && AfterFlush(files, env) == files
    ensures var raised := Append(files, Alerts, line);
            var after := AfterFlush(raised, env);
            && AlertsTmp !in after
            && if env.tmpOpens || env.Publishes(0) then FlushSent(raised, env) + Pending(after) == [line]
               else FlushSent(raised, env) == [] && Pending(after) == OnCard(files)
  {
    var raised := Append(files, Alerts, line);
    assert [line][..0] == [];
    assert Join([line]) == line + [NEWLINE];
    PendingOfJoin(raised, [line]);
    var kept := Kept([line], env);
    assert Kept([line][..0], env) == [] == Sent([line][..0], env);
    assert kept == if env.Publishes(0) then [] else [line];
    assert Sent([line], env) == if env.Publishes(0) then [line] else [];
    JoinIsEmptyIffNoLines([line]);
    if env.tmpOpens || env.Publishes(0) {
      PendingOfJoin(AfterFlush(raised, env), kept);
    }
  }
}

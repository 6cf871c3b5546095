/** The completion protocol over whole histories: the log agrees with a reference account
    of which sources really are finished, kept without looking at the log. */
module SynthProtocol {
  import opened KnowledgeLog
  import opened Sequences
  import opened SynthRun

  // ------------------------------------------------------------------
  // The reference account.

  datatype Verdict = Completed | Invalidated | Undecided

  /** What an attempt proves about its source, judged from its outcomes alone. */
  ghost function Judge(a: Attempt): Verdict {
    if !a.Fanned? then Undecided
    else if a.groups == [] then Completed
    else if exists p :: p in a.pages && !p.Stored? then Invalidated
    else if forall g :: g in a.groups ==> !NeedsRetry(g) then Completed
    else Undecided
  }

  ghost function Credit(done: set<string>, s: string, v: Verdict): set<string> {
    match v
    case Completed => done + {s}
    case Invalidated => done - {s}
    case Undecided => done
  }

  /** Finished sources after a walk that may die: an attempt counts once it is fully recorded. */
  ghost function DoneAfter(sources: seq<string>, skip: set<string>, attempts: map<string, Attempt>, life: nat,
      done: set<string>): set<string>
    requires forall s :: s in sources ==> s in attempts
  {
    if sources == [] then done
    else
      var s := sources[0];
      if s in skip then DoneAfter(sources[1..], skip, attempts, life, done)
      else if |AttemptRows(s, attempts[s])| > life then done
      else
        var done' := Credit(done, s, Judge(attempts[s]));
        if Aborts(attempts[s]) then done'
        else DoneAfter(sources[1..], skip, attempts, life - |AttemptRows(s, attempts[s])|, done')
  }

  /** Did the walk get as far as recording all of `s`? */
  ghost predicate Recorded(sources: seq<string>, skip: set<string>, attempts: map<string, Attempt>, life: nat,
      s: string)
    requires forall x :: x in sources ==> x in attempts
  {
    if sources == [] then false
    else
      var x := sources[0];
      if x in skip then Recorded(sources[1..], skip, attempts, life, s)
      else if |AttemptRows(x, attempts[x])| > life then false
      else x == s || (!Aborts(attempts[x]) &&
                      Recorded(sources[1..], skip, attempts, life - |AttemptRows(x, attempts[x])|, s))
  }

  /** The run that writes the sentinel trusts page rows older than the markers: the backfilled
      part of `order` counts as finished, then the walk starts if the process is still alive. */
  ghost function OpeningDone(done: set<string>, run: Run): set<string>
    requires forall s :: s in run.sources ==> s in run.attempts
  {
    if run.stopAfter == 0 then done
    else if run.stopAfter <= |run.backfillOrder| then done + Members(run.backfillOrder[..run.stopAfter - 1])
    else
      var start := done + Members(run.backfillOrder);
      DoneAfter(run.sources, start, run.attempts, run.stopAfter - 1 - |run.backfillOrder|, start)
  }

  /** A run that dies before its first append, or a forced one that has nothing to append. */
  ghost predicate Silent(run: Run)
    requires forall s :: s in run.sources ==> s in run.attempts
  {
    run.stopAfter == 0 || (run.forceAll && SourceRows(run.sources, {}, run.attempts) == [])
  }

  ghost predicate AllSilent(runs: seq<Run>)
    requires WellTyped(runs)
  {
    forall i :: 0 <= i < |runs| ==> assert runs[i] in runs; Silent(runs[i])
  }

  /** The first run that gets a row down is a default run. */
  ghost predicate OpensWithDefault(runs: seq<Run>)
    requires WellTyped(runs)
  {
    exists k: nat :: OpensAt(runs, k)
  }

  ghost predicate OpensAt(runs: seq<Run>, k: nat)
    requires WellTyped(runs)
  {
    k < |runs| && !runs[k].forceAll && runs[k].stopAfter > 0 && AllSilent(runs[..k])
  }

  ghost predicate WellTyped(runs: seq<Run>) {
    forall run, s :: run in runs && s in run.sources ==> s in run.attempts
  }

  /** What is really finished after a history.  Only a default run that no run with a row to
      its name precedes may trust old rows. */
  ghost function Finished(runs: seq<Run>): set<string>
    requires WellTyped(runs)
  {
    if runs == [] then {}
    else
      var n := |runs| - 1;
      assert runs[n] in runs;
      if AllSilent(runs[..n]) && !runs[n].forceAll then OpeningDone({}, runs[n])
      else
        var done := Finished(runs[..n]);
        DoneAfter(runs[n].sources, if runs[n].forceAll then {} else done, runs[n].attempts, runs[n].stopAfter, done)
  }

  // ------------------------------------------------------------------
  // Histories of the log.

  ghost function Replay(log: seq<Row>, runs: seq<Run>): seq<Row>
    requires WellTyped(runs)
  {
    if runs == [] then log
    else
      assert runs[|runs| - 1] in runs;
      After(Replay(log, runs[..|runs| - 1]), runs[|runs| - 1])
  }

  ghost predicate Happened(log: seq<Row>, runs: seq<Run>)
    requires WellTyped(runs)
  {
    runs == [] ||
    (Happened(log, runs[..|runs| - 1]) && RunFits(Replay(log, runs[..|runs| - 1]), runs[|runs| - 1]))
  }

  /** A base no fan-out run has touched: pages maybe, completion markers none. */
  ghost predicate BeforeFanOut(log: seq<Row>) {
    ValidLog(log) && forall r :: r in log ==> !IsMarker(r)
  }

  lemma Assoc<T>(a: seq<T>, b: seq<T>, c: seq<T>)
    ensures a + (b + c) == (a + b) + c
  {
  }

  lemma EveryStandingMeans(log: seq<Row>)
    ensures forall s :: s in Standing(log) <==> IsSource(s) && LastMarker(log, s) == Done
  {
    forall s ensures s in Standing(log) <==> IsSource(s) && LastMarker(log, s) == Done { StandingMeans(log, s); }
  }

  // ------------------------------------------------------------------
  // One attempt.

  ghost function VerdictRows(s: string, v: Verdict): seq<Row> {
    match v
    case Completed => [Row(DoneAct, s, "")]
    case Invalidated => [Row(FailedAct, s, "")]
    case Undecided => []
  }

  ghost predicate Plain(s: string, rows: seq<Row>) { forall r :: r in rows ==> r.action.SynthAct? && r.src == s }

  lemma {:induction false} PageRowsShape(s: string, pages: seq<PageOutcome>) returns (plain: seq<Row>)
    ensures Plain(s, plain)
    ensures PageRows(s, pages) == plain + if AnyCancelled(pages) then [Row(FailedAct, s, "")] else []
  {
    if pages == [] {
      plain := [];
    } else {
      var rest := pages[1..];
      assert pages == [pages[0]] + rest;
      plain := PageRowsShape(s, rest);
      match pages[0]
      case Stored(path) => plain := [Row(SynthAct, s, path)] + plain;
      case Broken(_) =>
      case Cancelled(_) => plain := []; assert pages[0] in pages;
    }
  }

  lemma {:induction false} GroupNotesArePlain(s: string, groups: seq<GroupOutcome>)
    ensures Plain(s, GroupNotes(s, groups))
    ensures ParseErrors(groups) == 0 <==> forall g :: g in groups ==> !NeedsRetry(g)
  {
    if groups != [] {
      assert groups == [groups[0]] + groups[1..];
      GroupNotesArePlain(s, groups[1..]);
    }
  }

  /** An attempt records its verdict last, and nothing else about completion. */
  lemma VerdictIsTheLastRow(s: string, a: Attempt) returns (plain: seq<Row>)
    ensures Plain(s, plain)
    ensures AttemptRows(s, a) == plain + VerdictRows(s, Judge(a))
  {
    match a {
      case Fanned(groups, surfaced, pages) =>
        GroupNotesArePlain(s, groups);
        var notes := OutcomeNotes(s, groups, surfaced);
        if groups == [] {
          plain := notes + [Note(s)];
        } else {
          var stored := PageRowsShape(s, pages);
          assert SettlingRows(s, groups, pages) == stored + VerdictRows(s, Judge(a)) by {
            assert forall p :: p in pages ==> (!p.Stored? <==> p.Broken? || p.Cancelled?);
          }
          plain := notes + stored;
          Assoc(notes, stored, VerdictRows(s, Judge(a)));
        }
      case BodyMissing => plain := [Note(s)];
      case BodyDrifted => plain := [Note(s)];
      case Interrupted => plain := [];
    }
  }

  lemma StandingSame(log: seq<Row>, rows: seq<Row>, s: string)
    requires IsSource(s) && Plain(s, rows)
    ensures Standing(log + rows) == Standing(log)
  {
    forall x ensures LastMarker(log + rows, x) == LastMarker(log, x) {
      UnmarkedSuffix(log, rows, x);
    }
    EveryStandingMeans(log);
    EveryStandingMeans(log + rows);
  }

  lemma StandingOf(log: seq<Row>, rows: seq<Row>, s: string, v: Verdict)
    requires IsSource(s) && Plain(s, rows)
    ensures Standing(log + rows) == Standing(log)
    ensures Standing(log + (rows + VerdictRows(s, v))) == Credit(Standing(log), s, v)
  {
    StandingSame(log, rows, s);
    if v.Undecided? {
      assert rows + VerdictRows(s, v) == rows;
    } else {
      var r := VerdictRows(s, v)[0];
      assert log + (rows + VerdictRows(s, v)) == (log + rows) + [r];
      EveryStandingMeans(log + rows);
      EveryStandingMeans((log + rows) + [r]);
      forall x { AppendedMarker(log + rows, r, x); }
    }
  }

  /** However many rows of an attempt go down, the log moves from the old verdict to the
      attempt's verdict in one step: at its last row. */
  lemma AttemptIsAtomic(log: seq<Row>, s: string, a: Attempt, life: nat)
    requires IsSource(s)
    ensures Standing(log + Take(AttemptRows(s, a), life)) ==
            if |AttemptRows(s, a)| <= life then Credit(Standing(log), s, Judge(a)) else Standing(log)
  {
    var plain := VerdictIsTheLastRow(s, a);
    StandingOf(log, plain, s, Judge(a));
    if |AttemptRows(s, a)| > life {
      assert Take(AttemptRows(s, a), life) == plain[..life];
      StandingOf(log, plain[..life], s, Judge(a));
    }
  }

  // ------------------------------------------------------------------
  // One run.

  lemma {:induction false} WalkTracksTruth(log: seq<Row>, sources: seq<string>, skip: set<string>,
      attempts: map<string, Attempt>, life: nat)
    requires forall s :: s in sources ==> IsSource(s) && s in attempts
    ensures Standing(log + Take(SourceRows(sources, skip, attempts), life)) ==
            DoneAfter(sources, skip, attempts, life, Standing(log))
    decreases |sources|
  {
    if sources == [] {
      assert log + [] == log;
    } else if sources[0] in skip {
      WalkTracksTruth(log, sources[1..], skip, attempts, life);
    } else {
      var s, a := sources[0], attempts[sources[0]];
      var mine := AttemptRows(s, a);
      var rest := if Aborts(a) then [] else SourceRows(sources[1..], skip, attempts);
      TakeConcat(mine, rest, life);
      AttemptIsAtomic(log, s, a, life);
      if |mine| <= life {
        if Aborts(a) {
          assert mine + rest == mine;
        } else {
          WalkTracksTruth(log + mine, sources[1..], skip, attempts, life - |mine|);
          Assoc(log, mine, Take(rest, life - |mine|));
        }
      }
    }
  }

  lemma HeadIsNotInTail(sources: seq<string>)
    requires sources != [] && Distinct(sources)
    ensures sources[0] !in sources[1..]
  {
    assert forall j :: 0 <= j < |sources[1..]| ==> sources[1..][j] == sources[j + 1];
  }

  /** Source by source: a recorded attempt decides, anything else leaves the source as it was. */
  lemma {:induction false} DoneAfterMeans(sources: seq<string>, skip: set<string>, attempts: map<string, Attempt>,
      life: nat, done: set<string>, s: string)
    requires Distinct(sources) && forall x :: x in sources ==> x in attempts
    ensures Recorded(sources, skip, attempts, life, s) ==> s in sources && s !in skip
    ensures s in DoneAfter(sources, skip, attempts, life, done) <==>
            if Recorded(sources, skip, attempts, life, s)
            then Judge(attempts[s]).Completed? || (Judge(attempts[s]).Undecided? && s in done)
            else s in done
  {
    if sources != [] {
      var x, rest := sources[0], sources[1..];
      assert forall y :: y in rest ==> y in sources;
      if x in skip {
        DoneAfterMeans(rest, skip, attempts, life, done, s);
      } else if |AttemptRows(x, attempts[x])| <= life {
        var left := life - |AttemptRows(x, attempts[x])|;
        var done' := Credit(done, x, Judge(attempts[x]));
        DoneAfterMeans(rest, skip, attempts, left, done', s);
        HeadIsNotInTail(sources);
      }
    }
  }

  lemma {:induction false} DoneRowsLength(order: seq<string>)
    ensures |DoneRows(order)| == |order|
  {
    if order != [] { DoneRowsLength(order[1..]); }
  }

  lemma OneBackfillRow(log: seq<Row>, s: string)
    requires IsSource(s)
    ensures Standing(log + [Row(DoneAct, s, "")]) == Standing(log) + {s}
  {
    StandingOf(log, [], s, Completed);
    assert [] + VerdictRows(s, Completed) == [Row(DoneAct, s, "")];
  }

  lemma FirstOfOrder(order: seq<string>, k: nat)
    requires 0 < k <= |order| == |DoneRows(order)|
    ensures |DoneRows(order[1..])| == |order[1..]|
    ensures DoneRows(order)[..k] == [Row(DoneAct, order[0], "")] + DoneRows(order[1..])[..k - 1]
    ensures Members(order[..k]) == {order[0]} + Members(order[1..][..k - 1])
  {
    DoneRowsLength(order[1..]);
    assert order[..k] == [order[0]] + order[1..][..k - 1];
  }

  lemma {:induction false} BackfillStands(log: seq<Row>, order: seq<string>, k: nat)
    requires k <= |order| == |DoneRows(order)| && forall s :: s in order ==> IsSource(s)
    ensures Standing(log + DoneRows(order)[..k]) == Standing(log) + Members(order[..k])
    decreases |order|
  {
    if k == 0 {
      assert log + DoneRows(order)[..0] == log;
    } else {
      var r, rest := Row(DoneAct, order[0], ""), order[1..];
      FirstOfOrder(order, k);
      OneBackfillRow(log, order[0]);
      BackfillStands(log + [r], rest, k - 1);
      Assoc(log, [r], DoneRows(rest)[..k - 1]);
    }
  }

  lemma SentinelStandsForNothing(log: seq<Row>)
    ensures Standing(log + [Row(DoneAct, SENTINEL, "")]) == Standing(log)
    ensures HasSentinel(log + [Row(DoneAct, SENTINEL, "")])
  {
    var r := Row(DoneAct, SENTINEL, "");
    assert r in log + [r];
    EveryStandingMeans(log);
    EveryStandingMeans(log + [r]);
    forall x { AppendedMarker(log, r, x); }
  }

  lemma LegacyMeans(log: seq<Row>, s: string)
    ensures s in Legacy(log) <==> s != "" && HasPage(log, s) && !EverFailed(log, s)
  {
    if s != "" && HasPage(log, s) && !EverFailed(log, s) {
      var r :| r in log && r.action.SynthAct? && r.src == s && r.dst != "";
      var i :| 0 <= i < |log| && log[i] == r;
    }
  }

  lemma LegacyAreSources(log: seq<Row>, s: string)
    requires ValidLog(log) && s in Legacy(log)
    ensures IsSource(s)
  {
  }

  /** When the backfill completes, the set held in memory is what a rescan would give. */
  lemma BackfillAgreesWithRescan(log: seq<Row>, run: Run)
    requires ValidLog(log) && RunFits(log, run)
    ensures !run.forceAll ==> SkipSet(log, false) == Standing(log + InitRows(log, run))
    ensures run.forceAll ==> InitRows(log, run) == []
  {
    if Backfills(log, run.forceAll) {
      var order, sentinel := run.backfillOrder, [Row(DoneAct, SENTINEL, "")];
      forall s | s in order ensures IsSource(s) { LegacyAreSources(log, s); }
      SentinelStandsForNothing(log);
      DoneRowsLength(order);
      BackfillStands(log + sentinel, order, |order|);
      assert order[..|order|] == order && DoneRows(order)[..|order|] == DoneRows(order);
      assert log + InitRows(log, run) == (log + sentinel) + DoneRows(order);
      assert Members(order) == Legacy(log);
    } else {
      assert log + [] == log;
    }
  }

  /** A run on a base that is past its backfill, or a forced run. */
  lemma RunTracksTruth(log: seq<Row>, run: Run)
    requires ValidLog(log) && RunFits(log, run)
    requires !Backfills(log, run.forceAll)
    ensures Standing(After(log, run)) ==
            DoneAfter(run.sources, SkipSet(log, run.forceAll), run.attempts, run.stopAfter, Standing(log))
  {
    var walk := SourceRows(run.sources, SkipSet(log, run.forceAll), run.attempts);
    assert RunRows(log, run) == walk;
    WalkTracksTruth(log, run.sources, SkipSet(log, run.forceAll), run.attempts, run.stopAfter);
  }

  /** Dying inside the backfill leaves the part of it that went down. */
  lemma CutRows(order: seq<string>, life: nat)
    requires 0 < life <= |order| + 1
    ensures var init := [Row(DoneAct, SENTINEL, "")] + DoneRows(order);
            |init| == |order| + 1 && |DoneRows(order)| == |order|
            && Take(init, life) == [Row(DoneAct, SENTINEL, "")] + DoneRows(order)[..life - 1]
  {
    var sentinel := [Row(DoneAct, SENTINEL, "")];
    DoneRowsLength(order);
    TakeConcat(sentinel, DoneRows(order), life);
    assert Take(sentinel, life) == sentinel;
    assert Take(DoneRows(order), life - 1) == DoneRows(order)[..life - 1];
  }

  lemma CutBackfill(log: seq<Row>, order: seq<string>, life: nat)
    requires 0 < life <= |order| + 1 && forall s :: s in order ==> IsSource(s)
    ensures var init := [Row(DoneAct, SENTINEL, "")] + DoneRows(order);
            |init| == |order| + 1 && Standing(log + Take(init, life)) == Standing(log) + Members(order[..life - 1])
  {
    var sentinel := [Row(DoneAct, SENTINEL, "")];
    CutRows(order, life);
    SentinelStandsForNothing(log);
    BackfillStands(log + sentinel, order, life - 1);
    Assoc(log, sentinel, DoneRows(order)[..life - 1]);
  }

  /** The run that writes the sentinel, whatever the log stands for so far. */
  lemma OpeningRunTracksTruth(log: seq<Row>, run: Run)
    requires ValidLog(log) && RunFits(log, run) && Backfills(log, run.forceAll)
    ensures Standing(After(log, run)) == OpeningDone(Standing(log), run)
  {
    var order, life := run.backfillOrder, run.stopAfter;
    var init, walk := InitRows(log, run), SourceRows(run.sources, SkipSet(log, false), run.attempts);
    forall s | s in order ensures IsSource(s) { LegacyAreSources(log, s); }
    DoneRowsLength(order);
    TakeConcat(init, walk, life);
    if life == 0 {
      assert log + Take(init + walk, 0) == log;
    } else if life <= |order| {
      CutBackfill(log, order, life);
    } else {
      BackfillThenWalk(log, run);
    }
  }

  /** What such a run leaves once the whole backfill is down: the backfilled log, then as much
      of the walk as the process lived for. */
  lemma OpeningLogSplits(log: seq<Row>, run: Run)
    requires RunFits(log, run) && Backfills(log, run.forceAll) && run.stopAfter > |run.backfillOrder|
    ensures var left := run.stopAfter - |run.backfillOrder| - 1;
            After(log, run) ==
            (log + InitRows(log, run)) + Take(SourceRows(run.sources, SkipSet(log, false), run.attempts), left)
  {
    var left := run.stopAfter - |run.backfillOrder| - 1;
    var init, walk := InitRows(log, run), SourceRows(run.sources, SkipSet(log, false), run.attempts);
    DoneRowsLength(run.backfillOrder);
    assert |init| == |run.backfillOrder| + 1;
    TakeConcat(init, walk, run.stopAfter);
    assert Take(init, run.stopAfter) == init;
    Assoc(log, init, Take(walk, left));
  }

  lemma BackfillThenWalk(log: seq<Row>, run: Run)
    requires ValidLog(log) && RunFits(log, run) && Backfills(log, run.forceAll)
    requires run.stopAfter > |run.backfillOrder|
    ensures Standing(After(log, run)) == OpeningDone(Standing(log), run)
  {
    var left := run.stopAfter - |run.backfillOrder| - 1;
    BackfillAgreesWithRescan(log, run);
    OpeningLogSplits(log, run);
    WalkTracksTruth(log + InitRows(log, run), run.sources, SkipSet(log, false), run.attempts, left);
    assert Members(run.backfillOrder) == Legacy(log);
  }

  lemma NoMarkersStandForNothing(log: seq<Row>)
    requires forall r :: r in log ==> !IsMarker(r)
    ensures Standing(log) == {} && !HasSentinel(log)
  {
    forall s ensures LastMarker(log, s) == Unmarked {
      UnmarkedSuffix([], log, s);
      assert [] + log == log;
    }
  }

  // ------------------------------------------------------------------
  // What every run keeps.

  lemma {:induction false} WalkRowsNameSources(sources: seq<string>, skip: set<string>,
      attempts: map<string, Attempt>, r: Row)
    requires forall s :: s in sources ==> IsSource(s) && s in attempts
    requires r in SourceRows(sources, skip, attempts)
    ensures IsSource(r.src)
  {
    if sources[0] in skip {
      WalkRowsNameSources(sources[1..], skip, attempts, r);
    } else {
      var plain := VerdictIsTheLastRow(sources[0], attempts[sources[0]]);
      if r !in AttemptRows(sources[0], attempts[sources[0]]) {
        WalkRowsNameSources(sources[1..], skip, attempts, r);
      }
    }
  }

  lemma {:induction false} DoneRowsNameSources(order: seq<string>, r: Row)
    requires r in DoneRows(order)
    ensures r.action.DoneAct? && r.src in order
  {
    if r != Row(DoneAct, order[0], "") {
      DoneRowsNameSources(order[1..], r);
    }
  }

  /** The only sentinel a run appends is its very first row, and only a default run on a
      log without one appends it. */
  lemma RunRowsShape(log: seq<Row>, run: Run)
    requires ValidLog(log) && RunFits(log, run)
    ensures ValidLog(RunRows(log, run))
    ensures forall i :: 0 <= i < |RunRows(log, run)| ==>
              (IsSentinel(RunRows(log, run)[i]) <==> i == 0 && Backfills(log, run.forceAll))
  {
    var rows := RunRows(log, run);
    var walk := SourceRows(run.sources, SkipSet(log, run.forceAll), run.attempts);
    forall i | 0 <= i < |rows|
      ensures IsSentinel(rows[i]) <==> i == 0 && Backfills(log, run.forceAll)
      ensures !rows[i].action.DoneAct? ==> rows[i].src != SENTINEL
    {
      if rows[i] in walk {
        WalkRowsNameSources(run.sources, SkipSet(log, run.forceAll), run.attempts, rows[i]);
      } else if i > 0 {
        assert rows[i] == DoneRows(run.backfillOrder)[i - 1];
        DoneRowsNameSources(run.backfillOrder, rows[i]);
        LegacyAreSources(log, rows[i].src);
      }
    }
  }

  lemma {:induction false} NoSentinelRows(rows: seq<Row>)
    requires forall i :: 0 <= i < |rows| ==> !IsSentinel(rows[i])
    ensures SentinelRows(rows) == 0
  {
    if rows != [] { NoSentinelRows(rows[..|rows| - 1]); }
  }

  lemma OneSentinelRow(rows: seq<Row>)
    requires rows != [] && IsSentinel(rows[0]) && forall i :: 0 < i < |rows| ==> !IsSentinel(rows[i])
    ensures SentinelRows(rows) == 1
  {
    assert rows == [rows[0]] + rows[1..];
    NoSentinelRows(rows[1..]);
    SentinelRowsConcat([rows[0]], rows[1..]);
    assert [rows[0]][..0] == [];
  }

  lemma RunKeepsLogValid(log: seq<Row>, run: Run)
    requires ValidLog(log) && RunFits(log, run)
    ensures ValidLog(After(log, run))
    ensures HasSentinel(After(log, run)) <==> HasSentinel(log) || (!run.forceAll && run.stopAfter > 0)
    ensures SentinelRows(After(log, run)) ==
            SentinelRows(log) + if Backfills(log, run.forceAll) && run.stopAfter > 0 then 1 else 0
  {
    RunRowsShape(log, run);
    var rows := RunRows(log, run);
    var put := Take(rows, run.stopAfter);
    SentinelRowsConcat(log, put);
    SentinelRowsMeans(log);
    SentinelRowsMeans(log + put);
    if Backfills(log, run.forceAll) && run.stopAfter > 0 {
      OneSentinelRow(put);
    } else {
      NoSentinelRows(put);
    }
  }

  // ------------------------------------------------------------------
  // Histories.

  /** Some default run got its first row down. */
  ghost predicate Opened(runs: seq<Run>) {
    runs != [] && var last := runs[|runs| - 1];
    Opened(runs[..|runs| - 1]) || (!last.forceAll && last.stopAfter > 0)
  }

  lemma {:induction false} HistoryKeepsLogValid(log: seq<Row>, runs: seq<Run>)
    requires ValidLog(log) && WellTyped(runs) && Happened(log, runs)
    ensures ValidLog(Replay(log, runs))
    ensures HasSentinel(Replay(log, runs)) <==> HasSentinel(log) || Opened(runs)
  {
    if runs != [] {
      var n := |runs| - 1;
      HistoryKeepsLogValid(log, runs[..n]);
      RunKeepsLogValid(Replay(log, runs[..n]), runs[n]);
    }
  }

  lemma {:induction false} OpenedMeans(runs: seq<Run>)
    ensures Opened(runs) <==> exists run :: run in runs && !run.forceAll && run.stopAfter > 0
  {
    if runs != [] {
      OpenedMeans(runs[..|runs| - 1]);
      assert runs == runs[..|runs| - 1] + [runs[|runs| - 1]];
    }
  }

  /** Over any history, whatever the mix of runs and wherever they die, the sentinel is
      written at most once, and no run backfills after it. */
  lemma {:induction false} SentinelAtMostOnce(log: seq<Row>, runs: seq<Run>)
    requires ValidLog(log) && WellTyped(runs) && Happened(log, runs)
    requires SentinelRows(log) <= 1
    ensures SentinelRows(Replay(log, runs)) <= 1
    ensures forall run :: SentinelRows(Replay(log, runs)) == 1 ==> InitRows(Replay(log, runs), run) == []
  {
    SentinelRowsMeans(Replay(log, runs));
    if runs != [] {
      var n := |runs| - 1;
      HistoryKeepsLogValid(log, runs[..n]);
      SentinelAtMostOnce(log, runs[..n]);
      SentinelRowsMeans(Replay(log, runs[..n]));
      RunKeepsLogValid(Replay(log, runs[..n]), runs[n]);
    }
  }

  lemma {:induction false} SilentRunsLeaveTheLog(log: seq<Row>, runs: seq<Run>)
    requires WellTyped(runs) && AllSilent(runs)
    ensures Replay(log, runs) == log
  {
    if runs != [] {
      var n := |runs| - 1;
      assert runs[n] in runs && forall i :: 0 <= i < n ==> runs[..n][i] == runs[i];
      assert Silent(runs[n]);
      SilentRunsLeaveTheLog(log, runs[..n]);
      assert Take(RunRows(log, runs[n]), runs[n].stopAfter) == [];
      assert log + [] == log;
    }
  }

  /** A history that opens with a default run opens with its last run or before it. */
  lemma OpensEarlier(runs: seq<Run>)
    requires WellTyped(runs) && OpensWithDefault(runs)
    ensures var n := |runs| - 1; if AllSilent(runs[..n]) then OpensAt(runs, n) else OpensWithDefault(runs[..n])
  {
    var k: nat :| OpensAt(runs, k);
    if k < |runs| - 1 { OpensBefore(runs, k); }
  }

  lemma OpensBefore(runs: seq<Run>, k: nat)
    requires WellTyped(runs) && OpensAt(runs, k) && k < |runs| - 1
    ensures !AllSilent(runs[..|runs| - 1]) && OpensWithDefault(runs[..|runs| - 1])
  {
    var front := runs[..|runs| - 1];
    assert front[k] == runs[k] && front[..k] == runs[..k];
    assert front[k] in front && !Silent(front[k]);
    assert OpensAt(front, k);
  }

  lemma OpensMeansOpened(runs: seq<Run>)
    requires WellTyped(runs) && OpensWithDefault(runs)
    ensures Opened(runs)
  {
    var k: nat :| OpensAt(runs, k);
    assert runs[k] in runs;
    OpenedMeans(runs);
  }

  lemma FirstRunOfAll(log: seq<Row>, runs: seq<Run>)
    requires BeforeFanOut(log) && WellTyped(runs) && Happened(log, runs) && runs != []
    requires AllSilent(runs[..|runs| - 1]) && !runs[|runs| - 1].forceAll
    ensures Standing(Replay(log, runs)) == Finished(runs)
  {
    var n := |runs| - 1;
    assert runs[n] in runs;
    SilentRunsLeaveTheLog(log, runs[..n]);
    NoMarkersStandForNothing(log);
    OpeningRunTracksTruth(log, runs[n]);
  }

  /** A run past the first one moves log and account alike. */
  lemma LaterRun(log: seq<Row>, run: Run, done: set<string>)
    requires ValidLog(log) && RunFits(log, run) && HasSentinel(log) && Standing(log) == done
    ensures Standing(After(log, run)) ==
            DoneAfter(run.sources, if run.forceAll then {} else done, run.attempts, run.stopAfter, done)
  {
    RunTracksTruth(log, run);
    assert SkipSet(log, run.forceAll) == if run.forceAll then {} else done;
  }

  lemma LastOfHistory(log: seq<Row>, runs: seq<Run>, front: seq<Run>, run: Run)
    requires WellTyped(runs) && runs != [] && front == runs[..|runs| - 1] && run == runs[|runs| - 1]
    ensures run in runs && WellTyped(front) && Replay(log, runs) == After(Replay(log, front), run)
    ensures Happened(log, runs) ==> Happened(log, front) && RunFits(Replay(log, front), run)
  {
    assert run in runs;
  }

  lemma LastOfAccount(runs: seq<Run>, front: seq<Run>, run: Run)
    requires WellTyped(runs) && runs != [] && front == runs[..|runs| - 1] && run == runs[|runs| - 1]
    requires WellTyped(front) && !AllSilent(front)
    ensures run in runs
    ensures Finished(runs) == DoneAfter(run.sources, if run.forceAll then {} else Finished(front), run.attempts,
                                        run.stopAfter, Finished(front))
  {
    assert run in runs;
  }

  lemma LaterHistory(log: seq<Row>, runs: seq<Run>, front: seq<Run>)
    requires ValidLog(log) && WellTyped(runs) && Happened(log, runs) && runs != [] && front == runs[..|runs| - 1]
    requires Opened(front) && !AllSilent(front) && Standing(Replay(log, front)) == Finished(front)
    ensures Standing(Replay(log, runs)) == Finished(runs)
  {
    var run := runs[|runs| - 1];
    LastOfHistory(log, runs, front, run);
    LastOfAccount(runs, front, run);
    HistoryKeepsLogValid(log, front);
    LaterRun(Replay(log, front), run, Finished(front));
  }

  /** Main theorem.  If the first run that gets a row down is a default run, then after any
      further runs, default or forced, dying anywhere, the next default run skips exactly the
      sources that are really finished. */
  lemma {:induction false} DefaultRunSkipsExactlyTheFinished(log: seq<Row>, runs: seq<Run>)
    requires BeforeFanOut(log) && WellTyped(runs) && Happened(log, runs)
    requires OpensWithDefault(runs)
    ensures Standing(Replay(log, runs)) == Finished(runs)
    ensures SkipSet(Replay(log, runs), false) == Finished(runs)
  {
    var front := runs[..|runs| - 1];
    OpensEarlier(runs);
    OpensMeansOpened(runs);
    HistoryKeepsLogValid(log, runs);
    if AllSilent(front) {
      FirstRunOfAll(log, runs);
    } else {
      DefaultRunSkipsExactlyTheFinished(log, front);
      OpensMeansOpened(front);
      LaterHistory(log, runs, front);
    }
  }

  // ------------------------------------------------------------------
  // Any history at all.

  /** How many rows of its walk a run that starts on `log` lives for. */
  ghost function WalkLife(log: seq<Row>, run: Run): nat {
    if !Backfills(log, run.forceAll) then run.stopAfter
    else if run.stopAfter > |run.backfillOrder| then run.stopAfter - 1 - |run.backfillOrder|
    else 0
  }

  /** The sources the run marks done unseen. */
  ghost function Backfilled(log: seq<Row>, run: Run): set<string> {
    if !Backfills(log, run.forceAll) || run.stopAfter == 0 then {}
    else if run.stopAfter > |run.backfillOrder| then Members(run.backfillOrder)
    else Members(run.backfillOrder[..run.stopAfter - 1])
  }

  /** The account over the sources each run really tries: what a recorded attempt has earned. */
  ghost function Earned(log: seq<Row>, runs: seq<Run>): set<string>
    requires WellTyped(runs)
  {
    if runs == [] then {}
    else
      var front, run := runs[..|runs| - 1], runs[|runs| - 1];
      assert run in runs;
      var before := Replay(log, front);
      DoneAfter(run.sources, SkipSet(before, run.forceAll), run.attempts, WalkLife(before, run), Earned(log, front))
  }

  /** The sources whose attempt in this run was recorded and settled something. */
  ghost function Decided(log: seq<Row>, run: Run): set<string>
    requires forall s :: s in run.sources ==> s in run.attempts
  {
    set s | s in run.sources && !Judge(run.attempts[s]).Undecided? &&
            Recorded(run.sources, SkipSet(log, run.forceAll), run.attempts, WalkLife(log, run), s)
  }

  /** What a backfill marked done and no recorded attempt has decided since. */
  ghost function Trusted(log: seq<Row>, runs: seq<Run>): set<string>
    requires WellTyped(runs)
  {
    if runs == [] then {}
    else
      var front, run := runs[..|runs| - 1], runs[|runs| - 1];
      assert run in runs;
      var before := Replay(log, front);
      Trusted(log, front) + Backfilled(before, run) - Decided(before, run)
  }

  /** A walk of no life records nothing that settles anything. */
  lemma {:induction false} DeadWalk(sources: seq<string>, skip: set<string>, attempts: map<string, Attempt>,
      done: set<string>)
    requires forall s :: s in sources ==> s in attempts
    ensures DoneAfter(sources, skip, attempts, 0, done) == done
  {
    if sources != [] {
      var plain := VerdictIsTheLastRow(sources[0], attempts[sources[0]]);
      DeadWalk(sources[1..], skip, attempts, done);
    }
  }

  /** One run: the log stands for what it stood for, with the backfill, after the walk. */
  lemma RunStands(log: seq<Row>, run: Run)
    requires ValidLog(log) && RunFits(log, run)
    ensures Standing(After(log, run)) ==
            DoneAfter(run.sources, SkipSet(log, run.forceAll), run.attempts, WalkLife(log, run),
                      Standing(log) + Backfilled(log, run))
  {
    if !Backfills(log, run.forceAll) {
      RunTracksTruth(log, run);
      assert Standing(log) + {} == Standing(log);
    } else {
      OpeningRunTracksTruth(log, run);
      if run.stopAfter > |run.backfillOrder| {
        assert Members(run.backfillOrder) == Legacy(log);
      } else {
        DeadWalk(run.sources, SkipSet(log, run.forceAll), run.attempts, Standing(log) + Backfilled(log, run));
        assert Standing(log) + {} == Standing(log);
      }
    }
  }

  /** The walk treats earned and trusted sources alike, and settles what it decides. */
  lemma WalkSplits(log: seq<Row>, run: Run, earned: set<string>, trusted: set<string>)
    requires RunFits(log, run)
    ensures var skip, life := SkipSet(log, run.forceAll), WalkLife(log, run);
            DoneAfter(run.sources, skip, run.attempts, life, earned + trusted) ==
            DoneAfter(run.sources, skip, run.attempts, life, earned) + (trusted - Decided(log, run))
  {
    var skip, life := SkipSet(log, run.forceAll), WalkLife(log, run);
    forall s
      ensures s in DoneAfter(run.sources, skip, run.attempts, life, earned + trusted) <==>
              s in DoneAfter(run.sources, skip, run.attempts, life, earned) + (trusted - Decided(log, run))
    {
      DoneAfterMeans(run.sources, skip, run.attempts, life, earned + trusted, s);
      DoneAfterMeans(run.sources, skip, run.attempts, life, earned, s);
    }
  }

  /** Main theorem for any mix of runs, dying anywhere: the log stands for the sources that
      recorded attempts have earned and for those a backfill is trusted on. */
  lemma {:induction false} EveryHistorySplits(log: seq<Row>, runs: seq<Run>)
    requires BeforeFanOut(log) && WellTyped(runs) && Happened(log, runs)
    ensures Standing(Replay(log, runs)) == Earned(log, runs) + Trusted(log, runs)
  {
    if runs == [] {
      NoMarkersStandForNothing(log);
    } else {
      var front, run := runs[..|runs| - 1], runs[|runs| - 1];
      assert run in runs;
      var before, trusted := Replay(log, front), Trusted(log, front);
      EveryHistorySplits(log, front);
      HistoryKeepsLogValid(log, front);
      RunStands(before, run);
      assert Standing(before) + Backfilled(before, run) == Earned(log, front) + (trusted + Backfilled(before, run));
      WalkSplits(before, run, Earned(log, front), trusted + Backfilled(before, run));
    }
  }

  /** So the next default run skips exactly what is earned iff the log trusts nothing else and,
      as long as it has no sentinel, nothing else passes for legacy. */
  lemma NextRunIsRightIff(log: seq<Row>, runs: seq<Run>)
    requires BeforeFanOut(log) && WellTyped(runs) && Happened(log, runs)
    ensures var after := Replay(log, runs);
            SkipSet(after, false) == Earned(log, runs) <==>
            Trusted(log, runs) <= Earned(log, runs) && (HasSentinel(after) || Legacy(after) <= Earned(log, runs))
  {
    EveryHistorySplits(log, runs);
    var after, earned, trusted := Replay(log, runs), Earned(log, runs), Trusted(log, runs);
    assert SkipSet(after, false) == earned + trusted + if HasSentinel(after) then {} else Legacy(after);
    assert trusted <= SkipSet(after, false) && (!HasSentinel(after) ==> Legacy(after) <= SkipSet(after, false));
  }

  /** Where the history opens with a default run, the two are what is really finished. */
  lemma FinishedIsEarnedOrTrusted(log: seq<Row>, runs: seq<Run>)
    requires BeforeFanOut(log) && WellTyped(runs) && Happened(log, runs) && OpensWithDefault(runs)
    ensures Finished(runs) == Earned(log, runs) + Trusted(log, runs)
  {
    EveryHistorySplits(log, runs);
    DefaultRunSkipsExactlyTheFinished(log, runs);
  }

  /** A default run tries nothing the log stands for, so what is trusted wrongly stays so until
      a forced run decides it. */
  lemma DefaultRunsKeepTrusting(log: seq<Row>, runs: seq<Run>, run: Run)
    requires BeforeFanOut(log) && WellTyped(runs + [run]) && WellTyped(runs) && Happened(log, runs)
    requires RunFits(Replay(log, runs), run) && !run.forceAll
    ensures Trusted(log, runs) <= Trusted(log, runs + [run])
  {
    EveryHistorySplits(log, runs);
    var before := Replay(log, runs);
    assert (runs + [run])[..|runs|] == runs;
    forall s | s in Trusted(log, runs) ensures s !in Decided(before, run) {
      assert s in Standing(before) && s in SkipSet(before, false);
      DoneAfterMeans(run.sources, SkipSet(before, false), run.attempts, WalkLife(before, run), {}, s);
    }
  }

  /** The case of forced runs alone: the next default run still trusts every page row, so it
      leaves out the finished sources and, wrongly, exactly those unfinished ones that have a
      page row and never a failure marker. */
  lemma {:induction false} ForcedFirstSkipsTooMuch(log: seq<Row>, runs: seq<Run>)
    requires BeforeFanOut(log) && WellTyped(runs) && Happened(log, runs)
    requires forall run :: run in runs ==> run.forceAll
    ensures Standing(Replay(log, runs)) == Finished(runs) && !HasSentinel(Replay(log, runs))
    ensures forall s :: s in SkipSet(Replay(log, runs), false) && s !in Finished(runs) <==>
                        s !in Finished(runs) && s != "" && HasPage(Replay(log, runs), s) &&
                          !EverFailed(Replay(log, runs), s)
  {
    NoMarkersStandForNothing(log);
    HistoryKeepsLogValid(log, runs);
    OpenedMeans(runs);
    if runs != [] {
      var n := |runs| - 1;
      assert runs[n] in runs && runs[0] in runs;
      HistoryKeepsLogValid(log, runs[..n]);
      ForcedFirstSkipsTooMuch(log, runs[..n]);
      RunTracksTruth(Replay(log, runs[..n]), runs[n]);
    }
    forall s { LegacyMeans(Replay(log, runs), s); }
  }

  /** One group parsed into a page, the provider gave up on the other. */
  const HALF_DONE: Attempt := Fanned([Parsed, ProviderGaveUp], false, [Stored("knowledge/note/p.md")])

  const FORCED_RUN: Run := Run(true, ["a.md"], map["a.md" := HALF_DONE], [], 9)

  /** The trace: one forced run on a fresh base leaves its source to be retried; the next
      default run nevertheless skips it. */
  lemma ForcedFirstCounterexample()
    ensures WellTyped([FORCED_RUN]) && Happened([], [FORCED_RUN])
    ensures Judge(HALF_DONE) == Undecided && "a.md" !in Finished([FORCED_RUN])
    ensures "a.md" in SkipSet(Replay([], [FORCED_RUN]), false)
  {
    var run := FORCED_RUN;
    assert [run][..0] == [];
    ForcedRunFits();
    OneHalfDoneSource("a.md", "knowledge/note/p.md");
    var rows := AttemptRows("a.md", HALF_DONE);
    assert run.sources[1..] == [];
    assert RunRows([], run) == rows by {
      assert SourceRows([], {}, run.attempts) == [];
    }
    assert Replay([], [run]) == rows;
    ForcedFirstSkipsTooMuch([], [run]);
    assert rows[1] in rows;
    assert "a.md" !in DoneAfter(run.sources, {}, run.attempts, 9, {}) by {
      DoneAfterMeans(run.sources, {}, run.attempts, 9, {}, "a.md");
    }
  }

  const NEXT_RUN: Run := Run(false, ["a.md"], map["a.md" := HALF_DONE], ["a.md"], 9)

  /** What the forced run leaves. */
  lemma AfterForcedRun()
    ensures Replay([], [FORCED_RUN]) == [Note("a.md"), Row(SynthAct, "a.md", "knowledge/note/p.md")]
  {
    var run := FORCED_RUN;
    OneHalfDoneSource("a.md", "knowledge/note/p.md");
    assert [run][..0] == [];
    assert run.sources[1..] == [];
    assert SourceRows([], {}, run.attempts) == [];
    assert RunRows([], run) == AttemptRows("a.md", HALF_DONE);
  }

  /** It passes for the legacy row of one source. */
  lemma NextRunFits()
    ensures var before := Replay([], [FORCED_RUN]);
            ValidLog(before) && !HasSentinel(before) && Legacy(before) == {"a.md"} && RunFits(before, NEXT_RUN)
  {
    var before := Replay([], [FORCED_RUN]);
    AfterForcedRun();
    assert before[1] in before && HasPage(before, "a.md");
    assert |"a.md"| == 4 && |SENTINEL| == 33;
    forall s ensures s in Legacy(before) <==> s == "a.md" { LegacyMeans(before, s); }
  }

  lemma ForcedRunEarnsNothing()
    ensures "a.md" !in Earned([], [FORCED_RUN])
  {
    assert [FORCED_RUN][..0] == [];
    ForcedRunFits();
    assert Earned([], []) == {};
    DoneAfterMeans(FORCED_RUN.sources, {}, FORCED_RUN.attempts, 9, {}, "a.md");
  }

  /** The trace goes on: the next default run backfills a done marker for the half-done source,
      which nothing has earned and no default run will ever take back. */
  lemma WrongMarkerStays()
    ensures var runs := [FORCED_RUN] + [NEXT_RUN];
            && WellTyped(runs) && Happened([], runs) && HasSentinel(Replay([], runs))
            && "a.md" in Standing(Replay([], runs)) && "a.md" !in Earned([], runs)
  {
    var runs := [FORCED_RUN] + [NEXT_RUN];
    var before := Replay([], [FORCED_RUN]);
    ForcedFirstCounterexample();
    NextRunFits();
    ForcedRunEarnsNothing();
    assert runs[..1] == [FORCED_RUN];
    RunKeepsLogValid(before, NEXT_RUN);
    assert Backfilled(before, NEXT_RUN) == {"a.md"};
    assert Decided(before, NEXT_RUN) == {} by { ForcedRunFits(); }
    EveryHistorySplits([], runs);
    ForcedRunFits();
    DoneAfterMeans(NEXT_RUN.sources, SkipSet(before, false), NEXT_RUN.attempts, WalkLife(before, NEXT_RUN),
                   Earned([], [FORCED_RUN]), "a.md");
  }

  lemma ForcedRunFits()
    ensures RunFits([], FORCED_RUN) && Judge(HALF_DONE) == Undecided
  {
    assert |"a.md"| == 4 && |SENTINEL| == 33;
    assert NeedsRetry(HALF_DONE.groups[1]) && HALF_DONE.groups[1] in HALF_DONE.groups;
  }

  lemma OneHalfDoneSource(s: string, page: string)
    ensures AttemptRows(s, Fanned([Parsed, ProviderGaveUp], false, [Stored(page)])) == [Note(s), Row(SynthAct, s, page)]
  {
    var groups, pages := [Parsed, ProviderGaveUp], [Stored(page)];
    assert groups[1..] == [ProviderGaveUp] && [ProviderGaveUp][1..] == [] && pages[1..] == [];
    assert GroupNotes(s, [ProviderGaveUp]) == [Note(s)];
    assert ParseErrors([ProviderGaveUp]) == 1;
    assert PageRows(s, []) == [];
  }

  /** A recorded failure has its marker in the log. */
  lemma {:induction false} RecordedFailureIsLogged(sources: seq<string>, skip: set<string>,
      attempts: map<string, Attempt>, life: nat, s: string)
    requires forall x :: x in sources ==> x in attempts
    requires Recorded(sources, skip, attempts, life, s) && s in attempts && Judge(attempts[s]).Invalidated?
    ensures Row(FailedAct, s, "") in Take(SourceRows(sources, skip, attempts), life)
  {
    var x, rest := sources[0], sources[1..];
    if x in skip {
      RecordedFailureIsLogged(rest, skip, attempts, life, s);
    } else {
      var mine := AttemptRows(x, attempts[x]);
      var more := if Aborts(attempts[x]) then [] else SourceRows(rest, skip, attempts);
      TakeConcat(mine, more, life);
      if x == s {
        var plain := VerdictIsTheLastRow(s, attempts[s]);
        assert Row(FailedAct, s, "") in mine;
      } else {
        RecordedFailureIsLogged(rest, skip, attempts, life - |mine|, s);
      }
    }
  }

  /** What the log stands for after a run that broke or cancelled a page of `s`. */
  lemma BrokenPageStanding(log: seq<Row>, run: Run, s: string)
    requires ValidLog(log) && RunFits(log, run)
    requires s in run.sources && s !in SkipSet(log, run.forceAll) && Judge(run.attempts[s]).Invalidated?
    ensures s in Standing(After(log, run)) <==>
            s in Standing(log) && !Recorded(run.sources, {}, run.attempts, run.stopAfter, s)
  {
    var order := run.backfillOrder;
    if !Backfills(log, run.forceAll) {
      RunTracksTruth(log, run);
      DoneAfterMeans(run.sources, SkipSet(log, run.forceAll), run.attempts, run.stopAfter, Standing(log), s);
    } else {
      OpeningRunTracksTruth(log, run);
      assert s !in order;
      var start := Standing(log) + Members(order);
      if run.stopAfter > |order| {
        DoneAfterMeans(run.sources, start, run.attempts, run.stopAfter - 1 - |order|, start, s);
      }
    }
  }

  /** A source whose page failed to persist, or was cancelled, is open again for the next
      default run, with two exceptions, both of which only a forced run can meet and both of
      which need the failure marker not to have gone down: the source had been done before,
      or the log has no sentinel and a page row of the source. */
  lemma FailedPersistReopens(log: seq<Row>, run: Run, s: string)
    requires ValidLog(log) && RunFits(log, run)
    requires s in run.sources && s !in SkipSet(log, run.forceAll) && Judge(run.attempts[s]).Invalidated?
    ensures var after := After(log, run);
            s in SkipSet(after, false) <==>
            || (s in Standing(log) && !Recorded(run.sources, {}, run.attempts, run.stopAfter, s))
            || (!HasSentinel(after) && HasPage(after, s) && !EverFailed(after, s))
    ensures !run.forceAll ==> s !in SkipSet(After(log, run), false)
    ensures Recorded(run.sources, {}, run.attempts, run.stopAfter, s) ==> s !in SkipSet(After(log, run), false)
  {
    BrokenPageStanding(log, run, s);
    RunKeepsLogValid(log, run);
    LegacyMeans(log, s);
    LegacyMeans(After(log, run), s);
    if run.forceAll && Recorded(run.sources, {}, run.attempts, run.stopAfter, s) {
      RecordedFailureIsLogged(run.sources, {}, run.attempts, run.stopAfter, s);
      assert RunRows(log, run) == SourceRows(run.sources, {}, run.attempts);
      assert Row(FailedAct, s, "") in After(log, run);
    }
    if !run.forceAll && run.stopAfter == 0 {
      assert After(log, run) == log;
    }
  }

  /** The exception is real: a forced run breaks a page of a done source and dies before
      the failure marker, and the stale done marker wins. */
  lemma StaleDoneMarkerCounterexample()
    ensures var log := [Row(DoneAct, SENTINEL, ""), Row(DoneAct, "a.md", "")];
            var run := Run(true, ["a.md"], map["a.md" := Fanned([Parsed], false, [Broken("p.md")])], [], 0);
            && ValidLog(log) && RunFits(log, run) && Judge(run.attempts["a.md"]).Invalidated?
            && "a.md" in SkipSet(After(log, run), false)
  {
    var log := [Row(DoneAct, SENTINEL, ""), Row(DoneAct, "a.md", "")];
    var a := Fanned([Parsed], false, [Broken("p.md")]);
    var run := Run(true, ["a.md"], map["a.md" := a], [], 0);
    assert log[0] in log && IsSentinel(log[0]);
    assert a.pages[0] in a.pages;
    assert Take(RunRows(log, run), 0) == [];
    assert After(log, run) == log;
    assert log == [log[0]] + [log[1]];
    AppendedMarker([log[0]], log[1], "a.md");
    StandingMeans(log, "a.md");
  }

  const BROKEN_LATER: Attempt := Fanned([Parsed], false, [Stored("p.md"), Broken("q.md")])

  const BROKEN_RUN: Run := Run(true, ["a.md"], map["a.md" := BROKEN_LATER], [], 1)

  lemma OnePageDown()
    ensures RunFits([], BROKEN_RUN) && After([], BROKEN_RUN) == [Row(SynthAct, "a.md", "p.md")]
  {
    var run := BROKEN_RUN;
    assert |"a.md"| == 4 && |SENTINEL| == 33;
    assert run.sources[1..] == [] && [Parsed][1..] == [];
    assert GroupNotes("a.md", [Parsed]) == [];
    assert RunRows([], run)[0] == Row(SynthAct, "a.md", "p.md");
  }

  lemma OnePageIsLegacy(log: seq<Row>, s: string, page: string)
    requires log == [Row(SynthAct, s, page)] && s != "" && page != ""
    ensures s in SkipSet(log, false)
  {
    assert log[0] in log && HasPage(log, s);
    LegacyMeans(log, s);
  }

  /** So is the other: on a log without a sentinel a forced run stores one page, breaks the
      next and dies; the source was never done, and its page row alone passes for legacy. */
  lemma NeverDoneCounterexample()
    ensures RunFits([], BROKEN_RUN) && Judge(BROKEN_LATER).Invalidated? && "a.md" !in Standing([])
    ensures "a.md" in SkipSet(After([], BROKEN_RUN), false)
  {
    assert BROKEN_LATER.pages[1] in BROKEN_LATER.pages;
    OnePageDown();
    OnePageIsLegacy(After([], BROKEN_RUN), "a.md", "p.md");
  }

  // ------------------------------------------------------------------
  // What the rows of an attempt and of a walk are, read off the outcomes themselves.

  /** Nothing of the group has to be asked for again. */
  lemma RetryMeans(g: GroupOutcome)
    ensures NeedsRetry(g) <==> !(g.Parsed? || g.PartialKept?)
  {
  }

  /** An attempt appends a done marker iff there was nothing to group, or every group parsed, in
      whole or in the part that is kept, and every page was stored; a failure marker iff a page
      was not. */
  lemma AttemptMarkers(s: string, a: Attempt)
    ensures (exists r :: r in AttemptRows(s, a) && r.action.DoneAct?) <==>
            a.Fanned? && (a.groups == [] || ((forall g :: g in a.groups ==> g.Parsed? || g.PartialKept?) &&
                                             (forall p :: p in a.pages ==> p.Stored?)))
    ensures (exists r :: r in AttemptRows(s, a) && r.action.FailedAct?) <==>
            a.Fanned? && a.groups != [] && exists p :: p in a.pages && !p.Stored?
  {
    var plain := VerdictIsTheLastRow(s, a);
    forall g: GroupOutcome ensures NeedsRetry(g) <==> !(g.Parsed? || g.PartialKept?) { RetryMeans(g); }
    if !Judge(a).Undecided? { assert VerdictRows(s, Judge(a))[0] in AttemptRows(s, a); }
  }

  /** Exactly the pages stored before any cancel have a page row. */
  lemma {:induction false} PageRowsMean(s: string, pages: seq<PageOutcome>, path: string)
    ensures Row(SynthAct, s, path) in PageRows(s, pages) <==>
            exists i :: 0 <= i < |pages| && pages[i] == Stored(path) && forall j :: 0 <= j < i ==> !pages[j].Cancelled?
  {
    if pages != [] {
      var rest := pages[1..];
      PageRowsMean(s, rest, path);
      if i :| 0 <= i < |rest| && rest[i] == Stored(path) && forall j :: 0 <= j < i ==> !rest[j].Cancelled? {
        assert pages[i + 1] == rest[i];
        forall j | 0 < j < i + 1 ensures !pages[j].Cancelled? { assert pages[j] == rest[j - 1]; }
        assert !pages[0].Cancelled? ==> forall j :: 0 <= j < i + 1 ==> !pages[j].Cancelled?;
      }
      if i :| 0 <= i < |pages| && pages[i] == Stored(path) && forall j :: 0 <= j < i ==> !pages[j].Cancelled? {
        if i > 0 {
          assert rest[i - 1] == pages[i];
          forall j | 0 <= j < i - 1 ensures !rest[j].Cancelled? { assert rest[j] == pages[j + 1]; }
        }
      }
    }
  }

  /** Page by page: a stored page appends its row, a broken one nothing, a cancel the failure
      marker, and after a cancel nothing follows. */
  lemma {:induction false} PageRowsAppend(s: string, pages: seq<PageOutcome>, p: PageOutcome)
    ensures PageRows(s, pages + [p]) == PageRows(s, pages) +
            if exists q :: q in pages && q.Cancelled? then []
            else match p
              case Stored(path) => [Row(SynthAct, s, path)]
              case Broken(_) => []
              case Cancelled(_) => [Row(FailedAct, s, "")]
  {
    if pages == [] {
      assert [p][1..] == [] && [p][0] == p;
    } else {
      assert (pages + [p])[1..] == pages[1..] + [p];
      PageRowsAppend(s, pages[1..], p);
      assert pages[0] in pages && forall q :: q in pages <==> q == pages[0] || q in pages[1..];
    }
  }

  /** Source by source: one that the walk gets to appends its attempt's rows. */
  lemma {:induction false} SourceRowsAppend(sources: seq<string>, skip: set<string>, attempts: map<string, Attempt>,
      s: string)
    requires s in attempts && forall x :: x in sources ==> x in attempts
    ensures SourceRows(sources + [s], skip, attempts) == SourceRows(sources, skip, attempts) +
            if Reaches(sources + [s], skip, attempts, |sources|) then AttemptRows(s, attempts[s]) else []
  {
    var all := sources + [s];
    if sources == [] {
      assert all == [s];
      LoneSource(s, skip, attempts);
    } else {
      var rest := all[1..];
      assert rest == sources[1..] + [s] && all[0] == sources[0];
      SourceRowsAppend(sources[1..], skip, attempts, s);
      ReachesNext(all, skip, attempts, |sources| - 1);
      var reached := Reaches(rest, skip, attempts, |sources| - 1);
      AppendThrough(all, sources, skip, attempts, if reached then AttemptRows(s, attempts[s]) else []);
    }
  }

  lemma LoneSource(s: string, skip: set<string>, attempts: map<string, Attempt>)
    requires s in attempts
    ensures SourceRows([s], skip, attempts) == if s in skip then [] else AttemptRows(s, attempts[s])
    ensures Reaches([s], skip, attempts, 0) <==> s !in skip
  {
    assert [s][1..] == [] && SourceRows([], skip, attempts) == [];
  }

  /** What is added to the rest of a walk is added to the walk, if its first source lets it on. */
  lemma AppendThrough(all: seq<string>, sources: seq<string>, skip: set<string>, attempts: map<string, Attempt>,
      more: seq<Row>)
    requires sources != [] && all != [] && all[0] == sources[0]
    requires (forall x :: x in all ==> x in attempts) && forall x :: x in sources ==> x in attempts
    requires SourceRows(all[1..], skip, attempts) == SourceRows(sources[1..], skip, attempts) + more
    ensures SourceRows(all, skip, attempts) == SourceRows(sources, skip, attempts) +
            if sources[0] in skip || !Aborts(attempts[sources[0]]) then more else []
  {
    var rows := AttemptRows(sources[0], attempts[sources[0]]);
    Assoc(rows, SourceRows(sources[1..], skip, attempts), more);
  }

  lemma {:induction false} GroupNotesAppend(s: string, groups: seq<GroupOutcome>, g: GroupOutcome)
    ensures GroupNotes(s, groups + [g]) == GroupNotes(s, groups) + if g.Parsed? then [] else [Row(SynthAct, s, "")]
    ensures ParseErrors(groups + [g]) == ParseErrors(groups) + if g.Parsed? || g.PartialKept? then 0 else 1
  {
    if groups != [] {
      assert (groups + [g])[1..] == groups[1..] + [g];
      GroupNotesAppend(s, groups[1..], g);
    } else {
      assert [g][1..] == [];
    }
  }

  function Noted(groups: seq<GroupOutcome>): set<nat> { set i: nat | i < |groups| && !groups[i].Parsed? }

  function Unsettled(groups: seq<GroupOutcome>): set<nat> {
    set i: nat | i < |groups| && !groups[i].Parsed? && !groups[i].PartialKept?
  }

  lemma OneMore(before: set<nat>, after: set<nat>, n: nat, more: bool)
    requires n !in before && forall i: nat :: i in after <==> i in before || (more && i == n)
    ensures |after| == |before| + if more then 1 else 0
  {
    if more {
      assert after == before + {n};
    } else {
      assert after == before;
    }
  }

  lemma NotedGrow(groups: seq<GroupOutcome>, g: GroupOutcome)
    ensures |Noted(groups + [g])| == |Noted(groups)| + if g.Parsed? then 0 else 1
  {
    assert forall i: nat :: i < |groups| ==> (groups + [g])[i] == groups[i];
    OneMore(Noted(groups), Noted(groups + [g]), |groups|, !g.Parsed?);
  }

  lemma UnsettledGrow(groups: seq<GroupOutcome>, g: GroupOutcome)
    ensures |Unsettled(groups + [g])| == |Unsettled(groups)| + if g.Parsed? || g.PartialKept? then 0 else 1
  {
    assert forall i: nat :: i < |groups| ==> (groups + [g])[i] == groups[i];
    OneMore(Unsettled(groups), Unsettled(groups + [g]), |groups|, !g.Parsed? && !g.PartialKept?);
  }

  /** One note for each group that did not simply parse, and one error for each that has to be
      asked for again. */
  lemma {:induction false} GroupNotesCount(s: string, groups: seq<GroupOutcome>)
    ensures |GroupNotes(s, groups)| == |Noted(groups)| && ParseErrors(groups) == |Unsettled(groups)|
    ensures forall r :: r in GroupNotes(s, groups) ==> r == Row(SynthAct, s, "")
  {
    if groups != [] {
      var front, g := groups[..|groups| - 1], groups[|groups| - 1];
      assert groups == front + [g];
      GroupNotesCount(s, front);
      GroupNotesAppend(s, front, g);
      NotedGrow(front, g);
      UnsettledGrow(front, g);
    }
  }

  /** A source whose body is gone or has drifted gets one note, an interrupted one nothing. */
  lemma UnfannedRows(s: string)
    ensures AttemptRows(s, BodyMissing) == AttemptRows(s, BodyDrifted) == [Row(SynthAct, s, "")]
    ensures AttemptRows(s, Interrupted) == []
  {
  }

  /** One that was fanned out opens with its notes: one for each group that did not simply parse,
      one more when a priority list was shown, and one when there was nothing to group.  Its page
      rows follow, and last its marker, if the outcomes earn it one. */
  lemma FannedRows(s: string, groups: seq<GroupOutcome>, surfaced: bool, pages: seq<PageOutcome>)
    returns (notes: seq<Row>, rest: seq<Row>)
    ensures AttemptRows(s, Fanned(groups, surfaced, pages)) == notes + rest
    ensures |notes| == |Noted(groups)| + (if surfaced then 1 else 0) + (if groups == [] then 1 else 0)
    ensures forall r :: r in notes ==> r == Row(SynthAct, s, "")
    ensures groups == [] ==> rest == [Row(DoneAct, s, "")]
    ensures rest ==
            if groups == [] then [Row(DoneAct, s, "")]
            else PageRows(s, pages) +
                 if exists p :: p in pages && p.Cancelled? then []
                 else if exists p :: p in pages && p.Broken? then [Row(FailedAct, s, "")]
                 else if forall g :: g in groups ==> g.Parsed? || g.PartialKept? then [Row(DoneAct, s, "")]
                 else []
  {
    SettledMeans(groups);
    GroupNotesCount(s, groups);
    notes, rest := OutcomeNotes(s, groups, surfaced), SettlingRows(s, groups, pages);
    if groups == [] {
      notes, rest := notes + [Row(SynthAct, s, "")], [Row(DoneAct, s, "")];
    }
  }

  lemma {:induction false} SettledMeans(groups: seq<GroupOutcome>)
    ensures ParseErrors(groups) == 0 <==> forall g :: g in groups ==> g.Parsed? || g.PartialKept?
  {
    if groups != [] {
      SettledMeans(groups[1..]);
      assert forall g :: g in groups <==> g == groups[0] || g in groups[1..];
      RetryMeans(groups[0]);
    }
  }

  /** A walk gets to source `i` unless an earlier one that it tries ends the run: by a cancel or
      a permanent error in its groups, or by a cancel in its pages. */
  ghost predicate Reaches(sources: seq<string>, skip: set<string>, attempts: map<string, Attempt>, i: nat)
    requires forall s :: s in sources ==> s in attempts
  {
    && i < |sources| && sources[i] !in skip
    && forall j :: 0 <= j < i && sources[j] !in skip ==>
         var a := attempts[sources[j]];
         !a.Interrupted? && (a.Fanned? && a.groups != [] ==> forall p :: p in a.pages ==> !p.Cancelled?)
  }

  /** The rows of a walk are those of the attempts it gets to. */
  lemma {:induction false} WalkRowsMean(sources: seq<string>, skip: set<string>, attempts: map<string, Attempt>, r: Row)
    requires forall s :: s in sources ==> s in attempts
    ensures r in SourceRows(sources, skip, attempts) <==>
            exists i: nat :: Reaches(sources, skip, attempts, i) && r in AttemptRows(sources[i], attempts[sources[i]])
  {
    if sources != [] {
      var rest := sources[1..];
      WalkRowsMean(rest, skip, attempts, r);
      assert forall i :: 0 <= i < |rest| ==> rest[i] == sources[i + 1];
      var through := sources[0] in skip || !Aborts(attempts[sources[0]]);
      forall i: nat ensures Reaches(sources, skip, attempts, i + 1) <==> through && Reaches(rest, skip, attempts, i) {
        ReachesNext(sources, skip, attempts, i);
      }
      if i: nat :| Reaches(rest, skip, attempts, i) && r in AttemptRows(rest[i], attempts[rest[i]]) {
        if through { assert Reaches(sources, skip, attempts, i + 1); }
      }
      if i: nat :| Reaches(sources, skip, attempts, i) && r in AttemptRows(sources[i], attempts[sources[i]]) {
        if i > 0 { assert Reaches(rest, skip, attempts, i - 1); }
      }
      if sources[0] !in skip { assert Reaches(sources, skip, attempts, 0); }
    }
  }

  lemma ReachesNext(sources: seq<string>, skip: set<string>, attempts: map<string, Attempt>, i: nat)
    requires sources != [] && forall s :: s in sources ==> s in attempts
    ensures Reaches(sources, skip, attempts, i + 1) <==>
            (sources[0] in skip || !Aborts(attempts[sources[0]])) && Reaches(sources[1..], skip, attempts, i)
  {
    var rest := sources[1..];
    assert forall k :: 0 <= k < |rest| ==> rest[k] == sources[k + 1];
    if Reaches(sources, skip, attempts, i + 1) {
      assert sources[0] !in skip ==> !Aborts(attempts[sources[0]]);
      forall j | 0 <= j < i && rest[j] !in skip
        ensures var a := attempts[rest[j]];
                !a.Interrupted? && (a.Fanned? && a.groups != [] ==> forall p :: p in a.pages ==> !p.Cancelled?)
      {
        assert sources[j + 1] == rest[j];
      }
    }
    if (sources[0] in skip || !Aborts(attempts[sources[0]])) && Reaches(rest, skip, attempts, i) {
      forall j | 0 <= j < i + 1 && sources[j] !in skip
        ensures var a := attempts[sources[j]];
                !a.Interrupted? && (a.Fanned? && a.groups != [] ==> forall p :: p in a.pages ==> !p.Cancelled?)
      {
        if j > 0 { assert rest[j - 1] == sources[j]; }
      }
    }
  }

  /** A done marker outside the backfill is always earned: every group parsed, in whole or in
      the part that is kept, and every page was stored, or there was nothing to group. */
  lemma DoneMarkersAreEarned(sources: seq<string>, skip: set<string>, attempts: map<string, Attempt>, r: Row)
    requires forall s :: s in sources ==> s in attempts
    requires r in SourceRows(sources, skip, attempts) && r.action.DoneAct?
    ensures r.src in sources && r.src !in skip
    ensures attempts[r.src].Fanned? && var a := attempts[r.src];
            a.groups == [] || ((forall g :: g in a.groups ==> g.Parsed? || g.PartialKept?) &&
                               (forall p :: p in a.pages ==> p.Stored?))
  {
    WalkRowsMean(sources, skip, attempts, r);
    var i: nat :| Reaches(sources, skip, attempts, i) && r in AttemptRows(sources[i], attempts[sources[i]]);
    RowsNameTheirSource(sources[i], attempts[sources[i]], r);
    AttemptMarkers(sources[i], attempts[sources[i]]);
  }

  lemma RowsNameTheirSource(s: string, a: Attempt, r: Row)
    requires r in AttemptRows(s, a)
    ensures r.src == s
  {
    var plain := VerdictIsTheLastRow(s, a);
  }
}

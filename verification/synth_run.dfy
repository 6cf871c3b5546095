/** What one `synthesize` run appends to the log, and what a sequence of runs, each of
    which may die after any append, leaves the next default run to skip. */
module SynthRun {
  import opened KnowledgeLog
  import opened Sequences

  datatype GroupOutcome = Parsed | PartialKept | PartialRetry | Unparsed | ProviderGaveUp

  /** How persisting one deduplicated page ended. */
  datatype PageOutcome = Stored(path: string) | Broken(path: string) | Cancelled(path: string)

  /** What happens to one source that a run does not skip.  `Interrupted` is a cancel or a
      permanent provider error raised out of the group loop, before anything is appended. */
  datatype Attempt =
    | BodyMissing
    | BodyDrifted
    | Interrupted
    | Fanned(groups: seq<GroupOutcome>, surfaced: bool, pages: seq<PageOutcome>)

  /** One run.  `stopAfter` is the number of appends the process survives; the order in
      which the backfill walks its set is a parameter (sorted, in the program). */
  datatype Run = Run(forceAll: bool, sources: seq<string>, attempts: map<string, Attempt>,
      backfillOrder: seq<string>, stopAfter: nat)

  // ------------------------------------------------------------------
  // The rows an uninterrupted run appends.

  predicate NeedsRetry(g: GroupOutcome) { g.PartialRetry? || g.Unparsed? || g.ProviderGaveUp? }

  function ParseErrors(groups: seq<GroupOutcome>): nat {
    if groups == [] then 0 else (if NeedsRetry(groups[0]) then 1 else 0) + ParseErrors(groups[1..])
  }

  function Note(s: string): Row { Row(SynthAct, s, "") }

  function GroupNotes(s: string, groups: seq<GroupOutcome>): seq<Row> {
    if groups == [] then []
    else (if groups[0].Parsed? then [] else [Note(s)]) + GroupNotes(s, groups[1..])
  }

  ghost predicate AnyBroken(pages: seq<PageOutcome>) { exists p :: p in pages && p.Broken? }

  ghost predicate AnyCancelled(pages: seq<PageOutcome>) { exists p :: p in pages && p.Cancelled? }

  /** Page rows in order; a cancel writes the failure marker and ends the run. */
  function PageRows(s: string, pages: seq<PageOutcome>): seq<Row> {
    if pages == [] then []
    else match pages[0]
      case Stored(path) => [Row(SynthAct, s, path)] + PageRows(s, pages[1..])
      case Broken(_) => PageRows(s, pages[1..])
      case Cancelled(_) => [Row(FailedAct, s, "")]
  }

  ghost function ClosingRows(s: string, groups: seq<GroupOutcome>, broken: bool): seq<Row> {
    if broken then [Row(FailedAct, s, "")]
    else if ParseErrors(groups) == 0 then [Row(DoneAct, s, "")]
    else []
  }

  ghost function AttemptRows(s: string, a: Attempt): seq<Row> {
    match a
    case BodyMissing => [Note(s)]
    case BodyDrifted => [Note(s)]
    case Interrupted => []
    case Fanned(groups, surfaced, pages) =>
      OutcomeNotes(s, groups, surfaced) + SettlingRows(s, groups, pages)
  }

  /** One note per group that did not parse cleanly, then the priority-create note. */
  function OutcomeNotes(s: string, groups: seq<GroupOutcome>, surfaced: bool): seq<Row> {
    GroupNotes(s, groups) + if surfaced then [Note(s)] else []
  }

  ghost function SettlingRows(s: string, groups: seq<GroupOutcome>, pages: seq<PageOutcome>): seq<Row> {
    if groups == [] then [Note(s), Row(DoneAct, s, "")]
    else PageRows(s, pages) + if AnyCancelled(pages) then [] else ClosingRows(s, groups, AnyBroken(pages))
  }

  ghost predicate Aborts(a: Attempt) {
    a.Interrupted? || (a.Fanned? && a.groups != [] && AnyCancelled(a.pages))
  }

  ghost function SourceRows(sources: seq<string>, skip: set<string>, attempts: map<string, Attempt>): seq<Row>
    requires forall s :: s in sources ==> s in attempts
  {
    if sources == [] then []
    else if sources[0] in skip then SourceRows(sources[1..], skip, attempts)
    else
      var rest := if Aborts(attempts[sources[0]]) then [] else SourceRows(sources[1..], skip, attempts);
      AttemptRows(sources[0], attempts[sources[0]]) + rest
  }

  /** What the sources from the `i`-th on append. */
  ghost function RowsFrom(run: Run, skip: set<string>, i: nat): seq<Row>
    requires i <= |run.sources| && forall s :: s in run.sources ==> s in run.attempts
  {
    SourceRows(run.sources[i..], skip, run.attempts)
  }

  lemma RowsFromNext(run: Run, skip: set<string>, i: nat)
    requires i < |run.sources| && forall s :: s in run.sources ==> s in run.attempts
    ensures run.sources[i] in run.attempts
    ensures RowsFrom(run, skip, i) ==
            if run.sources[i] in skip then RowsFrom(run, skip, i + 1)
            else AttemptRows(run.sources[i], run.attempts[run.sources[i]]) +
                 if Aborts(run.attempts[run.sources[i]]) then [] else RowsFrom(run, skip, i + 1)
  {
    assert run.sources[i..][1..] == run.sources[i + 1..];
  }

  function DoneRows(order: seq<string>): seq<Row> {
    if order == [] then [] else [Row(DoneAct, order[0], "")] + DoneRows(order[1..])
  }

  ghost predicate Backfills(log: seq<Row>, forceAll: bool) { !forceAll && !HasSentinel(log) }

  ghost function InitRows(log: seq<Row>, run: Run): seq<Row> {
    if Backfills(log, run.forceAll)
    then [Row(DoneAct, SENTINEL, "")] + DoneRows(run.backfillOrder)
    else []
  }

  /** The sources a run starting on `log` leaves out. */
  ghost function SkipSet(log: seq<Row>, forceAll: bool): set<string> {
    if forceAll then {}
    else Standing(log) + if HasSentinel(log) then {} else Legacy(log)
  }

  ghost function RunRows(log: seq<Row>, run: Run): seq<Row>
    requires forall s :: s in run.sources ==> s in run.attempts
  {
    InitRows(log, run) + SourceRows(run.sources, SkipSet(log, run.forceAll), run.attempts)
  }

  /** The log after a run that dies once `stopAfter` rows are down. */
  ghost function After(log: seq<Row>, run: Run): seq<Row>
    requires forall s :: s in run.sources ==> s in run.attempts
  {
    log + Take(RunRows(log, run), run.stopAfter)
  }

  // ------------------------------------------------------------------
  // What callers guarantee.

  ghost predicate Enumerates(order: seq<string>, xs: set<string>) {
    Distinct(order) && forall s :: s in order <==> s in xs
  }

  /** The sentinel is no file path, so no page or failure row carries it. */
  ghost predicate ValidLog(log: seq<Row>) {
    forall r :: r in log && !r.action.DoneAct? ==> r.src != SENTINEL
  }

  /** Source paths are a key of the document table; page paths are never empty. */
  ghost predicate ValidRun(run: Run) {
    && Distinct(run.sources)
    && (forall s :: s in run.sources ==> IsSource(s) && s in run.attempts && ValidAttempt(run.attempts[s]))
  }

  ghost predicate ValidAttempt(a: Attempt) {
    a.Fanned? ==> (a.groups == [] ==> !a.surfaced) && forall p :: p in a.pages ==> p.path != ""
  }

  ghost predicate RunFits(log: seq<Row>, run: Run) {
    ValidRun(run) && (Backfills(log, run.forceAll) ==> Enumerates(run.backfillOrder, Legacy(log)))
  }

  // ------------------------------------------------------------------
  // The same run, as the program makes it.

  lemma TakeConcat<T>(a: seq<T>, b: seq<T>, n: nat)
    ensures |Take(a, n)| <= n
    ensures Take(a + b, n) == Take(a, n) + Take(b, n - |Take(a, n)|)
    ensures |a| > n ==> Take(a + b, n) == Take(a, n)
  {
    if n < |a| {
      assert (a + b)[..n] == a[..n];
      assert Take(b, 0) == [] && a[..n] + [] == a[..n];
    } else if n < |a| + |b| {
      assert (a + b)[..n] == a + b[..n - |a|];
    }
  }

  lemma PagesNext(pages: seq<PageOutcome>, i: nat)
    requires i < |pages|
    ensures AnyBroken(pages[..i + 1]) <==> AnyBroken(pages[..i]) || pages[i].Broken?
    ensures AnyCancelled(pages[..i + 1]) <==> AnyCancelled(pages[..i]) || pages[i].Cancelled?
    ensures pages[i].Cancelled? ==> AnyCancelled(pages)
  {
    assert pages[..i + 1] == pages[..i] + [pages[i]];
    assert pages[i] in pages && pages[i] in pages[..i + 1];
    assert forall p :: p in pages[..i] ==> p in pages[..i + 1];
  }

  /** The log table as one process sees it: `life` counts the appends it still survives. */
  class LogWriter {
    var log: seq<Row>
    var life: nat

    constructor (log: seq<Row>, life: nat)
      ensures this.log == log && this.life == life
    {
      this.log, this.life := log, life;
    }

    /** Everything up to `life` rows of `rows` went down, and `alive` says whether all did. */
    ghost predicate Wrote(log0: seq<Row>, life0: nat, rows: seq<Row>, alive: bool)
      reads this
    {
      && log == log0 + Take(rows, life0)
      && life == life0 - |Take(rows, life0)|
      && (alive <==> |rows| <= life0)
    }

    lemma WroteNothing()
      ensures Wrote(log, life, [], true)
    {
      assert log + [] == log;
    }

    method Append(r: Row) returns (alive: bool)
      modifies this
      ensures Wrote(old(log), old(life), [r], alive)
    {
      if life == 0 {
        assert log + [] == log;
        return false;
      }
      log, life := log + [r], life - 1;
      return true;
    }

    /** One append after what was written so far. */
    method AppendNext(ghost log0: seq<Row>, ghost life0: nat, ghost before: seq<Row>, r: Row) returns (alive: bool)
      requires Wrote(log0, life0, before, true)
      modifies this
      ensures Wrote(log0, life0, before + [r], alive)
      ensures !alive ==> forall more :: Wrote(log0, life0, before + [r] + more, false)
    {
      alive := Append(r);
      TakeConcat(before, [r], life0);
      if !alive {
        forall more ensures Wrote(log0, life0, before + [r] + more, false) {
          TakeConcat(before + [r], more, life0);
        }
      }
    }

    /** The start of a run: which sources to leave out, and, once per base, the sentinel
        followed by the backfill. */
    method Initialise(run: Run) returns (already: set<string>, alive: bool)
      requires ValidLog(log) && RunFits(log, run)
      modifies this
      ensures Wrote(old(log), old(life), InitRows(old(log), run), alive)
      ensures alive ==> already == SkipSet(old(log), run.forceAll)
    {
      already, alive := {}, true;
      WroteNothing();
      if run.forceAll { return; }
      var sentinel, legacy, failed;
      already, sentinel, legacy, failed := ScanLog(log);
      if sentinel { return; }
      ghost var log0, life0 := log, life;
      ghost var rows := InitRows(log, run);
      ghost var sent: seq<Row> := [Row(DoneAct, SENTINEL, "")];
      assert [] + sent == sent;
      alive := AppendNext(log0, life0, [], Row(DoneAct, SENTINEL, ""));
      if !alive { return; }
      var backfill := legacy - failed;
      assert backfill == Legacy(log0) by { LegacyIsPagesMinusFailed(log0, legacy, failed); }
      for i := 0 to |run.backfillOrder|
        invariant Wrote(log0, life0, sent, true)
        invariant rows == sent + DoneRows(run.backfillOrder[i..])
      {
        var r := Row(DoneAct, run.backfillOrder[i], "");
        ghost var rest := DoneRows(run.backfillOrder[i + 1..]);
        assert run.backfillOrder[i..][1..] == run.backfillOrder[i + 1..];
        assert rows == sent + [r] + rest;
        alive := AppendNext(log0, life0, sent, r);
        if !alive { return; }
        sent := sent + [r];
      }
      assert rows == sent;
      already := already + backfill;
    }

    /** Persist outcomes in page order; returns whether a page broke and whether the run
        was cancelled (after its failure marker, if the process lived to write it). */
    method PersistPages(s: string, pages: seq<PageOutcome>, ghost log0: seq<Row>, ghost life0: nat,
        ghost before: seq<Row>) returns (broken: bool, cancelled: bool, alive: bool)
      requires Wrote(log0, life0, before, true)
      modifies this
      ensures alive ==> cancelled == AnyCancelled(pages)
      ensures alive && !cancelled ==> broken == AnyBroken(pages)
      ensures Wrote(log0, life0, before + PageRows(s, pages), alive)
      ensures !alive ==> forall more :: Wrote(log0, life0, before + PageRows(s, pages) + more, false)
    {
      broken, cancelled, alive := false, false, true;
      ghost var sent := before;
      ghost var rows := before + PageRows(s, pages);
      for i := 0 to |pages|
        invariant Wrote(log0, life0, sent, true) && alive && !cancelled
        invariant rows == sent + PageRows(s, pages[i..])
        invariant broken == AnyBroken(pages[..i])
        invariant !AnyCancelled(pages[..i])
      {
        PagesNext(pages, i);
        assert pages[i..][1..] == pages[i + 1..];
        ghost var rest := PageRows(s, pages[i + 1..]);
        match pages[i] {
          case Cancelled(_) =>
            cancelled := true;
            assert rows == sent + [Row(FailedAct, s, "")];
            alive := AppendNext(log0, life0, sent, Row(FailedAct, s, ""));
            return;
          case Broken(_) =>
            broken := true;
          case Stored(path) =>
            ghost var r := Row(SynthAct, s, path);
            assert rows == sent + [r] + rest;
            alive := AppendNext(log0, life0, sent, Row(SynthAct, s, path));
            if !alive {
              DeadStaysDead(log0, life0, sent + [r], rest);
              return;
            }
            sent := sent + [r];
        }
      }
      assert pages[..|pages|] == pages;
      assert rows == sent;
    }

    /** Everything a run does for one source it does not skip. */
    method ProcessSource(s: string, a: Attempt, ghost log0: seq<Row>, ghost life0: nat, ghost before: seq<Row>)
      returns (aborted: bool, alive: bool)
      requires Wrote(log0, life0, before, true)
      modifies this
      ensures alive ==> aborted == Aborts(a)
      ensures Wrote(log0, life0, before + AttemptRows(s, a), alive)
      ensures !alive ==> forall more :: Wrote(log0, life0, before + AttemptRows(s, a) + more, false)
    {
      aborted, alive := false, true;
      ghost var rows := before + AttemptRows(s, a);
      match a {
        case BodyMissing => alive := AppendNext(log0, life0, before, Note(s));
        case BodyDrifted => alive := AppendNext(log0, life0, before, Note(s));
        case Interrupted =>
          assert before + [] == before;
          aborted := true;
        case Fanned(groups, surfaced, pages) =>
          aborted, alive := ProcessGroups(s, groups, surfaced, pages, log0, life0, before);
      }
    }

    /** The notes of a source that was fanned out, then its pages and its marker. */
    method ProcessGroups(s: string, groups: seq<GroupOutcome>, surfaced: bool, pages: seq<PageOutcome>,
        ghost log0: seq<Row>, ghost life0: nat, ghost before: seq<Row>) returns (aborted: bool, alive: bool)
      requires Wrote(log0, life0, before, true)
      modifies this
      ensures alive ==> aborted == Aborts(Fanned(groups, surfaced, pages))
      ensures Wrote(log0, life0, before + AttemptRows(s, Fanned(groups, surfaced, pages)), alive)
      ensures !alive ==> forall more ::
              Wrote(log0, life0, before + AttemptRows(s, Fanned(groups, surfaced, pages)) + more, false)
    {
      ghost var notes := OutcomeNotes(s, groups, surfaced);
      ghost var settling := SettlingRows(s, groups, pages);
      assert before + AttemptRows(s, Fanned(groups, surfaced, pages)) == before + notes + settling;
      var errors;
      errors, alive := WriteNotes(s, groups, surfaced, log0, life0, before);
      if !alive {
        aborted := false;
        DeadStaysDead(log0, life0, before + notes, settling);
        return;
      }
      aborted, alive := Settle(s, groups, errors, pages, log0, life0, before + notes);
    }

    /** The notes of the group loop, and the number of groups that need a retry. */
    method WriteGroupNotes(s: string, groups: seq<GroupOutcome>, ghost log0: seq<Row>, ghost life0: nat,
        ghost before: seq<Row>) returns (errors: nat, alive: bool)
      requires Wrote(log0, life0, before, true)
      modifies this
      ensures alive ==> errors == ParseErrors(groups)
      ensures Wrote(log0, life0, before + GroupNotes(s, groups), alive)
      ensures !alive ==> forall more :: Wrote(log0, life0, before + GroupNotes(s, groups) + more, false)
    {
      errors, alive := 0, true;
      ghost var sent := before;
      ghost var rows := before + GroupNotes(s, groups);
      for i := 0 to |groups|
        invariant Wrote(log0, life0, sent, true) && alive
        invariant rows == sent + GroupNotes(s, groups[i..])
        invariant errors + ParseErrors(groups[i..]) == ParseErrors(groups)
      {
        assert groups[i..][1..] == groups[i + 1..];
        if NeedsRetry(groups[i]) { errors := errors + 1; }
        if !groups[i].Parsed? {
          ghost var rest := GroupNotes(s, groups[i + 1..]);
          assert rows == sent + [Note(s)] + rest;
          alive := AppendNext(log0, life0, sent, Note(s));
          if !alive {
            DeadStaysDead(log0, life0, sent + [Note(s)], rest);
            return;
          }
          sent := sent + [Note(s)];
        }
      }
      assert rows == sent;
    }

    method WriteNotes(s: string, groups: seq<GroupOutcome>, surfaced: bool, ghost log0: seq<Row>, ghost life0: nat,
        ghost before: seq<Row>) returns (errors: nat, alive: bool)
      requires Wrote(log0, life0, before, true)
      modifies this
      ensures alive ==> errors == ParseErrors(groups)
      ensures Wrote(log0, life0, before + OutcomeNotes(s, groups, surfaced), alive)
      ensures !alive ==> forall more :: Wrote(log0, life0, before + OutcomeNotes(s, groups, surfaced) + more, false)
    {
      errors, alive := WriteGroupNotes(s, groups, log0, life0, before);
      ghost var sent := before + GroupNotes(s, groups);
      ghost var feedback: seq<Row> := if surfaced then [Note(s)] else [];
      assert before + OutcomeNotes(s, groups, surfaced) == sent + feedback;
      if !alive {
        DeadStaysDead(log0, life0, sent, feedback);
      } else if surfaced {
        alive := AppendNext(log0, life0, sent, Note(s));
      } else {
        assert sent + feedback == sent;
      }
    }

    /** Persist the pages and close the source with its marker. */
    method Settle(s: string, groups: seq<GroupOutcome>, errors: nat, pages: seq<PageOutcome>, ghost log0: seq<Row>,
        ghost life0: nat, ghost before: seq<Row>) returns (aborted: bool, alive: bool)
      requires Wrote(log0, life0, before, true) && errors == ParseErrors(groups)
      modifies this
      ensures alive ==> (aborted <==> groups != [] && AnyCancelled(pages))
      ensures Wrote(log0, life0, before + SettlingRows(s, groups, pages), alive)
      ensures !alive ==> forall more :: Wrote(log0, life0, before + SettlingRows(s, groups, pages) + more, false)
    {
      aborted := false;
      ghost var rows := before + SettlingRows(s, groups, pages);
      if groups == [] {
        assert rows == before + [Note(s)] + [Row(DoneAct, s, "")];
        alive := AppendNext(log0, life0, before, Note(s));
        if !alive {
          DeadStaysDead(log0, life0, before + [Note(s)], [Row(DoneAct, s, "")]);
          return;
        }
        alive := AppendNext(log0, life0, before + [Note(s)], Row(DoneAct, s, ""));
        return;
      }
      ghost var closing: seq<Row> := if AnyCancelled(pages) then [] else ClosingRows(s, groups, AnyBroken(pages));
      ghost var sent := before + PageRows(s, pages);
      assert rows == sent + closing;
      var broken;
      broken, aborted, alive := PersistPages(s, pages, log0, life0, before);
      if !alive {
        DeadStaysDead(log0, life0, sent, closing);
        return;
      }
      if aborted {
        assert rows == sent;
      } else if broken {
        alive := AppendNext(log0, life0, sent, Row(FailedAct, s, ""));
      } else if errors == 0 {
        alive := AppendNext(log0, life0, sent, Row(DoneAct, s, ""));
      } else {
        assert rows == sent;
      }
    }

    lemma DeadStaysDead(log0: seq<Row>, life0: nat, written: seq<Row>, rest: seq<Row>)
      requires forall more :: Wrote(log0, life0, written + more, false)
      ensures Wrote(log0, life0, written + rest, false)
      ensures forall more :: Wrote(log0, life0, written + rest + more, false)
    {
      forall more ensures Wrote(log0, life0, written + rest + more, false) {
        assert written + rest + more == written + (rest + more);
      }
    }

    /** A whole run.  It appends exactly the rows of its specification, up to the point
        where the process dies; `finished` says it neither died nor was aborted. */
    method Synthesize(run: Run) returns (finished: bool)
      requires ValidLog(log) && RunFits(log, run) && life == run.stopAfter
      modifies this
      ensures log == After(old(log), run)
      ensures finished ==> |RunRows(old(log), run)| <= run.stopAfter
    {
      ghost var log0, life0 := log, life;
      ghost var rows := RunRows(log, run);
      ghost var sent := InitRows(log, run);
      var already, alive := Initialise(run);
      ghost var skip := SkipSet(log0, run.forceAll);
      if !alive {
        TakeConcat(sent, SourceRows(run.sources, skip, run.attempts), life0);
        return false;
      }
      assert run.sources[0..] == run.sources;
      for i := 0 to |run.sources|
        invariant Wrote(log0, life0, sent, true)
        invariant rows == sent + RowsFrom(run, skip, i)
      {
        var s := run.sources[i];
        RowsFromNext(run, skip, i);
        if s in already { continue; }
        ghost var mine := AttemptRows(s, run.attempts[s]);
        ghost var rest := if Aborts(run.attempts[s]) then [] else RowsFrom(run, skip, i + 1);
        assert rows == sent + mine + rest;
        var aborted;
        aborted, alive := ProcessSource(s, run.attempts[s], log0, life0, sent);
        if !alive {
          DeadStaysDead(log0, life0, sent + mine, rest);
          return false;
        }
        sent := sent + mine;
        if aborted {
          assert rows == sent;
          return false;
        }
      }
      assert rows == sent;
      return true;
    }
  }

  lemma LegacyIsPagesMinusFailed(log: seq<Row>, pages: set<string>, failed: set<string>)
    requires forall s :: s in pages <==> s != "" && HasPage(log, s)
    requires forall s :: s in failed <==> s != "" && EverFailed(log, s)
    ensures pages - failed == Legacy(log)
  {
    forall s | s in pages - failed ensures s in Legacy(log) {
      var r :| r in log && r.action.SynthAct? && r.src == s && r.dst != "";
      var i :| 0 <= i < |log| && log[i] == r;
    }
  }
}

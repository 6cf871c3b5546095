/** The append-only activity log (`knowledge_log`) as the synth pipeline reads it:
    per-source completion markers, last writer wins, and the one-time sentinel row. */
module KnowledgeLog {
  import opened Options

  datatype Action = SynthAct | DoneAct | FailedAct | OtherAct

  /** One log row.  An absent `src` or `dst` is the empty string: the scan only asks
      whether the field is truthy. */
  datatype Row = Row(action: Action, src: string, dst: string)

  datatype Marker = Unmarked | Done | Failed

  const SENTINEL := "__dikw_legacy_backfill_complete__"

  predicate IsSource(s: string) { s != "" && s != SENTINEL }

  predicate IsMarker(r: Row) { r.action.DoneAct? || r.action.FailedAct? }

  predicate IsSentinel(r: Row) { r.action.DoneAct? && r.src == SENTINEL }

  /** The verdict the log holds on `s`: its most recent completion marker. */
  function LastMarker(log: seq<Row>, s: string): Marker
  {
    if log == [] then Unmarked
    else
      var r := log[|log| - 1];
      if r.src == s && r.action.DoneAct? then Done
      else if r.src == s && r.action.FailedAct? then Failed
      else LastMarker(log[..|log| - 1], s)
  }

  ghost predicate HasSentinel(log: seq<Row>) { exists r :: r in log && IsSentinel(r) }

  ghost predicate EverFailed(log: seq<Row>, s: string) {
    exists r :: r in log && r.action.FailedAct? && r.src == s
  }

  /** A per-page row of the pipeline that preceded the completion markers, or of this one. */
  ghost predicate HasPage(log: seq<Row>, s: string) {
    exists r :: r in log && r.action.SynthAct? && r.src == s && r.dst != ""
  }

  function SentinelRows(log: seq<Row>): nat {
    if log == [] then 0
    else SentinelRows(log[..|log| - 1]) + if IsSentinel(log[|log| - 1]) then 1 else 0
  }

  /** The sources whose last marker says done. */
  function Standing(log: seq<Row>): set<string> {
    set i | 0 <= i < |log| && IsSource(log[i].src) && LastMarker(log, log[i].src) == Done :: log[i].src
  }

  /** Legacy sources: a page row and no failure marker anywhere. */
  ghost function Legacy(log: seq<Row>): set<string> {
    set i | 0 <= i < |log| && log[i].src != "" && HasPage(log, log[i].src) && !EverFailed(log, log[i].src) :: log[i].src
  }

  lemma {:induction false} MarkerNamesARow(log: seq<Row>, s: string)
    requires LastMarker(log, s) != Unmarked
    ensures exists i :: 0 <= i < |log| && log[i].src == s && IsMarker(log[i])
  {
    var n := |log| - 1;
    var r := log[n];
    if !(r.src == s && IsMarker(r)) {
      MarkerNamesARow(log[..n], s);
      var i :| 0 <= i < n && log[..n][i].src == s && IsMarker(log[..n][i]);
      assert log[i] == log[..n][i];
    }
  }

  lemma {:induction false} StandingMeans(log: seq<Row>, s: string)
    ensures s in Standing(log) <==> IsSource(s) && LastMarker(log, s) == Done
  {
    if LastMarker(log, s) == Done { MarkerNamesARow(log, s); }
  }

  /** Rows about something else, or that are not markers, leave the verdict alone. */
  lemma {:induction false} UnmarkedSuffix(log: seq<Row>, rows: seq<Row>, s: string)
    requires forall r :: r in rows && r.src == s ==> !IsMarker(r)
    ensures LastMarker(log + rows, s) == LastMarker(log, s)
  {
    if rows == [] {
      assert log + rows == log;
    } else {
      var n := |rows| - 1;
      assert (log + rows)[..|log + rows| - 1] == log + rows[..n];
      assert rows[n] in rows;
      UnmarkedSuffix(log, rows[..n], s);
    }
  }

  lemma AppendedMarker(log: seq<Row>, r: Row, s: string)
    ensures LastMarker(log + [r], s) ==
            if r.src == s && r.action.DoneAct? then Done
            else if r.src == s && r.action.FailedAct? then Failed
            else LastMarker(log, s)
  {
    assert (log + [r])[..|log|] == log;
  }

  lemma {:induction false} SentinelRowsConcat(a: seq<Row>, b: seq<Row>)
    ensures SentinelRows(a + b) == SentinelRows(a) + SentinelRows(b)
  {
    if b == [] {
      assert a + b == a;
    } else {
      assert (a + b)[..|a + b| - 1] == a + b[..|b| - 1];
      SentinelRowsConcat(a, b[..|b| - 1]);
    }
  }

  lemma {:induction false} SentinelRowsMeans(log: seq<Row>)
    ensures SentinelRows(log) > 0 <==> HasSentinel(log)
  {
    if log != [] {
      var n := |log| - 1;
      SentinelRowsMeans(log[..n]);
      assert log == log[..n] + [log[n]];
    }
  }

  /** One pass over the log, as the start of a default run makes it.  `already` is a
      set that later rows may shrink again, so last-writer-wins is a property of the loop. */
  method ScanLog(log: seq<Row>)
    returns (already: set<string>, sentinel: bool, legacy: set<string>, failed: set<string>)
    ensures already == Standing(log)
    ensures sentinel <==> HasSentinel(log)
    ensures forall s :: s in legacy <==> s != "" && HasPage(log, s)
    ensures forall s :: s in failed <==> s != "" && EverFailed(log, s)
  {
    already, sentinel, legacy, failed := {}, false, {}, {};
    for i := 0 to |log|
      invariant forall s :: s in already <==> IsSource(s) && LastMarker(log[..i], s) == Done
      invariant sentinel <==> HasSentinel(log[..i])
      invariant forall s :: s in legacy <==> s != "" && HasPage(log[..i], s)
      invariant forall s :: s in failed <==> s != "" && EverFailed(log[..i], s)
    {
      var entry := log[i];
      assert log[..i + 1] == log[..i] + [entry];
      assert entry in log[..i + 1] && forall r :: r in log[..i + 1] <==> r in log[..i] || r == entry;
      forall s { AppendedMarker(log[..i], entry, s); }
      if entry.action.DoneAct? {
        if entry.src == SENTINEL {
          sentinel := true;
        } else if entry.src != "" {
          already := already + {entry.src};
        }
      } else if entry.action.FailedAct? && entry.src != "" {
        already := already - {entry.src};
        failed := failed + {entry.src};
      } else if entry.action.SynthAct? && entry.src != "" && entry.dst != "" {
        legacy := legacy + {entry.src};
      }
    }
    assert log[..|log|] == log;
    forall s { StandingMeans(log, s); }
  }

  // ------------------------------------------------------------------
  // The scan reads rows ORDER BY ts, id, not in append order.

  datatype Stamped = Stamped(ts: int, row: Row)

  /** Insert after every row that is not later: equal stamps keep their id order. */
  function InsertByTime(rows: seq<Stamped>, r: Stamped): seq<Stamped> {
    if rows == [] || rows[|rows| - 1].ts <= r.ts then rows + [r]
    else InsertByTime(rows[..|rows| - 1], r) + [rows[|rows| - 1]]
  }

  function Listed(rows: seq<Stamped>): seq<Stamped> {
    if rows == [] then [] else InsertByTime(Listed(rows[..|rows| - 1]), rows[|rows| - 1])
  }

  ghost predicate ClockNeverStepsBack(rows: seq<Stamped>) {
    forall i, j :: 0 <= i < j < |rows| ==> rows[i].ts <= rows[j].ts
  }

  function RowsOf(rows: seq<Stamped>): seq<Row> { seq(|rows|, i requires 0 <= i < |rows| => rows[i].row) }

  lemma {:induction false} ListedLength(rows: seq<Stamped>)
    ensures |Listed(rows)| == |rows|
  {
    if rows != [] {
      ListedLength(rows[..|rows| - 1]);
      InsertLength(Listed(rows[..|rows| - 1]), rows[|rows| - 1]);
    }
  }

  lemma {:induction false} InsertLength(rows: seq<Stamped>, r: Stamped)
    ensures |InsertByTime(rows, r)| == |rows| + 1
    ensures InsertByTime(rows, r) == rows + [r] <==> rows == [] || rows[|rows| - 1].ts <= r.ts
  {
    if !(rows == [] || rows[|rows| - 1].ts <= r.ts) {
      InsertLength(rows[..|rows| - 1], r);
      assert InsertByTime(rows, r)[|rows|] == rows[|rows| - 1];
      assert (rows + [r])[|rows|] == r;
    }
  }

  lemma ClockAppend(front: seq<Stamped>, last: Stamped)
    ensures ClockNeverStepsBack(front + [last]) <==>
            ClockNeverStepsBack(front) && (front == [] || front[|front| - 1].ts <= last.ts)
  {
    var rows := front + [last];
    assert forall i :: 0 <= i < |front| ==> rows[i] == front[i];
    assert rows[|front|] == last;
    if ClockNeverStepsBack(front) && front != [] {
      assert forall i :: 0 <= i < |front| ==> front[i].ts <= front[|front| - 1].ts;
    }
  }

  /** The listing is the append order exactly when the clock never stepped back. */
  lemma {:induction false} ListingIsAppendOrder(rows: seq<Stamped>)
    ensures Listed(rows) == rows <==> ClockNeverStepsBack(rows)
  {
    if rows != [] {
      var n := |rows| - 1;
      var front, last := rows[..n], rows[n];
      assert rows == front + [last];
      ListingIsAppendOrder(front);
      ListedLength(front);
      InsertLength(Listed(front), last);
      ClockAppend(front, last);
      if Listed(rows) == rows { ListedAppendInPlace(Listed(front), last, front); }
    }
  }

  /** If inserting `r` last yields `front + [r]`, then `r` really went last into `front`. */
  lemma {:induction false} ListedAppendInPlace(sorted: seq<Stamped>, r: Stamped, front: seq<Stamped>)
    requires InsertByTime(sorted, r) == front + [r]
    requires |sorted| == |front|
    ensures sorted == front && (front == [] || front[|front| - 1].ts <= r.ts)
  {
    assert (front + [r])[|front|] == r;
    if sorted == [] || sorted[|sorted| - 1].ts <= r.ts {
      assert (sorted + [r])[..|sorted|] == sorted;
      assert (front + [r])[..|front|] == front;
    }
  }

  // ------------------------------------------------------------------
  // What the listing does to the verdicts.

  predicate Marks(r: Row, s: string) { r.src == s && IsMarker(r) }

  function MarkerOf(r: Row): Marker {
    if r.action.DoneAct? then Done else if r.action.FailedAct? then Failed else Unmarked
  }

  /** The `i`-th append is the marker of `s` with the latest stamp, the last of them at a tie. */
  ghost predicate Newest(rows: seq<Stamped>, s: string, i: nat) {
    && i < |rows| && Marks(rows[i].row, s)
    && forall j :: 0 <= j < |rows| && Marks(rows[j].row, s) ==>
         rows[j].ts < rows[i].ts || (rows[j].ts == rows[i].ts && j <= i)
  }

  /** The `i`-th append is the last marker of `s` that went down. */
  ghost predicate LastAppended(rows: seq<Stamped>, s: string, i: nat) {
    i < |rows| && Marks(rows[i].row, s) && forall j :: i < j < |rows| ==> !Marks(rows[j].row, s)
  }

  function Later(before: Option<Stamped>, r: Stamped, s: string): Option<Stamped> {
    if Marks(r.row, s) && (before.None? || before.value.ts <= r.ts) then Some(r) else before
  }

  function Latest(rows: seq<Stamped>, s: string): Option<Stamped> {
    if rows == [] then None else Later(Latest(rows[..|rows| - 1], s), rows[|rows| - 1], s)
  }

  function VerdictOf(m: Option<Stamped>): Marker { if m.None? then Unmarked else MarkerOf(m.value.row) }

  lemma {:induction false} LatestIsARow(rows: seq<Stamped>, s: string)
    ensures Latest(rows, s).Some? ==> Latest(rows, s).value in rows
    ensures Latest(rows, s).None? <==> forall r :: r in rows ==> !Marks(r.row, s)
  {
    if rows != [] {
      LatestIsARow(rows[..|rows| - 1], s);
      assert rows == rows[..|rows| - 1] + [rows[|rows| - 1]];
    }
  }

  lemma {:induction false} NewestIsLatest(rows: seq<Stamped>, s: string, i: nat)
    requires Newest(rows, s, i)
    ensures Latest(rows, s) == Some(rows[i])
  {
    var n := |rows| - 1;
    var front := rows[..n];
    LatestIsARow(front, s);
    if i < n {
      assert forall j :: 0 <= j < n ==> front[j] == rows[j];
      NewestIsLatest(front, s, i);
    } else if Latest(front, s).Some? {
      var j :| 0 <= j < n && front[j] == Latest(front, s).value;
      LatestMarks(front, s);
      assert rows[j] == front[j];
    }
  }

  lemma {:induction false} LatestMarks(rows: seq<Stamped>, s: string)
    ensures Latest(rows, s).Some? ==> Marks(Latest(rows, s).value.row, s)
  {
    if rows != [] { LatestMarks(rows[..|rows| - 1], s); }
  }

  lemma LatestAppend(rows: seq<Stamped>, r: Stamped, s: string)
    ensures Latest(rows + [r], s) == Later(Latest(rows, s), r, s)
  {
    assert (rows + [r])[..|rows|] == rows;
  }

  /** Sorting a row in does not change which marker is the latest. */
  lemma {:induction false} InsertKeepsLatest(rows: seq<Stamped>, r: Stamped, s: string)
    ensures Latest(InsertByTime(rows, r), s) == Later(Latest(rows, s), r, s)
  {
    if rows == [] || rows[|rows| - 1].ts <= r.ts {
      LatestAppend(rows, r, s);
    } else {
      var front, last := rows[..|rows| - 1], rows[|rows| - 1];
      InsertKeepsLatest(front, r, s);
      LatestAppend(InsertByTime(front, r), last, s);
    }
  }

  lemma {:induction false} ListedKeepsLatest(rows: seq<Stamped>, s: string)
    ensures Latest(Listed(rows), s) == Latest(rows, s)
  {
    if rows != [] {
      ListedKeepsLatest(rows[..|rows| - 1], s);
      InsertKeepsLatest(Listed(rows[..|rows| - 1]), rows[|rows| - 1], s);
    }
  }

  lemma {:induction false} InsertKeepsRows(rows: seq<Stamped>, r: Stamped, x: Stamped)
    ensures x in InsertByTime(rows, r) <==> x in rows || x == r
  {
    if !(rows == [] || rows[|rows| - 1].ts <= r.ts) {
      InsertKeepsRows(rows[..|rows| - 1], r, x);
      assert rows == rows[..|rows| - 1] + [rows[|rows| - 1]];
    }
  }

  ghost predicate Ascends(rows: seq<Stamped>) {
    |rows| <= 1 || (Ascends(rows[..|rows| - 1]) && rows[|rows| - 2].ts <= rows[|rows| - 1].ts)
  }

  lemma {:induction false} AscendsMeans(rows: seq<Stamped>)
    ensures Ascends(rows) <==> ClockNeverStepsBack(rows)
  {
    if |rows| > 1 {
      var front, last := rows[..|rows| - 1], rows[|rows| - 1];
      assert rows == front + [last];
      AscendsMeans(front);
      ClockAppend(front, last);
    }
  }

  lemma {:induction false} InsertKeepsOrder(rows: seq<Stamped>, r: Stamped)
    requires Ascends(rows)
    ensures Ascends(InsertByTime(rows, r))
    ensures |InsertByTime(rows, r)| == |rows| + 1
    ensures InsertByTime(rows, r)[|rows|].ts ==
            if rows == [] || rows[|rows| - 1].ts <= r.ts then r.ts else rows[|rows| - 1].ts
  {
    InsertLength(rows, r);
    if rows == [] || rows[|rows| - 1].ts <= r.ts {
      assert (rows + [r])[..|rows|] == rows;
    } else {
      var front, last := rows[..|rows| - 1], rows[|rows| - 1];
      InsertKeepsOrder(front, r);
      InsertLength(front, r);
      assert InsertByTime(rows, r)[..|rows|] == InsertByTime(front, r);
    }
  }

  /** The listing is sorted by time and holds the rows that were appended. */
  lemma {:induction false} ListedIsSorted(rows: seq<Stamped>)
    ensures ClockNeverStepsBack(Listed(rows))
    ensures forall x :: x in Listed(rows) <==> x in rows
  {
    if rows != [] {
      var front, last := rows[..|rows| - 1], rows[|rows| - 1];
      ListedIsSorted(front);
      AscendsMeans(Listed(front));
      InsertKeepsOrder(Listed(front), last);
      AscendsMeans(Listed(rows));
      assert rows == front + [last];
      forall x { InsertKeepsRows(Listed(front), last, x); }
    }
  }

  lemma RowsOfAppend(rows: seq<Stamped>, r: Stamped)
    ensures RowsOf(rows + [r]) == RowsOf(rows) + [r.row]
  {
  }

  lemma {:induction false} SortedVerdict(rows: seq<Stamped>, s: string)
    requires ClockNeverStepsBack(rows)
    ensures LastMarker(RowsOf(rows), s) == VerdictOf(Latest(rows, s))
  {
    if rows != [] {
      var front, last := rows[..|rows| - 1], rows[|rows| - 1];
      assert rows == front + [last];
      ClockAppend(front, last);
      SortedVerdict(front, s);
      RowsOfAppend(front, last);
      AppendedMarker(RowsOf(front), last.row, s);
      LatestIsARow(front, s);
    }
  }

  lemma {:induction false} AppendedVerdict(rows: seq<Stamped>, s: string, i: nat)
    requires LastAppended(rows, s, i)
    ensures LastMarker(RowsOf(rows), s) == MarkerOf(rows[i].row)
  {
    var front, last := rows[..|rows| - 1], rows[|rows| - 1];
    assert rows == front + [last];
    RowsOfAppend(front, last);
    AppendedMarker(RowsOf(front), last.row, s);
    if i < |front| { AppendedVerdict(front, s, i); }
  }

  /** The verdict the scan reads is that of the marker with the latest stamp, so it is the
      verdict that was appended last exactly when those two markers say the same. */
  lemma {:induction false} ScanReadsTheNewest(rows: seq<Stamped>, s: string, newest: nat, last: nat)
    requires Newest(rows, s, newest) && LastAppended(rows, s, last)
    ensures LastMarker(RowsOf(Listed(rows)), s) == MarkerOf(rows[newest].row)
    ensures LastMarker(RowsOf(Listed(rows)), s) == LastMarker(RowsOf(rows), s) <==>
            MarkerOf(rows[newest].row) == MarkerOf(rows[last].row)
  {
    ListedIsSorted(rows);
    SortedVerdict(Listed(rows), s);
    ListedKeepsLatest(rows, s);
    NewestIsLatest(rows, s, newest);
    AppendedVerdict(rows, s, last);
  }

  lemma {:induction false} MarkedHasBoth(rows: seq<Stamped>, s: string) returns (newest: nat, last: nat)
    requires exists r :: r in rows && Marks(r.row, s)
    ensures Newest(rows, s, newest) && LastAppended(rows, s, last)
  {
    var n := |rows| - 1;
    var front, r := rows[..n], rows[n];
    assert rows == front + [r];
    newest, last := n, n;
    if exists x :: x in front && Marks(x.row, s) {
      var newest', last' := MarkedHasBoth(front, s);
      assert forall j :: 0 <= j < n ==> front[j] == rows[j];
      if !Marks(r.row, s) || r.ts < rows[newest'].ts { newest := newest'; }
      if !Marks(r.row, s) { last := last'; }
    }
  }

  lemma RowsOfMember(rows: seq<Stamped>, r: Row)
    ensures r in RowsOf(rows) <==> exists x :: x in rows && x.row == r
  {
    if r in RowsOf(rows) {
      var i :| 0 <= i < |rows| && RowsOf(rows)[i] == r;
      assert rows[i] in rows;
    }
    if exists x :: x in rows && x.row == r {
      var x :| x in rows && x.row == r;
      var i :| 0 <= i < |rows| && rows[i] == x;
      assert RowsOf(rows)[i] == r;
    }
  }

  lemma {:induction false} UnmarkedRows(rows: seq<Row>, s: string)
    requires forall r :: r in rows ==> !Marks(r, s)
    ensures LastMarker(rows, s) == Unmarked
  {
    UnmarkedSuffix([], rows, s);
    assert [] + rows == rows;
  }

  ghost predicate VerdictKept(rows: seq<Stamped>, s: string) {
    LastMarker(RowsOf(Listed(rows)), s) == LastMarker(RowsOf(rows), s)
  }

  ghost predicate NewestAgrees(rows: seq<Stamped>, s: string) {
    forall i: nat, j: nat :: Newest(rows, s, i) && LastAppended(rows, s, j) ==>
                               MarkerOf(rows[i].row) == MarkerOf(rows[j].row)
  }

  lemma ListedRows(rows: seq<Stamped>)
    ensures forall r :: r in RowsOf(Listed(rows)) <==> r in RowsOf(rows)
  {
    ListedIsSorted(rows);
    forall r ensures r in RowsOf(Listed(rows)) <==> r in RowsOf(rows) {
      RowsOfMember(rows, r);
      RowsOfMember(Listed(rows), r);
    }
  }

  lemma VerdictKeptIff(rows: seq<Stamped>, s: string)
    ensures VerdictKept(rows, s) <==> NewestAgrees(rows, s)
    ensures LastMarker(RowsOf(rows), s) == Unmarked <==> LastMarker(RowsOf(Listed(rows)), s) == Unmarked
  {
    if exists r :: r in rows && Marks(r.row, s) {
      var newest, last := MarkedHasBoth(rows, s);
      ScanReadsTheNewest(rows, s, newest, last);
      AppendedVerdict(rows, s, last);
      NewestIsLatest(rows, s, newest);
      forall i: nat, j: nat | Newest(rows, s, i) && LastAppended(rows, s, j)
        ensures VerdictKept(rows, s) <==> MarkerOf(rows[i].row) == MarkerOf(rows[j].row)
      {
        ScanReadsTheNewest(rows, s, i, j);
      }
    } else {
      assert forall i: nat :: Newest(rows, s, i) ==> rows[i] in rows;
      ListedRows(rows);
      forall r | r in RowsOf(rows) ensures !Marks(r, s) { RowsOfMember(rows, r); }
      UnmarkedRows(RowsOf(rows), s);
      UnmarkedRows(RowsOf(Listed(rows)), s);
    }
  }

  /** Of the four things a default run reads off the listing three do not depend on its order;
      the done set is right exactly when, for every source, the marker with the latest stamp
      says what the marker appended last says.  A clock that steps back does no other harm. */
  lemma ListingKeepsTheScanIff(rows: seq<Stamped>)
    ensures Standing(RowsOf(Listed(rows))) == Standing(RowsOf(rows)) <==>
            forall s :: IsSource(s) ==> NewestAgrees(rows, s)
    ensures HasSentinel(RowsOf(Listed(rows))) == HasSentinel(RowsOf(rows))
    ensures forall s :: HasPage(RowsOf(Listed(rows)), s) == HasPage(RowsOf(rows), s)
    ensures forall s :: EverFailed(RowsOf(Listed(rows)), s) == EverFailed(RowsOf(rows), s)
  {
    ListedRows(rows);
    forall s
      ensures s in Standing(RowsOf(rows)) <==> IsSource(s) && LastMarker(RowsOf(rows), s) == Done
      ensures s in Standing(RowsOf(Listed(rows))) <==> IsSource(s) && LastMarker(RowsOf(Listed(rows)), s) == Done
      ensures NewestAgrees(rows, s) <==> VerdictKept(rows, s)
      ensures LastMarker(RowsOf(rows), s) == Unmarked <==> LastMarker(RowsOf(Listed(rows)), s) == Unmarked
    {
      StandingMeans(RowsOf(rows), s);
      StandingMeans(RowsOf(Listed(rows)), s);
      VerdictKeptIff(rows, s);
    }
  }

  /** Not every step back does harm: here two sources finish in one order and are stamped in
      the other, and the scan is right about both. */
  lemma {:induction false} HarmlessStepBack()
    ensures var rows := [Stamped(2, Row(DoneAct, "a.md", "")), Stamped(1, Row(DoneAct, "b.md", ""))];
            && !ClockNeverStepsBack(rows)
            && Standing(RowsOf(Listed(rows))) == Standing(RowsOf(rows))
  {
    var rows := [Stamped(2, Row(DoneAct, "a.md", "")), Stamped(1, Row(DoneAct, "b.md", ""))];
    assert rows[0].ts > rows[1].ts;
    assert rows[0].row.src[0] != rows[1].row.src[0];
    ListingKeepsTheScanIff(rows);
  }

  /** A clock that steps back one tick between a done marker and a later failure marker
      makes the scan read them in the wrong order: the failed source stays done. */
  lemma {:induction false} ClockStepBackHidesAFailure()
    ensures var rows := [Stamped(2, Row(DoneAct, "a.md", "")), Stamped(1, Row(FailedAct, "a.md", ""))];
            && LastMarker(RowsOf(rows), "a.md") == Failed
            && LastMarker(RowsOf(Listed(rows)), "a.md") == Done
  {
    var d, f := Stamped(2, Row(DoneAct, "a.md", "")), Stamped(1, Row(FailedAct, "a.md", ""));
    var rows := [d, f];
    assert rows[..1] == [d] && [d][..0] == [];
    assert Listed([d]) == InsertByTime(Listed([]), d) == [d];
    assert InsertByTime([d], f) == InsertByTime([], f) + [d] == [f, d];
    assert Listed(rows) == [f, d];
    assert RowsOf(rows) == [d.row] + [f.row];
    assert RowsOf([f, d]) == [f.row] + [d.row];
    AppendedMarker([d.row], f.row, "a.md");
    AppendedMarker([f.row], d.row, "a.md");
  }
}

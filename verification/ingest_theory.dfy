/** What every scan keeps, faults and cancels included, and what a smooth one achieves. */
module IngestTheory {
  import opened Storage
  import opened Ingest

  /** The file is not skipped: its content goes into the tables. */
  ghost predicate Persists(st: Scan, f: File) {
    !st.aborted && f.parse.Parsed? && !Skips(Lookup(st.db, SourceId(f.key)), f.parse)
  }

  // ------------------------------------------------------------------
  // The persist pipeline, cut anywhere.

  /** The tables after the first `k` calls: the row first, then the chunks, then one asset
      reference after the other. */
  ghost predicate WritesLeave(db: DB, b: DB, d: DocId, row: Row, p: Parse, k: nat)
    requires p.Parsed?
  {
    && (k == 0 ==> b == db)
    && (k >= 1 ==> b.rows == db.rows[d := row])
    && (k == 1 ==> b.bodies == db.bodies && b.texts == db.texts)
    && (k >= 2 ==> b.texts == db.texts + p.texts)
    && (k >= 2 ==> b.bodies == db.bodies[d := Body(p.hash, Fresh(|db.texts|, |p.texts|), p.refsWanted, k - 2)])
  }

  lemma WriteAt(row: Row, p: Parse, k: nat)
    requires p.Parsed? && k < 2 + p.refsWanted
    ensures var w := SourceWrites(row, p)[k];
            w == if k == 0 then PutRow(row) else if k == 1 then PutChunks(p.hash, p.texts, p.refsWanted) else PutRef
  {
    if k >= 2 {
      RefsAreRefs(p.refsWanted);
      assert SourceWrites(row, p)[k] == Refs(p.refsWanted)[k - 2] && Refs(p.refsWanted)[k - 2] in Refs(p.refsWanted);
    }
  }

  lemma WriteLands(db: DB, b: DB, d: DocId, row: Row, p: Parse, k: nat)
    requires p.Parsed? && k < 2 + p.refsWanted && WritesLeave(db, b, d, row, p, k)
    ensures WritesLeave(db, Apply(b, d, SourceWrites(row, p)[k]), d, row, p, k + 1)
  {
    WriteAt(row, p, k);
  }

  lemma {:induction false} AfterWrites(db: DB, d: DocId, row: Row, p: Parse, k: nat)
    requires p.Parsed? && k <= 2 + p.refsWanted
    ensures WritesLeave(db, ApplyAll(db, d, SourceWrites(row, p)[..k]), d, row, p, k)
  {
    var writes := SourceWrites(row, p);
    if k > 0 {
      AfterWrites(db, d, row, p, k - 1);
      ApplyNext(db, d, writes, k - 1);
      WriteLands(db, ApplyAll(db, d, writes[..k - 1]), d, row, p, k - 1);
    }
  }

  lemma PersistCompletes(db: DB, key: string, row: Row, p: Parse)
    requires p.Parsed? && row.hash == p.hash
    ensures var d, b := SourceId(key), ApplyAll(db, SourceId(key), SourceWrites(row, p));
            && b.rows == db.rows[d := row] && Complete(b, d)
            && b.bodies == db.bodies[d := Body(p.hash, Fresh(|db.texts|, |p.texts|), p.refsWanted, p.refsWanted)]
            && b.texts == db.texts + p.texts
  {
    AfterWrites(db, SourceId(key), row, p, 2 + p.refsWanted);
    assert SourceWrites(row, p)[..2 + p.refsWanted] == SourceWrites(row, p);
  }

  /** When a fault inside the pipeline finds the row complete: nothing had landed yet over a
      complete one, or only the row over chunks of the very same content, or everything had. */
  lemma WhenCompleteAtTheCut(db: DB, key: string, row: Row, p: Parse, k: nat)
    requires p.Parsed? && row.hash == p.hash && k <= 2 + p.refsWanted
    ensures var d := SourceId(key);
            Complete(ApplyAll(db, d, SourceWrites(row, p)[..k]), d) <==>
            || (k == 0 && Complete(db, d))
            || (k == 1 && d in db.bodies && db.bodies[d].hash == p.hash &&
                db.bodies[d].refsWritten == db.bodies[d].refsWanted)
            || k == 2 + p.refsWanted
  {
    AfterWrites(db, SourceId(key), row, p, k);
  }

  ghost predicate Shows(db: DB, d: DocId) { d in db.rows && db.rows[d].active && Complete(db, d) }

  /** The tables where the file's persist is cut. */
  ghost function AtTheCut(st: Scan, f: File, fate: Fate, now: int): DB
    requires FateFits(f, fate) && fate.Inside? && f.parse.Parsed?
  {
    var d := SourceId(f.key);
    ApplyAll(st.db, d, SourceWrites(NewRow(f.parse, Lookup(st.db, d), now), f.parse)[..fate.committed])
  }

  /** The handler costs a good row until the next run: the row is active and complete where the
      persist is cut, and inactive after the file. It happens exactly when the deactivate call
      works and nothing had landed over an active complete row, or only the new row over
      complete chunks of the very same content, or everything had. */
  lemma WhenACompleteRowIsHidden(st: Scan, f: File, fate: Fate, embedding: bool, now: int)
    requires FateFits(f, fate) && fate.Inside? && Persists(st, f)
    ensures var d, p, k := SourceId(f.key), f.parse, fate.committed;
            var b := StepFile(st, f, fate, embedding, now).db;
            Shows(AtTheCut(st, f, fate, now), d) && !Shows(b, d) <==>
            fate.hidden && (|| (k == 0 && Shows(st.db, d))
                            || (k == 1 && d in st.db.bodies && st.db.bodies[d].hash == p.hash &&
                                st.db.bodies[d].refsWritten == st.db.bodies[d].refsWanted)
                            || k == 2 + p.refsWanted)
  {
    var d := SourceId(f.key);
    var row := NewRow(f.parse, Lookup(st.db, d), now);
    WhenCompleteAtTheCut(st.db, f.key, row, f.parse, fate.committed);
    AfterWrites(st.db, d, row, f.parse, fate.committed);
  }

  /** The plainest case: the first call of a changed file's persist fails, and the complete row
      of its old content, which nothing had touched, is hidden. */
  lemma HiddenOldRowExample(old0: string, new0: string, text: string)
    requires old0 != new0
    ensures var f, g := File("a.md", Parsed(old0, 1, [text], 0, 0)), File("a.md", Parsed(new0, 1, [text], 0, 0));
            var good := StepFile(Begin(EMPTY), f, Smooth, true, 9).db;
            var b := StepFile(Begin(good), g, Inside(0, false, true), true, 9).db;
            Shows(good, SourceId("a.md")) && b == Deactivate(good, SourceId("a.md")) && !Shows(b, SourceId("a.md"))
  {
    var p, d := Parsed(old0, 1, [text], 0, 0), SourceId("a.md");
    PersistCompletes(EMPTY, "a.md", NewRow(p, Lookup(EMPTY, d), 9), p);
  }

  /** A fault before or after the pipeline never touches, let alone hides, a row that the
      pipeline itself would have left: the row is the old one, or the new complete one. */
  lemma FaultsOutsidePersistHideNothing(st: Scan, f: File, fate: Fate, embedding: bool, now: int)
    requires FateFits(f, fate) && !st.aborted && f.parse.Parsed? && !Skips(Lookup(st.db, SourceId(f.key)), f.parse)
    ensures fate.Before? ==> StepFile(st, f, fate, embedding, now).db == st.db
    ensures fate.AfterPersist? ==>
              var b := StepFile(st, f, fate, embedding, now).db;
              SourceId(f.key) in b.rows && b.rows[SourceId(f.key)].active && Complete(b, SourceId(f.key))
  {
    PersistCompletes(st.db, f.key, NewRow(f.parse, Lookup(st.db, SourceId(f.key)), now), f.parse);
  }

  // ------------------------------------------------------------------
  // Active implies complete.

  /** Every fault inside a persist was followed by a deactivate call that worked. */
  ghost predicate HandlersWork(fates: seq<Fate>) {
    forall i :: 0 <= i < |fates| && fates[i].Inside? ==> fates[i].hidden
  }

  lemma StepKeepsActiveComplete(st: Scan, f: File, fate: Fate, embedding: bool, now: int)
    requires FateFits(f, fate) && WellFormed(st.db) && ActiveAreComplete(st.db)
    requires fate.Inside? ==> fate.hidden
    ensures ActiveAreComplete(StepFile(st, f, fate, embedding, now).db)
  {
    var b, d := StepFile(st, f, fate, embedding, now).db, SourceId(f.key);
    StepKeepsTables(st, f, fate, embedding, now);
    if b != st.db {
      var p := f.parse;
      var row := NewRow(p, Lookup(st.db, d), now);
      if fate.Inside? {
        AfterWrites(st.db, d, row, p, fate.committed);
      } else {
        PersistCompletes(st.db, f.key, row, p);
      }
      forall e | e in b.rows && b.rows[e].active ensures Complete(b, e) {
        if e != d { ElsewhereIsTheSame(st.db, b, d, e); }
      }
    }
  }

  lemma {:induction false} ScanKeepsActiveComplete(st: Scan, files: seq<File>, fates: seq<Fate>, embedding: bool,
      now: int)
    requires FatesFit(files, fates) && WellFormed(st.db) && ActiveAreComplete(st.db) && HandlersWork(fates)
    ensures ActiveAreComplete(ScanFiles(st, files, fates, embedding, now).db)
  {
    if files != [] {
      var n := |files| - 1;
      ScanKeepsTables(st, files[..n], fates[..n], embedding, now);
      ScanKeepsActiveComplete(st, files[..n], fates[..n], embedding, now);
      StepKeepsActiveComplete(ScanFiles(st, files[..n], fates[..n], embedding, now), files[n], fates[n],
        embedding, now);
    }
  }

  ghost predicate Writes(f: File, d: DocId) { f.parse.Parsed? && SourceId(f.key) == d }

  /** A document that no file of the run names keeps its row, chunks, links and provenance. */
  lemma {:induction false} ScanTouchesOnlyItsFiles(st: Scan, files: seq<File>, fates: seq<Fate>, embedding: bool,
      now: int, e: DocId)
    requires FatesFit(files, fates) && WellFormed(st.db)
    requires forall i :: 0 <= i < |files| ==> !Writes(files[i], e)
    ensures var b := ScanFiles(st, files, fates, embedding, now).db;
            SameRecord(st.db, b, e) && (Complete(st.db, e) <==> Complete(b, e))
  {
    if files != [] {
      var n := |files| - 1;
      var mid := ScanFiles(st, files[..n], fates[..n], embedding, now);
      var last := StepFile(mid, files[n], fates[n], embedding, now);
      ScanKeepsTables(st, files[..n], fates[..n], embedding, now);
      assert forall i :: 0 <= i < n ==> files[..n][i] == files[i];
      ScanTouchesOnlyItsFiles(st, files[..n], fates[..n], embedding, now, e);
      StepKeepsTables(mid, files[n], fates[n], embedding, now);
      if files[n].parse.Parsed? { ElsewhereIsTheSame(mid.db, last.db, SourceId(files[n].key), e); }
    }
  }

  /** Ingest writes source rows only: a page hidden by a failed write stays hidden, and no
      table says anything else about a knowledge or wisdom document than before. */
  lemma ScanLeavesPagesAlone(st: Scan, files: seq<File>, fates: seq<Fate>, embedding: bool, now: int, e: DocId)
    requires FatesFit(files, fates) && WellFormed(st.db) && !e.layer.Source?
    ensures var b := ScanFiles(st, files, fates, embedding, now).db;
            && SameRecord(st.db, b, e) && (Complete(st.db, e) <==> Complete(b, e))
            && b.vectors == st.db.vectors && st.db.texts <= b.texts
  {
    ScanKeepsTables(st, files, fates, embedding, now);
    ScanTouchesOnlyItsFiles(st, files, fates, embedding, now, e);
  }

  // ------------------------------------------------------------------
  // The report.

  function Skipped(files: seq<File>): nat {
    if files == [] then 0 else Skipped(files[..|files| - 1]) + if files[|files| - 1].parse.Unsupported? then 1 else 0
  }

  /** Whatever faults a run that returns a report met, its counters balance, and they cover
      every file but the ones of an unsupported format. */
  lemma StepBalances(st: Scan, f: File, fate: Fate, embedding: bool, now: int)
    requires FateFits(f, fate)
    requires st.scanned == st.added + st.updated + st.untouched + st.errors
    ensures var r := StepFile(st, f, fate, embedding, now);
            && r.scanned == r.added + r.updated + r.untouched + r.errors
            && (!r.aborted ==> !st.aborted && r.scanned == st.scanned + if f.parse.Unsupported? then 0 else 1)
  {
  }

  lemma {:induction false} ReportBalances(st: Scan, files: seq<File>, fates: seq<Fate>, embedding: bool, now: int)
    requires FatesFit(files, fates)
    requires st.scanned == st.added + st.updated + st.untouched + st.errors
    ensures var r := ScanFiles(st, files, fates, embedding, now);
            && r.scanned == r.added + r.updated + r.untouched + r.errors
            && (!r.aborted ==> !st.aborted && r.scanned == st.scanned + |files| - Skipped(files))
    ensures Skipped(files) <= |files|
  {
    if files != [] {
      var n := |files| - 1;
      ReportBalances(st, files[..n], fates[..n], embedding, now);
      StepBalances(ScanFiles(st, files[..n], fates[..n], embedding, now), files[n], fates[n], embedding, now);
    }
  }

  // ------------------------------------------------------------------
  // A smooth run converges.

  ghost predicate AllSmooth(fates: seq<Fate>) { forall i :: 0 <= i < |fates| ==> fates[i].Smooth? }

  ghost predicate DistinctKeys(files: seq<File>) {
    forall i, j :: 0 <= i < j < |files| && files[i].parse.Parsed? && files[j].parse.Parsed? ==>
      files[i].key != files[j].key
  }

  /** The document of `f` is active, complete, at the file's hash, with a usable mtime. */
  ghost predicate Settled(db: DB, f: File) {
    f.parse.Parsed? ==>
      var p, d := f.parse, SourceId(f.key);
      && d in db.rows && db.rows[d].active && db.rows[d].hash == p.hash && db.rows[d].mtime > 0 && Complete(db, d)
      && (p.assetRefs > 0 && p.mtime > 0 ==> db.rows[d].mtime == p.mtime)
  }

  ghost predicate AllSettled(db: DB, files: seq<File>) { forall i :: 0 <= i < |files| ==> Settled(db, files[i]) }

  /** The skip rule would take the file's row as it is although it is half written, as a
      persist fault leaves it when the handler's deactivate call fails too. */
  ghost predicate Stuck(db: DB, f: File) {
    f.parse.Parsed? && Skips(Lookup(db, SourceId(f.key)), f.parse) && !Complete(db, SourceId(f.key))
  }

  lemma StepSettlesIff(st: Scan, f: File, embedding: bool, now: int)
    requires !st.aborted && now > 0
    ensures var st' := StepFile(st, f, Smooth, embedding, now);
            !st'.aborted && (Settled(st'.db, f) <==> !Stuck(st.db, f))
  {
    if f.parse.Parsed? {
      var d := SourceId(f.key);
      if !Skips(Lookup(st.db, d), f.parse) {
        PersistCompletes(st.db, f.key, NewRow(f.parse, Lookup(st.db, d), now), f.parse);
      }
    }
  }

  lemma StepKeepsSettled(st: Scan, f: File, g: File, fate: Fate, embedding: bool, now: int)
    requires FateFits(f, fate) && WellFormed(st.db)
    requires f.parse.Parsed? && g.parse.Parsed? ==> f.key != g.key
    ensures Settled(StepFile(st, f, fate, embedding, now).db, g) <==> Settled(st.db, g)
  {
    StepKeepsTables(st, f, fate, embedding, now);
    if g.parse.Parsed? && f.parse.Parsed? {
      ElsewhereIsTheSame(st.db, StepFile(st, f, fate, embedding, now).db, SourceId(f.key), SourceId(g.key));
    }
  }

  /** Whether the last file of a list is stuck is settled before the run. */
  lemma StuckBeforehand(st: Scan, files: seq<File>, fates: seq<Fate>, embedding: bool, now: int)
    requires files != [] && FatesFit(files, fates) && DistinctKeys(files) && WellFormed(st.db)
    ensures var n := |files| - 1;
            Stuck(ScanFiles(st, files[..n], fates[..n], embedding, now).db, files[n]) <==> Stuck(st.db, files[n])
  {
    var n := |files| - 1;
    if files[n].parse.Parsed? {
      forall i | 0 <= i < n ensures !Writes(files[..n][i], SourceId(files[n].key)) {
        assert files[..n][i] == files[i];
      }
      ScanTouchesOnlyItsFiles(st, files[..n], fates[..n], embedding, now, SourceId(files[n].key));
    }
  }

  /** What one smooth scan of distinct sources achieves from any state at all: it settles
      exactly the files that were not stuck when it began. */
  lemma {:induction false} SmoothScanSettles(st: Scan, files: seq<File>, fates: seq<Fate>, embedding: bool, now: int)
    requires FatesFit(files, fates) && AllSmooth(fates) && DistinctKeys(files) && now > 0
    requires WellFormed(st.db) && !st.aborted
    ensures var r := ScanFiles(st, files, fates, embedding, now);
            !r.aborted && forall i :: 0 <= i < |files| ==> (Settled(r.db, files[i]) <==> !Stuck(st.db, files[i]))
  {
    if files != [] {
      var n := |files| - 1;
      var mid := ScanFiles(st, files[..n], fates[..n], embedding, now);
      SmoothScanSettles(st, files[..n], fates[..n], embedding, now);
      ScanKeepsTables(st, files[..n], fates[..n], embedding, now);
      assert fates[n] == Smooth;
      StepSettlesIff(mid, files[n], embedding, now);
      StuckBeforehand(st, files, fates, embedding, now);
      forall i | 0 <= i < n
        ensures Settled(StepFile(mid, files[n], Smooth, embedding, now).db, files[i]) <==> !Stuck(st.db, files[i])
      {
        assert Settled(mid.db, files[..n][i]) <==> !Stuck(st.db, files[i]);
        StepKeepsSettled(mid, files[n], files[i], Smooth, embedding, now);
      }
    }
  }

  ghost predicate NoneStuck(db: DB, files: seq<File>) { forall i :: 0 <= i < |files| ==> !Stuck(db, files[i]) }

  /** Of all files, so: everything is settled iff nothing was stuck; and where every active
      row is complete nothing is. */
  lemma SmoothScanSettlesAll(st: Scan, files: seq<File>, fates: seq<Fate>, embedding: bool, now: int)
    requires FatesFit(files, fates) && AllSmooth(fates) && DistinctKeys(files) && now > 0
    requires WellFormed(st.db) && !st.aborted
    ensures AllSettled(ScanFiles(st, files, fates, embedding, now).db, files) <==> NoneStuck(st.db, files)
    ensures ActiveAreComplete(st.db) ==> NoneStuck(st.db, files)
  {
    SmoothScanSettles(st, files, fates, embedding, now);
  }

  /** A file gets stuck by a fault between row and chunks whose handler's deactivate call
      fails as well: the next smooth scan takes the row for a finished one. */
  lemma StuckFileCounterexample(hash: string, text: string)
    ensures var f := File("a.md", Parsed(hash, 1, [text], 0, 0));
            var half := StepFile(Begin(EMPTY), f, Inside(1, false, false), true, 9).db;
            var again := StepFile(Begin(half), f, Smooth, true, 9);
            && Stuck(half, f) && again.db == half && again.untouched == 1 && !Settled(again.db, f)
  {
    var p := Parsed(hash, 1, [text], 0, 0);
    var d, row := SourceId("a.md"), NewRow(p, Lookup(EMPTY, SourceId("a.md")), 9);
    AfterWrites(EMPTY, d, row, p, 1);
    assert EMPTY.bodies == map[];
  }

  /** The queued chunks belong to the documents of the run. */
  ghost predicate QueueOwned(db: DB, queue: seq<nat>, files: seq<File>) {
    forall id :: id in queue ==> id < |db.texts| && exists i :: 0 <= i < |files| && OwnsChunk(db, files[i], id)
  }

  ghost predicate OwnsChunk(db: DB, f: File, id: nat) {
    f.parse.Parsed? && SourceId(f.key) in db.bodies && id in db.bodies[SourceId(f.key)].ids
  }

  lemma StepOwnsQueue(st: Scan, files: seq<File>, f: File, fate: Fate, embedding: bool, now: int)
    requires FateFits(f, fate) && WellFormed(st.db) && QueueOwned(st.db, st.queue, files) && DistinctKeys(files + [f])
    ensures var r := StepFile(st, f, fate, embedding, now); QueueOwned(r.db, r.queue, files + [f])
  {
    var r, all := StepFile(st, f, fate, embedding, now), files + [f];
    StepKeepsTables(st, f, fate, embedding, now);
    forall id | id in r.queue ensures id < |r.db.texts| && exists i :: 0 <= i < |all| && OwnsChunk(r.db, all[i], id) {
      if id in st.queue {
        var i :| 0 <= i < |files| && OwnsChunk(st.db, files[i], id);
        assert all[i] == files[i] && all[|files|] == f;
        OwnedElsewhere(st, f, fate, embedding, now, files[i], id);
      } else {
        PersistCompletes(st.db, f.key, NewRow(f.parse, Lookup(st.db, SourceId(f.key)), now), f.parse);
        assert OwnsChunk(r.db, all[|files|], id);
      }
    }
  }

  /** With distinct source paths, every queued chunk is still there when embedding starts. */
  lemma {:induction false} QueueStaysLive(st: Scan, files: seq<File>, fates: seq<Fate>, embedding: bool, now: int)
    requires FatesFit(files, fates) && DistinctKeys(files) && WellFormed(st.db) && st.queue == []
    ensures var r := ScanFiles(st, files, fates, embedding, now); QueueOwned(r.db, r.queue, files)
  {
    if files != [] {
      var n := |files| - 1;
      QueueStaysLive(st, files[..n], fates[..n], embedding, now);
      ScanKeepsTables(st, files[..n], fates[..n], embedding, now);
      assert files == files[..n] + [files[n]];
      StepOwnsQueue(ScanFiles(st, files[..n], fates[..n], embedding, now), files[..n], files[n], fates[n],
        embedding, now);
    }
  }

  lemma OwnedElsewhere(st: Scan, f: File, fate: Fate, embedding: bool, now: int, g: File, id: nat)
    requires FateFits(f, fate) && WellFormed(st.db) && OwnsChunk(st.db, g, id)
    requires f.parse.Parsed? ==> f.key != g.key
    ensures OwnsChunk(StepFile(st, f, fate, embedding, now).db, g, id)
  {
    StepKeepsTables(st, f, fate, embedding, now);
    if f.parse.Parsed? {
      ElsewhereIsTheSame(st.db, StepFile(st, f, fate, embedding, now).db, SourceId(f.key), SourceId(g.key));
    }
  }

  ghost predicate Ascending(xs: seq<nat>) { forall i, j :: 0 <= i < j < |xs| ==> xs[i] < xs[j] }

  /** Chunk ids are never reused, so the run's own queue is strictly ascending. */
  lemma {:induction false} QueueAscends(st: Scan, files: seq<File>, fates: seq<Fate>, embedding: bool, now: int)
    requires FatesFit(files, fates) && st.queue == []
    ensures var r := ScanFiles(st, files, fates, embedding, now);
            Ascending(r.queue) && forall id :: id in r.queue ==> id < |r.db.texts|
  {
    if files != [] {
      var n := |files| - 1;
      QueueAscends(st, files[..n], fates[..n], embedding, now);
      StepAscends(ScanFiles(st, files[..n], fates[..n], embedding, now), files[n], fates[n], embedding, now);
    }
  }

  lemma StepAscends(st: Scan, f: File, fate: Fate, embedding: bool, now: int)
    requires FateFits(f, fate) && Ascending(st.queue) && forall id :: id in st.queue ==> id < |st.db.texts|
    ensures var r := StepFile(st, f, fate, embedding, now);
            Ascending(r.queue) && forall id :: id in r.queue ==> id < |r.db.texts|
  {
    if f.parse.Parsed? {
      var d, p := SourceId(f.key), f.parse;
      var row := NewRow(p, Lookup(st.db, d), now);
      PersistCompletes(st.db, f.key, row, p);
      if fate.Inside? { AfterWrites(st.db, d, row, p, fate.committed); }
      AscendingAppend(st.queue, |st.db.texts|, |p.texts|);
    }
  }

  lemma AscendingAppend(queue: seq<nat>, n: nat, k: nat)
    requires Ascending(queue) && forall id :: id in queue ==> id < n
    ensures Ascending(queue + Fresh(n, k)) && forall id :: id in queue + Fresh(n, k) ==> id < n + k
  {
    assert forall i :: 0 <= i < |queue| ==> queue[i] in queue;
  }

  /** Two walk entries that name one document: the second replaces the chunks the first
      queued, so the embedding pass meets a chunk that is gone unless the second is skipped,
      which takes the same content and no assets. */
  lemma CollidingSourcesNeedEqualContent(db: DB, f: File, g: File, now: int)
    requires WellFormed(db) && now > 0
    requires f.parse.Parsed? && g.parse.Parsed? && f.key == g.key && f.parse.texts != []
    requires !Skips(Lookup(db, SourceId(f.key)), f.parse)
    ensures var first := StepFile(Begin(db), f, Smooth, true, now);
            var r := StepFile(first, g, Smooth, true, now);
            (forall id :: id in r.queue ==> Live(r.db, id)) <==> g.parse.hash == f.parse.hash && g.parse.assetRefs == 0
  {
    var d := SourceId(f.key);
    var first := StepFile(Begin(db), f, Smooth, true, now);
    var r := StepFile(first, g, Smooth, true, now);
    PersistCompletes(db, f.key, NewRow(f.parse, Lookup(db, d), now), f.parse);
    PersistCompletes(first.db, g.key, NewRow(g.parse, Lookup(first.db, d), now), g.parse);
    var id := |db.texts|;
    assert first.queue[0] == id && first.queue[0] in first.queue;
    if Skips(Lookup(first.db, d), g.parse) {
      assert forall x :: x in r.queue ==> x in r.db.bodies[d].ids;
    } else {
      assert r.queue[0] == id && id in r.queue;
      assert id !in r.db.bodies[d].ids;
      assert forall e :: e in db.bodies ==> id !in db.bodies[e].ids;
      assert !Live(r.db, id);
    }
  }

  // ------------------------------------------------------------------
  // When the queue is live, for any list of files.

  /** The scan's state before file `i`. */
  ghost function StateAt(st: Scan, files: seq<File>, fates: seq<Fate>, embedding: bool, now: int, i: nat): Scan
    requires FatesFit(files, fates) && i <= |files|
  {
    ScanFiles(st, files[..i], fates[..i], embedding, now)
  }

  lemma StateNext(st: Scan, files: seq<File>, fates: seq<Fate>, embedding: bool, now: int, i: nat)
    requires FatesFit(files, fates) && i < |files|
    ensures StateAt(st, files, fates, embedding, now, i + 1) ==
            StepFile(StateAt(st, files, fates, embedding, now, i), files[i], fates[i], embedding, now)
  {
    assert files[..i + 1][..i] == files[..i] && fates[..i + 1][..i] == fates[..i];
  }

  /** The file's old chunks are replaced: the persist got as far as its second call. */
  ghost predicate Replaces(st: Scan, f: File, fate: Fate) {
    Persists(st, f) && !fate.Before? && (fate.Inside? ==> fate.committed >= 2)
  }

  /** The file's new chunks are queued, and there are some. */
  ghost predicate Queues(st: Scan, f: File, fate: Fate) {
    Persists(st, f) && (fate.Smooth? || fate.AfterPersist?) && f.parse.texts != []
  }

  /** File `i` queues chunks, and the later file `j` of its key replaces them. */
  ghost predicate Outruns(db: DB, files: seq<File>, fates: seq<Fate>, now: int, i: nat, j: nat)
    requires FatesFit(files, fates)
  {
    && i < j < |files| && files[i].key == files[j].key
    && Queues(StateAt(Begin(db), files, fates, true, now, i), files[i], fates[i])
    && Replaces(StateAt(Begin(db), files, fates, true, now, j), files[j], fates[j])
  }

  ghost predicate OtherBodiesStay(a: DB, b: DB, d: DocId) {
    && a.texts <= b.texts
    && (forall e :: e in b.bodies && e != d ==> e in a.bodies && b.bodies[e] == a.bodies[e])
    && (forall e :: e in a.bodies && e != d ==> e in b.bodies)
  }

  lemma WritesLeaveOthers(db: DB, b: DB, d: DocId, row: Row, p: Parse, k: nat)
    requires p.Parsed? && WritesLeave(db, b, d, row, p, k)
    ensures OtherBodiesStay(db, b, d)
    ensures if k >= 2 then d in b.bodies && b.bodies[d].ids == Fresh(|db.texts|, |p.texts|) &&
                           |b.texts| == |db.texts| + |p.texts|
            else b.bodies == db.bodies && b.texts == db.texts
  {
  }

  /** What one file does to the chunk lists. */
  lemma StepBodies(st: Scan, f: File, fate: Fate, embedding: bool, now: int)
    requires FateFits(f, fate)
    ensures var b, d := StepFile(st, f, fate, embedding, now).db, SourceId(f.key);
            && OtherBodiesStay(st.db, b, d)
            && (if Replaces(st, f, fate)
                then d in b.bodies && b.bodies[d].ids == Fresh(|st.db.texts|, |f.parse.texts|) &&
                     |b.texts| == |st.db.texts| + |f.parse.texts|
                else b.bodies == st.db.bodies && b.texts == st.db.texts)
  {
    if Persists(st, f) {
      var p, d := f.parse, SourceId(f.key);
      var row := NewRow(p, Lookup(st.db, d), now);
      var writes := SourceWrites(row, p);
      var k := if fate.Before? then 0 else if fate.Inside? then fate.committed else 2 + p.refsWanted;
      assert writes[..0] == [] && writes[..2 + p.refsWanted] == writes;
      AfterWrites(st.db, d, row, p, k);
      WritesLeaveOthers(st.db, ApplyAll(st.db, d, writes[..k]), d, row, p, k);
    }
  }

  /** What one file does to the queue. */
  lemma StepQueue(st: Scan, f: File, fate: Fate, now: int)
    requires FateFits(f, fate)
    ensures StepFile(st, f, fate, true, now).queue ==
            if Queues(st, f, fate) then st.queue + Fresh(|st.db.texts|, |f.parse.texts|) else st.queue
  {
    assert st.queue + [] == st.queue;
    if Persists(st, f) && f.parse.texts == [] { assert Fresh(|st.db.texts|, 0) == []; }
  }

  ghost predicate OwnedAt(db: DB, files: seq<File>, fates: seq<Fate>, now: int, n: nat, id: nat, i: nat)
    requires FatesFit(files, fates)
  {
    && i < n <= |files| && OwnsChunk(StateAt(Begin(db), files, fates, true, now, n).db, files[i], id)
    && Queues(StateAt(Begin(db), files, fates, true, now, i), files[i], fates[i])
  }

  /** One half: a queued chunk is its file's, unless some file has been outrun. */
  lemma {:induction false} QueuedIsOwned(db: DB, files: seq<File>, fates: seq<Fate>, now: int, n: nat, id: nat)
    requires FatesFit(files, fates) && n <= |files|
    requires id in StateAt(Begin(db), files, fates, true, now, n).queue
    requires forall i: nat, j: nat :: j < n ==> !Outruns(db, files, fates, now, i, j)
    ensures exists i: nat :: OwnedAt(db, files, fates, now, n, id, i)
  {
    if n > 0 {
      var m := n - 1;
      var before := StateAt(Begin(db), files, fates, true, now, m);
      StateNext(Begin(db), files, fates, true, now, m);
      StepQueue(before, files[m], fates[m], now);
      StepBodies(before, files[m], fates[m], true, now);
      if id in before.queue {
        QueuedIsOwned(db, files, fates, now, m, id);
        var i: nat :| OwnedAt(db, files, fates, now, m, id, i);
        assert !Outruns(db, files, fates, now, i, m);
        assert OwnedAt(db, files, fates, now, n, id, i);
      } else {
        assert OwnedAt(db, files, fates, now, n, id, m);
      }
    }
  }

  /** No document but `d` can have the chunk. */
  ghost predicate OnlyAt(db: DB, d: DocId, id: nat) {
    id < |db.texts| && forall e :: e in db.bodies && id in db.bodies[e].ids ==> e == d
  }

  lemma StepKeepsOnlyAt(st: Scan, f: File, fate: Fate, embedding: bool, now: int, d: DocId, id: nat)
    requires FateFits(f, fate) && OnlyAt(st.db, d, id)
    ensures OnlyAt(StepFile(st, f, fate, embedding, now).db, d, id)
    ensures !Live(st.db, id) || (Replaces(st, f, fate) && SourceId(f.key) == d) ==>
              !Live(StepFile(st, f, fate, embedding, now).db, id)
  {
    StepBodies(st, f, fate, embedding, now);
  }

  /** The first chunk that file `i` queues stays queued, and stays that document's or nobody's. */
  lemma {:induction false} FirstChunkStays(db: DB, files: seq<File>, fates: seq<Fate>, now: int, i: nat, n: nat,
      id: nat)
    requires FatesFit(files, fates) && WellFormed(db) && i < n <= |files|
    requires Queues(StateAt(Begin(db), files, fates, true, now, i), files[i], fates[i])
    requires id == |StateAt(Begin(db), files, fates, true, now, i).db.texts|
    ensures var st := StateAt(Begin(db), files, fates, true, now, n);
            id in st.queue && OnlyAt(st.db, SourceId(files[i].key), id)
  {
    var m := n - 1;
    var before := StateAt(Begin(db), files, fates, true, now, m);
    StateNext(Begin(db), files, fates, true, now, m);
    StepQueue(before, files[m], fates[m], now);
    if m > i {
      FirstChunkStays(db, files, fates, now, i, m, id);
      StepKeepsOnlyAt(before, files[m], fates[m], true, now, SourceId(files[i].key), id);
    } else {
      ScanKeepsTables(Begin(db), files[..i], fates[..i], true, now);
      StepBodies(before, files[m], fates[m], true, now);
      assert Fresh(|before.db.texts|, |files[m].parse.texts|)[0] == id;
    }
  }

  lemma {:induction false} OutrunStaysDead(db: DB, files: seq<File>, fates: seq<Fate>, now: int, i: nat, j: nat,
      n: nat, id: nat)
    requires FatesFit(files, fates) && WellFormed(db) && Outruns(db, files, fates, now, i, j) && j < n <= |files|
    requires id == |StateAt(Begin(db), files, fates, true, now, i).db.texts|
    ensures !Live(StateAt(Begin(db), files, fates, true, now, n).db, id)
  {
    var m := n - 1;
    var before := StateAt(Begin(db), files, fates, true, now, m);
    StateNext(Begin(db), files, fates, true, now, m);
    FirstChunkStays(db, files, fates, now, i, m, id);
    if m > j { OutrunStaysDead(db, files, fates, now, i, j, m, id); }
    StepKeepsOnlyAt(before, files[m], fates[m], true, now, SourceId(files[i].key), id);
  }

  ghost predicate NoneOutrun(db: DB, files: seq<File>, fates: seq<Fate>, now: int)
    requires FatesFit(files, fates)
  {
    forall i: nat, j: nat :: !Outruns(db, files, fates, now, i, j)
  }

  ghost predicate QueueIsLive(st: Scan) { forall id :: id in st.queue ==> id < |st.db.texts| && Live(st.db, id) }

  lemma AllFiles(st: Scan, files: seq<File>, fates: seq<Fate>, embedding: bool, now: int)
    requires FatesFit(files, fates)
    ensures StateAt(st, files, fates, embedding, now, |files|) == ScanFiles(st, files, fates, embedding, now)
  {
    assert files[..|files|] == files && fates[..|files|] == fates;
  }

  lemma OutrunLosesAChunk(db: DB, files: seq<File>, fates: seq<Fate>, now: int, i: nat, j: nat)
    requires FatesFit(files, fates) && WellFormed(db) && Outruns(db, files, fates, now, i, j)
    ensures !QueueIsLive(ScanFiles(Begin(db), files, fates, true, now))
  {
    var id := |StateAt(Begin(db), files, fates, true, now, i).db.texts|;
    FirstChunkStays(db, files, fates, now, i, |files|, id);
    OutrunStaysDead(db, files, fates, now, i, j, |files|, id);
    AllFiles(Begin(db), files, fates, true, now);
  }

  /** Whatever the files and their fates: every queued chunk is still there when embedding
      starts iff no file that queued chunks has them replaced by a later file of its key. */
  lemma QueueIsLiveIff(db: DB, files: seq<File>, fates: seq<Fate>, now: int)
    requires FatesFit(files, fates) && WellFormed(db)
    ensures QueueIsLive(ScanFiles(Begin(db), files, fates, true, now)) <==> NoneOutrun(db, files, fates, now)
  {
    var r := ScanFiles(Begin(db), files, fates, true, now);
    if NoneOutrun(db, files, fates, now) {
      QueueAscends(Begin(db), files, fates, true, now);
      AllFiles(Begin(db), files, fates, true, now);
      forall id | id in r.queue ensures Live(r.db, id) {
        QueuedIsOwned(db, files, fates, now, |files|, id);
        var i: nat :| OwnedAt(db, files, fates, now, |files|, id, i);
        assert SourceId(files[i].key) in r.db.bodies;
      }
    } else {
      var i: nat, j: nat :| Outruns(db, files, fates, now, i, j);
      OutrunLosesAChunk(db, files, fates, now, i, j);
    }
  }

  // In a smooth scan the files alone tell.

  /** The second file is not skipped over what the first one stored. */
  predicate Differs(f: File, g: File) {
    f.parse.Parsed? && g.parse.Parsed? && (g.parse.hash != f.parse.hash || g.parse.assetRefs > 0)
  }

  /** The row that a file's persist leaves, or one the skip rule treats alike. */
  ghost predicate RowOf(st: Scan, f: File) {
    && !st.aborted && f.parse.Parsed? && SourceId(f.key) in st.db.rows
    && var row := st.db.rows[SourceId(f.key)]; row.active && row.hash == f.parse.hash && row.mtime > 0
  }

  lemma SmoothStepRow(st: Scan, f: File, g: File, now: int)
    requires RowOf(st, f) && now > 0 && !(f.key == g.key && Persists(st, g))
    ensures RowOf(StepFile(st, g, Smooth, true, now), f)
  {
    if Persists(st, g) {
      PersistCompletes(st.db, g.key, NewRow(g.parse, Lookup(st.db, SourceId(g.key)), now), g.parse);
    }
  }

  /** After a file has been persisted, its row stays until a file of its key outruns it. */
  lemma {:induction false} RowSince(db: DB, files: seq<File>, fates: seq<Fate>, now: int, i: nat, n: nat)
    requires FatesFit(files, fates) && AllSmooth(fates) && now > 0 && i < n <= |files|
    requires Queues(StateAt(Begin(db), files, fates, true, now, i), files[i], fates[i])
    requires forall m: nat :: m < n ==> !Outruns(db, files, fates, now, i, m)
    ensures RowOf(StateAt(Begin(db), files, fates, true, now, n), files[i])
  {
    var m := n - 1;
    var before := StateAt(Begin(db), files, fates, true, now, m);
    StateNext(Begin(db), files, fates, true, now, m);
    assert fates[m] == Smooth;
    if m > i {
      RowSince(db, files, fates, now, i, m);
      assert !Outruns(db, files, fates, now, i, m);
      SmoothStepRow(before, files[i], files[m], now);
    } else {
      PersistCompletes(before.db, files[m].key,
        NewRow(files[m].parse, Lookup(before.db, SourceId(files[m].key)), now), files[m].parse);
    }
  }

  lemma {:induction false} OutrunByADifferent(db: DB, files: seq<File>, fates: seq<Fate>, now: int, i: nat, j: nat)
    returns (m: nat)
    requires FatesFit(files, fates) && AllSmooth(fates) && now > 0 && Outruns(db, files, fates, now, i, j)
    ensures i < m <= j && files[m].key == files[i].key && Differs(files[i], files[m])
    decreases j
  {
    if k: nat :| k < j && Outruns(db, files, fates, now, i, k) {
      m := OutrunByADifferent(db, files, fates, now, i, k);
    } else {
      RowSince(db, files, fates, now, i, j);
      m := j;
    }
  }

  /** A file that queues chunks, and a later file of its key that differs from it. */
  ghost predicate Clashes(db: DB, files: seq<File>, fates: seq<Fate>, now: int, i: nat, j: nat)
    requires FatesFit(files, fates)
  {
    && i < j < |files| && files[i].key == files[j].key && Differs(files[i], files[j])
    && Queues(StateAt(Begin(db), files, fates, true, now, i), files[i], fates[i])
  }

  lemma ClashIsOutrun(db: DB, files: seq<File>, fates: seq<Fate>, now: int, i: nat, j: nat)
    requires FatesFit(files, fates) && AllSmooth(fates) && now > 0 && Clashes(db, files, fates, now, i, j)
    ensures !NoneOutrun(db, files, fates, now)
  {
    if NoneOutrun(db, files, fates, now) {
      RowSince(db, files, fates, now, i, j);
      assert fates[j] == Smooth;
      assert Outruns(db, files, fates, now, i, j);
    }
  }

  /** The queue of a smooth scan is live iff of all files with one path, after one that queued
      chunks, each has its content and no assets. */
  lemma SmoothQueueIsLiveIff(db: DB, files: seq<File>, fates: seq<Fate>, now: int)
    requires FatesFit(files, fates) && AllSmooth(fates) && now > 0 && WellFormed(db)
    ensures QueueIsLive(ScanFiles(Begin(db), files, fates, true, now)) <==>
            forall i: nat, j: nat :: !Clashes(db, files, fates, now, i, j)
  {
    QueueIsLiveIff(db, files, fates, now);
    if i: nat, j: nat :| Clashes(db, files, fates, now, i, j) {
      ClashIsOutrun(db, files, fates, now, i, j);
    } else if i: nat, j: nat :| Outruns(db, files, fates, now, i, j) {
      var m := OutrunByADifferent(db, files, fates, now, i, j);
      assert Clashes(db, files, fates, now, i, m);
    }
  }

  // ------------------------------------------------------------------
  // The counters of the report, file by file.

  ghost predicate Lands(st: Scan, f: File, fate: Fate) { Persists(st, f) && fate.Smooth? }

  /** The file could not be read or parsed, or its persist met a fault that is no cancel. */
  ghost predicate Fails(st: Scan, f: File, fate: Fate) {
    && !st.aborted
    && (f.parse.ReadError? || f.parse.ParseError? || (Persists(st, f) && !fate.Smooth? && !fate.cancel))
  }

  /** The files before `n` that land and had no row. */
  ghost function NewFiles(st: Scan, files: seq<File>, fates: seq<Fate>, embedding: bool, now: int, n: nat): set<nat>
    requires FatesFit(files, fates) && n <= |files|
  {
    set i: nat | i < n && Lands(StateAt(st, files, fates, embedding, now, i), files[i], fates[i]) &&
                 SourceId(files[i].key) !in StateAt(st, files, fates, embedding, now, i).db.rows
  }

  /** Those that land and had one, active or not. */
  ghost function KnownFiles(st: Scan, files: seq<File>, fates: seq<Fate>, embedding: bool, now: int, n: nat): set<nat>
    requires FatesFit(files, fates) && n <= |files|
  {
    set i: nat | i < n && Lands(StateAt(st, files, fates, embedding, now, i), files[i], fates[i]) &&
                 SourceId(files[i].key) in StateAt(st, files, fates, embedding, now, i).db.rows
  }

  ghost function FailedFiles(st: Scan, files: seq<File>, fates: seq<Fate>, embedding: bool, now: int, n: nat): set<nat>
    requires FatesFit(files, fates) && n <= |files|
  {
    set i: nat | i < n && Fails(StateAt(st, files, fates, embedding, now, i), files[i], fates[i])
  }

  ghost function ChunksOf(st: Scan, files: seq<File>, fates: seq<Fate>, embedding: bool, now: int, n: nat): nat
    requires FatesFit(files, fates) && n <= |files|
  {
    if n == 0 then 0
    else
      ChunksOf(st, files, fates, embedding, now, n - 1) +
      if Lands(StateAt(st, files, fates, embedding, now, n - 1), files[n - 1], fates[n - 1])
      then |files[n - 1].parse.texts| else 0
  }

  lemma Counted(before: set<nat>, after: set<nat>, n: nat, more: bool)
    requires (forall i :: i in before ==> i < n) && forall i: nat :: i in after <==> i in before || (more && i == n)
    ensures |after| == |before| + if more then 1 else 0
  {
    assert after == before + if more then {n} else {};
  }

  lemma StepCounts(st: Scan, f: File, fate: Fate, embedding: bool, now: int)
    requires FateFits(f, fate)
    ensures var r := StepFile(st, f, fate, embedding, now); var had := SourceId(f.key) in st.db.rows;
            && r.added == st.added + (if Lands(st, f, fate) && !had then 1 else 0)
            && r.updated == st.updated + (if Lands(st, f, fate) && had then 1 else 0)
            && r.errors == st.errors + (if Fails(st, f, fate) then 1 else 0)
            && r.chunks == st.chunks + (if Lands(st, f, fate) then |f.parse.texts| else 0)
  {
  }

  /** What a file that lands leaves on record: its own content, under its own mtime if that is
      usable, else under the one on record for the same content, else under the clock's. */
  lemma LandedRow(st: Scan, f: File, fate: Fate, embedding: bool, now: int)
    requires FateFits(f, fate) && Lands(st, f, fate) && WellFormed(st.db)
    ensures var d, p, b := SourceId(f.key), f.parse, StepFile(st, f, fate, embedding, now).db;
            var kept := d in st.db.rows && st.db.rows[d].mtime > 0 && st.db.rows[d].hash == p.hash;
            && d in b.rows && b.rows[d].active && b.rows[d].hash == p.hash && Complete(b, d)
            && (p.mtime > 0 ==> b.rows[d].mtime == p.mtime)
            && (p.mtime <= 0 && kept ==> b.rows[d].mtime == st.db.rows[d].mtime)
            && (p.mtime <= 0 && !kept ==> b.rows[d].mtime == now)
  {
    var existing := Lookup(st.db, SourceId(f.key));
    PersistCompletes(st.db, f.key, NewRow(f.parse, existing, now), f.parse);
  }

  /** A report counts as added the files that landed without a row before, as updated those that
      landed over one, as errors those that failed, and the chunks of all that landed. */
  lemma {:induction false} ReportCounts(st: Scan, files: seq<File>, fates: seq<Fate>, embedding: bool, now: int, n: nat)
    requires FatesFit(files, fates) && n <= |files|
    ensures var r := StateAt(st, files, fates, embedding, now, n);
            && r.added == st.added + |NewFiles(st, files, fates, embedding, now, n)|
            && r.updated == st.updated + |KnownFiles(st, files, fates, embedding, now, n)|
            && r.errors == st.errors + |FailedFiles(st, files, fates, embedding, now, n)|
            && r.chunks == st.chunks + ChunksOf(st, files, fates, embedding, now, n)
  {
    if n > 0 {
      var m := n - 1;
      var before := StateAt(st, files, fates, embedding, now, m);
      var had := SourceId(files[m].key) in before.db.rows;
      ReportCounts(st, files, fates, embedding, now, m);
      StateNext(st, files, fates, embedding, now, m);
      StepCounts(before, files[m], fates[m], embedding, now);
      Counted(NewFiles(st, files, fates, embedding, now, m), NewFiles(st, files, fates, embedding, now, n), m,
              Lands(before, files[m], fates[m]) && !had);
      Counted(KnownFiles(st, files, fates, embedding, now, m), KnownFiles(st, files, fates, embedding, now, n), m,
              Lands(before, files[m], fates[m]) && had);
      Counted(FailedFiles(st, files, fates, embedding, now, m), FailedFiles(st, files, fates, embedding, now, n), m,
              Fails(before, files[m], fates[m]));
    }
  }

  /** So a run's report, which starts from nothing. */
  lemma RunReportCounts(db: DB, files: seq<File>, fates: seq<Fate>, embedding: bool, now: int)
    requires FatesFit(files, fates)
    ensures var st, n, r := Begin(db), |files|, ScanFiles(Begin(db), files, fates, embedding, now);
            && r.added == |NewFiles(st, files, fates, embedding, now, n)|
            && r.updated == |KnownFiles(st, files, fates, embedding, now, n)|
            && r.errors == |FailedFiles(st, files, fates, embedding, now, n)|
            && r.chunks == ChunksOf(st, files, fates, embedding, now, n)
            && r.scanned == r.added + r.updated + r.untouched + r.errors
  {
    ReportCounts(Begin(db), files, fates, embedding, now, |files|);
    ReportBalances(Begin(db), files, fates, embedding, now);
    assert files[..|files|] == files && fates[..|fates|] == fates;
  }

  // ------------------------------------------------------------------
  // A second run on unchanged files.

  function AssetFree(files: seq<File>): nat {
    if files == [] then 0
    else AssetFree(files[..|files| - 1]) +
         (if files[|files| - 1].parse.Parsed? && files[|files| - 1].parse.assetRefs == 0 then 1 else 0)
  }

  lemma StepOnSettled(st: Scan, f: File, embedding: bool, now: int)
    requires WellFormed(st.db) && Settled(st.db, f) && !st.aborted
    ensures var r := StepFile(st, f, Smooth, embedding, now);
            && !r.aborted && r.db.rows == st.db.rows && r.added == st.added
            && r.untouched == st.untouched + (if f.parse.Parsed? && f.parse.assetRefs == 0 then 1 else 0)
            && Settled(r.db, f)
  {
    if f.parse.Parsed? && !Skips(Lookup(st.db, SourceId(f.key)), f.parse) {
      var row := NewRow(f.parse, Lookup(st.db, SourceId(f.key)), now);
      assert row == st.db.rows[SourceId(f.key)];
      PersistCompletes(st.db, f.key, row, f.parse);
    }
  }

  /** The second run reports every asset-free source as not touched, adds nothing, and
      leaves every stored row, hence every mtime, as it is. */
  lemma {:induction false} SecondScanIsQuiet(st: Scan, files: seq<File>, fates: seq<Fate>, embedding: bool, now: int)
    requires FatesFit(files, fates) && AllSmooth(fates) && DistinctKeys(files)
    requires WellFormed(st.db) && AllSettled(st.db, files) && !st.aborted
    ensures var r := ScanFiles(st, files, fates, embedding, now);
            && !r.aborted && r.db.rows == st.db.rows && AllSettled(r.db, files)
            && r.added == st.added && r.untouched == st.untouched + AssetFree(files)
  {
    PrefixIsQuiet(st, files, fates, embedding, now, |files|);
    assert files[..|files|] == files && fates[..|files|] == fates;
  }

  lemma {:induction false} PrefixIsQuiet(st: Scan, files: seq<File>, fates: seq<Fate>, embedding: bool,
      now: int, k: nat)
    requires FatesFit(files, fates) && AllSmooth(fates) && DistinctKeys(files) && k <= |files|
    requires WellFormed(st.db) && AllSettled(st.db, files) && !st.aborted
    ensures var r := ScanFiles(st, files[..k], fates[..k], embedding, now);
            && !r.aborted && r.db.rows == st.db.rows && AllSettled(r.db, files)
            && r.added == st.added && r.untouched == st.untouched + AssetFree(files[..k])
  {
    if k > 0 {
      var n := k - 1;
      assert files[..k][..n] == files[..n] && fates[..k][..n] == fates[..n];
      var mid := ScanFiles(st, files[..n], fates[..n], embedding, now);
      PrefixIsQuiet(st, files, fates, embedding, now, n);
      ScanKeepsTables(st, files[..n], fates[..n], embedding, now);
      StepOnSettled(mid, files[n], embedding, now);
      forall i | 0 <= i < |files| ensures Settled(StepFile(mid, files[n], Smooth, embedding, now).db, files[i]) {
        assert Settled(mid.db, files[i]);
        if i != n { StepKeepsSettled(mid, files[n], files[i], Smooth, embedding, now); }
      }
    }
  }
}

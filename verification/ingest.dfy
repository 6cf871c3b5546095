/** The ingest run: scan and persist the source files, then embed what the run queued and
    whatever earlier runs left without a vector. */
module Ingest {
  import opened Options
  import opened Storage

  /** What reading one file of the source walk gave.  `refsWanted` counts the chunks that
      hold a resolved asset reference. */
  datatype Parse =
    | Unsupported
    | ReadError
    | ParseError
    | Parsed(hash: string, mtime: int, texts: seq<string>, assetRefs: nat, refsWanted: nat)

  datatype File = File(key: string, parse: Parse)

  /** Where, if anywhere, processing a file faults.  `committed` writes of the persist
      pipeline are down when it does: a call cancelled in flight may or may not have landed.
      `hidden` says whether a deactivate call in the handler, should it make one, works. */
  datatype Fate =
    | Smooth
    | Before(cancel: bool, hidden: bool)
    | Inside(committed: nat, cancel: bool, hidden: bool)
    | AfterPersist(cancel: bool, hidden: bool)

  /** The running report, the chunk ids queued for embedding, and whether the run aborted. */
  datatype Scan = Scan(db: DB, scanned: nat, added: nat, updated: nat, untouched: nat, errors: nat, chunks: nat,
      queue: seq<nat>, aborted: bool)

  function SourceId(key: string): DocId { DocId(Source, key) }

  /** Keep a usable file mtime, else the stored one of the same content, else the clock. */
  function ResolveMtime(parsedMtime: int, hash: string, existing: Option<Row>, now: int): (m: int)
    ensures now > 0 ==> m > 0
  {
    if parsedMtime > 0 then parsedMtime
    else if existing.Some? && existing.value.mtime > 0 && existing.value.hash == hash then existing.value.mtime
    else now
  }

  function Lookup(db: DB, d: DocId): Option<Row> { if d in db.rows then Some(db.rows[d]) else None }

  predicate Skips(existing: Option<Row>, p: Parse)
    requires p.Parsed?
  {
    existing.Some? && existing.value.active && existing.value.hash == p.hash && p.assetRefs == 0 &&
      existing.value.mtime > 0
  }

  function Refs(n: nat): (ws: seq<Write>)
    ensures |ws| == n
  {
    if n == 0 then [] else Refs(n - 1) + [PutRef]
  }

  /** The storage calls of `persist_source`, in order. */
  function SourceWrites(row: Row, p: Parse): seq<Write>
    requires p.Parsed?
  {
    [PutRow(row), PutChunks(p.hash, p.texts, p.refsWanted)] + Refs(p.refsWanted)
  }

  function NewRow(p: Parse, existing: Option<Row>, now: int): Row
    requires p.Parsed?
  {
    Row(p.hash, ResolveMtime(p.mtime, p.hash, existing, now), true)
  }

  ghost predicate FateFits(f: File, fate: Fate) {
    f.parse.Parsed? && fate.Inside? ==> fate.committed <= 2 + f.parse.refsWanted
  }

  function RecordError(st: Scan): Scan { st.(scanned := st.scanned + 1, errors := st.errors + 1) }

  /** A fault handled at the end of a file: a cancel aborts the run and loses the report. */
  function Faulted(st: Scan, cancel: bool): Scan {
    if cancel then st.(aborted := true) else RecordError(st)
  }

  function Count(st: Scan, existed: bool, chunks: nat): Scan {
    st.(scanned := st.scanned + 1,
        added := if existed then st.added else st.added + 1,
        updated := if existed then st.updated + 1 else st.updated,
        chunks := st.chunks + chunks)
  }

  /** The reference semantics of one file. */
  ghost function StepFile(st: Scan, f: File, fate: Fate, embedding: bool, now: int): Scan
    requires FateFits(f, fate)
  {
    if st.aborted || f.parse.Unsupported? then st
    else if !f.parse.Parsed? then RecordError(st)
    else
      var p, d := f.parse, SourceId(f.key);
      var existing := Lookup(st.db, d);
      if Skips(existing, p) then st.(scanned := st.scanned + 1, untouched := st.untouched + 1)
      else
        var writes := SourceWrites(NewRow(p, existing, now), p);
        match fate
        case Before(cancel, _) => Faulted(st, cancel)
        case Inside(committed, cancel, hidden) =>
          var half := ApplyAll(st.db, d, writes[..committed]);
          Faulted(st.(db := if hidden then Deactivate(half, d) else half), cancel)
        case AfterPersist(cancel, _) => Faulted(Persisted(st, d, writes, |p.texts|, embedding), cancel)
        case Smooth => Count(Persisted(st, d, writes, |p.texts|, embedding), existing.Some?, |p.texts|)
  }

  ghost function Persisted(st: Scan, d: DocId, writes: seq<Write>, chunks: nat, embedding: bool): Scan {
    st.(db := ApplyAll(st.db, d, writes),
        queue := if embedding then st.queue + Fresh(|st.db.texts|, chunks) else st.queue)
  }

  lemma {:induction false} RefsAreRefs(n: nat)
    ensures forall w :: w in Refs(n) ==> w == PutRef
  {
    if n > 0 { RefsAreRefs(n - 1); }
  }

  ghost predicate FatesFit(files: seq<File>, fates: seq<Fate>) {
    |fates| == |files| && forall i :: 0 <= i < |files| ==> FateFits(files[i], fates[i])
  }

  ghost function ScanFiles(st: Scan, files: seq<File>, fates: seq<Fate>, embedding: bool, now: int): Scan
    requires FatesFit(files, fates)
  {
    if files == [] then st
    else
      var n := |files| - 1;
      StepFile(ScanFiles(st, files[..n], fates[..n], embedding, now), files[n], fates[n], embedding, now)
  }

  function Begin(db: DB): Scan { Scan(db, 0, 0, 0, 0, 0, 0, [], false) }

  // ------------------------------------------------------------------
  // The same, as the program runs it.

  /** `persist_source`: row, chunks, then one bridge call per chunk that needs one.  Raises
      once `faultAt` calls have landed; `|SourceWrites|` or more means no fault. */
  method PersistSource(store: Store, d: DocId, row: Row, p: Parse, faultAt: nat) returns (raised: bool)
    requires p.Parsed?
    modifies store
    ensures raised <==> faultAt < 2 + p.refsWanted
    ensures store.db == ApplyAll(old(store.db), d,
            if raised then SourceWrites(row, p)[..faultAt] else SourceWrites(row, p))
  {
    ghost var db0, writes := store.db, SourceWrites(row, p);
    RefsAreRefs(p.refsWanted);
    assert writes[..0] == [];
    if faultAt == 0 { return true; }
    store.db := UpsertDocument(store.db, d, row);
    ApplyNext(db0, d, writes, 0);
    if faultAt == 1 { return true; }
    store.db := ReplaceChunks(store.db, d, p.hash, p.texts, p.refsWanted);
    ApplyNext(db0, d, writes, 1);
    for i := 0 to p.refsWanted
      invariant store.db == ApplyAll(db0, d, writes[..2 + i])
      invariant faultAt >= 2 + i
    {
      if faultAt == 2 + i { return true; }
      store.db := WriteRef(store.db, d);
      assert writes[2 + i] == Refs(p.refsWanted)[i] && Refs(p.refsWanted)[i] in Refs(p.refsWanted);
      ApplyNext(db0, d, writes, 2 + i);
    }
    assert writes[..2 + p.refsWanted] == writes;
    return false;
  }

  /** One file, with the handlers that decide whether its row may be half written. */
  method IngestFile(store: Store, st: Scan, f: File, fate: Fate, embedding: bool, now: int) returns (st': Scan)
    requires FateFits(f, fate) && st.db == store.db && !st.aborted
    modifies store
    ensures st' == StepFile(st, f, fate, embedding, now)
    ensures st'.db == store.db
  {
    match f.parse {
      case Unsupported => return st;
      case ReadError => return RecordError(st);
      case ParseError => return RecordError(st);
      case Parsed(_, _, _, _, _) =>
    }
    var p, d := f.parse, SourceId(f.key);
    var existing := Lookup(store.db, d);
    if Skips(existing, p) {
      return st.(scanned := st.scanned + 1, untouched := st.untouched + 1);
    }
    var rowMayBePartial := false;
    var cancelled, failed := false, false;
    st' := st;
    if fate.Before? {
      cancelled, failed := fate.cancel, true;
    } else {
      rowMayBePartial := true;
      var row := NewRow(p, existing, now);
      var faultAt := if fate.Inside? then fate.committed else 2 + p.refsWanted;
      var raised := PersistSource(store, d, row, p, faultAt);
      if fate.Inside? {
        // A call that landed and was cancelled on its way back raises too.
        assert SourceWrites(row, p)[..2 + p.refsWanted] == SourceWrites(row, p);
        cancelled, failed := fate.cancel, true;
        st' := st'.(db := store.db);
      } else {
        rowMayBePartial := false;
        st' := st'.(db := store.db);
        if embedding { st' := st'.(queue := st'.queue + Fresh(|st.db.texts|, |p.texts|)); }
        if fate.AfterPersist? { cancelled, failed := fate.cancel, true; }
      }
    }
    if failed {
      if rowMayBePartial && fate.hidden {
        store.db := Deactivate(store.db, d);
        st' := st'.(db := store.db);
      }
      return Faulted(st', cancelled);
    }
    return Count(st', existing.Some?, |p.texts|);
  }

  /** The scan loop. */
  method ScanSources(store: Store, files: seq<File>, fates: seq<Fate>, embedding: bool, now: int) returns (st: Scan)
    requires FatesFit(files, fates)
    modifies store
    ensures st == ScanFiles(Begin(old(store.db)), files, fates, embedding, now)
    ensures st.db == store.db
  {
    st := Begin(store.db);
    ghost var st0 := st;
    for i := 0 to |files|
      invariant st == ScanFiles(st0, files[..i], fates[..i], embedding, now) && st.db == store.db
    {
      assert files[..i + 1][..i] == files[..i] && fates[..i + 1][..i] == fates[..i];
      if !st.aborted {
        st := IngestFile(store, st, files[i], fates[i], embedding, now);
      }
    }
    assert files[..|files|] == files && fates[..|fates|] == fates;
  }

  // ------------------------------------------------------------------
  // What the scan leaves alone.

  /** From `a` to `b` nothing but the one document's tables has changed, and no vector. */
  ghost predicate KeepsTables(a: DB, b: DB, d: DocId) {
    && (WellFormed(a) ==> WellFormed(b)) && (SpacesAgree(a) ==> SpacesAgree(b))
    && b.versions == a.versions && b.active == a.active && b.vectors == a.vectors
    && a.texts <= b.texts && OnlyTouches(a, b, d)
  }

  lemma PersistKeepsTables(db: DB, d: DocId, ws: seq<Write>, hidden: bool)
    requires WellFormed(db) && forall w :: w in ws ==> !w.PutVectors?
    ensures var mid := ApplyAll(db, d, ws); KeepsTables(db, if hidden then Deactivate(mid, d) else mid, d)
  {
    NonVectorWrites(db, d, ws);
    if hidden { HidingTouches(ApplyAll(db, d, ws), d); }
  }

  lemma StepKeepsTables(st: Scan, f: File, fate: Fate, embedding: bool, now: int)
    requires FateFits(f, fate) && WellFormed(st.db)
    ensures var st' := StepFile(st, f, fate, embedding, now);
            WellFormed(st'.db) && KeepsTables(st.db, st'.db, SourceId(f.key))
  {
    if f.parse.Parsed? && !st.aborted && !Skips(Lookup(st.db, SourceId(f.key)), f.parse) {
      var p, d := f.parse, SourceId(f.key);
      var writes := SourceWrites(NewRow(p, Lookup(st.db, d), now), p);
      RefsAreRefs(p.refsWanted);
      assert forall w :: w in writes ==> !w.PutVectors?;
      PersistKeepsTables(st.db, d, writes, false);
      if fate.Inside? { PersistKeepsTables(st.db, d, writes[..fate.committed], fate.hidden); }
    }
  }

  lemma HidingTouches(db: DB, d: DocId)
    ensures OnlyTouches(db, Deactivate(db, d), d)
    ensures WellFormed(db) ==> WellFormed(Deactivate(db, d))
    ensures SpacesAgree(db) ==> SpacesAgree(Deactivate(db, d))
  {
    if d in db.rows { UpdateElsewhere(db.rows, d, db.rows[d].(active := false)); }
  }

  lemma {:induction false} NonVectorWrites(db: DB, d: DocId, ws: seq<Write>)
    requires WellFormed(db) && forall w :: w in ws ==> !w.PutVectors?
    ensures WellFormed(ApplyAll(db, d, ws)) && ApplyAll(db, d, ws).vectors == db.vectors
    ensures ApplyAll(db, d, ws).versions == db.versions && ApplyAll(db, d, ws).active == db.active
    ensures SpacesAgree(db) ==> SpacesAgree(ApplyAll(db, d, ws))
    ensures OnlyTouches(db, ApplyAll(db, d, ws), d)
  {
    if ws != [] {
      var n := |ws| - 1;
      assert ws[n] in ws;
      NonVectorWrites(db, d, ws[..n]);
      var mid := ApplyAll(db, d, ws[..n]);
      ApplyOnlyTouches(mid, d, ws[n]);
      PlainWriteKeeps(mid, d, ws[n]);
    }
  }

  lemma PlainWriteKeeps(db: DB, d: DocId, w: Write)
    requires WellFormed(db) && !w.PutVectors?
    ensures WellFormed(Apply(db, d, w)) && Apply(db, d, w).vectors == db.vectors
    ensures Apply(db, d, w).versions == db.versions && Apply(db, d, w).active == db.active
    ensures SpacesAgree(db) ==> SpacesAgree(Apply(db, d, w))
  {
    if SpacesAgree(db) { ApplyKeepsSpaces(db, d, w); }
  }

  lemma {:induction false} ScanKeepsTables(st: Scan, files: seq<File>, fates: seq<Fate>, embedding: bool, now: int)
    requires FatesFit(files, fates) && WellFormed(st.db)
    ensures var st' := ScanFiles(st, files, fates, embedding, now);
            && WellFormed(st'.db) && (SpacesAgree(st.db) ==> SpacesAgree(st'.db))
            && st'.db.versions == st.db.versions && st'.db.active == st.db.active && st'.db.vectors == st.db.vectors
            && st.db.texts <= st'.db.texts
  {
    if files != [] {
      var n := |files| - 1;
      ScanKeepsTables(st, files[..n], fates[..n], embedding, now);
      StepKeepsTables(ScanFiles(st, files[..n], fates[..n], embedding, now), files[n], fates[n], embedding, now);
    }
  }
}

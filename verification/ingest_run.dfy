/** The whole ingest run: registration, scan, resume scan and bulk embedding. */
module IngestRun {
  import opened Options
  import opened Sequences
  import opened Storage
  import opened EmbedVersions
  import opened Ingest
  import opened IngestTheory

  ghost predicate Missing(db: DB, version: nat, id: nat) {
    id < |db.texts| && Live(db, id) && (version, id) !in db.vectors
  }

  method QueueMissing(queued: seq<nat>, missing: seq<nat>) returns (queue: seq<nat>)
    requires Distinct(missing)
    ensures queue == queued + Absent(missing, queued)
    ensures queued <= queue
    ensures forall id :: id in queue <==> id in queued || id in missing
    ensures Distinct(queued) ==> Distinct(queue)
  {
    var alreadyQueued := set id | id in queued;
    queue := queued;
    for i := 0 to |missing|
      invariant queue == queued + Absent(missing[..i], queued)
      invariant forall id :: id in queue <==> id in queued || id in missing[..i]
      invariant Distinct(queued) ==> Distinct(queue)
    {
      assert missing[..i + 1] == missing[..i] + [missing[i]] && missing[..i + 1][..i] == missing[..i];
      if missing[i] !in alreadyQueued {
        assert missing[i] !in missing[..i];
        queue := queue + [missing[i]];
      }
    }
    assert missing[..|missing|] == missing;
  }

  lemma {:induction false} AbsentAscends(missing: seq<nat>, queued: seq<nat>)
    requires Ascending(missing)
    ensures Ascending(Absent(missing, queued))
  {
    if missing != [] {
      var front := missing[..|missing| - 1];
      AbsentAscends(front, queued);
      AbsentMeans(front, queued);
      assert forall i :: 0 <= i < |Absent(front, queued)| ==> Absent(front, queued)[i] in Absent(front, queued);
    }
  }

  /** The run's own chunks come first, then the others by id. */
  ghost predicate Resumes(queue: seq<nat>, queued: seq<nat>) { queued <= queue && Ascending(queue[|queued|..]) }

  /** One batch: embedded, skipped after its retries, or a permanent error. */
  datatype BatchFate = Embedded | SkippedAfterRetries | PermanentError

  ghost predicate AllLive(db: DB, ids: seq<nat>) { forall id :: id in ids ==> id < |db.texts| && Live(db, id) }

  ghost predicate AllEmbed(fates: nat -> BatchFate) { forall i: nat :: fates(i).Embedded? }

  /** `db` is `db0` with vectors added under `version`, and no space broken by it. */
  ghost predicate Embedding(db0: DB, db: DB, version: nat, space: Space) {
    && WellFormed(db) && OnlyVectorsDiffer(db0, db) && version < |db0.versions|
    && (SpacesAgree(db0) && db0.versions[version] == space ==> SpacesAgree(db))
    && db0.vectors.Keys <= db.vectors.Keys
  }

  ghost predicate Covers(db: DB, version: nat, ids: seq<nat>) {
    forall id :: id in ids && id < |db.texts| ==> (version, id) in db.vectors
  }

  lemma EmbeddingOf(db: DB, version: nat, space: Space, ids: seq<nat>)
    requires WellFormed(db) && version < |db.versions|
    ensures var b := EmbedMany(db, version, space, ids);
            Embedding(db, b, version, space) && Covers(b, version, ids)
  {
    EmbedManyMeans(db, version, space, ids);
  }

  /** Embedding some chunks makes no other batch refusable. */
  lemma EmbeddingKeepsLive(db: DB, version: nat, space: Space, embedded: seq<nat>, ids: seq<nat>)
    requires WellFormed(db) && version < |db.versions|
    ensures var b := EmbedMany(db, version, space, embedded);
            WellFormed(b) && b.versions == db.versions && (AllLive(b, ids) <==> AllLive(db, ids))
  {
    EmbedManyMeans(db, version, space, embedded);
    var b := EmbedMany(db, version, space, embedded);
    forall id ensures Live(b, id) <==> Live(db, id) {}
  }

  /** One batch of the bulk pass.  The foreign key refuses a vector for a chunk that is no
      longer there, and with it the whole batch. */
  method EmbedBatch(store: Store, version: nat, space: Space, ids: seq<nat>) returns (raised: bool)
    requires WellFormed(store.db) && version < |store.db.versions|
    modifies store
    ensures raised <==> !AllLive(old(store.db), ids)
    ensures store.db == if raised then old(store.db) else EmbedMany(old(store.db), version, space, ids)
    ensures Embedding(old(store.db), store.db, version, space)
    ensures !raised ==> Covers(store.db, version, ids)
  {
    if !AllChunksLive(store.db, ids) { return true; }
    EmbeddingOf(store.db, version, space, ids);
    store.db := EmbedMany(store.db, version, space, ids);
    return false;
  }

  // ------------------------------------------------------------------
  // The batches of a queue.

  /** Where batch `b` starts, if the queue reaches that far. */
  function StartOf(size: nat, b: nat): nat { if b == 0 then 0 else StartOf(size, b - 1) + size }

  function Upto(queue: seq<nat>, i: nat): nat { if i <= |queue| then i else |queue| }

  function BatchOf(queue: seq<nat>, size: nat, b: nat): seq<nat> {
    queue[Upto(queue, StartOf(size, b))..Upto(queue, StartOf(size, b + 1))]
  }

  /** What the batches before `n` that are embedded hold, in order. */
  function EmbeddedBefore(queue: seq<nat>, size: nat, fates: nat -> BatchFate, n: nat): seq<nat> {
    if n == 0 then []
    else
      EmbeddedBefore(queue, size, fates, n - 1) +
      if fates(n - 1).Embedded? then BatchOf(queue, size, n - 1) else []
  }

  /** Batch `b` ends the pass: a permanent error, or a chunk that is gone. */
  ghost predicate EndsAt(db: DB, queue: seq<nat>, size: nat, fates: nat -> BatchFate, b: nat) {
    && StartOf(size, b) < |queue|
    && (fates(b).PermanentError? || (fates(b).Embedded? && !AllLive(db, BatchOf(queue, size, b))))
  }

  ghost predicate NoneEnds(db: DB, queue: seq<nat>, size: nat, fates: nat -> BatchFate, stop: nat) {
    forall b: nat :: b < stop ==> !EndsAt(db, queue, size, fates, b)
  }

  ghost predicate SomeSkipped(queue: seq<nat>, size: nat, fates: nat -> BatchFate, stop: nat) {
    exists b: nat :: b < stop && StartOf(size, b) < |queue| && fates(b).SkippedAfterRetries?
  }

  /** The pass ran up to batch `stop`: the first that ends it, or the end of the queue. */
  ghost predicate RanUpTo(db: DB, queue: seq<nat>, size: nat, fates: nat -> BatchFate, stop: nat, raised: bool,
                          skipped: bool, embedded: seq<nat>) {
    && NoneEnds(db, queue, size, fates, stop)
    && (if raised then EndsAt(db, queue, size, fates, stop) else StartOf(size, stop) >= |queue|)
    && (skipped <==> SomeSkipped(queue, size, fates, stop))
    && embedded == EmbeddedBefore(queue, size, fates, stop)
  }

  ghost predicate InBatch(size: nat, b: nat, i: nat) { StartOf(size, b) <= i < StartOf(size, b + 1) }

  /** Position `i` of the queue lies in a batch that is embedded before `stop`. */
  ghost predicate IsWritten(size: nat, fates: nat -> BatchFate, stop: nat, i: nat) {
    exists b: nat :: b < stop && fates(b).Embedded? && InBatch(size, b, i)
  }

  lemma {:induction false} StartsGrow(size: nat, b: nat, c: nat)
    requires b <= c
    ensures StartOf(size, b) <= StartOf(size, c)
  {
    if b < c { StartsGrow(size, b, c - 1); }
  }

  lemma BatchMeans(queue: seq<nat>, size: nat, b: nat, id: nat)
    ensures id in BatchOf(queue, size, b) <==> exists i :: 0 <= i < |queue| && queue[i] == id && InBatch(size, b, i)
  {
    StartsGrow(size, b, b + 1);
    var from, to := Upto(queue, StartOf(size, b)), Upto(queue, StartOf(size, b + 1));
    if id in queue[from..to] {
      var k :| 0 <= k < to - from && queue[from..to][k] == id;
      assert queue[from + k] == id && InBatch(size, b, from + k);
    }
    if i :| 0 <= i < |queue| && queue[i] == id && InBatch(size, b, i) {
      assert queue[from..to][i - from] == id;
    }
  }

  lemma WrittenNext(size: nat, fates: nat -> BatchFate, b: nat, i: nat)
    ensures IsWritten(size, fates, b + 1, i) <==>
            IsWritten(size, fates, b, i) || (fates(b).Embedded? && InBatch(size, b, i))
  {
  }

  lemma {:induction false} EmbeddedMeans(queue: seq<nat>, size: nat, fates: nat -> BatchFate, n: nat, id: nat)
    ensures id in EmbeddedBefore(queue, size, fates, n) <==>
            exists i :: 0 <= i < |queue| && queue[i] == id && IsWritten(size, fates, n, i)
  {
    if n > 0 {
      var b := n - 1;
      EmbeddedMeans(queue, size, fates, b, id);
      BatchMeans(queue, size, b, id);
      forall i: nat ensures IsWritten(size, fates, n, i) <==>
                            IsWritten(size, fates, b, i) || (fates(b).Embedded? && InBatch(size, b, i))
      {
        WrittenNext(size, fates, b, i);
      }
    }
  }

  /** The pass, chunk by chunk: a vector is new only for a chunk of a batch embedded before the
      stop, and each such chunk has one; so a queued chunk lacks one only if its batches were
      skipped or lie at or after the stop. */
  lemma PassMeans(db: DB, queue: seq<nat>, size: nat, fates: nat -> BatchFate, stop: nat, version: nat, space: Space)
    ensures var b := EmbedMany(db, version, space, EmbeddedBefore(queue, size, fates, stop));
            && (forall i :: 0 <= i < |queue| && queue[i] < |db.texts| && IsWritten(size, fates, stop, i) ==>
                  (version, queue[i]) in b.vectors)
            && (forall k :: k in b.vectors && k !in db.vectors ==>
                  k.0 == version && exists i :: 0 <= i < |queue| && queue[i] == k.1 && IsWritten(size, fates, stop, i))
  {
    var embedded := EmbeddedBefore(queue, size, fates, stop);
    EmbedManyMeans(db, version, space, embedded);
    forall id: nat
      ensures id in embedded <==> exists i :: 0 <= i < |queue| && queue[i] == id && IsWritten(size, fates, stop, i)
    {
      EmbeddedMeans(queue, size, fates, stop, id);
    }
  }

  lemma {:induction false} WholeQueue(db: DB, queue: seq<nat>, size: nat, fates: nat -> BatchFate, n: nat)
    requires NoneEnds(db, queue, size, fates, n) && !SomeSkipped(queue, size, fates, n)
    ensures EmbeddedBefore(queue, size, fates, n) == queue[..Upto(queue, StartOf(size, n))]
    ensures AllLive(db, queue[..Upto(queue, StartOf(size, n))])
  {
    if n > 0 {
      var b := n - 1;
      WholeQueue(db, queue, size, fates, b);
      StartsGrow(size, b, n);
      var from, to := Upto(queue, StartOf(size, b)), Upto(queue, StartOf(size, n));
      AllLiveConcat(db, queue, from, to);
      if StartOf(size, b) < |queue| {
        assert !EndsAt(db, queue, size, fates, b) && fates(b).Embedded?;
      } else {
        assert BatchOf(queue, size, b) == [];
      }
    }
  }

  /** The bulk pass over everything queued; `embedded` is what it got to write, and `stop` the
      batch it got to. */
  method EmbedQueue(store: Store, version: nat, space: Space, queue: seq<nat>, batchSize: nat, fates: nat -> BatchFate)
    returns (raised: bool, skipped: bool, ghost embedded: seq<nat>, ghost stop: nat)
    requires batchSize > 0
    requires WellFormed(store.db) && version < |store.db.versions|
    modifies store
    ensures store.db == EmbedMany(old(store.db), version, space, embedded)
    ensures RanUpTo(old(store.db), queue, batchSize, fates, stop, raised, skipped, embedded)
    ensures Embedding(old(store.db), store.db, version, space)
    ensures !raised && !skipped ==> embedded == queue && Covers(store.db, version, queue)
    ensures AllEmbed(fates) ==> !skipped && (raised <==> !AllLive(old(store.db), queue))
  {
    raised, skipped, embedded := false, false, [];
    ghost var db0 := store.db;
    var start, batch: nat := 0, 0;
    while start < |queue| && !raised
      invariant start == Upto(queue, StartOf(batchSize, batch))
      invariant store.db == EmbedMany(db0, version, space, embedded)
      invariant NoneEnds(db0, queue, batchSize, fates, batch)
      invariant raised ==> EndsAt(db0, queue, batchSize, fates, batch)
      invariant skipped <==> SomeSkipped(queue, batchSize, fates, batch)
      invariant embedded == EmbeddedBefore(queue, batchSize, fates, batch)
      decreases |queue| - start, if raised then 0 else 1
    {
      var end := if start + batchSize <= |queue| then start + batchSize else |queue|;
      var ids := queue[start..end];
      assert ids == BatchOf(queue, batchSize, batch);
      EmbeddingKeepsLive(db0, version, space, embedded, ids);
      match fates(batch) {
        case PermanentError => raised := true;
        case SkippedAfterRetries => skipped := true;
        case Embedded =>
          raised := EmbedBatch(store, version, space, ids);
          if !raised {
            EmbedManyConcat(db0, version, space, embedded, ids);
            embedded := embedded + ids;
          }
      }
      if !raised {
        NextBatch(db0, queue, batchSize, fates, batch);
        start, batch := end, batch + 1;
      }
    }
    stop := batch;
    EmbeddingOf(db0, version, space, embedded);
    RanThrough(db0, queue, batchSize, fates, stop, raised, skipped, embedded);
  }

  lemma NextBatch(db: DB, queue: seq<nat>, size: nat, fates: nat -> BatchFate, b: nat)
    requires StartOf(size, b) < |queue|
    ensures NoneEnds(db, queue, size, fates, b + 1) <==>
            NoneEnds(db, queue, size, fates, b) && !EndsAt(db, queue, size, fates, b)
    ensures SomeSkipped(queue, size, fates, b + 1) <==>
            SomeSkipped(queue, size, fates, b) || fates(b).SkippedAfterRetries?
    ensures EmbeddedBefore(queue, size, fates, b + 1) ==
            EmbeddedBefore(queue, size, fates, b) + if fates(b).Embedded? then BatchOf(queue, size, b) else []
  {
  }

  /** What a pass achieves that met no permanent error, no gone chunk, and skipped nothing, and
      that such a pass is what a provider without faults gives on a live queue. */
  lemma RanThrough(db: DB, queue: seq<nat>, size: nat, fates: nat -> BatchFate, stop: nat, raised: bool, skipped: bool,
      embedded: seq<nat>)
    requires RanUpTo(db, queue, size, fates, stop, raised, skipped, embedded)
    ensures !raised && !skipped ==> embedded == queue && AllLive(db, queue)
    ensures forall id :: id in embedded ==> id in queue
    ensures AllEmbed(fates) ==> !skipped && (raised <==> !AllLive(db, queue))
  {
    forall id | id in embedded ensures id in queue { EmbeddedMeans(queue, size, fates, stop, id); }
    if !skipped { WholeQueue(db, queue, size, fates, stop); }
    if raised { BatchIsQueued(db, queue, size, stop); }
    assert queue[..|queue|] == queue;
  }

  lemma BatchIsQueued(db: DB, queue: seq<nat>, size: nat, b: nat)
    ensures !AllLive(db, BatchOf(queue, size, b)) ==> !AllLive(db, queue)
  {
    StartsGrow(size, b, b + 1);
    AllLiveConcat(db, queue, Upto(queue, StartOf(size, b)), Upto(queue, StartOf(size, b + 1)));
  }

  lemma AllLiveConcat(db: DB, queue: seq<nat>, start: nat, end: nat)
    requires start <= end <= |queue|
    ensures queue[..end] == queue[..start] + queue[start..end]
    ensures AllLive(db, queue[..end]) <==> AllLive(db, queue[..start]) && AllLive(db, queue[start..end])
    ensures !AllLive(db, queue[start..end]) ==> !AllLive(db, queue)
  {
    assert queue[..end] == queue[..start] + queue[start..end];
    assert forall id :: id in queue[..end] <==> id in queue[..start] || id in queue[start..end];
    assert forall id :: id in queue[start..end] ==> id in queue;
  }

  function LiveIds(db: DB): set<nat> {
    set d, id | d in db.bodies && id in db.bodies[d].ids :: id
  }

  predicate AllChunksLive(db: DB, ids: seq<nat>)
    ensures AllChunksLive(db, ids) <==> AllLive(db, ids)
  {
    forall id :: id in ids ==> id < |db.texts| && id in LiveIds(db)
  }

  /** `list_chunks_missing_embedding` over the ids below `n`. */
  function ListMissing(db: DB, version: nat, n: nat): (ids: seq<nat>)
    requires n <= |db.texts|
    ensures forall id: nat :: id in ids <==> id < n && Missing(db, version, id)
    ensures forall i, j :: 0 <= i < j < |ids| ==> ids[i] < ids[j]
  {
    if n == 0 then []
    else
      var ids := ListMissing(db, version, n - 1);
      assert forall i :: 0 <= i < |ids| ==> ids[i] in ids;
      if n - 1 in LiveIds(db) && (version, n - 1) !in db.vectors then ids + [n - 1] else ids
  }

  /** The resume scan and the bulk pass: the run's own queue first, then every live chunk
      that has no vector under `version`. */
  method ResumeAndEmbed(store: Store, version: nat, space: Space, queued: seq<nat>, batchSize: nat,
      fates: nat -> BatchFate)
      returns (queue: seq<nat>, raised: bool, skipped: bool, ghost embedded: seq<nat>, ghost stop: nat)
    requires batchSize > 0 && WellFormed(store.db) && version < |store.db.versions|
    modifies store
    ensures Embedding(old(store.db), store.db, version, space)
    ensures store.db == EmbedMany(old(store.db), version, space, embedded)
    ensures Resumes(queue, queued) && (Distinct(queued) ==> Distinct(queue))
    ensures forall id: nat :: id in queue <==> id in queued || Missing(old(store.db), version, id)
    ensures RanUpTo(old(store.db), queue, batchSize, fates, stop, raised, skipped, embedded)
    ensures Reconciles(old(store.db), store.db, version, queue, batchSize, fates, stop)
    ensures !raised && !skipped ==> embedded == queue && AllLiveCovered(store.db, version)
    ensures AllEmbed(fates) ==> !skipped && (raised <==> !AllLive(old(store.db), queued))
  {
    ghost var db0 := store.db;
    var missing := ListMissing(store.db, version, |store.db.texts|);
    queue := QueueMissing(queued, missing);
    AbsentAscends(missing, queued);
    assert queue[|queued|..] == Absent(missing, queued);
    assert AllLive(db0, queue) <==> AllLive(db0, queued) by {
      assert forall id: nat :: id in queue <==> id in queued || Missing(db0, version, id);
    }
    raised, skipped, embedded, stop := EmbedQueue(store, version, space, queue, batchSize, fates);
    RanThrough(db0, queue, batchSize, fates, stop, raised, skipped, embedded);
    PassReconciles(db0, version, space, queue, batchSize, fates, stop);
    if !raised && !skipped { WholePassCovers(db0, version, space, queue); }
  }

  /** A vector of the pass is for a chunk of a batch embedded before the stop; and a live chunk
      without a vector is queued, in batches that were all skipped or lie at or after the stop. */
  ghost predicate Reconciles(db0: DB, db: DB, version: nat, queue: seq<nat>, size: nat, fates: nat -> BatchFate,
                             stop: nat) {
    && (forall k :: k in db.vectors && k !in db0.vectors ==>
          k.0 == version && exists i :: 0 <= i < |queue| && queue[i] == k.1 && IsWritten(size, fates, stop, i))
    && (forall id: nat :: LacksVector(db, version, id) ==>
          id in queue && forall i :: 0 <= i < |queue| && queue[i] == id ==> !IsWritten(size, fates, stop, i))
  }

  ghost predicate LacksVector(db: DB, version: nat, id: nat) {
    id < |db.texts| && Live(db, id) && (version, id) !in db.vectors
  }

  lemma PassReconciles(db: DB, version: nat, space: Space, queue: seq<nat>, size: nat, fates: nat -> BatchFate,
      stop: nat)
    requires forall id: nat :: Missing(db, version, id) ==> id in queue
    ensures Reconciles(db, EmbedMany(db, version, space, EmbeddedBefore(queue, size, fates, stop)), version, queue,
                       size, fates, stop)
  {
    var embedded := EmbeddedBefore(queue, size, fates, stop);
    var b := EmbedMany(db, version, space, embedded);
    PassMeans(db, queue, size, fates, stop, version, space);
    EmbedManyMeans(db, version, space, embedded);
    forall id: nat | LacksVector(b, version, id)
      ensures id in queue && forall i :: 0 <= i < |queue| && queue[i] == id ==> !IsWritten(size, fates, stop, i)
    {
      assert Live(db, id) && Missing(db, version, id);
    }
  }

  lemma WholePassCovers(db: DB, version: nat, space: Space, queue: seq<nat>)
    requires forall id: nat :: Missing(db, version, id) ==> id in queue
    ensures AllLiveCovered(EmbedMany(db, version, space, queue), version)
  {
    EmbedManyMeans(db, version, space, queue);
    var b := EmbedMany(db, version, space, queue);
    forall id: nat | id < |b.texts| && Live(b, id) ensures (version, id) in b.vectors {
      assert Live(db, id);
      if (version, id) !in db.vectors { assert Missing(db, version, id); }
    }
  }

  datatype Outcome = Finished | Aborted | EmbeddingRaised

  ghost function Registered(db: DB, cfg: ProviderConfig, embedder: bool): DB {
    if embedder then Register(db, cfg) else db
  }

  /** The tables after a run that wrote the vectors of `embedded` before it ended. */
  ghost function AfterIngest(db: DB, cfg: ProviderConfig, embedder: bool, files: seq<File>, fates: seq<Fate>,
      now: int, embedded: seq<nat>): DB
    requires FatesFit(files, fates)
  {
    var st := ScanFiles(Begin(Registered(db, cfg, embedder)), files, fates, embedder, now);
    if embedder && !st.aborted && st.db.active.Some?
    then EmbedMany(st.db, st.db.active.value, SpaceOf(cfg), embedded) else st.db
  }

  /** No fault anywhere, and no two source files that name the same document. */
  ghost predicate Undisturbed(files: seq<File>, fates: seq<Fate>, batchFates: nat -> BatchFate, now: int) {
    AllSmooth(fates) && AllEmbed(batchFates) && DistinctKeys(files) && now > 0
  }

  /** The first half of a run: register the configured identity when there is an embedder,
      then scan. */
  method RegisterAndScan(store: Store, cfg: ProviderConfig, embedder: bool, files: seq<File>, fates: seq<Fate>,
      now: int) returns (st: Scan)
    requires FatesFit(files, fates) && WellFormed(store.db)
    modifies store
    ensures st == ScanFiles(Begin(Registered(old(store.db), cfg, embedder)), files, fates, embedder, now)
    ensures st.db == store.db && WellFormed(store.db)
    ensures embedder ==> ActiveIs(store.db, SpaceOf(cfg))
    ensures Ascending(st.queue) && st.scanned == st.added + st.updated + st.untouched + st.errors
    ensures SpacesAgree(old(store.db)) ==> SpacesAgree(store.db)
    ensures HandlersWork(fates) && ActiveAreComplete(old(store.db)) ==> ActiveAreComplete(store.db)
  {
    if embedder {
      UpsertVersionMeans(store.db, SpaceOf(cfg));
      UpsertVersionKeeps(store.db, SpaceOf(cfg));
      store.db := Register(store.db, cfg);
    }
    ghost var begin := Begin(store.db);
    st := ScanSources(store, files, fates, embedder, now);
    ScanKeepsTables(begin, files, fates, embedder, now);
    ReportBalances(begin, files, fates, embedder, now);
    QueueAscends(begin, files, fates, embedder, now);
    if HandlersWork(fates) && ActiveAreComplete(begin.db) {
      ScanKeepsActiveComplete(begin, files, fates, embedder, now);
    }
  }

  ghost predicate ActiveIs(db: DB, space: Space) {
    db.active.Some? && db.active.value < |db.versions| && db.versions[db.active.value] == space
  }

  /** A whole run: register, scan, queue what is missing, embed. */
  method RunIngest(store: Store, cfg: ProviderConfig, embedder: bool, files: seq<File>, fates: seq<Fate>,
      batchSize: nat, batchFates: nat -> BatchFate, now: int)
      returns (st: Scan, queue: seq<nat>, outcome: Outcome, skipped: bool, ghost embedded: seq<nat>, ghost stop: nat)
    requires FatesFit(files, fates) && batchSize > 0 && WellFormed(store.db)
    modifies store
    // what it does
    ensures st == ScanFiles(Begin(Registered(old(store.db), cfg, embedder)), files, fates, embedder, now)
    ensures outcome == Aborted <==> st.aborted
    ensures store.db == AfterIngest(old(store.db), cfg, embedder, files, fates, now, embedded)
    ensures st.aborted || !embedder ==> store.db == st.db
    ensures embedder ==> ActiveIs(st.db, SpaceOf(cfg))
    ensures embedder && outcome != Aborted ==> Embedding(st.db, store.db, st.db.active.value, SpaceOf(cfg))
    ensures embedder && outcome != Aborted ==>
              Resumes(queue, st.queue) &&
              forall id: nat :: id in queue <==> id in st.queue || Missing(st.db, st.db.active.value, id)
    ensures embedder && outcome != Aborted ==>
              && RanUpTo(st.db, queue, batchSize, batchFates, stop, outcome.EmbeddingRaised?, skipped, embedded)
              && Reconciles(st.db, store.db, st.db.active.value, queue, batchSize, batchFates, stop)
    ensures embedder && outcome.Finished? && !skipped ==> embedded == queue
    // what every run keeps
    ensures Distinct(queue)
    ensures st.scanned == st.added + st.updated + st.untouched + st.errors
    ensures SpacesAgree(old(store.db)) ==> SpacesAgree(store.db)
    ensures HandlersWork(fates) && ActiveAreComplete(old(store.db)) ==> ActiveAreComplete(store.db)
    // what an undisturbed run achieves, whatever state it starts from
    ensures embedder && outcome.Finished? && !skipped ==> AllLiveCovered(store.db, st.db.active.value)
    ensures embedder && Undisturbed(files, fates, batchFates, now) ==>
              outcome.Finished? && !skipped && (AllSettled(store.db, files) <==> NoneStuck(old(store.db), files))
  {
    ghost var begin := Begin(Registered(store.db, cfg, embedder));
    ghost var smooth := embedder && Undisturbed(files, fates, batchFates, now);
    if smooth { SmoothScanReady(store.db, cfg, files, fates, now); }
    st := RegisterAndScan(store, cfg, embedder, files, fates, now);
    if st.aborted { return st, [], Aborted, false, [], 0; }
    if !embedder { return st, [], Finished, false, [], 0; }
    var raised;
    queue, raised, skipped, embedded, stop :=
      ResumeAndEmbed(store, store.db.active.value, SpaceOf(cfg), st.queue, batchSize, batchFates);
    outcome := if raised then EmbeddingRaised else Finished;
    EmbeddingKeepsRows(st.db, store.db, files);
  }

  /** A smooth scan from any state runs through, and everything it queued is still there. */
  lemma SmoothScanReady(db: DB, cfg: ProviderConfig, files: seq<File>, fates: seq<Fate>, now: int)
    requires FatesFit(files, fates) && AllSmooth(fates) && DistinctKeys(files) && now > 0 && WellFormed(db)
    ensures var st := ScanFiles(Begin(Register(db, cfg)), files, fates, true, now);
            && !st.aborted && AllLive(st.db, st.queue) && WellFormed(st.db) && ActiveIs(st.db, SpaceOf(cfg))
            && (AllSettled(st.db, files) <==> NoneStuck(db, files))
  {
    UpsertVersionMeans(db, SpaceOf(cfg));
    UpsertVersionKeeps(db, SpaceOf(cfg));
    var begin := Begin(Register(db, cfg));
    ScanKeepsTables(begin, files, fates, true, now);
    SmoothScanSettles(begin, files, fates, true, now);
    SmoothScanSettlesAll(begin, files, fates, true, now);
    assert forall f :: Stuck(begin.db, f) <==> Stuck(db, f);
    QueueStaysLive(begin, files, fates, true, now);
    var st := ScanFiles(begin, files, fates, true, now);
    forall id | id in st.queue ensures id < |st.db.texts| && Live(st.db, id) {
      var i :| 0 <= i < |files| && OwnsChunk(st.db, files[i], id);
    }
  }

  lemma EmbeddingKeepsRows(a: DB, b: DB, files: seq<File>)
    requires OnlyVectorsDiffer(a, b)
    ensures ActiveAreComplete(a) ==> ActiveAreComplete(b)
    ensures AllSettled(a, files) <==> AllSettled(b, files)
  {
    forall d ensures Complete(a, d) <==> Complete(b, d) {}
    assert forall f :: Settled(a, f) <==> Settled(b, f);
  }

  /** Every stored chunk, of whatever layer, has a vector under `version`. */
  ghost predicate AllLiveCovered(db: DB, version: nat) {
    forall id: nat :: id < |db.texts| && Live(db, id) ==> (version, id) in db.vectors
  }
}

/** Knowledge and wisdom pages: the persist pipeline with inline embedding, the handlers
    around it in synth and wisdom writes, and whole histories of both with ingests. */
module Pages {
  import opened Options
  import opened Storage
  import opened EmbedVersions
  import opened Ingest
  import opened IngestTheory
  import opened IngestRun
  import SynthRun
  import SynthProtocol

  /** A page as re-read from disk.  `batches` says, per embedding batch, which chunk
      positions it wrote; it is empty when embedding is deferred. */
  datatype Page = Page(doc: DocId, hash: string, mtime: int, texts: seq<string>, batches: seq<seq<bool>>)

  /** Where an inline writer may put vectors, as resolved at its start. */
  type Target = Option<(nat, Space)>

  function EmbedWrites(batches: seq<seq<bool>>, target: Target): seq<Write> {
    if batches == [] || target.None? then []
    else
      var last := batches[|batches| - 1];
      EmbedWrites(batches[..|batches| - 1], target) + [PutVectors(target.value.0, target.value.1, last)]
  }

  /** The storage calls of `persist_knowledge` and `persist_wisdom`, in order. */
  function PageWrites(page: Page, target: Target): seq<Write> {
    [PutRow(Row(page.hash, page.mtime, true)), PutChunks(page.hash, page.texts, 0)] +
    EmbedWrites(page.batches, target) + [PutLinks(page.hash), PutProvenance(page.hash)]
  }

  /** How persisting a page ends: all calls land, or a fault after `committed` of them. */
  datatype PageFate = Lands | Faults(committed: nat, cancel: bool, hidden: bool)

  ghost predicate PageFateFits(page: Page, target: Target, fate: PageFate) {
    fate.Faults? ==> fate.committed <= |PageWrites(page, target)|
  }

  ghost function AfterPage(db: DB, page: Page, target: Target, fate: PageFate): DB
    requires PageFateFits(page, target, fate)
  {
    match fate
    case Lands => ApplyAll(db, page.doc, PageWrites(page, target))
    case Faults(committed, _, hidden) =>
      var half := ApplyAll(db, page.doc, PageWrites(page, target)[..committed]);
      if hidden then Deactivate(half, page.doc) else half
  }

  // ------------------------------------------------------------------
  // The program's own form.

  method PersistPage(store: Store, page: Page, target: Target, faultAt: nat) returns (raised: bool)
    modifies store
    ensures raised <==> faultAt < |PageWrites(page, target)|
    ensures store.db == ApplyAll(old(store.db), page.doc,
            if raised then PageWrites(page, target)[..faultAt] else PageWrites(page, target))
  {
    ghost var db0 := store.db;
    var writes := PageWrites(page, target);
    assert writes[..0] == [];
    for i := 0 to |writes|
      invariant store.db == ApplyAll(db0, page.doc, writes[..i]) && faultAt >= i
    {
      if faultAt == i { return true; }
      store.db := Apply(store.db, page.doc, writes[i]);
      ApplyNext(db0, page.doc, writes, i);
    }
    assert writes[..|writes|] == writes;
    return false;
  }

  /** One page with its handler: hide on any fault; the caller re-raises a cancel. */
  method TryPage(store: Store, page: Page, target: Target, fate: PageFate) returns (ok: bool)
    requires PageFateFits(page, target, fate)
    modifies store
    ensures store.db == AfterPage(old(store.db), page, target, fate)
    ensures ok <==> fate.Lands?
  {
    var writes := PageWrites(page, target);
    var raised := PersistPage(store, page, target, if fate.Faults? then fate.committed else |writes|);
    assert writes[..|writes|] == writes;
    if fate.Lands? { return true; }
    if fate.hidden { store.db := Deactivate(store.db, page.doc); }
    return false;
  }

  /** What the source's attempt records for each page it got to. */
  function OutcomeOf(page: Page, fate: PageFate): SynthRun.PageOutcome {
    match fate
    case Lands => SynthRun.Stored(page.doc.key)
    case Faults(_, cancel, _) => if cancel then SynthRun.Cancelled(page.doc.key) else SynthRun.Broken(page.doc.key)
  }

  ghost predicate PagesFit(pages: seq<Page>, target: Target, fates: seq<PageFate>) {
    |fates| == |pages| && forall i :: 0 <= i < |pages| ==> PageFateFits(pages[i], target, fates[i])
  }

  ghost function AfterPages(db: DB, pages: seq<Page>, target: Target, fates: seq<PageFate>): DB
    requires PagesFit(pages, target, fates)
  {
    if pages == [] then db
    else
      var n := |pages| - 1;
      AfterPage(AfterPages(db, pages[..n], target, fates[..n]), pages[n], target, fates[n])
  }

  /** The store after the first `i` pages. */
  ghost function AfterFirst(db: DB, pages: seq<Page>, target: Target, fates: seq<PageFate>, i: nat): DB
    requires PagesFit(pages, target, fates) && i <= |pages|
  {
    AfterPages(db, pages[..i], target, fates[..i])
  }

  lemma AfterPagesNext(db: DB, pages: seq<Page>, target: Target, fates: seq<PageFate>, i: nat)
    requires PagesFit(pages, target, fates) && i < |pages|
    ensures PageFateFits(pages[i], target, fates[i])
    ensures AfterFirst(db, pages, target, fates, i + 1) ==
            AfterPage(AfterFirst(db, pages, target, fates, i), pages[i], target, fates[i])
  {
    assert pages[..i + 1][..i] == pages[..i] && fates[..i + 1][..i] == fates[..i];
  }

  /** The persist loop over one source's pages: a broken page is hidden and the loop goes
      on, a cancel ends it.  `outcomes` is what the completion protocol goes by. */
  method PersistSourcePages(store: Store, pages: seq<Page>, target: Target, fates: seq<PageFate>)
    returns (outcomes: seq<SynthRun.PageOutcome>)
    requires PagesFit(pages, target, fates)
    modifies store
    ensures |outcomes| <= |pages| && forall i :: 0 <= i < |outcomes| ==> outcomes[i] == OutcomeOf(pages[i], fates[i])
    ensures |outcomes| == |pages| || (outcomes != [] && outcomes[|outcomes| - 1].Cancelled?)
    ensures forall i :: 0 <= i < |outcomes| - 1 ==> !outcomes[i].Cancelled?
    ensures store.db == AfterFirst(old(store.db), pages, target, fates, |outcomes|)
  {
    outcomes := [];
    ghost var db0 := store.db;
    for i := 0 to |pages|
      invariant |outcomes| == i && forall j :: 0 <= j < i ==> outcomes[j] == OutcomeOf(pages[j], fates[j])
      invariant forall j :: 0 <= j < i ==> !outcomes[j].Cancelled?
      invariant store.db == AfterFirst(db0, pages, target, fates, i)
    {
      AfterPagesNext(db0, pages, target, fates, i);
      var ok := TryPage(store, pages[i], target, fates[i]);
      outcomes := outcomes + [OutcomeOf(pages[i], fates[i])];
      if !ok && fates[i].cancel { return; }
    }
  }

  /** How a wisdom write ends: a preflight error, a cancel or a failed file write stops it
      before the persist, with the page's file rewritten or not; else the persist decides. */
  datatype WisdomFate = Stops(filed: bool) | Persists(fate: PageFate)

  ghost predicate WisdomFateFits(page: Page, target: Target, fate: WisdomFate) {
    fate.Persists? ==> PageFateFits(page, target, fate.fate)
  }

  /** `write_wisdom_page` under its lock: resolve a version or defer, write the file, then
      persist.  A write counts as creating the page when no active row was there.  `filed`
      says whether the page's file holds the new text afterwards. */
  method WriteWisdom(store: Store, cfg: ProviderConfig, page: Page, embedder: bool, fate: WisdomFate)
    returns (created: bool, filed: bool, ok: bool)
    requires page.doc.layer.Wisdom? && WisdomFateFits(page, InlineTarget(store.db, cfg, embedder), fate)
    modifies store
    ensures created <==> !(page.doc in old(store.db).rows && old(store.db).rows[page.doc].active)
    ensures fate.Stops? ==> store.db == old(store.db) && filed == fate.filed && !ok
    ensures fate.Persists? ==>
              && store.db == AfterPage(old(store.db), page, InlineTarget(old(store.db), cfg, embedder), fate.fate)
              && filed && (ok <==> fate.fate.Lands?)
  {
    var existing := Lookup(store.db, page.doc);
    created := existing.None? || !existing.value.active;
    var target := InlineTarget(store.db, cfg, embedder);
    filed, ok := false, false;
    if fate == Stops(false) { return; }
    filed := true;
    if fate == Stops(true) { return; }
    ok := TryPage(store, page, target, fate.fate);
  }

  /** Once the persist has begun, a row that ends up active has the hash of the new file: only
      a stop between the file and the persist leaves an active row that is behind its file. */
  lemma PersistedWisdomMatchesItsFile(db: DB, page: Page, target: Target, fate: PageFate)
    requires PageFateFits(page, target, fate) && (fate.Faults? ==> fate.hidden)
    ensures var b := AfterPage(db, page, target, fate);
            page.doc in b.rows && b.rows[page.doc].active ==> fate.Lands? && b.rows[page.doc].hash == page.hash
  {
    LandedPageIsComplete(db, page, target);
  }

  /** An inline writer embeds under the active version iff its config still is that version. */
  function InlineTarget(db: DB, cfg: ProviderConfig, embedder: bool): Target {
    var resolved := ResolveForInlineEmbed(db, Some(cfg));
    if embedder && resolved.Some? then Some((resolved.value.0, SpaceOf(cfg))) else None
  }

  // ------------------------------------------------------------------
  // What a page write achieves, and what every one of them keeps.

  ghost predicate TargetFits(db: DB, target: Target) {
    target.Some? ==> target.value.0 < |db.versions| && db.versions[target.value.0] == target.value.1
  }

  lemma InlineTargetFits(db: DB, cfg: ProviderConfig, embedder: bool)
    requires WellFormed(db)
    ensures TargetFits(db, InlineTarget(db, cfg, embedder))
  {
    var resolved := ResolveForInlineEmbed(db, Some(cfg));
    if resolved.Some? { ResolveIsExact(db, cfg, resolved.value.0, resolved.value.1); }
  }

  lemma {:induction false} EmbedWritesShape(batches: seq<seq<bool>>, target: Target)
    ensures forall w :: w in EmbedWrites(batches, target) ==> w.PutVectors? && target == Some((w.version, w.space))
  {
    if batches != [] && target.Some? { EmbedWritesShape(batches[..|batches| - 1], target); }
  }

  /** The tables behind completeness, which embedding leaves alone. */
  lemma {:induction false} VectorWritesKeepTables(db: DB, d: DocId, head: seq<Write>, embeds: seq<Write>)
    requires forall w :: w in embeds ==> w.PutVectors?
    ensures OnlyVectorsDiffer(ApplyAll(db, d, head), ApplyAll(db, d, head + embeds))
  {
    if embeds == [] {
      assert head + embeds == head;
    } else {
      var n := |embeds| - 1;
      assert embeds[n] in embeds;
      VectorWritesKeepTables(db, d, head, embeds[..n]);
      assert (head + embeds)[..|head + embeds| - 1] == head + embeds[..n];
      var mid := ApplyAll(db, d, head + embeds[..n]);
      if d in mid.bodies {
        EmbedManyMeans(mid, embeds[n].version, embeds[n].space, Kept(mid.bodies[d].ids, embeds[n].kept));
      }
    }
  }

  lemma PageHead(db: DB, d: DocId, row: Row, hash: string, texts: seq<string>)
    ensures var b := ApplyAll(db, d, [PutRow(row), PutChunks(hash, texts, 0)]);
            && b.rows == db.rows[d := row] && b.links == db.links && b.provenance == db.provenance
            && b.bodies == db.bodies[d := Body(hash, Fresh(|db.texts|, |texts|), 0, 0)]
  {
    var head := [PutRow(row), PutChunks(hash, texts, 0)];
    ApplyNext(db, d, head, 0);
    ApplyNext(db, d, head, 1);
    assert head[..0] == [] && head[..2] == head;
  }

  /** Everything of a page but its links and provenance. */
  function PageBody(page: Page, target: Target): seq<Write> {
    [PutRow(Row(page.hash, page.mtime, true)), PutChunks(page.hash, page.texts, 0)] + EmbedWrites(page.batches, target)
  }

  lemma BodyLands(db: DB, page: Page, target: Target)
    ensures var b := ApplyAll(db, page.doc, PageBody(page, target));
            && b.rows == db.rows[page.doc := Row(page.hash, page.mtime, true)]
            && b.bodies == db.bodies[page.doc := Body(page.hash, Fresh(|db.texts|, |page.texts|), 0, 0)]
  {
    var head := [PutRow(Row(page.hash, page.mtime, true)), PutChunks(page.hash, page.texts, 0)];
    PageHead(db, page.doc, Row(page.hash, page.mtime, true), page.hash, page.texts);
    EmbedWritesShape(page.batches, target);
    VectorWritesKeepTables(db, page.doc, head, EmbedWrites(page.batches, target));
  }

  lemma PageEnds(db: DB, page: Page, target: Target)
    ensures ApplyAll(db, page.doc, PageWrites(page, target)) ==
            Apply(Apply(ApplyAll(db, page.doc, PageBody(page, target)), page.doc, PutLinks(page.hash)), page.doc,
              PutProvenance(page.hash))
  {
    var writes := PageWrites(page, target);
    var n := |writes|;
    assert writes == PageBody(page, target) + [PutLinks(page.hash), PutProvenance(page.hash)];
    assert writes[..n - 2] == PageBody(page, target);
    ApplyNext(db, page.doc, writes, n - 2);
    ApplyNext(db, page.doc, writes, n - 1);
    assert writes[..n] == writes;
  }

  /** A page write that lands leaves its document active and complete, links and provenance
      of the same content included. */
  lemma LandedPageIsComplete(db: DB, page: Page, target: Target)
    ensures var b := AfterPage(db, page, target, Lands);
            page.doc in b.rows && b.rows[page.doc] == Row(page.hash, page.mtime, true) && Complete(b, page.doc)
  {
    BodyLands(db, page, target);
    PageEnds(db, page, target);
  }

  /** Some embedding batch wrote the chunk at position `i`. */
  ghost predicate KeptAt(batches: seq<seq<bool>>, i: nat) {
    exists j :: 0 <= j < |batches| && i < |batches[j]| && batches[j][i]
  }

  /** Chunk `id` is at a position that some batch wrote. */
  ghost predicate KeptChunk(ids: seq<nat>, batches: seq<seq<bool>>, id: nat) {
    exists i :: 0 <= i < |ids| && ids[i] == id && KeptAt(batches, i)
  }

  /** From `db` to `b` exactly the kept chunks among `ids` have got vectors. */
  ghost predicate OnlyKept(db: DB, b: DB, ids: seq<nat>, batches: seq<seq<bool>>, v: nat) {
    && (forall k :: k in b.vectors <==> k in db.vectors || (k.0 == v && KeptChunk(ids, batches, k.1)))
    && (forall k :: k in db.vectors && !(k.0 == v && k.1 in ids) ==> k in b.vectors && b.vectors[k] == db.vectors[k])
  }

  /** They are those that cache or embedder gave for the chunks' texts to begin with. */
  ghost predicate ValuesOf(db: DB, b: DB, ids: seq<nat>, batches: seq<seq<bool>>, v: nat, space: Space) {
    && (forall text :: EmbedValue(b, v, space, text) == EmbedValue(db, v, space, text))
    && (forall id: nat :: KeptChunk(ids, batches, id) && id < |b.texts| ==>
          (v, id) in b.vectors && b.vectors[(v, id)] == EmbedValue(db, v, space, b.texts[id]))
  }

  lemma KeptNext(batches: seq<seq<bool>>, last: seq<bool>, i: nat)
    ensures KeptAt(batches + [last], i) <==> KeptAt(batches, i) || (i < |last| && last[i])
  {
    var all := batches + [last];
    if KeptAt(batches, i) {
      var j :| 0 <= j < |batches| && i < |batches[j]| && batches[j][i];
      assert all[j] == batches[j];
    }
    assert all[|batches|] == last;
  }

  lemma KeptChunkNext(ids: seq<nat>, batches: seq<seq<bool>>, last: seq<bool>, id: nat)
    ensures KeptChunk(ids, batches + [last], id) <==> KeptChunk(ids, batches, id) || id in Kept(ids, last)
  {
    KeptMeans(ids, last, id);
    forall i: nat ensures KeptAt(batches + [last], i) <==> KeptAt(batches, i) || (i < |last| && last[i]) {
      KeptNext(batches, last, i);
    }
  }

  /** One more batch over the page's chunks. */
  lemma BatchWrites(db: DB, b: DB, ids: seq<nat>, batches: seq<seq<bool>>, last: seq<bool>, v: nat, space: Space)
    requires OnlyKept(db, b, ids, batches, v) && forall id :: id in ids ==> id < |b.texts|
    ensures OnlyKept(db, EmbedMany(b, v, space, Kept(ids, last)), ids, batches + [last], v)
  {
    EmbedManyMeans(b, v, space, Kept(ids, last));
    EmbedManyValues(b, v, space, Kept(ids, last));
    forall id: nat
      ensures KeptChunk(ids, batches + [last], id) <==> KeptChunk(ids, batches, id) || id in Kept(ids, last)
      ensures id in Kept(ids, last) ==> id in ids
    {
      KeptChunkNext(ids, batches, last, id);
      KeptMeans(ids, last, id);
    }
  }

  lemma BatchValues(db: DB, b: DB, ids: seq<nat>, batches: seq<seq<bool>>, last: seq<bool>, v: nat, space: Space)
    requires ValuesOf(db, b, ids, batches, v, space)
    ensures ValuesOf(db, EmbedMany(b, v, space, Kept(ids, last)), ids, batches + [last], v, space)
  {
    var kept := Kept(ids, last);
    var c := EmbedMany(b, v, space, kept);
    EmbedManyValues(b, v, space, kept);
    forall id: nat | KeptChunk(ids, batches + [last], id) && id < |c.texts|
      ensures (v, id) in c.vectors && c.vectors[(v, id)] == EmbedValue(db, v, space, c.texts[id])
    {
      KeptChunkNext(ids, batches, last, id);
    }
  }

  lemma {:induction false} EmbedsLand(db: DB, d: DocId, ids: seq<nat>, batches: seq<seq<bool>>, v: nat, space: Space)
    requires d in db.bodies && db.bodies[d].ids == ids && forall id :: id in ids ==> id < |db.texts|
    ensures var b := ApplyAll(db, d, EmbedWrites(batches, Some((v, space))));
            OnlyVectorsDiffer(db, b) && OnlyKept(db, b, ids, batches, v) && ValuesOf(db, b, ids, batches, v, space)
  {
    var target := Some((v, space));
    if batches != [] {
      var n := |batches| - 1;
      var before, last := EmbedWrites(batches[..n], target), batches[n];
      var b := ApplyAll(db, d, before);
      EmbedsLand(db, d, ids, batches[..n], v, space);
      assert batches == batches[..n] + [last];
      assert EmbedWrites(batches, target) == before + [PutVectors(v, space, last)];
      assert EmbedWrites(batches, target)[..|before|] == before;
      EmbedManyMeans(b, v, space, Kept(ids, last));
      BatchWrites(db, b, ids, batches[..n], last, v, space);
      BatchValues(db, b, ids, batches[..n], last, v, space);
    }
  }

  lemma {:induction false} ApplyAllConcat(db: DB, d: DocId, a: seq<Write>, b: seq<Write>)
    ensures ApplyAll(db, d, a + b) == ApplyAll(ApplyAll(db, d, a), d, b)
  {
    if b == [] {
      assert a + b == a;
    } else {
      assert (a + b)[..|a + b| - 1] == a + b[..|b| - 1];
      ApplyAllConcat(db, d, a, b[..|b| - 1]);
    }
  }

  /** The vectors after a page write that lands: the new chunks at the positions a batch kept
      have one, if there is a target; nothing else has got or changed one. */
  lemma LandedVectors(db: DB, page: Page, target: Target)
    requires WellFormed(db)
    ensures var b, ids := AfterPage(db, page, target, Lands), Fresh(|db.texts|, |page.texts|);
            && b.texts == db.texts + page.texts
            && (target.None? ==> b.vectors == db.vectors)
            && (target.Some? ==> OnlyKept(db, b, ids, page.batches, target.value.0) &&
                                 ValuesOf(db, b, ids, page.batches, target.value.0, target.value.1))
  {
    var ids, d := Fresh(|db.texts|, |page.texts|), page.doc;
    var head := [PutRow(Row(page.hash, page.mtime, true)), PutChunks(page.hash, page.texts, 0)];
    var h, b := ApplyAll(db, d, head), AfterPage(db, page, target, Lands);
    PageHead(db, d, Row(page.hash, page.mtime, true), page.hash, page.texts);
    HeadTables(db, d, Row(page.hash, page.mtime, true), page.hash, page.texts);
    var mid := ApplyAll(h, d, EmbedWrites(page.batches, target));
    assert SameVectors(mid, b) by {
      PageEnds(db, page, target);
      ApplyAllConcat(db, d, head, EmbedWrites(page.batches, target));
    }
    if target.Some? {
      EmbedsLand(h, d, ids, page.batches, target.value.0, target.value.1);
      SameVectorsAgree(db, h, mid, b, ids, page.batches, target.value.0, target.value.1);
    } else {
      assert EmbedWrites(page.batches, target) == [];
    }
  }

  ghost predicate SameVectors(a: DB, b: DB) { a.vectors == b.vectors && a.cache == b.cache && a.texts == b.texts }

  lemma SameVectorsAgree(db: DB, h: DB, mid: DB, b: DB, ids: seq<nat>, batches: seq<seq<bool>>, v: nat, space: Space)
    requires h.vectors == db.vectors && h.cache == db.cache && SameVectors(mid, b)
    requires OnlyKept(h, mid, ids, batches, v) && ValuesOf(h, mid, ids, batches, v, space)
    ensures OnlyKept(db, b, ids, batches, v) && ValuesOf(db, b, ids, batches, v, space)
  {
    assert forall text :: EmbedValue(h, v, space, text) == EmbedValue(db, v, space, text);
    assert forall text :: EmbedValue(mid, v, space, text) == EmbedValue(b, v, space, text);
  }

  lemma HeadTables(db: DB, d: DocId, row: Row, hash: string, texts: seq<string>)
    ensures var b := ApplyAll(db, d, [PutRow(row), PutChunks(hash, texts, 0)]);
            b.texts == db.texts + texts && b.vectors == db.vectors && b.cache == db.cache
  {
    var head := [PutRow(row), PutChunks(hash, texts, 0)];
    ApplyNext(db, d, head, 0);
    ApplyNext(db, d, head, 1);
    assert head[..0] == [] && head[..2] == head;
  }

  /** When an inline writer aims at a version, and at which. */
  lemma InlineTargetIff(db: DB, cfg: ProviderConfig, embedder: bool)
    requires WellFormed(db)
    ensures var target := InlineTarget(db, cfg, embedder);
            && (target.Some? <==> embedder && db.active.Some? && db.versions[db.active.value] == SpaceOf(cfg))
            && (target.Some? ==> target.value == (db.active.value, SpaceOf(cfg)))
  {
    if db.active.Some? { ResolveIsExact(db, cfg, db.active.value, cfg.model); }
  }

  /** The same for a writer under its configuration, from the tables alone: the page's `i`-th
      new chunk has a vector under `v` iff an embedder is wired, `v` is active and is the very
      identity the configuration names, and some batch kept position `i`; a new vector is the
      cached one of its text if there was one, and else the embedder's. */
  lemma LandedPageEmbeds(db: DB, cfg: ProviderConfig, embedder: bool, page: Page, v: nat, i: nat)
    requires WellFormed(db) && i < |page.texts|
    ensures var b := AfterPage(db, page, InlineTarget(db, cfg, embedder), Lands);
            && ((v, NewChunk(db, i)) in b.vectors <==>
                && embedder && db.active == Some(v) && db.versions[v] == SpaceOf(cfg)
                && exists j :: 0 <= j < |page.batches| && i < |page.batches[j]| && page.batches[j][i])
            && ((v, NewChunk(db, i)) in b.vectors ==>
                  b.vectors[(v, NewChunk(db, i))] ==
                  if (v, page.texts[i]) in db.cache then db.cache[(v, page.texts[i])]
                  else Vector(SpaceOf(cfg), page.texts[i]))
  {
    var target := InlineTarget(db, cfg, embedder);
    var ids, id := Fresh(|db.texts|, |page.texts|), NewChunk(db, i);
    InlineTargetIff(db, cfg, embedder);
    LandedVectors(db, page, target);
    assert (v, id) !in db.vectors;
    assert KeptChunk(ids, page.batches, id) <==> KeptAt(page.batches, i) by { assert ids[i] == id; }
    assert (db.texts + page.texts)[id] == page.texts[i];
  }

  /** Every other vector stays as it was, and none appears elsewhere. */
  lemma LandedPageKeepsVectors(db: DB, cfg: ProviderConfig, embedder: bool, page: Page, k: (nat, nat))
    requires WellFormed(db)
    ensures var b := AfterPage(db, page, InlineTarget(db, cfg, embedder), Lands);
            && (k in db.vectors ==> k in b.vectors && b.vectors[k] == db.vectors[k])
            && (k in b.vectors && k !in db.vectors ==> |db.texts| <= k.1 < |db.texts| + |page.texts|)
  {
    InlineTargetIff(db, cfg, embedder);
    LandedVectors(db, page, InlineTarget(db, cfg, embedder));
  }

  function NewChunk(db: DB, i: nat): nat { |db.texts| + i }

  /** How many calls of a page's persist there are. */
  function Calls(page: Page, target: Target): nat { |PageWrites(page, target)| }

  /** The tables where a page's persist is cut: row, then chunks, then vectors only, then links,
      then provenance. */
  ghost predicate CutLeaves(db: DB, b: DB, page: Page, target: Target, k: nat) {
    var d, n := page.doc, Calls(page, target);
    && b.rows == (if k == 0 then db.rows else db.rows[d := Row(page.hash, page.mtime, true)])
    && (if k < 2 then b.bodies == db.bodies
        else d in b.bodies && b.bodies[d] == Body(page.hash, Fresh(|db.texts|, |page.texts|), 0, 0))
    && b.links == (if k < n - 1 then db.links else db.links[d := page.hash])
    && b.provenance == (if k < n then db.provenance else db.provenance[d := page.hash])
  }

  /** The calls in order. */
  lemma CallAt(page: Page, target: Target, i: nat)
    requires i < Calls(page, target)
    ensures var w, n := PageWrites(page, target)[i], Calls(page, target);
            && n >= 4
            && (i == 0 ==> w == PutRow(Row(page.hash, page.mtime, true)))
            && (i == 1 ==> w == PutChunks(page.hash, page.texts, 0))
            && (2 <= i < n - 2 ==> w.PutVectors?)
            && (i == n - 2 ==> w == PutLinks(page.hash))
            && (i == n - 1 ==> w == PutProvenance(page.hash))
  {
    EmbedWritesShape(page.batches, target);
    var embeds := EmbedWrites(page.batches, target);
    if 2 <= i < Calls(page, target) - 2 {
      assert PageWrites(page, target)[i] == embeds[i - 2] && embeds[i - 2] in embeds;
    }
  }

  lemma CutStep(db: DB, b: DB, page: Page, target: Target, k: nat)
    requires k < Calls(page, target) && CutLeaves(db, b, page, target, k) && (k < 2 ==> b.texts == db.texts)
    ensures var b' := Apply(b, page.doc, PageWrites(page, target)[k]);
            CutLeaves(db, b', page, target, k + 1) && (k + 1 < 2 ==> b'.texts == db.texts)
  {
    var w := PageWrites(page, target)[k];
    CallAt(page, target, k);
    if w.PutVectors? { EmbedManyMeans(b, w.version, w.space, Kept(b.bodies[page.doc].ids, w.kept)); }
  }

  lemma {:induction false} PageCut(db: DB, page: Page, target: Target, k: nat)
    requires k <= Calls(page, target)
    ensures CutLeaves(db, ApplyAll(db, page.doc, PageWrites(page, target)[..k]), page, target, k)
    ensures k < 2 ==> ApplyAll(db, page.doc, PageWrites(page, target)[..k]).texts == db.texts
  {
    var writes := PageWrites(page, target);
    if k > 0 {
      PageCut(db, page, target, k - 1);
      ApplyNext(db, page.doc, writes, k - 1);
      CutStep(db, ApplyAll(db, page.doc, writes[..k - 1]), page, target, k - 1);
    } else {
      CallAt(page, target, 0);
    }
  }

  /** When the handler of a page write hides a page that is active and complete where the persist
      is cut: the deactivate call works, and nothing had landed over such a page, or each call
      that had not landed would have written what was there already. */
  lemma WhenACompletePageIsHidden(db: DB, page: Page, target: Target, fate: PageFate)
    requires PageFateFits(page, target, fate) && fate.Faults? && !page.doc.layer.Source?
    ensures var d, n, k := page.doc, Calls(page, target), fate.committed;
            var cut := ApplyAll(db, d, PageWrites(page, target)[..k]);
            Shows(cut, d) && !Shows(AfterPage(db, page, target, fate), d) <==>
            fate.hidden && if k == 0 then Shows(db, d)
                           else && (k >= 2 || (d in db.bodies && db.bodies[d].hash == page.hash &&
                                               db.bodies[d].refsWritten == db.bodies[d].refsWanted))
                                && (k >= n - 1 || (d in db.links && db.links[d] == page.hash))
                                && (k == n || (d in db.provenance && db.provenance[d] == page.hash))
  {
    PageCut(db, page, target, fate.committed);
  }

  lemma AfterPageKeeps(db: DB, page: Page, target: Target, fate: PageFate)
    requires PageFateFits(page, target, fate)
    ensures OnlyTouches(db, AfterPage(db, page, target, fate), page.doc)
    ensures WellFormed(db) && SpacesAgree(db) && TargetFits(db, target) ==>
              WellFormed(AfterPage(db, page, target, fate)) && SpacesAgree(AfterPage(db, page, target, fate))
  {
    var writes := PageWrites(page, target);
    EmbedWritesShape(page.batches, target);
    assert TargetFits(db, target) ==> EmbedsInPlace(db, writes);
    var done := if fate.Lands? then writes else writes[..fate.committed];
    assert EmbedsInPlace(db, writes) ==> EmbedsInPlace(db, done);
    ApplyAllKeeps(db, page.doc, done);
    HidingTouches(ApplyAll(db, page.doc, done), page.doc);
  }

  lemma AfterPageActiveComplete(db: DB, page: Page, target: Target, fate: PageFate)
    requires PageFateFits(page, target, fate) && ActiveAreComplete(db)
    requires fate.Faults? ==> fate.hidden
    ensures ActiveAreComplete(AfterPage(db, page, target, fate))
  {
    var b := AfterPage(db, page, target, fate);
    AfterPageKeeps(db, page, target, fate);
    LandedPageIsComplete(db, page, target);
    forall e | e in b.rows && b.rows[e].active ensures Complete(b, e) {
      if e != page.doc { ElsewhereIsTheSame(db, b, page.doc, e); }
    }
  }

  ghost predicate PageHandlersWork(fates: seq<PageFate>) {
    forall i :: 0 <= i < |fates| && fates[i].Faults? ==> fates[i].hidden
  }

  lemma {:induction false} AfterPagesKeeps(db: DB, pages: seq<Page>, target: Target, fates: seq<PageFate>)
    requires PagesFit(pages, target, fates)
    requires WellFormed(db) && SpacesAgree(db) && TargetFits(db, target)
    ensures var b := AfterPages(db, pages, target, fates);
            && WellFormed(b) && SpacesAgree(b) && b.active == db.active && b.versions == db.versions
            && (ActiveAreComplete(db) && PageHandlersWork(fates) ==> ActiveAreComplete(b))
  {
    if pages != [] {
      var n := |pages| - 1;
      var mid := AfterPages(db, pages[..n], target, fates[..n]);
      AfterPagesKeeps(db, pages[..n], target, fates[..n]);
      AfterPageKeeps(mid, pages[n], target, fates[n]);
      var b := AfterPages(db, pages, target, fates);
      assert Elsewhere(mid, pages[n].doc) == Elsewhere(b, pages[n].doc);
      if ActiveAreComplete(db) && PageHandlersWork(fates) {
        AfterPageActiveComplete(mid, pages[n], target, fates[n]);
      }
    }
  }

  ghost predicate DistinctPages(pages: seq<Page>) {
    forall i, j :: 0 <= i < j < |pages| ==> pages[i].doc != pages[j].doc
  }

  ghost predicate Standing(db: DB, page: Page) {
    page.doc in db.rows && db.rows[page.doc] == Row(page.hash, page.mtime, true) && Complete(db, page.doc)
  }

  /** The log and the tables agree: an attempt that earns a done marker leaves every one of
      the source's pages active and complete, at the content this run wrote. */
  lemma {:induction false} DoneMeansEveryPageStands(db: DB, groups: seq<SynthRun.GroupOutcome>, surfaced: bool,
      pages: seq<Page>, target: Target, fates: seq<PageFate>)
    requires PagesFit(pages, target, fates) && DistinctPages(pages) && groups != []
    requires SynthProtocol.Judge(SynthRun.Fanned(groups, surfaced,
             seq(|pages|, i requires 0 <= i < |pages| => OutcomeOf(pages[i], fates[i])))).Completed?
    ensures forall i :: 0 <= i < |pages| ==> Standing(AfterPages(db, pages, target, fates), pages[i])
  {
    var outcomes := seq(|pages|, i requires 0 <= i < |pages| => OutcomeOf(pages[i], fates[i]));
    forall i | 0 <= i < |pages| ensures fates[i].Lands? {
      assert outcomes[i] in outcomes;
      assert outcomes[i].Stored?;
    }
    LandedPagesStand(db, pages, target, fates);
  }

  lemma {:induction false} LandedPagesStand(db: DB, pages: seq<Page>, target: Target, fates: seq<PageFate>)
    requires PagesFit(pages, target, fates) && DistinctPages(pages)
    requires forall i :: 0 <= i < |pages| ==> fates[i].Lands?
    ensures forall i :: 0 <= i < |pages| ==> Standing(AfterPages(db, pages, target, fates), pages[i])
  {
    if pages != [] {
      var n := |pages| - 1;
      var mid, b := AfterPages(db, pages[..n], target, fates[..n]), AfterPages(db, pages, target, fates);
      LandedPagesStand(db, pages[..n], target, fates[..n]);
      LandedPageIsComplete(mid, pages[n], target);
      AfterPageKeeps(mid, pages[n], target, Lands);
      forall i | 0 <= i < n ensures Standing(b, pages[i]) {
        assert Standing(mid, pages[..n][i]);
        ElsewhereIsTheSame(mid, b, pages[n].doc, pages[i].doc);
      }
    }
  }

  // ------------------------------------------------------------------
  // Histories of everything that writes documents.

  datatype Op =
    | IngestOp(cfg: ProviderConfig, embedder: bool, files: seq<File>, fates: seq<Fate>, now: int, embedded: seq<nat>)
    | PagesOp(cfg: ProviderConfig, embedder: bool, pages: seq<Page>, pageFates: seq<PageFate>)

  /** `embedded` is what of an ingest's queue the bulk pass wrote before it ended. */
  ghost predicate OpFits(db: DB, op: Op) {
    match op
    case IngestOp(_, _, files, fates, _, _) => FatesFit(files, fates)
    case PagesOp(cfg, embedder, pages, fates) => PagesFit(pages, InlineTarget(db, cfg, embedder), fates)
  }

  ghost function DoOp(db: DB, op: Op): DB
    requires OpFits(db, op)
  {
    match op
    case IngestOp(cfg, embedder, files, fates, now, embedded) =>
      AfterIngest(db, cfg, embedder, files, fates, now, embedded)
    case PagesOp(cfg, embedder, pages, fates) => AfterPages(db, pages, InlineTarget(db, cfg, embedder), fates)
  }

  ghost predicate OpHandlersWork(op: Op) {
    match op
    case IngestOp(_, _, _, fates, _, _) => HandlersWork(fates)
    case PagesOp(_, _, _, fates) => PageHandlersWork(fates)
  }

  ghost predicate Sound(db: DB) { WellFormed(db) && SpacesAgree(db) }

  lemma OpKeeps(db: DB, op: Op)
    requires Sound(db) && OpFits(db, op)
    ensures Sound(DoOp(db, op))
    ensures ActiveAreComplete(db) && OpHandlersWork(op) ==> ActiveAreComplete(DoOp(db, op))
    ensures op.PagesOp? ==> DoOp(db, op).active == db.active
  {
    match op
    case IngestOp(cfg, embedder, files, fates, now, embedded) =>
      UpsertVersionMeans(db, SpaceOf(cfg));
      UpsertVersionKeeps(db, SpaceOf(cfg));
      var begin := Begin(Registered(db, cfg, embedder));
      var st := ScanFiles(begin, files, fates, embedder, now);
      ScanKeepsTables(begin, files, fates, embedder, now);
      if ActiveAreComplete(db) && HandlersWork(fates) { ScanKeepsActiveComplete(begin, files, fates, embedder, now); }
      if embedder && !st.aborted {
        EmbedManyMeans(st.db, st.db.active.value, SpaceOf(cfg), embedded);
        EmbeddingKeepsRows(st.db, DoOp(db, op), files);
      }
    case PagesOp(cfg, embedder, pages, fates) =>
      InlineTargetFits(db, cfg, embedder);
      AfterPagesKeeps(db, pages, InlineTarget(db, cfg, embedder), fates);
  }

  ghost predicate OpsFit(db: DB, ops: seq<Op>)
    decreases |ops|, 0
  {
    ops == [] || (OpsFit(db, ops[..|ops| - 1]) && OpFits(DoOps(db, ops[..|ops| - 1]), ops[|ops| - 1]))
  }

  ghost function DoOps(db: DB, ops: seq<Op>): DB
    requires OpsFit(db, ops)
    decreases |ops|, 1
  {
    if ops == [] then db else DoOp(DoOps(db, ops[..|ops| - 1]), ops[|ops| - 1])
  }

  /** Main theorem: after any history of ingests, synth persists and wisdom writes, whatever
      faulted or was cancelled in them, no active document is half written, provided the
      handlers' deactivate calls worked; and the vector spaces agree regardless. */
  lemma {:induction false} ActiveImpliesComplete(db: DB, ops: seq<Op>)
    requires Sound(db) && OpsFit(db, ops)
    ensures Sound(DoOps(db, ops))
    ensures ActiveAreComplete(db) && (forall op :: op in ops ==> OpHandlersWork(op)) ==>
            ActiveAreComplete(DoOps(db, ops))
  {
    if ops != [] {
      var n := |ops| - 1;
      assert ops == ops[..n] + [ops[n]];
      ActiveImpliesComplete(db, ops[..n]);
      OpKeeps(DoOps(db, ops[..n]), ops[n]);
    }
  }

  /** What the bulk pass of an ingest owes: the run's queue and every chunk without a vector. */
  ghost predicate EmbedsAllDue(st: Scan, version: nat, embedded: seq<nat>) {
    forall id: nat :: id in st.queue || Missing(st.db, version, id) ==> id in embedded
  }

  /** Deferred and lost embeddings are always reconciled.  From an empty base, after any
      history whatever, failed handlers included, one undisturbed ingest meets no chunk that
      is gone, leaves every stored chunk of every layer with a vector in the configured space,
      and settles every source iff none was stuck; and none is if the handlers worked. */
  lemma OneIngestRepairs(ops: seq<Op>, op: Op)
    requires op.IngestOp? && op.embedder && AllSmooth(op.fates) && DistinctKeys(op.files) && op.now > 0
    requires OpsFit(EMPTY, ops) && FatesFit(op.files, op.fates)
    ensures var db, b := DoOps(EMPTY, ops), DoOp(DoOps(EMPTY, ops), op);
            var st := ScanFiles(Begin(Register(db, op.cfg)), op.files, op.fates, true, op.now);
            && !st.aborted && AllLive(st.db, st.queue) && ActiveIs(b, SpaceOf(op.cfg)) && Sound(b)
            && (EmbedsAllDue(st, b.active.value, op.embedded) ==> AllLiveCovered(b, b.active.value))
            && (AllSettled(b, op.files) <==> NoneStuck(db, op.files))
            && ((forall o :: o in ops ==> OpHandlersWork(o)) ==> NoneStuck(db, op.files))
  {
    ActiveImpliesComplete(EMPTY, ops);
    var db := DoOps(EMPTY, ops);
    OpKeeps(db, op);
    SmoothScanReady(db, op.cfg, op.files, op.fates, op.now);
    var st := ScanFiles(Begin(Register(db, op.cfg)), op.files, op.fates, true, op.now);
    var version := st.db.active.value;
    EmbedManyMeans(st.db, version, SpaceOf(op.cfg), op.embedded);
    EmbeddingKeepsRows(st.db, DoOp(db, op), op.files);
    CoversWhenAllDue(st, DoOp(db, op), version, op.embedded);
    if ActiveAreComplete(db) { SmoothScanSettlesAll(Begin(db), op.files, op.fates, true, op.now); }
  }

  lemma CoversWhenAllDue(st: Scan, b: DB, version: nat, embedded: seq<nat>)
    requires OnlyVectorsDiffer(st.db, b)
    requires forall k :: k in b.vectors <==>
             k in st.db.vectors || (k.0 == version && k.1 in embedded && k.1 < |b.texts|)
    ensures EmbedsAllDue(st, version, embedded) ==> AllLiveCovered(b, version)
  {
    if EmbedsAllDue(st, version, embedded) {
      forall id: nat | id < |b.texts| && Live(b, id) ensures (version, id) in b.vectors {
        assert Live(st.db, id);
        if (version, id) !in st.db.vectors { assert Missing(st.db, version, id); }
      }
    }
  }
}

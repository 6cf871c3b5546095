/** The storage tables the engine writes, each adapter call being one transaction. */
module Storage {

  import opened Options

  datatype Layer = Source | Knowledge | Wisdom

  /** A document id: the layer and the normalised path. */
  datatype DocId = DocId(layer: Layer, key: string)

  datatype Row = Row(hash: string, mtime: int, active: bool)

  /** A document's chunks: the content hash they were cut from, their ids, and how many of
      the chunks that need an asset bridge have it. */
  datatype Body = Body(hash: string, ids: seq<nat>, refsWanted: nat, refsWritten: nat)

  /** The full identity of an embedding version. */
  datatype Space = Space(provider: string, model: string, revision: string, dim: nat, normalize: bool, distance: string)

  /** An embedding, read as what it is: this text in this space. */
  datatype Vector = Vector(space: Space, text: string)

  datatype DB = DB(
    rows: map<DocId, Row>,
    bodies: map<DocId, Body>,
    links: map<DocId, string>,           // content hash the outgoing links come from
    provenance: map<DocId, string>,      // content hash the source attribution comes from
    texts: seq<string>,                  // every chunk ever inserted; AUTOINCREMENT ids are never reused
    versions: seq<Space>,
    active: Option<nat>,
    vectors: map<(nat, nat), Vector>,    // (version, chunk)
    cache: map<(nat, string), Vector>)   // (version, chunk text)

  const EMPTY: DB := DB(map[], map[], map[], map[], [], [], None, map[], map[])

  class Store {
    var db: DB
    constructor (db: DB) ensures this.db == db { this.db := db; }
  }

  // ------------------------------------------------------------------
  // Documents, chunks, edges.

  function UpsertDocument(db: DB, d: DocId, row: Row): DB { db.(rows := db.rows[d := row]) }

  function Deactivate(db: DB, d: DocId): DB {
    if d in db.rows then db.(rows := db.rows[d := db.rows[d].(active := false)]) else db
  }

  function Fresh(n: nat, k: nat): (ids: seq<nat>)
    ensures |ids| == k && forall i :: 0 <= i < k ==> ids[i] == n + i
  {
    seq(k, i => n + i)
  }

  /** Old chunks go, new ones get fresh ids; the asset bridge of the old ones cascades away. */
  function ReplaceChunks(db: DB, d: DocId, hash: string, texts: seq<string>, refsWanted: nat): DB {
    db.(bodies := db.bodies[d := Body(hash, Fresh(|db.texts|, |texts|), refsWanted, 0)], texts := db.texts + texts)
  }

  function WriteRef(db: DB, d: DocId): DB {
    if d in db.bodies
    then db.(bodies := db.bodies[d := db.bodies[d].(refsWritten := db.bodies[d].refsWritten + 1)])
    else db
  }

  function ReplaceLinks(db: DB, d: DocId, hash: string): DB { db.(links := db.links[d := hash]) }

  function ReplaceProvenance(db: DB, d: DocId, hash: string): DB { db.(provenance := db.provenance[d := hash]) }

  ghost predicate Live(db: DB, id: nat) { exists d :: d in db.bodies && id in db.bodies[d].ids }

  ghost predicate WellFormed(db: DB) {
    && (forall d, id :: d in db.bodies && id in db.bodies[d].ids ==> id < |db.texts|)
    && (forall i, j :: 0 <= i < j < |db.versions| ==> db.versions[i] != db.versions[j])
    && (db.active.Some? ==> db.active.value < |db.versions|)
    && (forall k :: k in db.vectors ==> k.0 < |db.versions| && k.1 < |db.texts|)
    && (forall k :: k in db.cache ==> k.0 < |db.versions|)
  }

  // ------------------------------------------------------------------
  // Versions and vectors.

  function IndexOf(space: Space, versions: seq<Space>): (i: nat)
    ensures i <= |versions|
    ensures i < |versions| ==> versions[i] == space
    ensures i == |versions| ==> space !in versions
  {
    if versions == [] then 0
    else if versions[0] == space then 0
    else 1 + IndexOf(space, versions[1..])
  }

  /** Register and activate: an identity seen before gets its old id back. */
  function UpsertVersion(db: DB, space: Space): DB {
    var i := IndexOf(space, db.versions);
    if i < |db.versions| then db.(active := Some(i))
    else db.(versions := db.versions + [space], active := Some(i))
  }

  lemma UpsertVersionMeans(db: DB, space: Space)
    ensures var b := UpsertVersion(db, space);
            && b.active.Some? && b.active.value < |b.versions| && b.versions[b.active.value] == space
            && db.versions <= b.versions
            && b == db.(versions := b.versions, active := b.active)
            && (space in db.versions ==> b.versions == db.versions)
  {
    var i := IndexOf(space, db.versions);
    if i == |db.versions| {
      assert (db.versions + [space])[i] == space;
    }
  }

  lemma UpsertVersionKeeps(db: DB, space: Space)
    requires WellFormed(db)
    ensures WellFormed(UpsertVersion(db, space))
    ensures SpacesAgree(db) ==> SpacesAgree(UpsertVersion(db, space))
  {
    UpsertVersionMeans(db, space);
    var vs, ws := db.versions, UpsertVersion(db, space).versions;
    assert forall i :: 0 <= i < |vs| ==> vs[i] == ws[i];
    if SpacesAgree(db) {
      forall k | k in db.vectors ensures k.0 < |ws| && db.vectors[k] == Vector(ws[k.0], db.texts[k.1]) {
        assert vs[k.0] == ws[k.0];
      }
      forall k | k in db.cache ensures k.0 < |ws| && db.cache[k] == Vector(ws[k.0], k.1) {
        assert vs[k.0] == ws[k.0];
      }
    }
  }

  /** What `text` embeds to under `version`: the cached vector if there is one. */
  function EmbedValue(db: DB, version: nat, space: Space, text: string): Vector {
    if (version, text) in db.cache then db.cache[(version, text)] else Vector(space, text)
  }

  /** One chunk through the embedder: the cache is consulted first and fed after. */
  function EmbedOne(db: DB, version: nat, space: Space, id: nat): DB {
    if id < |db.texts| then
      var text := db.texts[id];
      var v := EmbedValue(db, version, space, text);
      db.(vectors := db.vectors[(version, id) := v], cache := db.cache[(version, text) := v])
    else db
  }

  function EmbedMany(db: DB, version: nat, space: Space, ids: seq<nat>): DB {
    if ids == [] then db else EmbedOne(EmbedMany(db, version, space, ids[..|ids| - 1]), version, space, ids[|ids| - 1])
  }

  /** Every vector, stored or cached, lies in the space its version names and embeds the
      text it is filed under. */
  ghost predicate SpacesAgree(db: DB) {
    && (forall k :: k in db.vectors ==>
        k.0 < |db.versions| && k.1 < |db.texts| && db.vectors[k] == Vector(db.versions[k.0], db.texts[k.1]))
    && (forall k :: k in db.cache ==> k.0 < |db.versions| && db.cache[k] == Vector(db.versions[k.0], k.1))
  }

  /** The tables an embedding pass cannot touch. */
  ghost predicate OnlyVectorsDiffer(a: DB, b: DB) {
    a.rows == b.rows && a.bodies == b.bodies && a.links == b.links && a.provenance == b.provenance &&
    a.texts == b.texts && a.versions == b.versions && a.active == b.active
  }

  lemma EmbedOneMeans(db: DB, version: nat, space: Space, id: nat)
    ensures OnlyVectorsDiffer(db, EmbedOne(db, version, space, id))
    ensures forall k :: k in EmbedOne(db, version, space, id).vectors <==>
                        k in db.vectors || (k == (version, id) && id < |db.texts|)
    ensures WellFormed(db) && version < |db.versions| ==> WellFormed(EmbedOne(db, version, space, id))
  {
  }

  lemma EmbedOneKeepsSpaces(db: DB, version: nat, space: Space, id: nat)
    requires SpacesAgree(db) && version < |db.versions| && db.versions[version] == space
    ensures SpacesAgree(EmbedOne(db, version, space, id))
  {
    if id < |db.texts| {
      var b, text := EmbedOne(db, version, space, id), db.texts[id];
      assert b.vectors[(version, id)] == Vector(space, text);
      forall k | k in b.vectors
        ensures k.0 < |b.versions| && k.1 < |b.texts| && b.vectors[k] == Vector(b.versions[k.0], b.texts[k.1])
      {
        if k != (version, id) { assert k in db.vectors; }
      }
      forall k | k in b.cache ensures k.0 < |b.versions| && b.cache[k] == Vector(b.versions[k.0], k.1) {
        if k != (version, text) { assert k in db.cache; }
      }
    }
  }

  lemma {:induction false} EmbedManyMeans(db: DB, version: nat, space: Space, ids: seq<nat>)
    ensures OnlyVectorsDiffer(db, EmbedMany(db, version, space, ids))
    ensures forall k :: k in EmbedMany(db, version, space, ids).vectors <==>
                        k in db.vectors || (k.0 == version && k.1 in ids && k.1 < |db.texts|)
    ensures WellFormed(db) && version < |db.versions| ==> WellFormed(EmbedMany(db, version, space, ids))
    ensures SpacesAgree(db) && version < |db.versions| && db.versions[version] == space ==>
              SpacesAgree(EmbedMany(db, version, space, ids))
  {
    if ids != [] {
      var n := |ids| - 1;
      assert ids == ids[..n] + [ids[n]];
      EmbedManyMeans(db, version, space, ids[..n]);
      var mid := EmbedMany(db, version, space, ids[..n]);
      EmbedOneMeans(mid, version, space, ids[n]);
      if SpacesAgree(mid) && version < |db.versions| && db.versions[version] == space {
        EmbedOneKeepsSpaces(mid, version, space, ids[n]);
      }
    }
  }

  /** The vectors a batch adds hold what their chunks embedded to before it, and no other
      vector changes: feeding the cache on the way makes no difference. */
  lemma {:induction false} EmbedManyValues(db: DB, version: nat, space: Space, ids: seq<nat>)
    ensures var b := EmbedMany(db, version, space, ids);
            && b.texts == db.texts
            && (forall text :: EmbedValue(b, version, space, text) == EmbedValue(db, version, space, text))
            && (forall id :: id in ids && id < |db.texts| ==>
                  (version, id) in b.vectors &&
                    b.vectors[(version, id)] == EmbedValue(db, version, space, db.texts[id]))
            && (forall k :: k in db.vectors && !(k.0 == version && k.1 in ids) ==>
                k in b.vectors && b.vectors[k] == db.vectors[k])
            && (forall k :: k in db.cache ==> k in b.cache && b.cache[k] == db.cache[k])
            && (forall id :: id in ids && id < |db.texts| ==> (version, db.texts[id]) in b.cache)
            && (forall k :: k in b.cache && k !in db.cache ==>
                  k.0 == version && exists id :: id in ids && id < |db.texts| && db.texts[id] == k.1)
  {
    if ids != [] {
      var n := |ids| - 1;
      assert ids == ids[..n] + [ids[n]];
      EmbedManyValues(db, version, space, ids[..n]);
    }
  }

  lemma {:induction false} EmbedManyConcat(db: DB, version: nat, space: Space, a: seq<nat>, b: seq<nat>)
    ensures EmbedMany(db, version, space, a + b) == EmbedMany(EmbedMany(db, version, space, a), version, space, b)
  {
    if b == [] {
      assert a + b == a;
    } else {
      assert (a + b)[..|a + b| - 1] == a + b[..|b| - 1];
      EmbedManyConcat(db, version, space, a, b[..|b| - 1]);
    }
  }

  // ------------------------------------------------------------------
  // A persist pipeline is a list of writes to one document.

  datatype Write =
    | PutRow(row: Row)
    | PutChunks(hash: string, texts: seq<string>, refsWanted: nat)
    | PutRef
    | PutVectors(version: nat, space: Space, kept: seq<bool>)  // batches that exhausted their retries are not kept
    | PutLinks(hash: string)
    | PutProvenance(hash: string)

  function Kept(ids: seq<nat>, kept: seq<bool>): seq<nat> {
    if ids == [] || kept == [] then []
    else (if kept[0] then [ids[0]] else []) + Kept(ids[1..], kept[1..])
  }

  lemma {:induction false} KeptMeans(ids: seq<nat>, kept: seq<bool>, id: nat)
    ensures id in Kept(ids, kept) <==> exists i :: 0 <= i < |ids| && i < |kept| && kept[i] && ids[i] == id
  {
    if ids != [] && kept != [] {
      KeptMeans(ids[1..], kept[1..], id);
      if i :| 0 <= i < |ids[1..]| && i < |kept[1..]| && kept[1..][i] && ids[1..][i] == id {
        assert kept[i + 1] && ids[i + 1] == id;
      }
      if i :| 0 <= i < |ids| && i < |kept| && kept[i] && ids[i] == id {
        if i > 0 { assert kept[1..][i - 1] && ids[1..][i - 1] == id; }
      }
    }
  }

  function Apply(db: DB, d: DocId, w: Write): DB {
    match w
    case PutRow(row) => UpsertDocument(db, d, row)
    case PutChunks(hash, texts, refsWanted) => ReplaceChunks(db, d, hash, texts, refsWanted)
    case PutRef => WriteRef(db, d)
    case PutVectors(version, space, kept) =>
      if d in db.bodies then EmbedMany(db, version, space, Kept(db.bodies[d].ids, kept)) else db
    case PutLinks(hash) => ReplaceLinks(db, d, hash)
    case PutProvenance(hash) => ReplaceProvenance(db, d, hash)
  }

  function ApplyAll(db: DB, d: DocId, ws: seq<Write>): DB {
    if ws == [] then db else Apply(ApplyAll(db, d, ws[..|ws| - 1]), d, ws[|ws| - 1])
  }

  /** Row, chunks, asset bridge, links and provenance of one content version. */
  ghost predicate Complete(db: DB, d: DocId) {
    && d in db.rows && d in db.bodies
    && db.bodies[d].hash == db.rows[d].hash
    && db.bodies[d].refsWritten == db.bodies[d].refsWanted
    && (!d.layer.Source? ==>
          && d in db.links && db.links[d] == db.rows[d].hash
          && d in db.provenance && db.provenance[d] == db.rows[d].hash)
  }

  ghost predicate ActiveAreComplete(db: DB) {
    forall d :: d in db.rows && db.rows[d].active ==> Complete(db, d)
  }

  /** All that is on record about the other documents, and the version registry. */
  ghost function Elsewhere(db: DB, d: DocId): DB {
    db.(rows := db.rows - {d}, bodies := db.bodies - {d}, links := db.links - {d}, provenance := db.provenance - {d},
        texts := [], vectors := map[], cache := map[])
  }

  ghost predicate OnlyTouches(a: DB, b: DB, d: DocId) {
    Elsewhere(a, d) == Elsewhere(b, d) && a.texts <= b.texts
  }

  ghost predicate SameAt<K, V>(m: map<K, V>, n: map<K, V>, k: K) {
    (k in m <==> k in n) && (k in m ==> m[k] == n[k])
  }

  /** Row, chunks, links and provenance of `e` are the same in both. */
  ghost predicate SameRecord(a: DB, b: DB, e: DocId) {
    SameAt(a.rows, b.rows, e) && SameAt(a.bodies, b.bodies, e) &&
    SameAt(a.links, b.links, e) && SameAt(a.provenance, b.provenance, e)
  }

  lemma ElsewhereIsTheSame(a: DB, b: DB, d: DocId, e: DocId)
    requires OnlyTouches(a, b, d) && e != d
    ensures SameRecord(a, b, e)
    ensures Complete(a, e) <==> Complete(b, e)
  {
    var ea, eb := Elsewhere(a, d), Elsewhere(b, d);
    assert (e in ea.rows <==> e in a.rows) && (e in eb.rows <==> e in b.rows);
    assert (e in ea.bodies <==> e in a.bodies) && (e in eb.bodies <==> e in b.bodies);
    assert (e in ea.links <==> e in a.links) && (e in eb.links <==> e in b.links);
    assert (e in ea.provenance <==> e in a.provenance) && (e in eb.provenance <==> e in b.provenance);
  }

  /** Embedding writes that name a version together with that version's own space. */
  ghost predicate EmbedsInPlace(db: DB, ws: seq<Write>) {
    forall w :: w in ws && w.PutVectors? ==> w.version < |db.versions| && db.versions[w.version] == w.space
  }

  lemma UpdateElsewhere<K, V>(m: map<K, V>, k: K, v: V)
    ensures m[k := v] - {k} == m - {k}
  {
  }

  lemma ApplyOnlyTouches(db: DB, d: DocId, w: Write)
    ensures OnlyTouches(db, Apply(db, d, w), d)
  {
    match w
    case PutRow(row) => UpdateElsewhere(db.rows, d, row);
    case PutChunks(hash, texts, refs) => UpdateElsewhere(db.bodies, d, Apply(db, d, w).bodies[d]);
    case PutRef => if d in db.bodies { UpdateElsewhere(db.bodies, d, Apply(db, d, w).bodies[d]); }
    case PutVectors(version, space, kept) =>
      if d in db.bodies { EmbedManyMeans(db, version, space, Kept(db.bodies[d].ids, kept)); }
    case PutLinks(hash) => UpdateElsewhere(db.links, d, hash);
    case PutProvenance(hash) => UpdateElsewhere(db.provenance, d, hash);
  }

  /** One write by a process that embeds only under a version in that version's own space. */
  lemma ApplyKeepsSpaces(db: DB, d: DocId, w: Write)
    requires WellFormed(db) && SpacesAgree(db)
    requires w.PutVectors? ==> w.version < |db.versions| && db.versions[w.version] == w.space
    ensures WellFormed(Apply(db, d, w)) && SpacesAgree(Apply(db, d, w))
  {
    match w
    case PutVectors(version, space, kept) =>
      if d in db.bodies { EmbedManyMeans(db, version, space, Kept(db.bodies[d].ids, kept)); }
    case _ =>
  }

  lemma {:induction false} ApplyAllKeeps(db: DB, d: DocId, ws: seq<Write>)
    ensures OnlyTouches(db, ApplyAll(db, d, ws), d)
    ensures WellFormed(db) && SpacesAgree(db) && EmbedsInPlace(db, ws) ==>
              WellFormed(ApplyAll(db, d, ws)) && SpacesAgree(ApplyAll(db, d, ws))
  {
    if ws != [] {
      var n := |ws| - 1;
      var mid := ApplyAll(db, d, ws[..n]);
      ApplyAllKeeps(db, d, ws[..n]);
      ApplyOnlyTouches(mid, d, ws[n]);
      assert mid.versions == Elsewhere(mid, d).versions == db.versions by {
        assert Elsewhere(db, d).versions == db.versions;
      }
      if WellFormed(db) && SpacesAgree(db) && EmbedsInPlace(db, ws) {
        assert EmbedsInPlace(db, ws[..n]) && ws[n] in ws;
        ApplyKeepsSpaces(mid, d, ws[n]);
      }
    }
  }

  lemma ApplyNext(db: DB, d: DocId, ws: seq<Write>, k: nat)
    requires k < |ws|
    ensures ApplyAll(db, d, ws[..k + 1]) == Apply(ApplyAll(db, d, ws[..k]), d, ws[k])
  {
    assert ws[..k + 1][..k] == ws[..k];
  }
}

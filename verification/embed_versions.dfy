/** Which embedding version a write may use, and why vector spaces never mix, whatever the
    interleaving of config edits, ingests, synths and wisdom writes. */
module EmbedVersions {
  import opened Options
  import opened Storage

  /** The text-embedding part of the config; `host` is absent when no base URL is set. */
  datatype ProviderConfig = ProviderConfig(
    protocol: string, host: Option<string>,
    model: string, revision: string, dim: nat, normalize: bool, distance: string)

  function QualifiedProvider(protocol: string, host: Option<string>): string {
    match host
    case None => protocol
    case Some(h) => protocol + "@" + h
  }

  /** The identity an embedder built from `cfg` embeds into. */
  function SpaceOf(cfg: ProviderConfig): Space {
    Space(QualifiedProvider(cfg.protocol, cfg.host), cfg.model, cfg.revision, cfg.dim, cfg.normalize, cfg.distance)
  }

  /** Two endpoints get one provider identity only when they are the same endpoint. */
  lemma QualifiedProviderSeparates(p1: string, h1: Option<string>, p2: string, h2: Option<string>)
    requires '@' !in p1 && '@' !in p2
    ensures QualifiedProvider(p1, h1) == QualifiedProvider(p2, h2) <==> p1 == p2 && h1 == h2
  {
    var a, b := QualifiedProvider(p1, h1), QualifiedProvider(p2, h2);
    if a == b {
      assert h1.Some? ==> a[|p1|] == '@';
      assert h2.Some? ==> b[|p2|] == '@';
      assert forall i :: 0 <= i < |p1| ==> a[i] == p1[i];
      assert forall i :: 0 <= i < |p2| ==> b[i] == p2[i];
      assert h1.Some? <==> h2.Some?;
      if h1.Some? && h2.Some? {
        assert |p1| == |p2|;
        assert p1 == a[..|p1|] && p2 == b[..|p2|];
        assert h1.value == a[|p1| + 1..] && h2.value == b[|p2| + 1..];
      }
    }
  }

  /** Two configs embed into one space only when they agree in every setting. */
  lemma SpacesTellConfigsApart(a: ProviderConfig, b: ProviderConfig)
    requires '@' !in a.protocol && '@' !in b.protocol
    ensures SpaceOf(a) == SpaceOf(b) <==> a == b
  {
    QualifiedProviderSeparates(a.protocol, a.host, b.protocol, b.host);
  }

  /** Register the configured identity and make it active: only ingest may. */
  function Register(db: DB, cfg: ProviderConfig): DB { UpsertVersion(db, SpaceOf(cfg)) }

  /** The version an inline writer may embed under, or `None` to defer.  Without a config
      there is nothing to compare the active identity with. */
  function ResolveForInlineEmbed(db: DB, cfg: Option<ProviderConfig>): Option<(nat, string)> {
    if db.active.None? || db.active.value >= |db.versions| then None
    else
      var active := db.versions[db.active.value];
      if cfg.Some? && (
           || active.provider != QualifiedProvider(cfg.value.protocol, cfg.value.host)
           || active.model != cfg.value.model
           || active.revision != cfg.value.revision
           || active.dim != cfg.value.dim
           || active.normalize != cfg.value.normalize
           || active.distance != cfg.value.distance)
      then None
      else Some((db.active.value, active.model))
  }

  /** The drift check is exact: an inline writer gets a version iff the active one is the
      identity its own embedder was configured with. */
  lemma ResolveIsExact(db: DB, cfg: ProviderConfig, version: nat, model: string)
    requires WellFormed(db)
    ensures ResolveForInlineEmbed(db, Some(cfg)) == Some((version, model)) <==>
            db.active == Some(version) && db.versions[version] == SpaceOf(cfg) && model == cfg.model
  {
  }

  /** After ingest registers, the active version is the configured identity, earlier ids
      still name what they named, and inline writers under the same config resolve it. */
  lemma RegisterActivates(db: DB, cfg: ProviderConfig)
    requires WellFormed(db)
    ensures WellFormed(Register(db, cfg))
    ensures SpacesAgree(db) ==> SpacesAgree(Register(db, cfg))
    ensures db.versions <= Register(db, cfg).versions
    ensures Register(db, cfg).active.Some?
    ensures ResolveForInlineEmbed(Register(db, cfg), Some(cfg)) == Some((Register(db, cfg).active.value, cfg.model))
  {
    UpsertVersionMeans(db, SpaceOf(cfg));
    UpsertVersionKeeps(db, SpaceOf(cfg));
    var b := Register(db, cfg);
    ResolveIsExact(b, cfg, b.active.value, cfg.model);
  }

  /** Switching to another identity and back lands on the old version, with its vectors. */
  lemma SwitchingBackFindsTheOldVersion(db: DB, a: ProviderConfig, b: ProviderConfig)
    requires WellFormed(db)
    ensures Register(Register(Register(db, a), b), a).active == Register(db, a).active
    ensures Register(Register(Register(db, a), b), a).vectors == db.vectors
  {
    var once := Register(db, a);
    var other := Register(once, b);
    var back := Register(other, a);
    UpsertVersionMeans(db, SpaceOf(a));
    UpsertVersionMeans(once, SpaceOf(b));
    UpsertVersionMeans(other, SpaceOf(a));
    UpsertVersionKeeps(db, SpaceOf(a));
    UpsertVersionKeeps(once, SpaceOf(b));
    var v, w := once.active.value, back.active.value;
    assert once.versions[v] == other.versions[v] == SpaceOf(a) == back.versions[w];
    assert other.versions[v] in other.versions;
  }

  // ------------------------------------------------------------------
  // The whole system, one storage call at a time.

  /** A running writer, and where it may put vectors. */
  datatype Proc = Ingesting(target: Option<(nat, Space)>) | Inline(target: Option<(nat, Space)>)

  datatype Sys = Sys(db: DB, cfg: ProviderConfig, procs: map<nat, Proc>)

  datatype Step =
    | EditConfig(cfg: ProviderConfig)
    | StartIngest(pid: nat, embedder: Option<Space>)
    | StartInline(pid: nat, embedder: Option<Space>)
    | WriteDoc(pid: nat, doc: DocId, w: Write)
    | EmbedBatch(pid: nat, ids: seq<nat>)
    | HideDoc(pid: nat, doc: DocId)
    | Finish(pid: nat)

  /** An embedder handed to a writer was built from the config the writer reads. */
  ghost predicate BuiltFrom(embedder: Option<Space>, cfg: ProviderConfig) {
    embedder.Some? ==> embedder.value == SpaceOf(cfg)
  }

  ghost predicate Enabled(sys: Sys, step: Step) {
    match step
    case EditConfig(_) => true
    case StartIngest(pid, embedder) => pid !in sys.procs && BuiltFrom(embedder, sys.cfg)
    case StartInline(pid, embedder) => pid !in sys.procs && BuiltFrom(embedder, sys.cfg)
    case WriteDoc(pid, _, w) =>
      && pid in sys.procs
      && (w.PutVectors? ==> sys.procs[pid].Inline? && sys.procs[pid].target == Some((w.version, w.space)))
    case EmbedBatch(pid, _) => pid in sys.procs && sys.procs[pid].Ingesting? && sys.procs[pid].target.Some?
    case HideDoc(pid, _) => pid in sys.procs
    case Finish(pid) => pid in sys.procs
  }

  function Next(sys: Sys, step: Step): Sys {
    match step
    case EditConfig(cfg) => sys.(cfg := cfg)
    case StartIngest(pid, embedder) =>
      if embedder.None? then sys.(procs := sys.procs[pid := Ingesting(None)])
      else
        var db := Register(sys.db, sys.cfg);
        sys.(db := db, procs := sys.procs[pid := Ingesting(Some((db.active.value, embedder.value)))])
    case StartInline(pid, embedder) =>
      var resolved := ResolveForInlineEmbed(sys.db, Some(sys.cfg));
      var target := if embedder.Some? && resolved.Some? then Some((resolved.value.0, embedder.value)) else None;
      sys.(procs := sys.procs[pid := Inline(target)])
    case WriteDoc(_, doc, w) => sys.(db := Apply(sys.db, doc, w))
    case EmbedBatch(pid, ids) =>
      if pid in sys.procs && sys.procs[pid].target.Some?
      then sys.(db := EmbedMany(sys.db, sys.procs[pid].target.value.0, sys.procs[pid].target.value.1, ids))
      else sys
    case HideDoc(_, doc) => sys.(db := Deactivate(sys.db, doc))
    case Finish(pid) => sys.(procs := sys.procs - {pid})
  }

  /** What a start leaves: an ingest with an embedder has registered its space and aims at it;
      an inline writer aims at the active version iff an embedder is wired and that version is
      the configured identity.  Nobody else's aim moves. */
  lemma StartMeans(sys: Sys, step: Step, p: nat)
    requires WellFormed(sys.db) && Enabled(sys, step) && (step.StartIngest? || step.StartInline?)
    ensures var after := Next(sys, step);
            && after.cfg == sys.cfg
            && (p != step.pid ==> SameAt(sys.procs, after.procs, p))
            && step.pid in after.procs
            && (step.StartIngest? ==>
                  && after.procs[step.pid].Ingesting?
                  && (step.embedder.None? ==> after.procs[step.pid].target.None? && after.db == sys.db)
                  && (step.embedder.Some? ==>
                        && after.db.active.Some? && after.db.active.value < |after.db.versions|
                        && after.db.versions[after.db.active.value] == step.embedder.value
                        && after.procs[step.pid].target == Some((after.db.active.value, step.embedder.value))))
            && (step.StartInline? ==>
                  && after.db == sys.db && after.procs[step.pid].Inline?
                  && (after.procs[step.pid].target.Some? <==>
                      step.embedder.Some? && sys.db.active.Some? &&
                      sys.db.versions[sys.db.active.value] == SpaceOf(sys.cfg))
                  && (after.procs[step.pid].target.Some? ==>
                      after.procs[step.pid].target.value == (sys.db.active.value, SpaceOf(sys.cfg))))
  {
    if step.StartIngest? {
      UpsertVersionMeans(sys.db, SpaceOf(sys.cfg));
    } else if sys.db.active.Some? {
      ResolveIsExact(sys.db, sys.cfg, sys.db.active.value, sys.cfg.model);
    }
  }

  /** What the other steps change: a write or a hide the one document, an ingest's batch the
      vectors of its ids, a config edit the config, a finish the one process. */
  lemma StepMeans(sys: Sys, step: Step, e: DocId, p: nat)
    requires Enabled(sys, step) && !step.StartIngest? && !step.StartInline?
    ensures var after := Next(sys, step);
            && after.cfg == (if step.EditConfig? then step.cfg else sys.cfg)
            && (p in after.procs <==> p in sys.procs && step != Finish(p))
            && (p in after.procs ==> after.procs[p] == sys.procs[p])
            && (step.EditConfig? || step.Finish? ==> after.db == sys.db)
            && (step.WriteDoc? || step.HideDoc? ==> e != step.doc ==> SameRecord(sys.db, after.db, e))
            && (step.HideDoc? ==>
                  && (e in after.db.rows && after.db.rows[e].active <==>
                      e in sys.db.rows && sys.db.rows[e].active && e != step.doc)
                  && after.db.bodies == sys.db.bodies && after.db.vectors == sys.db.vectors)
            && (step.EmbedBatch? ==>
                  && SameRecord(sys.db, after.db, e)
                  && forall k :: k in after.db.vectors <==>
                       k in sys.db.vectors ||
                       (k.0 == sys.procs[step.pid].target.value.0 && k.1 in step.ids && k.1 < |sys.db.texts|))
  {
    match step
    case WriteDoc(_, doc, w) =>
      ApplyOnlyTouches(sys.db, doc, w);
      if e != doc { ElsewhereIsTheSame(sys.db, Next(sys, step).db, doc, e); }
    case EmbedBatch(pid, ids) =>
      var target := sys.procs[pid].target.value;
      EmbedManyMeans(sys.db, target.0, target.1, ids);
    case _ =>
  }

  /** What a write leaves of its own document. */
  lemma WriteMeans(sys: Sys, pid: nat, d: DocId, w: Write)
    requires Enabled(sys, WriteDoc(pid, d, w))
    ensures var a, b := sys.db, Next(sys, WriteDoc(pid, d, w)).db;
            match w
            case PutRow(row) => d in b.rows && b.rows[d] == row
            case PutChunks(hash, texts, wanted) =>
              && d in b.bodies && b.bodies[d].hash == hash && |b.bodies[d].ids| == |texts|
              && b.bodies[d].refsWanted == wanted && b.bodies[d].refsWritten == 0
              && b.texts == a.texts + texts
              && forall i :: 0 <= i < |texts| ==> b.bodies[d].ids[i] == |a.texts| + i
            case PutRef => d in a.bodies ==> d in b.bodies && b.bodies[d].refsWritten == a.bodies[d].refsWritten + 1
            case PutVectors(v, space, kept) =>
              d in a.bodies ==>
                forall k :: k in b.vectors <==>
                  || k in a.vectors
                  || (k.0 == v && k.1 < |a.texts| &&
                      exists i :: 0 <= i < |a.bodies[d].ids| && i < |kept| && kept[i] && a.bodies[d].ids[i] == k.1)
            case PutLinks(hash) => d in b.links && b.links[d] == hash
            case PutProvenance(hash) => d in b.provenance && b.provenance[d] == hash
  {
    if w.PutVectors? && d in sys.db.bodies {
      var ids := sys.db.bodies[d].ids;
      EmbedManyMeans(sys.db, w.version, w.space, Kept(ids, w.kept));
      forall id ensures id in Kept(ids, w.kept) <==>
                        exists i :: 0 <= i < |ids| && i < |w.kept| && w.kept[i] && ids[i] == id
      {
        KeptMeans(ids, w.kept, id);
      }
    }
  }

  function Execute(sys: Sys, steps: seq<Step>): Sys {
    if steps == [] then sys else Next(Execute(sys, steps[..|steps| - 1]), steps[|steps| - 1])
  }

  ghost predicate Possible(sys: Sys, steps: seq<Step>) {
    steps == [] || (Possible(sys, steps[..|steps| - 1]) &&
      Enabled(Execute(sys, steps[..|steps| - 1]), steps[|steps| - 1]))
  }

  /** Spaces agree, and every running writer aims at a version that is its own space. */
  ghost predicate SpaceInvariant(sys: Sys) {
    && WellFormed(sys.db) && SpacesAgree(sys.db)
    && (forall pid :: pid in sys.procs && sys.procs[pid].target.Some? ==>
          && sys.procs[pid].target.value.0 < |sys.db.versions|
          && sys.db.versions[sys.procs[pid].target.value.0] == sys.procs[pid].target.value.1)
  }

  lemma StartIngestKeepsSpaces(sys: Sys, pid: nat, embedder: Option<Space>)
    requires SpaceInvariant(sys) && Enabled(sys, StartIngest(pid, embedder))
    ensures SpaceInvariant(Next(sys, StartIngest(pid, embedder)))
  {
    if embedder.Some? {
      UpsertVersionMeans(sys.db, SpaceOf(sys.cfg));
      UpsertVersionKeeps(sys.db, SpaceOf(sys.cfg));
    }
  }

  lemma StartInlineKeepsSpaces(sys: Sys, pid: nat, embedder: Option<Space>)
    requires SpaceInvariant(sys) && Enabled(sys, StartInline(pid, embedder))
    ensures SpaceInvariant(Next(sys, StartInline(pid, embedder)))
  {
    var resolved := ResolveForInlineEmbed(sys.db, Some(sys.cfg));
    if resolved.Some? { ResolveIsExact(sys.db, sys.cfg, resolved.value.0, resolved.value.1); }
  }

  lemma StepKeepsSpaces(sys: Sys, step: Step)
    requires SpaceInvariant(sys) && Enabled(sys, step)
    ensures SpaceInvariant(Next(sys, step))
    ensures !step.StartIngest? ==>
            Next(sys, step).db.active == sys.db.active && Next(sys, step).db.versions == sys.db.versions
  {
    match step
    case StartIngest(pid, embedder) => StartIngestKeepsSpaces(sys, pid, embedder);
    case StartInline(pid, embedder) => StartInlineKeepsSpaces(sys, pid, embedder);
    case WriteDoc(pid, doc, w) =>
      ApplyKeepsSpaces(sys.db, doc, w);
      ApplyOnlyTouches(sys.db, doc, w);
      var b := Apply(sys.db, doc, w);
      assert Elsewhere(b, doc).versions == b.versions && Elsewhere(b, doc).active == b.active;
    case EmbedBatch(pid, ids) =>
      EmbedManyMeans(sys.db, sys.procs[pid].target.value.0, sys.procs[pid].target.value.1, ids);
    case _ =>
  }

  /** Main theorem: over every interleaving, each stored or cached vector was produced in
      the full identity of the version it is filed under, for the text it is filed under. */
  lemma {:induction false} VectorSpacesNeverMix(sys: Sys, steps: seq<Step>)
    requires SpaceInvariant(sys) && Possible(sys, steps)
    ensures SpaceInvariant(Execute(sys, steps))
  {
    if steps != [] {
      VectorSpacesNeverMix(sys, steps[..|steps| - 1]);
      StepKeepsSpaces(Execute(sys, steps[..|steps| - 1]), steps[|steps| - 1]);
    }
  }

  /** No inline writer, and no config edit, ever changes which version is active. */
  lemma {:induction false} OnlyIngestActivates(sys: Sys, steps: seq<Step>)
    requires SpaceInvariant(sys) && Possible(sys, steps)
    requires forall s :: s in steps ==> !s.StartIngest?
    ensures Execute(sys, steps).db.active == sys.db.active
    ensures Execute(sys, steps).db.versions == sys.db.versions
  {
    if steps != [] {
      var n := |steps| - 1;
      assert steps[n] in steps;
      OnlyIngestActivates(sys, steps[..n]);
      VectorSpacesNeverMix(sys, steps[..n]);
      StepKeepsSpaces(Execute(sys, steps[..n]), steps[n]);
    }
  }

  /** Why the embedder must be built under the write lock, from the config the run reads: an
      inline writer that resolved a version and embeds a chunk not in the cache keeps the
      spaces apart exactly when its embedder is the configured one. */
  lemma StaleEmbedderMixesSpaces(db: DB, cfg: ProviderConfig, embedder: Space, id: nat)
    requires WellFormed(db) && SpacesAgree(db) && id < |db.texts|
    requires ResolveForInlineEmbed(db, Some(cfg)).Some?
    requires (db.active.value, db.texts[id]) !in db.cache
    ensures SpacesAgree(EmbedOne(db, db.active.value, embedder, id)) <==> embedder == SpaceOf(cfg)
  {
    var v := db.active.value;
    ResolveIsExact(db, cfg, v, db.versions[v].model);
    var b := EmbedOne(db, v, embedder, id);
    assert (v, id) in b.vectors && b.vectors[(v, id)] == Vector(embedder, db.texts[id]);
    if embedder == SpaceOf(cfg) { EmbedOneKeepsSpaces(db, v, embedder, id); }
  }
}

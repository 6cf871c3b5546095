/** The base graph: title, fuzzy and path indexes, the collision-refusing resolver, and the
    weighted edge and unresolved accumulators. */
module Graph {
  import opened Options
  import opened Sequences

  /** A document row; an absent title is empty, `key` is the normalised path. */
  datatype Doc = Doc(path: string, key: string, title: string)

  datatype Kind = Wiki | Markdown | Url

  datatype Link = Link(kind: Kind, target: string, anchor: Option<string>)

  /** The text normalisations, which live elsewhere: of stored titles, of wikilink targets,
      and of paths. */
  datatype Norms = Norms(title: string -> string, target: string -> string, path: string -> string)

  type Index = map<string, seq<string>>

  // ------------------------------------------------------------------
  // Resolution, as a specification over the set of (title, path) entries.

  type Entries = set<(string, string)>

  function EntriesOf(docs: seq<Doc>): Entries {
    set i | 0 <= i < |docs| && docs[i].title != "" :: (docs[i].title, docs[i].path)
  }

  function Exact(entries: Entries, target: string): set<string> {
    set e | e in entries && e.0 == target :: e.1
  }

  function Candidates(entries: Entries, norms: Norms, key: string): set<string> {
    set e | e in entries && norms.title(e.0) == key :: e.1
  }

  /** `target` means the page `p`: the only page of that exact title, or, when no page has
      it, the only page whose normalised title is the normalised target. */
  ghost predicate Means(entries: Entries, norms: Norms, target: string, p: string) {
    || Exact(entries, target) == {p}
    || (Exact(entries, target) == {} && norms.target(target) != "" &&
        Candidates(entries, norms, norms.target(target)) == {p})
  }

  lemma MeansIsUnique(entries: Entries, norms: Norms, target: string, p: string, q: string)
    requires Means(entries, norms, target, p) && Means(entries, norms, target, q)
    ensures p == q
  {
    assert q in {q} && p in {p};
  }

  /** Documents that carry the target as their title. */
  ghost predicate Carries(d: Doc, target: string) { d.title != "" && d.title == target }

  /** Documents whose normalised title is the normalised target, if there is one. */
  ghost predicate Resembles(d: Doc, norms: Norms, target: string) {
    d.title != "" && norms.target(target) != "" && norms.title(d.title) == norms.target(target)
  }

  /** The same told from the rows: the documents that carry the target, or where none does those
      that resemble it, exist and all have the path `p`. */
  lemma MeansOfRows(docs: seq<Doc>, norms: Norms, target: string, p: string)
    ensures Means(EntriesOf(docs), norms, target, p) <==>
            if exists d :: d in docs && Carries(d, target)
            then (exists d :: d in docs && Carries(d, target) && d.path == p) &&
                 forall d :: d in docs && Carries(d, target) ==> d.path == p
            else (exists d :: d in docs && Resembles(d, norms, target) && d.path == p) &&
                 forall d :: d in docs && Resembles(d, norms, target) ==> d.path == p
  {
    var entries, key := EntriesOf(docs), norms.target(target);
    var exact, near := Exact(entries, target), Candidates(entries, norms, key);
    forall d | d in docs && d.title != "" ensures (d.title, d.path) in entries {
      var i :| 0 <= i < |docs| && docs[i] == d;
    }
    forall d | d in docs ensures Carries(d, target) ==> d.path in exact
                         ensures Resembles(d, norms, target) ==> d.path in near
    {
      if Carries(d, target) || Resembles(d, norms, target) {
        assert (d.title, d.path).1 == d.path && (d.title, d.path).0 == d.title;
      }
    }
    forall x | x in exact ensures exists d :: d in docs && Carries(d, target) && d.path == x {
      var e :| e in entries && e.0 == target && e.1 == x;
      var i :| 0 <= i < |docs| && docs[i].title != "" && (docs[i].title, docs[i].path) == e;
      assert docs[i] in docs;
    }
    forall x | x in near && key != "" ensures exists d :: d in docs && Resembles(d, norms, target) && d.path == x {
      var e :| e in entries && norms.title(e.0) == key && e.1 == x;
      var i :| 0 <= i < |docs| && docs[i].title != "" && (docs[i].title, docs[i].path) == e;
      assert docs[i] in docs;
    }
    assert exact == {p} <==> p in exact && forall x :: x in exact ==> x == p;
    assert near == {p} <==> p in near && forall x :: x in near ==> x == p;
  }

  /** New documents can break an exactly resolved link but never point it elsewhere. */
  lemma ExactLinksNeverRebind(base: Entries, grown: Entries, norms: Norms, target: string, p: string, q: string)
    requires base <= grown && Exact(base, target) == {p} && Means(grown, norms, target, q)
    ensures q == p && Exact(grown, target) == {p}
  {
    assert p in Exact(base, target);
    var e :| e in base && e.0 == target && e.1 == p;
    assert e.1 in Exact(grown, target);
    assert q in {q};
  }

  /** A fuzzily resolved link is rebound by new documents in exactly one way: a document
      arrives, under another path, that carries the target as its exact and unshared title. */
  lemma FuzzyLinksRebindIff(base: Entries, grown: Entries, norms: Norms, target: string, p: string, q: string)
    requires base <= grown && Exact(base, target) == {} && Means(base, norms, target, p) && q != p
    ensures Means(grown, norms, target, q) <==> Exact(grown, target) == {q}
  {
    var key := norms.target(target);
    assert p in Candidates(base, norms, key);
    var e :| e in base && norms.title(e.0) == key && e.1 == p;
    assert e.1 in Candidates(grown, norms, key);
    assert q in {q};
  }

  // ------------------------------------------------------------------
  // The indexes.

  function Listed(index: Index, k: string): seq<string> { if k in index then index[k] else [] }

  ghost predicate Lists(xs: seq<string>, s: set<string>) { Distinct(xs) && forall x :: x in xs <==> x in s }

  ghost predicate IsTitleIndex(index: Index, entries: Entries) {
    && (forall t :: t in index ==> t != "" && index[t] != [])
    && (forall t :: Lists(Listed(index, t), Exact(entries, t)))
  }

  ghost predicate IsFuzzyIndex(index: Index, entries: Entries, norms: Norms) {
    forall k :: k != "" ==> Lists(Listed(index, k), Candidates(entries, norms, k))
  }

  function AddOnce(index: Index, k: string, x: string): Index {
    if x in Listed(index, k) then index else index[k := Listed(index, k) + [x]]
  }

  method BuildTitleIndex(docs: seq<Doc>) returns (index: Index)
    ensures IsTitleIndex(index, EntriesOf(docs))
  {
    index := map[];
    for i := 0 to |docs|
      invariant IsTitleIndex(index, EntriesOf(docs[..i]))
    {
      assert docs[..i + 1] == docs[..i] + [docs[i]];
      TitleIndexGrows(index, docs[..i], docs[i]);
      if docs[i].title != "" { index := AddOnce(index, docs[i].title, docs[i].path); }
    }
    assert docs[..|docs|] == docs;
  }

  lemma TitleIndexGrows(index: Index, docs: seq<Doc>, d: Doc)
    requires IsTitleIndex(index, EntriesOf(docs))
    ensures IsTitleIndex(if d.title != "" then AddOnce(index, d.title, d.path) else index, EntriesOf(docs + [d]))
  {
    EntriesAppend(docs, d);
    if d.title != "" {
      var before, next := EntriesOf(docs), AddOnce(index, d.title, d.path);
      forall t ensures Lists(Listed(next, t), Exact(EntriesOf(docs + [d]), t)) {
        ExactAppend(before, d, t);
        assert Lists(Listed(index, t), Exact(before, t));
      }
    }
  }

  lemma EntriesAppend(docs: seq<Doc>, d: Doc)
    ensures EntriesOf(docs + [d]) == EntriesOf(docs) + if d.title != "" then {(d.title, d.path)} else {}
  {
    var all := docs + [d];
    forall e | e in EntriesOf(docs) ensures e in EntriesOf(all) {
      var i :| 0 <= i < |docs| && docs[i].title != "" && (docs[i].title, docs[i].path) == e;
      assert all[i] == docs[i];
    }
    assert all[|docs|] == d;
  }

  lemma ExactAppend(entries: Entries, d: Doc, t: string)
    ensures Exact(entries + {(d.title, d.path)}, t) == Exact(entries, t) + if t == d.title then {d.path} else {}
  {
    assert (d.title, d.path) in entries + {(d.title, d.path)};
    forall p | p in Exact(entries, t) ensures p in Exact(entries + {(d.title, d.path)}, t) {
      var e :| e in entries && e.0 == t && e.1 == p;
      assert e in entries + {(d.title, d.path)};
    }
  }

  /** Every path of an ambiguous title lands in its bucket, so a third document of the same
      normalised title meets a collision instead of becoming the only candidate. */
  method BuildFuzzyIndex(titles: Index, norms: Norms, ghost entries: Entries) returns (index: Index)
    requires IsTitleIndex(titles, entries)
    ensures IsFuzzyIndex(index, entries, norms)
  {
    index := map[];
    var left := titles.Keys;
    ghost var done: set<string> := {};
    while left != {}
      invariant left == titles.Keys - done && done <= titles.Keys
      invariant IsFuzzyIndex(index, Of(entries, done), norms)
      decreases |left|
    {
      var t :| t in left;
      left := left - {t};
      var key := norms.title(t);
      ghost var before := index;
      if key != "" {
        index := AddPaths(index, key, titles[t]);
      }
      assert Lists(Listed(titles, t), Exact(entries, t));
      FuzzyIndexGrows(before, index, entries, done, t, norms);
      done := done + {t};
    }
    AllTitlesDone(titles, entries);
  }

  /** The entries of the titles handled so far. */
  ghost function Of(entries: Entries, titles: set<string>): Entries { set e | e in entries && e.0 in titles }

  lemma CandidatesGrow(entries: Entries, done: set<string>, t: string, norms: Norms, k: string)
    ensures Candidates(Of(entries, done + {t}), norms, k) ==
            Candidates(Of(entries, done), norms, k) + if norms.title(t) == k then Exact(entries, t) else {}
  {
    var grown, before := Of(entries, done + {t}), Of(entries, done);
    forall p | p in Candidates(grown, norms, k)
      ensures p in Candidates(before, norms, k) || (norms.title(t) == k && p in Exact(entries, t))
    {
      var e :| e in grown && norms.title(e.0) == k && e.1 == p;
      assert e in entries && (e in before || e.0 == t);
    }
    forall p | p in Candidates(before, norms, k) ensures p in Candidates(grown, norms, k) {
      var e :| e in before && norms.title(e.0) == k && e.1 == p;
      assert e in grown;
    }
    forall p | p in Exact(entries, t) && norms.title(t) == k ensures p in Candidates(grown, norms, k) {
      var e :| e in entries && e.0 == t && e.1 == p;
      assert e in grown;
    }
  }

  lemma FuzzyIndexGrows(before: Index, after: Index, entries: Entries, done: set<string>, t: string, norms: Norms)
    requires IsFuzzyIndex(before, Of(entries, done), norms)
    requires forall k :: k != norms.title(t) ==> Listed(after, k) == Listed(before, k)
    requires norms.title(t) != "" && Distinct(Listed(before, norms.title(t))) ==>
               && Distinct(Listed(after, norms.title(t)))
               && forall p :: p in Listed(after, norms.title(t)) <==>
                  p in Listed(before, norms.title(t)) || p in Exact(entries, t)
    ensures IsFuzzyIndex(after, Of(entries, done + {t}), norms)
  {
    forall k | k != "" ensures Lists(Listed(after, k), Candidates(Of(entries, done + {t}), norms, k)) {
      CandidatesGrow(entries, done, t, norms, k);
      assert Lists(Listed(before, k), Candidates(Of(entries, done), norms, k));
    }
  }

  lemma AllTitlesDone(titles: Index, entries: Entries)
    requires IsTitleIndex(titles, entries)
    ensures Of(entries, titles.Keys) == entries
  {
    forall e | e in entries ensures e.0 in titles {
      assert e.1 in Exact(entries, e.0);
      assert e.1 in Listed(titles, e.0);
    }
  }

  method AddPaths(start: Index, key: string, paths: seq<string>) returns (index: Index)
    ensures forall k :: k != key ==> Listed(index, k) == Listed(start, k)
    ensures Distinct(Listed(start, key)) ==> Distinct(Listed(index, key))
    ensures forall p :: p in Listed(index, key) <==> p in Listed(start, key) || p in paths
  {
    index := start;
    for i := 0 to |paths|
      invariant forall k :: k != key ==> Listed(index, k) == Listed(start, k)
      invariant Distinct(Listed(start, key)) ==> Distinct(Listed(index, key))
      invariant forall p :: p in Listed(index, key) <==> p in Listed(start, key) || p in paths[..i]
    {
      assert paths[..i + 1] == paths[..i] + [paths[i]];
      index := AddOnce(index, key, paths[i]);
    }
    assert paths[..|paths|] == paths;
  }

  // ------------------------------------------------------------------
  // The resolver, over the indexes.

  function Resolve(titles: Index, fuzzy: Index, norms: Norms, target: string): Option<string> {
    var exact := Listed(titles, target);
    if |exact| == 1 then Some(exact[0])
    else if |exact| >= 2 then None
    else
      var key := norms.target(target);
      var cands := if key != "" then Listed(fuzzy, key) else [];
      if |cands| == 1 then Some(cands[0]) else None
  }

  lemma ListsOne(xs: seq<string>, s: set<string>)
    requires Lists(xs, s)
    ensures |xs| == 1 <==> exists p :: s == {p}
    ensures |xs| == 1 ==> s == {xs[0]}
    ensures |xs| == 0 <==> s == {}
  {
    if |xs| == 1 { assert s == {xs[0]}; }
    if xs != [] { assert xs[0] in s; }
    if |xs| >= 2 { assert xs[0] in s && xs[1] in s; }
  }

  /** The index lookups compute the specification, for every link and every base. */
  lemma ResolverIsExact(titles: Index, fuzzy: Index, norms: Norms, entries: Entries, target: string, p: string)
    requires IsTitleIndex(titles, entries) && IsFuzzyIndex(fuzzy, entries, norms)
    ensures Resolve(titles, fuzzy, norms, target) == Some(p) <==> Means(entries, norms, target, p)
  {
    var key := norms.target(target);
    ListsOne(Listed(titles, target), Exact(entries, target));
    if key != "" { ListsOne(Listed(fuzzy, key), Candidates(entries, norms, key)); }
    assert p in {p};
  }

  /** So it does not depend on the order the documents come in. */
  lemma ResolutionIgnoresOrder(docs: seq<Doc>, shuffled: seq<Doc>, t1: Index, f1: Index, t2: Index, f2: Index,
      norms: Norms, target: string)
    requires multiset(docs) == multiset(shuffled)
    requires IsTitleIndex(t1, EntriesOf(docs)) && IsFuzzyIndex(f1, EntriesOf(docs), norms)
    requires IsTitleIndex(t2, EntriesOf(shuffled)) && IsFuzzyIndex(f2, EntriesOf(shuffled), norms)
    ensures Resolve(t1, f1, norms, target) == Resolve(t2, f2, norms, target)
  {
    SameEntries(docs, shuffled);
    SameEntries(shuffled, docs);
    var entries := EntriesOf(docs);
    assert EntriesOf(shuffled) == entries;
    forall p ensures Resolve(t1, f1, norms, target) == Some(p) <==> Resolve(t2, f2, norms, target) == Some(p) {
      ResolverIsExact(t1, f1, norms, entries, target, p);
      ResolverIsExact(t2, f2, norms, entries, target, p);
    }
  }

  lemma SameEntries(docs: seq<Doc>, shuffled: seq<Doc>)
    requires multiset(docs) == multiset(shuffled)
    ensures EntriesOf(docs) <= EntriesOf(shuffled)
  {
    forall e | e in EntriesOf(docs) ensures e in EntriesOf(shuffled) {
      var i :| 0 <= i < |docs| && docs[i].title != "" && (docs[i].title, docs[i].path) == e;
      assert docs[i] in multiset(docs);
      assert docs[i] in shuffled;
      var j :| 0 <= j < |shuffled| && shuffled[j] == docs[i];
    }
  }
}

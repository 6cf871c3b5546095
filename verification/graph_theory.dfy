/** What a finished graph promises its clients: no link is lost, no edge leaves the node
    set, and every degree counts distinct neighbours. */
module GraphTheory {
  import opened Options
  import opened Graph
  import opened GraphLinks

  /** Every row stores the normalised form of its own path. */
  ghost predicate Keyed(docs: seq<Doc>, norms: Norms) { forall d :: d in docs ==> d.key == norms.path(d.path) }

  function Paths(docs: seq<Doc>): set<string> { set d | d in docs :: d.path }

  // ------------------------------------------------------------------
  // Conservation.

  lemma {:induction false} FatesBalance(u: Universe, os: seq<Occurrence>)
    ensures CountJoins(u, os) + CountBreaks(u, os) + CountShadowed(u, os) == CountWiki(os) + CountNaming(u, os)
  {
    if os != [] {
      FatesBalance(u, os[..|os| - 1]);
      NamedIsNode(u, os[|os| - 1]);
    }
  }

  lemma NamedIsNode(u: Universe, o: Occurrence)
    ensures FateOf(u, o).Joins? || FateOf(u, o).Breaks? || FateOf(u, o) == Shadowed <==>
            o.link.kind.Wiki? || (o.link.kind.Markdown? && u.norms.path(o.link.target) in u.keys)
  {
  }

  /** Every wikilink, and every markdown link that names a document, is counted once: in an
      edge weight, in an unresolved count, or as a link to a document whose key another
      document has taken. */
  lemma Conservation(acc: Acc, u: Universe, os: seq<Occurrence>)
    requires Agrees(acc, u, os)
    ensures Sum(Weights(acc.edges)) + Sum(acc.unresolved) + CountShadowed(u, os) == CountWiki(os) + CountNaming(u, os)
  {
    FatesBalance(u, os);
  }

  /** The key index keeps exactly the last document of each key. */
  lemma {:induction false} KeysKeepTheLast(docs: seq<Doc>, key: string)
    ensures key in PathsByKey(docs) <==> exists d :: d in docs && d.key == key
    ensures forall i :: 0 <= i < |docs| && docs[i].key == key && (forall j :: i < j < |docs| ==> docs[j].key != key) ==>
              key in PathsByKey(docs) && PathsByKey(docs)[key] == docs[i].path
  {
    if docs != [] {
      var n := |docs| - 1;
      KeysKeepTheLast(docs[..n], key);
      assert docs == docs[..n] + [docs[n]];
      if key in PathsByKey(docs) && docs[n].key != key {
        var d :| d in docs[..n] && d.key == key;
      }
    }
  }

  lemma {:induction false} NodePathsAreDocuments(docs: seq<Doc>)
    ensures PathsByKey(docs).Values <= Paths(docs)
  {
    if docs != [] {
      var n := |docs| - 1;
      NodePathsAreDocuments(docs[..n]);
      forall p | p in PathsByKey(docs).Values ensures p in Paths(docs) {
        var k :| k in PathsByKey(docs) && PathsByKey(docs)[k] == p;
        if k == docs[n].key { assert docs[n] in docs; } else {
          assert p in PathsByKey(docs[..n]).Values;
          var d :| d in docs[..n] && d.path == p;
          assert d in docs;
        }
      }
    }
  }

  lemma EveryPathIsANode(docs: seq<Doc>)
    requires DistinctKeys(docs)
    ensures PathsByKey(docs).Values == Paths(docs)
  {
    NodePathsAreDocuments(docs);
    forall d | d in docs ensures d.path in PathsByKey(docs).Values {
      var i :| 0 <= i < |docs| && docs[i] == d;
      KeysKeepTheLast(docs, d.key);
      assert PathsByKey(docs)[d.key] == d.path;
    }
  }

  /** What a link resolves to is the path of a document. */
  lemma ResolvedIsDocument(u: Universe, docs: seq<Doc>, norms: Norms, target: string)
    requires IsUniverse(u, docs, norms)
    ensures forall p :: Resolve(u.titles, u.fuzzy, norms, target) == Some(p) ==> p in Paths(docs)
  {
    var entries := EntriesOf(docs);
    forall p | Resolve(u.titles, u.fuzzy, norms, target) == Some(p) ensures p in Paths(docs) {
      ResolverIsExact(u.titles, u.fuzzy, norms, entries, target, p);
      assert p in {p};
      var e :| e in entries && e.1 == p;
      var i :| 0 <= i < |docs| && docs[i].title != "" && (docs[i].title, docs[i].path) == e;
      assert docs[i] in docs;
    }
  }

  /** With distinct keys, which the unique key column of the document table supplies, nothing
      is lost: weights and unresolved counts account for every wikilink and every markdown
      link that names a document. */
  lemma {:induction false} NothingIsShadowed(u: Universe, docs: seq<Doc>, norms: Norms, os: seq<Occurrence>)
    requires IsUniverse(u, docs, norms) && DistinctKeys(docs)
    ensures CountShadowed(u, os) == 0
  {
    if os != [] {
      NothingIsShadowed(u, docs, norms, os[..|os| - 1]);
      EveryPathIsANode(docs);
      ResolvedIsDocument(u, docs, norms, os[|os| - 1].link.target);
    }
  }

  lemma DistinctKeysConserve(acc: Acc, u: Universe, docs: seq<Doc>, norms: Norms, os: seq<Occurrence>)
    requires IsUniverse(u, docs, norms) && Agrees(acc, u, os) && DistinctKeys(docs)
    ensures Sum(Weights(acc.edges)) + Sum(acc.unresolved) == CountWiki(os) + CountNaming(u, os)
  {
    Conservation(acc, u, os);
    NothingIsShadowed(u, docs, norms, os);
  }

  /** What the check on the node set guards against, for lists of documents whose keys might
      collide: a wikilink would be lost exactly when it resolves to a document whose key a
      later document has taken, so that its path is no node. */
  lemma LostIff(u: Universe, docs: seq<Doc>, norms: Norms, o: Occurrence)
    requires IsUniverse(u, docs, norms)
    ensures FateOf(u, o) == Shadowed <==>
            o.link.kind.Wiki? && exists p ::
              Means(EntriesOf(docs), norms, o.link.target, p) && p !in PathsByKey(docs).Values
  {
    var entries := EntriesOf(docs);
    forall p ensures Resolve(u.titles, u.fuzzy, norms, o.link.target) == Some(p) <==>
      Means(entries, norms, o.link.target, p)
    {
      ResolverIsExact(u.titles, u.fuzzy, norms, entries, o.link.target, p);
    }
  }

  // ------------------------------------------------------------------
  // What each occurrence means.

  /** `t` is the path of the last document with this key. */
  ghost predicate HasKey(docs: seq<Doc>, key: string, t: string) {
    exists i :: 0 <= i < |docs| && docs[i].key == key && docs[i].path == t && forall j :: i < j < |docs| ==>
      docs[j].key != key
  }

  lemma {:induction false} LastOfKey(docs: seq<Doc>, key: string)
    requires exists d :: d in docs && d.key == key
    ensures key in PathsByKey(docs) && HasKey(docs, key, PathsByKey(docs)[key])
  {
    var n := |docs| - 1;
    KeysKeepTheLast(docs, key);
    if docs[n].key != key {
      assert docs == docs[..n] + [docs[n]];
      LastOfKey(docs[..n], key);
      var i :| 0 <= i < n && docs[..n][i].key == key && docs[..n][i].path == PathsByKey(docs[..n])[key] &&
        forall j :: i < j < n ==> docs[..n][j].key != key;
      assert forall j :: i < j < |docs| ==> docs[j].key != key;
      assert docs[i].key == key;
    } else {
      assert docs[n].path == PathsByKey(docs)[key];
    }
  }

  /** A page the wikilink means, or the document the markdown link names. */
  ghost predicate LeadsTo(docs: seq<Doc>, norms: Norms, link: Link, t: string) {
    match link.kind
    case Wiki => Means(EntriesOf(docs), norms, link.target, t)
    case Markdown => HasKey(docs, norms.path(link.target), t)
    case Url => false
  }

  /** An occurrence joins exactly the edge from its document to the node its link leads to,
      under its own text and anchor; it breaks iff it is a wikilink that means no page. */
  lemma FateMeans(u: Universe, docs: seq<Doc>, norms: Norms, o: Occurrence, k: EdgeKey)
    requires IsUniverse(u, docs, norms)
    ensures FateOf(u, o) == Joins(k) <==>
            k == EdgeKey(o.source, k.target, o.link.target, o.link.anchor) &&
              LeadsTo(docs, norms, o.link, k.target) && k.target in u.keys.Values
    ensures FateOf(u, o).Breaks? <==> o.link.kind.Wiki? && forall t :: !LeadsTo(docs, norms, o.link, t)
    ensures FateOf(u, o).Breaks? ==> FateOf(u, o).broken == BrokenKey(o.source, o.link.target, o.link.anchor)
  {
    match o.link.kind
    case Wiki =>
      forall t ensures Resolve(u.titles, u.fuzzy, norms, o.link.target) == Some(t) <==>
        LeadsTo(docs, norms, o.link, t)
      {
        ResolverIsExact(u.titles, u.fuzzy, norms, EntriesOf(docs), o.link.target, t);
      }
    case Markdown => NamedDocument(u, docs, norms, o.link, k.target);
    case Url =>
  }

  lemma NamedDocument(u: Universe, docs: seq<Doc>, norms: Norms, link: Link, t: string)
    requires IsUniverse(u, docs, norms) && link.kind.Markdown?
    ensures LeadsTo(docs, norms, link, t) <==> norms.path(link.target) in u.keys && u.keys[norms.path(link.target)] == t
  {
    var key := norms.path(link.target);
    KeysKeepTheLast(docs, key);
    if key in u.keys { LastOfKey(docs, key); }
  }

  // ------------------------------------------------------------------
  // Closure.

  lemma {:induction false} SourcesAreDocuments(docs: seq<Doc>, bodies: seq<Option<seq<Link>>>)
    requires |bodies| == |docs|
    ensures forall o :: o in Flatten(docs, bodies) ==> o.source in Paths(docs)
  {
    if docs != [] {
      var n := |docs| - 1;
      SourcesAreDocuments(docs[..n], bodies[..n]);
      forall o | o in Flatten(docs, bodies) ensures o.source in Paths(docs) {
        assert docs[n] in docs;
        if o in Flatten(docs[..n], bodies[..n]) {
          var d :| d in docs[..n] && d.path == o.source;
          assert d in docs;
        } else {
          assert o in OccurrencesIn(docs[n].path, bodies[n].value);
        }
      }
    }
  }

  /** An edge's first occurrence, so each edge comes from a link some document holds. */
  lemma EdgeHasOccurrence(acc: Acc, u: Universe, os: seq<Occurrence>, k: EdgeKey) returns (o: Occurrence)
    requires Agrees(acc, u, os) && k in acc.edges
    ensures o in os && FateOf(u, o) == Joins(k) && acc.edges[k].kind == o.link.kind && !o.link.kind.Url?
  {
    var i :| FirstAt(u, os, k, i) && acc.edges[k].kind == os[i].link.kind;
    o := os[i];
  }

  /** Every edge joins two nodes of the response. */
  lemma EdgesJoinNodes(acc: Acc, u: Universe, docs: seq<Doc>, bodies: seq<Option<seq<Link>>>, norms: Norms, k: EdgeKey)
    requires |bodies| == |docs| && IsUniverse(u, docs, norms) && Agrees(acc, u, Flatten(docs, bodies)) && k in acc.edges
    ensures k.source in Paths(docs) && k.target in Paths(docs)
  {
    var o := EdgeHasOccurrence(acc, u, Flatten(docs, bodies), k);
    SourcesAreDocuments(docs, bodies);
    NodePathsAreDocuments(docs);
    if o.link.kind.Markdown? { assert k.target == u.keys[u.norms.path(o.link.target)]; }
    assert k.target in u.keys.Values;
  }

  // ------------------------------------------------------------------
  // Degrees.

  function Degree(m: map<string, set<string>>, d: Doc): nat { |Neighbours(m, d.path)| }

  function TotalDegree(m: map<string, set<string>>, docs: seq<Doc>): nat {
    if docs == [] then 0 else TotalDegree(m, docs[..|docs| - 1]) + Degree(m, docs[|docs| - 1])
  }

  function Flip(pairs: set<(string, string)>): set<(string, string)> { set q | q in pairs :: (q.1, q.0) }

  lemma {:induction false} FlipKeepsSize(pairs: set<(string, string)>)
    ensures |Flip(pairs)| == |pairs|
    decreases |pairs|
  {
    if pairs != {} {
      var q :| q in pairs;
      FlipKeepsSize(pairs - {q});
      assert Flip(pairs) == Flip(pairs - {q}) + {(q.1, q.0)};
    }
  }

  lemma {:induction false} FanSize(p: string, ts: set<string>, pairs: set<(string, string)>)
    requires forall q :: q in pairs <==> q.0 == p && q.1 in ts
    ensures |pairs| == |ts|
    decreases |ts|
  {
    if ts == {} {
      assert pairs == {};
    } else {
      var t :| t in ts;
      FanSize(p, ts - {t}, pairs - {(p, t)});
    }
  }

  /** The pairs that start at one of these documents. */
  function From(pairs: set<(string, string)>, docs: seq<Doc>): set<(string, string)> {
    set q | q in pairs && q.0 in Paths(docs)
  }

  lemma FromSplits(m: map<string, set<string>>, docs: seq<Doc>, pairs: set<(string, string)>)
    requires OutOf(m, pairs) && docs != []
    requires forall i, j :: 0 <= i < j < |docs| ==> docs[i].path != docs[j].path
    ensures |From(pairs, docs)| == |From(pairs, docs[..|docs| - 1])| + Degree(m, docs[|docs| - 1])
  {
    var n := |docs| - 1;
    var d := docs[n];
    var fan := set q | q in pairs && q.0 == d.path;
    FanSize(d.path, Neighbours(m, d.path), fan);
    PathsSplit(docs);
    assert From(pairs, docs) == From(pairs, docs[..n]) + fan;
    assert From(pairs, docs[..n]) !! fan;
  }

  /** Of distinct paths, the out-degrees add up to the pairs that start at one of them. */
  lemma {:induction false} DegreesCountPairs(m: map<string, set<string>>, docs: seq<Doc>, pairs: set<(string, string)>)
    requires OutOf(m, pairs)
    requires forall i, j :: 0 <= i < j < |docs| ==> docs[i].path != docs[j].path
    ensures TotalDegree(m, docs) == |From(pairs, docs)|
  {
    if docs == [] {
      assert From(pairs, docs) == {};
    } else {
      DegreesCountPairs(m, docs[..|docs| - 1], pairs);
      FromSplits(m, docs, pairs);
    }
  }

  lemma PathsSplit(docs: seq<Doc>)
    requires docs != []
    requires forall i, j :: 0 <= i < j < |docs| ==> docs[i].path != docs[j].path
    ensures Paths(docs) == Paths(docs[..|docs| - 1]) + {docs[|docs| - 1].path}
    ensures docs[|docs| - 1].path !in Paths(docs[..|docs| - 1])
  {
    var n := |docs| - 1;
    assert docs == docs[..n] + [docs[n]];
    assert docs[n] in docs;
  }

  /** A document's in-degree and out-degree are its numbers of distinct neighbours. */
  lemma DegreesAreNeighbours(acc: Acc, u: Universe, os: seq<Occurrence>, d: Doc)
    requires Agrees(acc, u, os)
    ensures Degree(acc.outbound, d) == |set k | k in acc.edges && k.source == d.path :: k.target|
    ensures Degree(acc.inbound, d) == |set k | k in acc.edges && k.target == d.path :: k.source|
  {
    var outs := set k | k in acc.edges && k.source == d.path :: k.target;
    var ins := set k | k in acc.edges && k.target == d.path :: k.source;
    forall t ensures t in outs <==> t in Neighbours(acc.outbound, d.path) {
      assert t in Neighbours(acc.outbound, d.path) <==> (d.path, t) in Pairs(acc.edges);
    }
    forall t ensures t in ins <==> t in Neighbours(acc.inbound, d.path) {
      assert t in Neighbours(acc.inbound, d.path) <==> (t, d.path) in Pairs(acc.edges);
    }
    assert outs == Neighbours(acc.outbound, d.path) && ins == Neighbours(acc.inbound, d.path);
  }

  lemma PairsJoinNodes(acc: Acc, u: Universe, docs: seq<Doc>, bodies: seq<Option<seq<Link>>>, norms: Norms)
    requires |bodies| == |docs| && IsUniverse(u, docs, norms) && Agrees(acc, u, Flatten(docs, bodies))
    ensures forall q :: q in Pairs(acc.edges) ==> q.0 in Paths(docs) && q.1 in Paths(docs)
  {
    forall q | q in Pairs(acc.edges) ensures q.0 in Paths(docs) && q.1 in Paths(docs) {
      var k :| k in acc.edges && (k.source, k.target) == q;
      EdgesJoinNodes(acc, u, docs, bodies, norms, k);
    }
  }

  lemma PathsAreDistinct(docs: seq<Doc>, norms: Norms)
    requires DistinctKeys(docs) && Keyed(docs, norms)
    ensures forall i, j :: 0 <= i < j < |docs| ==> docs[i].path != docs[j].path
  {
    forall i, j | 0 <= i < j < |docs| ensures docs[i].path != docs[j].path {
      assert docs[i] in docs && docs[j] in docs;
    }
  }

  lemma DegreesCountAllPairs(m: map<string, set<string>>, docs: seq<Doc>, pairs: set<(string, string)>)
    requires OutOf(m, pairs) && forall q :: q in pairs ==> q.0 in Paths(docs)
    requires forall i, j :: 0 <= i < j < |docs| ==> docs[i].path != docs[j].path
    ensures TotalDegree(m, docs) == |pairs|
  {
    DegreesCountPairs(m, docs, pairs);
    assert From(pairs, docs) == pairs;
  }

  /** All in-degrees together, all out-degrees together, and the distinct linked pairs are
      the same number. */
  lemma {:induction false} DegreesBalance(acc: Acc, u: Universe, docs: seq<Doc>, bodies: seq<Option<seq<Link>>>,
      norms: Norms)
    requires |bodies| == |docs| && IsUniverse(u, docs, norms) && Agrees(acc, u, Flatten(docs, bodies))
    requires DistinctKeys(docs) && Keyed(docs, norms)
    ensures TotalDegree(acc.outbound, docs) == TotalDegree(acc.inbound, docs) == |Pairs(acc.edges)|
  {
    PairsJoinNodes(acc, u, docs, bodies, norms);
    PathsAreDistinct(docs, norms);
    NeighboursBalance(acc, docs);
  }

  lemma NeighboursBalance(acc: Acc, docs: seq<Doc>)
    requires NeighboursAgree(acc)
    requires forall q :: q in Pairs(acc.edges) ==> q.0 in Paths(docs) && q.1 in Paths(docs)
    requires forall i, j :: 0 <= i < j < |docs| ==> docs[i].path != docs[j].path
    ensures TotalDegree(acc.outbound, docs) == TotalDegree(acc.inbound, docs) == |Pairs(acc.edges)|
  {
    var pairs := Pairs(acc.edges);
    DegreesCountAllPairs(acc.outbound, docs, pairs);
    FlipInto(acc.inbound, pairs);
    DegreesCountAllPairs(acc.inbound, docs, Flip(pairs));
    FlipKeepsSize(pairs);
  }

  lemma FlipInto(m: map<string, set<string>>, pairs: set<(string, string)>)
    requires Into(m, pairs)
    ensures OutOf(m, Flip(pairs))
  {
    forall s, t ensures t in Neighbours(m, s) <==> (s, t) in Flip(pairs) {
      assert t in Neighbours(m, s) <==> (t, s) in pairs;
      if (t, s) in pairs { assert ((t, s).1, (t, s).0) in Flip(pairs); }
    }
  }
}

/** One pass over every link of every document: weighted edges, unresolved wikilinks, and
    the neighbour sets behind each node's degrees. */
module GraphLinks {
  import opened Options
  import opened Graph

  datatype EdgeKey = EdgeKey(source: string, target: string, text: string, anchor: Option<string>)

  datatype BrokenKey = BrokenKey(source: string, text: string, anchor: Option<string>)

  datatype Edge = Edge(weight: nat, kind: Kind)

  /** One link occurrence, flattened out of its document. */
  datatype Occurrence = Occurrence(source: string, link: Link)

  /** The resolution universe of one response. */
  datatype Universe = Universe(titles: Index, fuzzy: Index, keys: map<string, string>, norms: Norms)

  datatype Fate = Ignored | Shadowed | Joins(edge: EdgeKey) | Breaks(broken: BrokenKey)

  /** Documents by path key: of two rows with one key the later wins. */
  function PathsByKey(docs: seq<Doc>): map<string, string> {
    if docs == [] then map[] else PathsByKey(docs[..|docs| - 1])[docs[|docs| - 1].key := docs[|docs| - 1].path]
  }

  ghost predicate DistinctKeys(docs: seq<Doc>) { forall i, j :: 0 <= i < j < |docs| ==> docs[i].key != docs[j].key }

  /** What becomes of one occurrence. */
  function FateOf(u: Universe, o: Occurrence): Fate {
    match o.link.kind
    case Url => Ignored
    case Wiki =>
      (match Resolve(u.titles, u.fuzzy, u.norms, o.link.target)
       case None => Breaks(BrokenKey(o.source, o.link.target, o.link.anchor))
       case Some(p) =>
         if p in u.keys.Values then Joins(EdgeKey(o.source, p, o.link.target, o.link.anchor)) else Shadowed)
    case Markdown =>
      var key := u.norms.path(o.link.target);
      if key in u.keys then Joins(EdgeKey(o.source, u.keys[key], o.link.target, o.link.anchor)) else Ignored
  }

  // ------------------------------------------------------------------
  // Counting occurrences.

  ghost function CountFate(u: Universe, os: seq<Occurrence>, f: Fate): nat {
    if os == [] then 0 else CountFate(u, os[..|os| - 1], f) + if FateOf(u, os[|os| - 1]) == f then 1 else 0
  }

  ghost function CountJoins(u: Universe, os: seq<Occurrence>): nat {
    if os == [] then 0 else CountJoins(u, os[..|os| - 1]) + if FateOf(u, os[|os| - 1]).Joins? then 1 else 0
  }

  ghost function CountBreaks(u: Universe, os: seq<Occurrence>): nat {
    if os == [] then 0 else CountBreaks(u, os[..|os| - 1]) + if FateOf(u, os[|os| - 1]).Breaks? then 1 else 0
  }

  ghost function CountShadowed(u: Universe, os: seq<Occurrence>): nat { CountFate(u, os, Shadowed) }

  function CountWiki(os: seq<Occurrence>): nat {
    if os == [] then 0 else CountWiki(os[..|os| - 1]) + if os[|os| - 1].link.kind.Wiki? then 1 else 0
  }

  /** Markdown links whose href names a document. */
  function CountNaming(u: Universe, os: seq<Occurrence>): nat {
    if os == [] then 0
    else CountNaming(u, os[..|os| - 1]) +
         (if os[|os| - 1].link.kind.Markdown? && u.norms.path(os[|os| - 1].link.target) in u.keys then 1 else 0)
  }

  // ------------------------------------------------------------------
  // Sums over a map.

  ghost function Sum<K(!new)>(m: map<K, nat>): nat {
    if m == map[] then 0 else var k :| k in m; m[k] + Sum(m - {k})
  }

  lemma {:induction false} SumSplit<K(!new)>(m: map<K, nat>, k: K)
    requires k in m
    ensures Sum(m) == m[k] + Sum(m - {k})
    decreases |m|
  {
    var j :| j in m && Sum(m) == m[j] + Sum(m - {j});
    if j != k {
      SumSplit(m - {j}, k);
      SumSplit(m - {k}, j);
      assert m - {j} - {k} == m - {k} - {j};
    }
  }

  lemma SumUpdate<K(!new)>(m: map<K, nat>, k: K, n: nat)
    ensures Sum(m[k := n]) == Sum(m) + n - if k in m then m[k] else 0
  {
    SumSplit(m[k := n], k);
    if k in m {
      SumSplit(m, k);
      assert m[k := n] - {k} == m - {k};
    } else {
      assert m[k := n] - {k} == m;
    }
  }

  ghost function Weights(edges: map<EdgeKey, Edge>): map<EdgeKey, nat> { map k | k in edges :: edges[k].weight }

  // ------------------------------------------------------------------
  // The accumulators.

  datatype Acc = Acc(edges: map<EdgeKey, Edge>, unresolved: map<BrokenKey, nat>, outbound: map<string, set<string>>,
      inbound: map<string, set<string>>)

  function Neighbours(m: map<string, set<string>>, p: string): set<string> { if p in m then m[p] else {} }

  function Pairs(edges: map<EdgeKey, Edge>): set<(string, string)> { set k | k in edges :: (k.source, k.target) }

  /** Every accumulator agrees with its count over the occurrences seen so far. */
  ghost predicate Tallies(acc: Acc, u: Universe, os: seq<Occurrence>) {
    && (forall k ::
          (k in acc.edges <==> CountFate(u, os, Joins(k)) > 0) &&
          (k in acc.edges ==> acc.edges[k].weight == CountFate(u, os, Joins(k))))
    && (forall k ::
          (k in acc.unresolved <==> CountFate(u, os, Breaks(k)) > 0) &&
          (k in acc.unresolved ==> acc.unresolved[k] == CountFate(u, os, Breaks(k))))
  }

  ghost predicate OutOf(m: map<string, set<string>>, pairs: set<(string, string)>) {
    forall s, t :: t in Neighbours(m, s) <==> (s, t) in pairs
  }

  ghost predicate Into(m: map<string, set<string>>, pairs: set<(string, string)>) {
    forall s, t :: s in Neighbours(m, t) <==> (s, t) in pairs
  }

  ghost predicate NeighboursAgree(acc: Acc) {
    OutOf(acc.outbound, Pairs(acc.edges)) && Into(acc.inbound, Pairs(acc.edges))
  }

  ghost predicate SumsAgree(acc: Acc, u: Universe, os: seq<Occurrence>) {
    Sum(Weights(acc.edges)) == CountJoins(u, os) && Sum(acc.unresolved) == CountBreaks(u, os)
  }

  /** Occurrence `i` is the first that joins edge `k`. */
  ghost predicate FirstAt(u: Universe, os: seq<Occurrence>, k: EdgeKey, i: int) {
    0 <= i < |os| && FateOf(u, os[i]) == Joins(k) && forall j :: 0 <= j < i ==> FateOf(u, os[j]) != Joins(k)
  }

  /** An edge carries the kind of the first occurrence that joins it. */
  ghost predicate KindsAgree(acc: Acc, u: Universe, os: seq<Occurrence>) {
    forall k :: k in acc.edges ==> exists i :: FirstAt(u, os, k, i) && acc.edges[k].kind == os[i].link.kind
  }

  ghost predicate Agrees(acc: Acc, u: Universe, os: seq<Occurrence>) {
    Tallies(acc, u, os) && KindsAgree(acc, u, os) && NeighboursAgree(acc) && SumsAgree(acc, u, os)
  }

  function Record(acc: Acc, f: Fate, kind: Kind): Acc {
    match f
    case Ignored => acc
    case Shadowed => acc
    case Breaks(k) =>
      acc.(unresolved := acc.unresolved[k := (if k in acc.unresolved then acc.unresolved[k] else 0) + 1])
    case Joins(k) =>
      acc.(edges := acc.edges[k := if k in acc.edges then acc.edges[k].(weight := acc.edges[k].weight + 1)
        else Edge(1, kind)],
           outbound := acc.outbound[k.source := Neighbours(acc.outbound, k.source) + {k.target}],
           inbound := acc.inbound[k.target := Neighbours(acc.inbound, k.target) + {k.source}])
  }

  ghost predicate OneMore(u: Universe, before: seq<Occurrence>, after: seq<Occurrence>, f: Fate) {
    && (forall g :: CountFate(u, after, g) == CountFate(u, before, g) + if f == g then 1 else 0)
    && CountJoins(u, after) == CountJoins(u, before) + (if f.Joins? then 1 else 0)
    && CountBreaks(u, after) == CountBreaks(u, before) + (if f.Breaks? then 1 else 0)
  }

  lemma AppendCounts(u: Universe, os: seq<Occurrence>, o: Occurrence)
    ensures OneMore(u, os, os + [o], FateOf(u, o))
  {
    assert (os + [o])[..|os|] == os;
  }

  lemma RecordTallies(acc: Acc, f: Fate, kind: Kind, u: Universe, before: seq<Occurrence>, after: seq<Occurrence>)
    requires Tallies(acc, u, before) && OneMore(u, before, after, f)
    ensures Tallies(Record(acc, f, kind), u, after)
  {
  }

  lemma PairsGrow(edges: map<EdgeKey, Edge>, k: EdgeKey, e: Edge)
    ensures Pairs(edges[k := e]) == Pairs(edges) + {(k.source, k.target)}
  {
    assert k in edges[k := e];
    forall q | q in Pairs(edges) ensures q in Pairs(edges[k := e]) {
      var j :| j in edges && (j.source, j.target) == q;
      assert j in edges[k := e];
    }
  }

  lemma OutGrows(m: map<string, set<string>>, pairs: set<(string, string)>, a: string, b: string)
    requires OutOf(m, pairs)
    ensures OutOf(m[a := Neighbours(m, a) + {b}], pairs + {(a, b)})
  {
    var next := m[a := Neighbours(m, a) + {b}];
    forall s, t ensures t in Neighbours(next, s) <==> (s, t) in pairs + {(a, b)} {
      assert t in Neighbours(m, s) <==> (s, t) in pairs;
    }
  }

  lemma IntoGrows(m: map<string, set<string>>, pairs: set<(string, string)>, a: string, b: string)
    requires Into(m, pairs)
    ensures Into(m[b := Neighbours(m, b) + {a}], pairs + {(a, b)})
  {
    var next := m[b := Neighbours(m, b) + {a}];
    forall s, t ensures s in Neighbours(next, t) <==> (s, t) in pairs + {(a, b)} {
      assert s in Neighbours(m, t) <==> (s, t) in pairs;
    }
  }

  lemma RecordNeighbours(acc: Acc, f: Fate, kind: Kind)
    requires NeighboursAgree(acc)
    ensures NeighboursAgree(Record(acc, f, kind))
  {
    if f.Joins? {
      var k := f.edge;
      var next := Record(acc, f, kind);
      PairsGrow(acc.edges, k, next.edges[k]);
      OutGrows(acc.outbound, Pairs(acc.edges), k.source, k.target);
      IntoGrows(acc.inbound, Pairs(acc.edges), k.source, k.target);
      assert Pairs(next.edges) == Pairs(acc.edges) + {(k.source, k.target)};
    }
  }

  lemma RecordSums(acc: Acc, f: Fate, kind: Kind, u: Universe, before: seq<Occurrence>, after: seq<Occurrence>)
    requires SumsAgree(acc, u, before) && OneMore(u, before, after, f)
    ensures SumsAgree(Record(acc, f, kind), u, after)
  {
    var next := Record(acc, f, kind);
    match f
    case Joins(k) =>
      SumUpdate(Weights(acc.edges), k, next.edges[k].weight);
      assert Weights(next.edges) == Weights(acc.edges)[k := next.edges[k].weight];
    case Breaks(k) => SumUpdate(acc.unresolved, k, next.unresolved[k]);
    case _ =>
  }

  lemma {:induction false} NeverCounted(u: Universe, os: seq<Occurrence>, f: Fate)
    requires CountFate(u, os, f) == 0
    ensures forall j :: 0 <= j < |os| ==> FateOf(u, os[j]) != f
  {
    if os != [] { NeverCounted(u, os[..|os| - 1], f); }
  }

  lemma FirstAtStays(u: Universe, os: seq<Occurrence>, o: Occurrence, k: EdgeKey, i: int)
    requires FirstAt(u, os, k, i)
    ensures FirstAt(u, os + [o], k, i) && (os + [o])[i] == os[i]
  {
  }

  lemma FirstAtEnd(u: Universe, os: seq<Occurrence>, o: Occurrence, k: EdgeKey)
    requires CountFate(u, os, Joins(k)) == 0 && FateOf(u, o) == Joins(k)
    ensures FirstAt(u, os + [o], k, |os|) && (os + [o])[|os|] == o
  {
    NeverCounted(u, os, Joins(k));
  }

  lemma RecordKinds(acc: Acc, u: Universe, os: seq<Occurrence>, o: Occurrence)
    requires Tallies(acc, u, os) && KindsAgree(acc, u, os)
    ensures KindsAgree(Record(acc, FateOf(u, o), o.link.kind), u, os + [o])
  {
    var next := Record(acc, FateOf(u, o), o.link.kind);
    forall k | k in next.edges
      ensures exists i :: FirstAt(u, os + [o], k, i) && next.edges[k].kind == (os + [o])[i].link.kind
    {
      if k in acc.edges {
        var i :| FirstAt(u, os, k, i) && acc.edges[k].kind == os[i].link.kind;
        FirstAtStays(u, os, o, k, i);
      } else {
        FirstAtEnd(u, os, o, k);
      }
    }
  }

  /** One loop turn keeps every accumulator in agreement with the occurrences. */
  lemma RecordAgrees(acc: Acc, u: Universe, os: seq<Occurrence>, o: Occurrence)
    requires Agrees(acc, u, os)
    ensures Agrees(Record(acc, FateOf(u, o), o.link.kind), u, os + [o])
  {
    var f := FateOf(u, o);
    AppendCounts(u, os, o);
    RecordTallies(acc, f, o.link.kind, u, os, os + [o]);
    RecordKinds(acc, u, os, o);
    RecordNeighbours(acc, f, o.link.kind);
    RecordSums(acc, f, o.link.kind, u, os, os + [o]);
  }

  function OccurrencesIn(source: string, links: seq<Link>): seq<Occurrence> {
    seq(|links|, i requires 0 <= i < |links| => Occurrence(source, links[i]))
  }

  /** Every link of every readable document, in document order. */
  function Flatten(docs: seq<Doc>, bodies: seq<Option<seq<Link>>>): seq<Occurrence>
    requires |bodies| == |docs|
  {
    if docs == [] then []
    else
      var n := |docs| - 1;
      Flatten(docs[..n], bodies[..n]) + if bodies[n].Some? then OccurrencesIn(docs[n].path, bodies[n].value) else []
  }

  /** The link loop of one document. */
  method RecordDocument(start: Acc, u: Universe, doc: Doc, links: seq<Link>, ghost before: seq<Occurrence>)
      returns (acc: Acc)
    requires Agrees(start, u, before)
    ensures Agrees(acc, u, before + OccurrencesIn(doc.path, links))
  {
    acc := start;
    ghost var os := before;
    ghost var mine := OccurrencesIn(doc.path, links);
    assert os == before + mine[..0];
    for i := 0 to |links|
      invariant os == before + mine[..i]
      invariant Agrees(acc, u, os)
    {
      var o := Occurrence(doc.path, links[i]);
      RecordAgrees(acc, u, os, o);
      acc := Record(acc, FateOf(u, o), links[i].kind);
      os := os + [o];
      assert before + mine[..i + 1] == before + mine[..i] + [o];
    }
    assert mine[..|links|] == mine;
  }

  method KeyIndex(docs: seq<Doc>) returns (keys: map<string, string>)
    ensures keys == PathsByKey(docs)
  {
    keys := map[];
    for i := 0 to |docs|
      invariant keys == PathsByKey(docs[..i])
    {
      assert docs[..i + 1][..i] == docs[..i];
      keys := keys[docs[i].key := docs[i].path];
    }
    assert docs[..|docs|] == docs;
  }

  /** The links of the first `i` documents. */
  ghost function FlattenTo(docs: seq<Doc>, bodies: seq<Option<seq<Link>>>, i: nat): seq<Occurrence>
    requires |bodies| == |docs| && i <= |docs|
  {
    Flatten(docs[..i], bodies[..i])
  }

  lemma FlattenNext(docs: seq<Doc>, bodies: seq<Option<seq<Link>>>, i: nat)
    requires |bodies| == |docs| && i < |docs|
    ensures FlattenTo(docs, bodies, i + 1) ==
            FlattenTo(docs, bodies, i) + if bodies[i].Some? then OccurrencesIn(docs[i].path, bodies[i].value) else []
  {
    assert docs[..i + 1][..i] == docs[..i] && bodies[..i + 1][..i] == bodies[..i];
  }

  /** What the three indexes of one response are. */
  ghost predicate IsUniverse(u: Universe, docs: seq<Doc>, norms: Norms) {
    && IsTitleIndex(u.titles, EntriesOf(docs)) && IsFuzzyIndex(u.fuzzy, EntriesOf(docs), norms)
    && u.norms == norms && u.keys == PathsByKey(docs)
  }

  /** The whole pass: indexes, then every document. An unreadable body has no links. */
  method BuildGraph(docs: seq<Doc>, bodies: seq<Option<seq<Link>>>, norms: Norms) returns (u: Universe, acc: Acc)
    requires |bodies| == |docs|
    ensures IsUniverse(u, docs, norms)
    ensures Agrees(acc, u, Flatten(docs, bodies))
  {
    var titles := BuildTitleIndex(docs);
    var fuzzy := BuildFuzzyIndex(titles, norms, EntriesOf(docs));
    var keys := KeyIndex(docs);
    u := Universe(titles, fuzzy, keys, norms);
    acc := Acc(map[], map[], map[], map[]);
    assert Weights(acc.edges) == map[];
    for i := 0 to |docs|
      invariant Agrees(acc, u, FlattenTo(docs, bodies, i))
    {
      FlattenNext(docs, bodies, i);
      if bodies[i].Some? {
        acc := RecordDocument(acc, u, docs[i], bodies[i].value, FlattenTo(docs, bodies, i));
      } else {
        assert FlattenTo(docs, bodies, i) + [] == FlattenTo(docs, bodies, i);
      }
    }
    assert docs[..|docs|] == docs && bodies[..|docs|] == bodies;
  }
}

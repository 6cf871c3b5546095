/** How far the page list of a prompt is what it is meant to be: the documents of the base that
    are nearest to the group's chunks. */
module GateTheory {
  import opened Options
  import opened Sequences
  import opened VectorSearch
  import opened ExistingPages

  // ------------------------------------------------------------------
  // What is asked of the choice, and what the results tell.

  /** The searches, one an embedding, that an index of chunks with a distance to each gives. */
  ghost predicate Searched(ix: Index, searches: Searches, fetch: nat, k: nat)
    requires None !in searches
  {
    && (forall c :: c in ix.chunks ==> |c.distances| == |searches|)
    && forall q :: 0 <= q < |searches| ==> Finds(ix, q, fetch, k, searches[q].value)
  }

  /** `x` has a chunk that is as near to some embedding as `far`. */
  ghost predicate AsNear(ix: Index, x: string, far: real) {
    exists c, q :: c in ix.chunks && c.doc == x && 0 <= q < |c.distances| && Dist(c, q) <= far
  }

  ghost predicate LeftOut(ix: Index, chosen: seq<string>, c: Chunk) {
    c in ix.chunks && c.doc in ix.listed && c.doc !in chosen
  }

  /** No chunk of a document left out is nearer to any embedding than a chosen document is,
      and documents are left out only for `k` others. */
  ghost predicate TrueTopK(ix: Index, chosen: seq<string>, k: nat) {
    && (|chosen| < k ==> forall c :: !LeftOut(ix, chosen, c))
    && forall x, c, q :: x in chosen && LeftOut(ix, chosen, c) && 0 <= q < |c.distances| ==> AsNear(ix, x, Dist(c, q))
  }

  lemma NearerIsLeftOut(ix: Index, chosen: seq<string>, k: nat, x: string, c: Chunk, q: nat)
    requires x in chosen && LeftOut(ix, chosen, c) && q < |c.distances| && !AsNear(ix, x, Dist(c, q))
    ensures !TrueTopK(ix, chosen, k)
  {
  }

  /** Some hit is at least as far as `far`. */
  ghost predicate ReachesTo(hits: seq<Hit>, far: real) { exists h :: h in hits && h.distance >= far }

  /** `k` documents are chosen, and every search reaches as far as the farthest of them. */
  ghost predicate ReachesFar(searches: Searches, k: nat, best: map<string, real>, chosen: seq<string>)
    requires None !in searches && forall x :: x in chosen ==> x in best
  {
    |chosen| == k && forall q, x :: 0 <= q < |searches| && x in chosen ==> ReachesTo(searches[q].value, best[x])
  }

  ghost predicate SomeShort(searches: Searches, k: nat)
    requires None !in searches
  {
    exists q :: 0 <= q < |searches| && |searches[q].value| < k
  }

  /** What tells a trustworthy choice from the results and from whether a fetch is `whole`. */
  ghost predicate Trustworthy(searches: Searches, k: nat, best: map<string, real>, chosen: seq<string>, whole: bool)
    requires None !in searches && forall x :: x in chosen ==> x in best
  {
    (whole && SomeShort(searches, k)) || ReachesFar(searches, k, best, chosen)
  }

  /** Results as searches give them, and the choice made from them. */
  ghost predicate Chose(searches: Searches, k: nat, best: map<string, real>, chosen: seq<string>) {
    && None !in searches
    && (forall q :: 0 <= q < |searches| ==> |searches[q].value| <= k && AscendingHits(searches[q].value))
    && IsBest(best, AllHits(searches)) && IsTopK(chosen, best, k)
  }

  // ------------------------------------------------------------------
  // One half: such a choice is right.

  lemma HitsAreCollected(searches: Searches, q: nat, h: Hit)
    requires q < |searches| && searches[q].Some? && h in searches[q].value
    ensures h in AllHits(searches)
  {
    if q < |searches| - 1 {
      assert searches[..|searches| - 1][q] == searches[q];
      HitsAreCollected(searches[..|searches| - 1], q, h);
    }
  }

  lemma {:induction false} CollectedHitsAreFound(searches: Searches, h: Hit) returns (q: nat)
    requires None !in searches && h in AllHits(searches)
    ensures q < |searches| && h in searches[q].value
  {
    var n := |searches| - 1;
    if h in searches[n].value {
      q := n;
    } else {
      q := CollectedHitsAreFound(searches[..n], h);
    }
  }

  function Docs(hits: seq<Hit>): set<string> { set h | h in hits :: h.doc }

  lemma {:induction false} DocsAtMost(hits: seq<Hit>)
    ensures |Docs(hits)| <= |hits|
  {
    if hits != [] {
      var n := |hits| - 1;
      DocsAtMost(hits[..n]);
      assert hits == hits[..n] + [hits[n]];
      assert Docs(hits) == Docs(hits[..n]) + {hits[n].doc};
    }
  }

  lemma SmallerSet(a: set<string>, b: set<string>)
    requires a <= b
    ensures |a| <= |b|
  {
    assert b == a + (b - a);
  }

  lemma SameSize(a: set<string>, b: set<string>)
    requires a <= b && |a| >= |b|
    ensures a == b
  {
    assert |b - a| == |b| - |a|;
  }

  /** A search that is not full and was not cut has reported the whole layer. */
  lemma ShortSearchReportsAll(ix: Index, searches: Searches, fetch: nat, k: nat, q: nat, h: Hit)
    requires None !in searches && Searched(ix, searches, fetch, k) && |ix.chunks| <= fetch
    requires q < |searches| && |searches[q].value| < k && h in AllHits(searches)
    ensures h.doc in Docs(searches[q].value)
  {
    var p := CollectedHitsAreFound(searches, h);
    SearchMeans(ix, p, fetch, k, searches[p].value);
    assert HasChunk(ix, p, h);
    var c :| c in ix.chunks && c.doc in ix.listed && c.doc == h.doc && Dist(c, p) == h.distance;
    SearchMeans(ix, q, fetch, k, searches[q].value);
    assert Hit(c.doc, Dist(c, q)) in searches[q].value;
  }

  /** So every document is chosen. */
  lemma ShortSearchChoosesAll(ix: Index, searches: Searches, fetch: nat, k: nat, best: map<string, real>,
      chosen: seq<string>, q: nat, c: Chunk)
    requires Chose(searches, k, best, chosen) && Searched(ix, searches, fetch, k) && |ix.chunks| <= fetch
    requires q < |searches| && |searches[q].value| < k
    ensures !LeftOut(ix, chosen, c)
  {
    var hits := searches[q].value;
    forall d | d in best ensures d in Docs(hits) {
      ShortSearchReportsAll(ix, searches, fetch, k, q, Hit(d, best[d]));
    }
    FewDocumentsAreAllChosen(best, chosen, k, hits);
    SearchMeans(ix, q, fetch, k, hits);
    if c in ix.chunks && c.doc in ix.listed { HitsAreCollected(searches, q, Hit(c.doc, Dist(c, q))); }
  }

  lemma FewDocumentsAreAllChosen(best: map<string, real>, chosen: seq<string>, k: nat, hits: seq<Hit>)
    requires IsTopK(chosen, best, k) && best.Keys <= Docs(hits) && |hits| < k
    ensures forall d :: d in best ==> d in chosen
  {
    SmallerSet(best.Keys, Docs(hits));
    DocsAtMost(hits);
    assert |best.Keys| == |best|;
    MembersSize(chosen);
    assert Members(chosen) <= best.Keys;
    SameSize(Members(chosen), best.Keys);
    forall d | d in best ensures d in chosen { assert d in Members(chosen); }
  }

  lemma BestIsNear(ix: Index, searches: Searches, fetch: nat, k: nat, best: map<string, real>, x: string, far: real)
    requires None !in searches && Searched(ix, searches, fetch, k) && IsBest(best, AllHits(searches))
    requires x in best && best[x] <= far
    ensures AsNear(ix, x, far)
  {
    var p := CollectedHitsAreFound(searches, Hit(x, best[x]));
    SearchMeans(ix, p, fetch, k, searches[p].value);
    assert HasChunk(ix, p, Hit(x, best[x]));
    var b :| b in ix.chunks && b.doc in ix.listed && b.doc == x && Dist(b, p) == best[x];
  }

  lemma ReachingFarIsNear(ix: Index, searches: Searches, fetch: nat, k: nat, best: map<string, real>,
      chosen: seq<string>, x: string, c: Chunk, q: nat)
    requires Chose(searches, k, best, chosen) && Searched(ix, searches, fetch, k) &&
             ReachesFar(searches, k, best, chosen)
    requires x in chosen && LeftOut(ix, chosen, c) && q < |searches|
    ensures AsNear(ix, x, Dist(c, q))
  {
    var hits, far := searches[q].value, Dist(c, q);
    SearchMeans(ix, q, fetch, k, hits);
    assert ReachesTo(hits, best[x]);
    if Hit(c.doc, far) in hits { HitsAreCollected(searches, q, Hit(c.doc, far)); }
    assert best[x] <= far;
    BestIsNear(ix, searches, fetch, k, best, x, far);
  }

  lemma TrustworthySuffices(ix: Index, searches: Searches, fetch: nat, k: nat, best: map<string, real>,
      chosen: seq<string>)
    requires Chose(searches, k, best, chosen) && Searched(ix, searches, fetch, k)
    requires Trustworthy(searches, k, best, chosen, |ix.chunks| <= fetch)
    ensures TrueTopK(ix, chosen, k)
  {
    if |ix.chunks| <= fetch && SomeShort(searches, k) {
      var p :| 0 <= p < |searches| && |searches[p].value| < k;
      forall c ensures !LeftOut(ix, chosen, c) { ShortSearchChoosesAll(ix, searches, fetch, k, best, chosen, p, c); }
    } else {
      forall x, c, q | x in chosen && LeftOut(ix, chosen, c) && 0 <= q < |c.distances|
        ensures AsNear(ix, x, Dist(c, q))
      {
        ReachingFarIsNear(ix, searches, fetch, k, best, chosen, x, c, q);
      }
    }
  }

  // ------------------------------------------------------------------
  // The other half: results that fall short have an index that the choice is wrong for.

  function Range(a: nat, b: nat): (r: seq<nat>)
    requires a <= b
    ensures |r| == b - a && forall i :: 0 <= i < |r| ==> r[i] == a + i
  {
    seq(b - a, i => a + i)
  }

  lemma InRange(a: nat, b: nat, i: nat)
    requires a <= b
    ensures i in Range(a, b) <==> a <= i < b
  {
    if a <= i < b { assert Range(a, b)[i - a] == i; }
  }

  /** An index made to order: `fillers` chunks outside the layer that crowd the fetches, one
      chunk a hit, and one more chunk of a document of its own. */
  datatype Plan = Plan(searches: Searches, fillers: nat, fetch: nat, filler: string, low: real, big: real, extra: Chunk)

  function Hits(p: Plan, q: nat): seq<Hit> {
    if q < |p.searches| && p.searches[q].Some? then p.searches[q].value else []
  }

  function At(doc: string, q: nat, n: nat, near: real, big: real): Chunk {
    Chunk(doc, seq(n, i => if i == q then near else big))
  }

  function BlockOf(p: Plan, q: nat): seq<Chunk> {
    var hits := Hits(p, q);
    seq(|hits|, i requires 0 <= i < |hits| => At(hits[i].doc, q, |p.searches|, hits[i].distance, p.big))
  }

  /** Where the hits of search `q` begin among the hit chunks. */
  function Offset(p: Plan, q: nat): nat { if q == 0 then 0 else Offset(p, q - 1) + |Hits(p, q - 1)| }

  function Blocks(p: Plan, m: nat): (cs: seq<Chunk>)
    ensures |cs| == Offset(p, m)
  {
    if m == 0 then [] else Blocks(p, m - 1) + BlockOf(p, m - 1)
  }

  /** Filler `j` is nearest to the embeddings whose fetch has room for it beside their hits. */
  function FillerChunk(p: Plan, j: nat): Chunk {
    Chunk(p.filler, seq(|p.searches|, q requires q >= 0 => if j + |Hits(p, q)| < p.fetch then p.low else p.big))
  }

  function ChunksOf(p: Plan): seq<Chunk> {
    seq(p.fillers, j requires 0 <= j => FillerChunk(p, j)) + Blocks(p, |p.searches|) + [p.extra]
  }

  function IndexOf(p: Plan): Index { Index(ChunksOf(p), Docs(AllHits(p.searches)) + {p.extra.doc}) }

  /** Seen from embedding `q` the hits lie between `low` and the one more chunk. */
  ghost predicate FitsAt(p: Plan, q: nat) {
    && |Hits(p, q)| <= p.fetch && AscendingHits(Hits(p, q))
    && p.low <= Dist(p.extra, q) <= p.big
    && forall h :: h in Hits(p, q) ==> p.low <= h.distance <= Dist(p.extra, q)
  }

  ghost predicate PlanFits(p: Plan) {
    && None !in p.searches && |p.extra.distances| == |p.searches|
    && (forall q: nat :: q < |p.searches| ==> FitsAt(p, q))
    && p.filler !in Docs(AllHits(p.searches)) && p.filler != p.extra.doc
  }

  lemma {:induction false} BlockAt(p: Plan, m: nat, q: nat, j: nat)
    requires q < m && j < |Hits(p, q)|
    ensures Offset(p, q) + j < Offset(p, m)
    ensures Blocks(p, m)[Offset(p, q) + j] == At(Hits(p, q)[j].doc, q, |p.searches|, Hits(p, q)[j].distance, p.big)
  {
    if q < m - 1 {
      BlockAt(p, m - 1, q, j);
    }
  }

  lemma {:induction false} BlockOwner(p: Plan, m: nat, i: nat) returns (q: nat, j: nat)
    requires i < Offset(p, m)
    ensures q < m && j < |Hits(p, q)| && i == Offset(p, q) + j
  {
    if i < Offset(p, m - 1) {
      q, j := BlockOwner(p, m - 1, i);
    } else {
      q, j := m - 1, i - Offset(p, m - 1);
    }
  }

  lemma {:induction false} OffsetGrows(p: Plan, q: nat, m: nat)
    requires q <= m
    ensures Offset(p, q) <= Offset(p, m)
    ensures q < m ==> Offset(p, q) + |Hits(p, q)| <= Offset(p, m)
  {
    if q < m { OffsetGrows(p, q, m - 1); }
  }

  lemma HitIsCollected(p: Plan, q: nat, h: Hit)
    requires None !in p.searches && q < |p.searches| && h in Hits(p, q)
    ensures h in AllHits(p.searches)
  {
    HitsAreCollected(p.searches, q, h);
  }

  lemma ChunksSize(p: Plan)
    ensures |ChunksOf(p)| == p.fillers + Offset(p, |p.searches|) + 1
  {
  }

  lemma FillerAt(p: Plan, q: nat, i: nat)
    requires i < p.fillers && q < |p.searches|
    ensures i < |ChunksOf(p)| && ChunksOf(p)[i].doc == p.filler
    ensures Dist(ChunksOf(p)[i], q) == if i + |Hits(p, q)| < p.fetch then p.low else p.big
  {
    assert ChunksOf(p)[i] == FillerChunk(p, i);
  }

  lemma ExtraAt(p: Plan, i: nat)
    requires i == p.fillers + Offset(p, |p.searches|)
    ensures i < |ChunksOf(p)| && ChunksOf(p)[i] == p.extra
  {
  }

  lemma BlockChunk(p: Plan, r: nat, j: nat, i: nat)
    requires r < |p.searches| && j < |Hits(p, r)| && i == p.fillers + Offset(p, r) + j
    ensures i < |ChunksOf(p)|
    ensures ChunksOf(p)[i] == At(Hits(p, r)[j].doc, r, |p.searches|, Hits(p, r)[j].distance, p.big)
  {
    BlockAt(p, |p.searches|, r, j);
    var blocks := Blocks(p, |p.searches|);
    assert ChunksOf(p)[i] == blocks[i - p.fillers];
  }

  /** The chunk of hit `j` of search `q`. */
  lemma HitChunk(p: Plan, q: nat, j: nat, i: nat)
    requires None !in p.searches && q < |p.searches| && j < |Hits(p, q)| && i == p.fillers + Offset(p, q) + j
    ensures i < |ChunksOf(p)| && ChunksOf(p)[i].doc in IndexOf(p).listed && HitAt(IndexOf(p), q, i) == Hits(p, q)[j]
  {
    BlockChunk(p, q, j, i);
    HitIsCollected(p, q, Hits(p, q)[j]);
  }

  /** The chunks of the other searches' hits are far from embedding `q`. */
  lemma OtherBlock(p: Plan, q: nat, i: nat)
    requires q < |p.searches| && p.fillers <= i < p.fillers + Offset(p, |p.searches|)
    requires !(p.fillers + Offset(p, q) <= i < p.fillers + Offset(p, q) + |Hits(p, q)|)
    ensures i < |ChunksOf(p)| && Dist(ChunksOf(p)[i], q) == p.big
  {
    var r, j := BlockOwner(p, |p.searches|, i - p.fillers);
    BlockChunk(p, r, j, i);
  }

  // What passes of a fetch.

  lemma {:induction false} PassingConcat(ix: Index, q: nat, a: seq<nat>, b: seq<nat>)
    requires Positions(ix, a) && Positions(ix, b)
    ensures Positions(ix, a + b) && Passing(ix, q, a + b) == Passing(ix, q, a) + Passing(ix, q, b)
  {
    if b == [] {
      assert a + b == a;
    } else {
      assert (a + b)[..|a + b| - 1] == a + b[..|b| - 1];
      PassingConcat(ix, q, a, b[..|b| - 1]);
    }
  }

  lemma {:induction false} NonePasses(ix: Index, q: nat, a: seq<nat>)
    requires Positions(ix, a) && forall i :: 0 <= i < |a| ==> ix.chunks[a[i]].doc !in ix.listed
    ensures Passing(ix, q, a) == []
  {
    if a != [] { NonePasses(ix, q, a[..|a| - 1]); }
  }

  lemma {:induction false} AllPass(ix: Index, q: nat, a: seq<nat>, hits: seq<Hit>)
    requires Positions(ix, a) && |a| == |hits|
    requires forall i :: 0 <= i < |a| ==> ix.chunks[a[i]].doc in ix.listed && HitAt(ix, q, a[i]) == hits[i]
    ensures Passing(ix, q, a) == hits
  {
    if a != [] {
      var n := |a| - 1;
      AllPass(ix, q, a[..n], hits[..n]);
      assert hits == hits[..n] + [hits[n]];
    }
  }

  function Block(p: Plan, q: nat): seq<nat> {
    Range(p.fillers + Offset(p, q), p.fillers + Offset(p, q) + |Hits(p, q)|)
  }

  lemma BlockPasses(p: Plan, q: nat)
    requires None !in p.searches && q < |p.searches|
    ensures Positions(IndexOf(p), Block(p, q)) && Passing(IndexOf(p), q, Block(p, q)) == Hits(p, q)
  {
    forall j | 0 <= j < |Hits(p, q)|
      ensures Block(p, q)[j] < |ChunksOf(p)|
      ensures ChunksOf(p)[Block(p, q)[j]].doc in IndexOf(p).listed
      ensures HitAt(IndexOf(p), q, Block(p, q)[j]) == Hits(p, q)[j]
    {
      HitChunk(p, q, j, Block(p, q)[j]);
    }
    AllPass(IndexOf(p), q, Block(p, q), Hits(p, q));
  }

  // Cut searches: the fetch holds the hits and, for the rest, nearer fillers.

  function CutRank(p: Plan, q: nat): seq<nat>
    requires |Hits(p, q)| <= p.fetch
  {
    Range(0, p.fetch - |Hits(p, q)|) + Block(p, q)
  }

  lemma CutRankNear(p: Plan, q: nat, a: nat)
    requires q < |p.searches| && |Hits(p, q)| <= p.fetch == p.fillers && a < p.fetch - |Hits(p, q)|
    ensures CutRank(p, q)[a] == a < |ChunksOf(p)| && Dist(ChunksOf(p)[a], q) == p.low
  {
    FillerAt(p, q, a);
  }

  lemma CutRankBlock(p: Plan, q: nat, a: nat, j: nat, i: nat)
    requires None !in p.searches && q < |p.searches| && |Hits(p, q)| <= p.fetch && j < |Hits(p, q)|
    requires a == p.fetch - |Hits(p, q)| + j && i == p.fillers + Offset(p, q) + j
    ensures CutRank(p, q)[a] == i < |ChunksOf(p)| && Dist(ChunksOf(p)[i], q) == Hits(p, q)[j].distance
  {
    HitChunk(p, q, j, i);
    assert CutRank(p, q)[a] == Block(p, q)[j];
  }

  lemma CutRankAt(p: Plan, q: nat, a: nat, near: nat, i: nat)
    requires None !in p.searches && q < |p.searches| && |Hits(p, q)| <= p.fetch == p.fillers && a < |CutRank(p, q)|
    requires near == p.fetch - |Hits(p, q)| && i == CutRank(p, q)[a]
    ensures i < |ChunksOf(p)| && i == if a < near then a else p.fillers + Offset(p, q) + (a - near)
    ensures Dist(ChunksOf(p)[i], q) == if a < near then p.low else Hits(p, q)[a - near].distance
  {
    if a < near {
      CutRankNear(p, q, a);
    } else {
      var j := a - near;
      CutRankBlock(p, q, a, j, p.fillers + Offset(p, q) + j);
    }
  }

  /** What is not fetched is no nearer than `low`, nor than any hit. */
  lemma CutRankMisses(p: Plan, q: nat, i: nat)
    requires None !in p.searches && q < |p.searches| && FitsAt(p, q) && p.fillers == p.fetch
    requires i < |ChunksOf(p)| && i !in CutRank(p, q)
    ensures p.low <= Dist(ChunksOf(p)[i], q) && forall h :: h in Hits(p, q) ==> h.distance <= Dist(ChunksOf(p)[i], q)
  {
    var near := p.fetch - |Hits(p, q)|;
    ChunksSize(p);
    InRange(0, near, i);
    InRange(p.fillers + Offset(p, q), p.fillers + Offset(p, q) + |Hits(p, q)|, i);
    if i < p.fillers {
      FillerAt(p, q, i);
    } else if i < p.fillers + Offset(p, |p.searches|) {
      OtherBlock(p, q, i);
    } else {
      ExtraAt(p, i);
    }
  }

  lemma CutRankIsKnn(p: Plan, q: nat)
    requires None !in p.searches && q < |p.searches| && FitsAt(p, q) && p.fillers == p.fetch
    ensures IsKnn(IndexOf(p), q, p.fetch, CutRank(p, q))
  {
    var ranked, near := CutRank(p, q), p.fetch - |Hits(p, q)|;
    forall a | 0 <= a < |ranked| ensures ranked[a] < |ChunksOf(p)| { CutRankAt(p, q, a, near, ranked[a]); }
    forall a, b | 0 <= a < b < |ranked|
      ensures ranked[a] != ranked[b]
      ensures Dist(ChunksOf(p)[ranked[a]], q) <= Dist(ChunksOf(p)[ranked[b]], q)
    {
      CutRankAt(p, q, a, near, ranked[a]);
      CutRankAt(p, q, b, near, ranked[b]);
      assert b >= near ==> Hits(p, q)[b - near] in Hits(p, q);
    }
    forall i: nat, a | i < |ChunksOf(p)| && i !in ranked && 0 <= a < |ranked|
      ensures Dist(ChunksOf(p)[ranked[a]], q) <= Dist(ChunksOf(p)[i], q)
    {
      CutRankAt(p, q, a, near, ranked[a]);
      CutRankMisses(p, q, i);
      assert a >= near ==> Hits(p, q)[a - near] in Hits(p, q);
    }
    ChunksSize(p);
  }

  lemma CutRankPasses(p: Plan, q: nat)
    requires None !in p.searches && q < |p.searches| && |Hits(p, q)| <= p.fetch
    requires p.filler !in IndexOf(p).listed && p.fillers == p.fetch
    ensures Positions(IndexOf(p), CutRank(p, q)) && Passing(IndexOf(p), q, CutRank(p, q)) == Hits(p, q)
  {
    var near := Range(0, p.fetch - |Hits(p, q)|);
    forall a | 0 <= a < |near| ensures near[a] < |ChunksOf(p)| && ChunksOf(p)[near[a]].doc !in IndexOf(p).listed {
      FillerAt(p, q, near[a]);
    }
    NonePasses(IndexOf(p), q, near);
    BlockPasses(p, q);
    PassingConcat(IndexOf(p), q, near, Block(p, q));
  }

  // Whole searches: the hits, the one more chunk, then everything else.

  function WholeRank(p: Plan, q: nat): seq<nat>
    requires q < |p.searches|
  {
    OffsetGrows(p, q, |p.searches|);
    var last := Offset(p, |p.searches|);
    Block(p, q) + ([last] + Range(0, Offset(p, q)) + Range(Offset(p, q) + |Hits(p, q)|, last))
  }

  lemma WholeRankAt(p: Plan, q: nat, a: nat, h: nat, last: nat, i: nat)
    requires None !in p.searches && q < |p.searches| && FitsAt(p, q) && p.fillers == 0 && a < |WholeRank(p, q)|
    requires h == |Hits(p, q)| && last == Offset(p, |p.searches|) && i == WholeRank(p, q)[a]
    ensures |WholeRank(p, q)| == last + 1 == |ChunksOf(p)| && i <= last
    ensures i == if a < h then Offset(p, q) + a else if a == h then last
                 else if a <= h + Offset(p, q) then a - h - 1 else a - 1
    ensures Dist(ChunksOf(p)[i], q) ==
            if a < h then Hits(p, q)[a].distance else if a == h then Dist(p.extra, q) else p.big
  {
    OffsetGrows(p, q, |p.searches|);
    ChunksSize(p);
    if a < h {
      HitChunk(p, q, a, i);
    } else if a == h {
      ExtraAt(p, i);
    } else {
      OtherBlock(p, q, i);
    }
  }

  lemma WholeRankIsKnn(p: Plan, q: nat)
    requires None !in p.searches && q < |p.searches| && FitsAt(p, q) && p.fillers == 0 && p.fetch >= |ChunksOf(p)|
    ensures IsKnn(IndexOf(p), q, p.fetch, WholeRank(p, q))
  {
    var ranked, h, last := WholeRank(p, q), |Hits(p, q)|, Offset(p, |p.searches|);
    OffsetGrows(p, q, |p.searches|);
    forall a | 0 <= a < |ranked| ensures ranked[a] < |ChunksOf(p)| { WholeRankAt(p, q, a, h, last, ranked[a]); }
    forall a, b | 0 <= a < b < |ranked|
      ensures ranked[a] != ranked[b]
      ensures Dist(ChunksOf(p)[ranked[a]], q) <= Dist(ChunksOf(p)[ranked[b]], q)
    {
      WholeRankAt(p, q, a, h, last, ranked[a]);
      WholeRankAt(p, q, b, h, last, ranked[b]);
      assert a < h ==> Hits(p, q)[a] in Hits(p, q);
    }
    WholeFetch(IndexOf(p), ranked);
  }

  lemma WholeRankPasses(p: Plan, q: nat)
    requires None !in p.searches && q < |p.searches| && FitsAt(p, q) && p.fillers == 0
    ensures Positions(IndexOf(p), WholeRank(p, q))
    ensures Hits(p, q) <= Passing(IndexOf(p), q, WholeRank(p, q))
  {
    var ranked, h, last := WholeRank(p, q), |Hits(p, q)|, Offset(p, |p.searches|);
    forall a | 0 <= a < |ranked| ensures ranked[a] < |ChunksOf(p)| { WholeRankAt(p, q, a, h, last, ranked[a]); }
    BlockPasses(p, q);
    assert ranked[..|Block(p, q)|] == Block(p, q);
    PassingGrows(IndexOf(p), q, ranked, |Block(p, q)|);
  }

  // The index for given results.

  lemma ChunkSizes(p: Plan, c: Chunk)
    requires |p.extra.distances| == |p.searches| && c in ChunksOf(p)
    ensures |c.distances| == |p.searches|
  {
    var i :| 0 <= i < |ChunksOf(p)| && ChunksOf(p)[i] == c;
    ChunksSize(p);
    if i < p.fillers {
      assert c == FillerChunk(p, i);
    } else if i < p.fillers + Offset(p, |p.searches|) {
      var r, j := BlockOwner(p, |p.searches|, i - p.fillers);
      BlockChunk(p, r, j, i);
    }
  }

  lemma CutPlanSearched(p: Plan, k: nat)
    requires PlanFits(p) && p.fillers == p.fetch && forall q: nat :: q < |p.searches| ==> |Hits(p, q)| <= k
    ensures Searched(IndexOf(p), p.searches, p.fetch, k) && |ChunksOf(p)| > p.fetch
  {
    forall c | c in ChunksOf(p) ensures |c.distances| == |p.searches| { ChunkSizes(p, c); }
    ChunksSize(p);
    forall q | 0 <= q < |p.searches| ensures Finds(IndexOf(p), q, p.fetch, k, p.searches[q].value) {
      assert FitsAt(p, q);
      CutRankIsKnn(p, q);
      CutRankPasses(p, q);
    }
  }

  lemma WholePlanSearched(p: Plan, k: nat)
    requires PlanFits(p) && p.fillers == 0 && p.fetch >= |ChunksOf(p)|
    requires forall q: nat :: q < |p.searches| ==> |Hits(p, q)| == k
    ensures Searched(IndexOf(p), p.searches, p.fetch, k)
  {
    forall c | c in ChunksOf(p) ensures |c.distances| == |p.searches| { ChunkSizes(p, c); }
    forall q | 0 <= q < |p.searches| ensures Finds(IndexOf(p), q, p.fetch, k, p.searches[q].value) {
      assert FitsAt(p, q);
      WholeRankIsKnn(p, q);
      WholeRankPasses(p, q);
      var passing := Passing(IndexOf(p), q, WholeRank(p, q));
      assert Take(passing, k) == passing[..k] == Hits(p, q);
    }
  }

  /** A chunk of a chosen document stands for a hit, and is nowhere nearer than that. */
  lemma ChosenChunk(p: Plan, c: Chunk, q: nat) returns (h: Hit)
    requires PlanFits(p) && c in ChunksOf(p) && c.doc != p.filler && c.doc != p.extra.doc && q < |p.searches|
    ensures h in AllHits(p.searches) && h.doc == c.doc && h.distance <= Dist(c, q)
  {
    var i :| 0 <= i < |ChunksOf(p)| && ChunksOf(p)[i] == c;
    ChunksSize(p);
    ExtraAt(p, p.fillers + Offset(p, |p.searches|));
    assert i >= p.fillers by {
      if i < p.fillers { FillerAt(p, q, i); }
    }
    var r, j := BlockOwner(p, |p.searches|, i - p.fillers);
    BlockChunk(p, r, j, i);
    h := Hits(p, r)[j];
    HitIsCollected(p, r, h);
    assert FitsAt(p, r);
  }

  lemma {:induction false} Bounds(hits: seq<Hit>) returns (low: real, big: real)
    ensures forall h :: h in hits ==> low <= h.distance <= big
    ensures low <= big && (hits != [] ==> exists h :: h in hits && h.distance == big)
  {
    low, big := 0.0, 0.0;
    if hits != [] {
      var n := |hits| - 1;
      var l, b := Bounds(hits[..n]);
      assert hits == hits[..n] + [hits[n]];
      var d := hits[n].distance;
      low := if n == 0 || d < l then d else l;
      big := if n == 0 || d > b then d else b;
      assert hits[n] in hits;
    }
  }

  lemma {:induction false} FreshName(names: seq<string>) returns (name: string)
    ensures name !in names && |name| > 0
    ensures forall y :: y in names ==> |y| < |name|
  {
    name := "x";
    if names != [] {
      var n := |names| - 1;
      var rest := FreshName(names[..n]);
      name := rest + names[n];
      assert names == names[..n] + [names[n]];
    }
  }

  function Names(hits: seq<Hit>): seq<string> { seq(|hits|, i requires 0 <= i < |hits| => hits[i].doc) }

  /** Two names that neither a hit nor a chosen document has. */
  lemma FreshNames(hits: seq<Hit>, chosen: seq<string>) returns (name: string, filler: string)
    ensures name !in chosen && filler !in chosen && filler != name && filler !in Docs(hits)
  {
    name := FreshName(chosen + Names(hits));
    filler := name + "x";
    assert forall y :: y in chosen ==> y in chosen + Names(hits);
    forall h | h in hits ensures h.doc in chosen + Names(hits) {
      var i :| 0 <= i < |hits| && hits[i] == h;
      assert Names(hits)[i] == h.doc;
    }
  }

  /** What the searches and the one more chunk must satisfy. */
  ghost predicate Fits(searches: Searches, k: nat, p: nat, far: real, big: real) {
    && None !in searches
    && (forall q :: 0 <= q < |searches| ==> |searches[q].value| <= k && AscendingHits(searches[q].value))
    && (forall h :: h in AllHits(searches) ==> h.distance <= big) && far <= big
    && (p < |searches| ==> forall h :: h in searches[p].value ==> h.distance <= far)
  }

  lemma PlanFor(searches: Searches, k: nat, chosen: seq<string>, p: nat, far: real, big: real, fillers: nat, fetch: nat)
      returns (plan: Plan)
    requires Fits(searches, k, p, far, big) && fetch >= k
    ensures PlanFits(plan) && plan.searches == searches && plan.fillers == fillers && plan.fetch == fetch
    ensures plan.extra.doc !in chosen && plan.filler !in chosen && plan.extra in ChunksOf(plan)
    ensures p < |searches| ==> Dist(plan.extra, p) == far
  {
    var hits, n := AllHits(searches), |searches|;
    var name, filler := FreshNames(hits, chosen);
    var l, b := Bounds(hits);
    var low := if l < far then l else far;
    plan := Plan(searches, fillers, fetch, filler, low, big, At(name, p, n, far, big));
    forall q: nat | q < n ensures FitsAt(plan, q) {
      forall h | h in Hits(plan, q) ensures low <= h.distance <= Dist(plan.extra, q) { HitIsCollected(plan, q, h); }
    }
  }

  lemma SameOffset(p: Plan, r: Plan, q: nat)
    requires p.searches == r.searches
    ensures Offset(p, q) == Offset(r, q)
  {
  }

  /** The index: of a fetch that takes in the whole of it, if all searches are full, and of any
      given fetch that does not. */
  lemma MadeToOrder(searches: Searches, k: nat, chosen: seq<string>, p: nat, far: real, big: real, whole: bool,
      fetch: nat) returns (plan: Plan)
    requires Fits(searches, k, p, far, big) && fetch >= k
    requires whole ==> forall q :: 0 <= q < |searches| ==> |searches[q].value| == k
    ensures PlanFits(plan) && plan.searches == searches && plan.fetch >= k && (!whole ==> plan.fetch == fetch)
    ensures Searched(IndexOf(plan), searches, plan.fetch, k) && (whole <==> |ChunksOf(plan)| <= plan.fetch)
    ensures plan.extra.doc !in chosen && plan.filler !in chosen && LeftOut(IndexOf(plan), chosen, plan.extra)
    ensures p < |searches| ==> Dist(plan.extra, p) == far
  {
    if whole {
      var sizing := PlanFor(searches, k, chosen, p, far, big, 0, k);
      plan := PlanFor(searches, k, chosen, p, far, big, 0, k + |ChunksOf(sizing)|);
      SameOffset(sizing, plan, |searches|);
      WholePlanSearched(plan, k);
    } else {
      plan := PlanFor(searches, k, chosen, p, far, big, fetch, fetch);
      CutPlanSearched(plan, k);
    }
  }

  /** A chunk of one more document that no search would report is nearer than the chosen `x`. */
  lemma StoppingShortFails(searches: Searches, k: nat, best: map<string, real>, chosen: seq<string>, p: nat,
      x: string, whole: bool, fetch: nat) returns (ix: Index, f: nat)
    requires Chose(searches, k, best, chosen) && fetch >= k
    requires whole ==> forall q :: 0 <= q < |searches| ==> |searches[q].value| == k
    requires p < |searches| && x in chosen && !ReachesTo(searches[p].value, best[x])
    ensures Searched(ix, searches, f, k) && f >= k && (whole <==> |ix.chunks| <= f) && (!whole ==> f == fetch)
    ensures !TrueTopK(ix, chosen, k)
  {
    var low, far := Bounds(searches[p].value);
    if searches[p].value == [] { far := best[x] - 1.0; }
    var l, big := Bounds(AllHits(searches));
    assert Hit(x, best[x]) in AllHits(searches);
    var plan := MadeToOrder(searches, k, chosen, p, far, big, whole, fetch);
    ix, f := IndexOf(plan), plan.fetch;
    assert !AsNear(ix, x, far) by {
      forall c, q | c in ix.chunks && c.doc == x && 0 <= q < |c.distances| ensures Dist(c, q) > far {
        ChunkSizes(plan, c);
        var h := ChosenChunk(plan, c, q);
      }
    }
  }

  /** Fewer than `k` documents are chosen: one that no embedding is near is missing. */
  lemma TooFewChosenFails(searches: Searches, k: nat, best: map<string, real>, chosen: seq<string>, whole: bool,
      fetch: nat) returns (ix: Index, f: nat)
    requires Chose(searches, k, best, chosen) && fetch >= k && |chosen| < k
    requires whole ==> forall q :: 0 <= q < |searches| ==> |searches[q].value| == k
    ensures Searched(ix, searches, f, k) && f >= k && (whole <==> |ix.chunks| <= f) && (!whole ==> f == fetch)
    ensures !TrueTopK(ix, chosen, k)
  {
    var low, big := Bounds(AllHits(searches));
    var plan := MadeToOrder(searches, k, chosen, |searches|, big, big, whole, fetch);
    ix, f := IndexOf(plan), plan.fetch;
  }

  lemma FallingShortFails(searches: Searches, k: nat, best: map<string, real>, chosen: seq<string>, whole: bool,
      fetch: nat) returns (ix: Index, f: nat)
    requires Chose(searches, k, best, chosen) && fetch >= k && !Trustworthy(searches, k, best, chosen, whole)
    ensures Searched(ix, searches, f, k) && f >= k && (whole <==> |ix.chunks| <= f) && (!whole ==> f == fetch)
    ensures !TrueTopK(ix, chosen, k)
  {
    if |chosen| < k {
      ix, f := TooFewChosenFails(searches, k, best, chosen, whole, fetch);
    } else {
      var p, x :| 0 <= p < |searches| && x in chosen && !ReachesTo(searches[p].value, best[x]);
      ix, f := StoppingShortFails(searches, k, best, chosen, p, x, whole, fetch);
    }
  }

  // ------------------------------------------------------------------
  // Together.

  /** The gate picks a true top-K of every index that gives its results, by fetches that took in
      the whole of it or by fetches that did not, if and only if a search is short and took in
      the whole index, or `k` documents are chosen and every search reaches as far as the
      farthest of them. */
  lemma GateIsTrueTopK(searches: Searches, k: nat, best: map<string, real>, chosen: seq<string>, whole: bool)
    requires Chose(searches, k, best, chosen)
    ensures Trustworthy(searches, k, best, chosen, whole) <==>
            forall ix: Index, fetch: nat ::
              fetch >= k && (whole <==> |ix.chunks| <= fetch) && Searched(ix, searches, fetch, k) ==>
                TrueTopK(ix, chosen, k)
  {
    if Trustworthy(searches, k, best, chosen, whole) {
      forall ix: Index, fetch: nat | fetch >= k && (whole <==> |ix.chunks| <= fetch) && Searched(ix, searches, fetch, k)
        ensures TrueTopK(ix, chosen, k)
      {
        TrustworthySuffices(ix, searches, fetch, k, best, chosen);
      }
    } else {
      var ix, f := FallingShortFails(searches, k, best, chosen, whole, k);
    }
  }

  /** The fetch of the program is fixed: for the indexes beyond it, a short search counts for
      nothing. */
  lemma GateBeyondTheFetch(searches: Searches, k: nat, best: map<string, real>, chosen: seq<string>)
    requires Chose(searches, k, best, chosen)
    ensures ReachesFar(searches, k, best, chosen) <==>
            forall ix: Index ::
              |ix.chunks| > k * OVER_FETCH && Searched(ix, searches, k * OVER_FETCH, k) ==> TrueTopK(ix, chosen, k)
  {
    var fetch := k * OVER_FETCH;
    if ReachesFar(searches, k, best, chosen) {
      forall ix: Index | |ix.chunks| > fetch && Searched(ix, searches, fetch, k) ensures TrueTopK(ix, chosen, k) {
        TrustworthySuffices(ix, searches, fetch, k, best, chosen);
      }
    } else {
      var ix, f := FallingShortFails(searches, k, best, chosen, false, fetch);
    }
  }

  // ------------------------------------------------------------------
  // Searches that name no document twice.

  ghost predicate OneHitPerDocument(hits: seq<Hit>) {
    forall i, j :: 0 <= i < j < |hits| ==> hits[i].doc != hits[j].doc
  }

  lemma {:induction false} DocsCount(hits: seq<Hit>)
    requires OneHitPerDocument(hits)
    ensures |Docs(hits)| == |hits|
  {
    if hits != [] {
      var n := |hits| - 1;
      DocsCount(hits[..n]);
      assert hits == hits[..n] + [hits[n]];
      assert Docs(hits) == Docs(hits[..n]) + {hits[n].doc};
    }
  }

  lemma HitsFillTheChoice(hits: seq<Hit>, chosen: seq<string>, k: nat)
    requires OneHitPerDocument(hits) && |hits| == k && |chosen| <= k
    requires forall h :: h in hits ==> h.doc in chosen
    ensures forall x :: x in chosen ==> exists h :: h in hits && h.doc == x
  {
    DocsCount(hits);
    MembersSize(chosen);
    var cs := Members(chosen);
    SameSize(Docs(hits), cs);
    forall x | x in chosen ensures exists h :: h in hits && h.doc == x { assert x in cs; }
  }

  lemma FullSearchReaches(searches: Searches, k: nat, best: map<string, real>, chosen: seq<string>, q: nat, x: string)
    requires Chose(searches, k, best, chosen) && q < |searches| && |searches[q].value| == k
    requires OneHitPerDocument(searches[q].value) && x in chosen
    ensures ReachesTo(searches[q].value, best[x])
  {
    var hits := searches[q].value;
    forall h | h in hits ensures h.doc in best && best[h.doc] <= h.distance { HitsAreCollected(searches, q, h); }
    if h :| h in hits && h.doc !in chosen {
      assert best[x] <= best[h.doc];
    } else {
      HitsFillTheChoice(hits, chosen, k);
      var h :| h in hits && h.doc == x;
    }
  }

  lemma FullSearchChoosesEnough(searches: Searches, k: nat, best: map<string, real>, chosen: seq<string>, q: nat)
    requires Chose(searches, k, best, chosen) && q < |searches| && |searches[q].value| == k
    requires OneHitPerDocument(searches[q].value)
    ensures |chosen| == k
  {
    var hits := searches[q].value;
    DocsCount(hits);
    forall h | h in hits ensures h.doc in best { HitsAreCollected(searches, q, h); }
    SmallerSet(Docs(hits), best.Keys);
    assert |best.Keys| == |best|;
  }

  /** Where no search names a document twice the choice is right, as long as the fetches took in
      the whole index or every search is full. */
  lemma OneHitPerDocumentSuffices(ix: Index, searches: Searches, fetch: nat, k: nat, best: map<string, real>,
      chosen: seq<string>)
    requires Chose(searches, k, best, chosen) && searches != [] && Searched(ix, searches, fetch, k)
    requires forall q :: 0 <= q < |searches| ==> OneHitPerDocument(searches[q].value)
    requires |ix.chunks| <= fetch || !SomeShort(searches, k)
    ensures TrueTopK(ix, chosen, k)
  {
    if !SomeShort(searches, k) {
      FullSearchChoosesEnough(searches, k, best, chosen, 0);
      forall q, x | 0 <= q < |searches| && x in chosen ensures ReachesTo(searches[q].value, best[x]) {
        FullSearchReaches(searches, k, best, chosen, q, x);
      }
    }
    TrustworthySuffices(ix, searches, fetch, k, best, chosen);
  }
}

/** One vector search over the stored chunk vectors: the nearest chunks of the whole index are
    fetched first and filtered to one layer's active documents afterwards. */
module VectorSearch {
  import opened Sequences

  datatype Hit = Hit(doc: string, distance: real)

  /** A chunk with a vector: its document and its distance to each of the embeddings asked for. */
  datatype Chunk = Chunk(doc: string, distances: seq<real>)

  /** All chunk vectors of a version, of every layer; `listed` are the documents the filter
      lets pass. */
  datatype Index = Index(chunks: seq<Chunk>, listed: set<string>)

  /** How many times the limit is fetched before the layer filter. */
  const OVER_FETCH: nat := 10

  function Dist(c: Chunk, q: nat): real { if q < |c.distances| then c.distances[q] else 0.0 }

  function Least(a: nat, b: nat): nat { if a < b then a else b }

  ghost predicate Positions(ix: Index, ranked: seq<nat>) {
    forall a :: 0 <= a < |ranked| ==> ranked[a] < |ix.chunks|
  }

  /** The `fetch` chunks nearest to embedding `q`, or all there are, nearest first. */
  ghost predicate IsKnn(ix: Index, q: nat, fetch: nat, ranked: seq<nat>) {
    && |ranked| == Least(fetch, |ix.chunks|) && Distinct(ranked) && Positions(ix, ranked)
    && (forall a, b :: 0 <= a < b < |ranked| ==> Dist(ix.chunks[ranked[a]], q) <= Dist(ix.chunks[ranked[b]], q))
    && (forall i: nat, a :: i < |ix.chunks| && i !in ranked && 0 <= a < |ranked| ==>
          Dist(ix.chunks[ranked[a]], q) <= Dist(ix.chunks[i], q))
  }

  function HitAt(ix: Index, q: nat, i: nat): Hit
    requires i < |ix.chunks|
  {
    Hit(ix.chunks[i].doc, Dist(ix.chunks[i], q))
  }

  /** The fetched chunks that pass the filter, in order. */
  function Passing(ix: Index, q: nat, ranked: seq<nat>): seq<Hit>
    requires Positions(ix, ranked)
  {
    if ranked == [] then []
    else
      var i := ranked[|ranked| - 1];
      Passing(ix, q, ranked[..|ranked| - 1]) + if ix.chunks[i].doc in ix.listed then [HitAt(ix, q, i)] else []
  }

  /** The loop over the fetched chunks; it stops at the `k`-th that passes. */
  method VecSearch(ix: Index, q: nat, ranked: seq<nat>, k: nat) returns (hits: seq<Hit>)
    requires Positions(ix, ranked) && (k == 0 ==> ranked == [])
    ensures hits == Take(Passing(ix, q, ranked), k)
  {
    hits := [];
    for j := 0 to |ranked|
      invariant hits == Passing(ix, q, ranked[..j])
      invariant |hits| < k || ranked == []
    {
      assert ranked[..j + 1][..j] == ranked[..j];
      if ix.chunks[ranked[j]].doc in ix.listed {
        hits := hits + [HitAt(ix, q, ranked[j])];
        assert hits == Passing(ix, q, ranked[..j + 1]);
        if |hits| >= k {
          PassingGrows(ix, q, ranked, j + 1);
          return;
        }
      }
    }
    assert ranked[..|ranked|] == ranked;
  }

  lemma {:induction false} PassingGrows(ix: Index, q: nat, ranked: seq<nat>, j: nat)
    requires Positions(ix, ranked) && j <= |ranked|
    ensures Passing(ix, q, ranked[..j]) <= Passing(ix, q, ranked)
  {
    if j == |ranked| {
      assert ranked[..j] == ranked;
    } else {
      var front := ranked[..|ranked| - 1];
      assert front[..j] == ranked[..j];
      PassingGrows(ix, q, front, j);
    }
  }

  // ------------------------------------------------------------------
  // What a search that fetched `fetch` chunks and kept `k` says about the index.

  ghost predicate Finds(ix: Index, q: nat, fetch: nat, k: nat, hits: seq<Hit>) {
    exists ranked :: IsKnn(ix, q, fetch, ranked) && hits == Take(Passing(ix, q, ranked), k)
  }

  ghost predicate HasChunk(ix: Index, q: nat, h: Hit) {
    exists c :: c in ix.chunks && c.doc in ix.listed && c.doc == h.doc && Dist(c, q) == h.distance
  }

  ghost predicate AscendingHits(hits: seq<Hit>) {
    forall a, b :: 0 <= a < b < |hits| ==> hits[a].distance <= hits[b].distance
  }

  /** Every chunk that passes the filter is among the hits. */
  ghost predicate ReportsAll(ix: Index, q: nat, hits: seq<Hit>) {
    forall c :: c in ix.chunks && c.doc in ix.listed ==> Hit(c.doc, Dist(c, q)) in hits
  }

  /** What is not among the hits is no nearer than any of them. */
  ghost predicate NearestFirst(ix: Index, q: nat, hits: seq<Hit>) {
    forall c, h :: c in ix.chunks && c.doc in ix.listed && Hit(c.doc, Dist(c, q)) !in hits && h in hits ==>
                     h.distance <= Dist(c, q)
  }

  /** The search answers for the `k` nearest of its layer. */
  ghost predicate Exact(ix: Index, q: nat, k: nat, hits: seq<Hit>) {
    && |hits| <= k && (forall h :: h in hits ==> HasChunk(ix, q, h))
    && NearestFirst(ix, q, hits) && (|hits| < k ==> ReportsAll(ix, q, hits))
  }

  lemma {:induction false} PassingMeans(ix: Index, q: nat, ranked: seq<nat>, h: Hit)
    requires Positions(ix, ranked)
    ensures h in Passing(ix, q, ranked) <==>
            exists a :: 0 <= a < |ranked| && ix.chunks[ranked[a]].doc in ix.listed && HitAt(ix, q, ranked[a]) == h
  {
    if ranked != [] {
      var n := |ranked| - 1;
      var front := ranked[..n];
      PassingMeans(ix, q, front, h);
      assert forall a :: 0 <= a < n ==> front[a] == ranked[a];
      if ix.chunks[ranked[n]].doc in ix.listed && HitAt(ix, q, ranked[n]) == h {
        assert h in Passing(ix, q, ranked);
      }
    }
  }

  lemma {:induction false} PassingAscends(ix: Index, q: nat, ranked: seq<nat>)
    requires Positions(ix, ranked)
    requires forall a, b :: 0 <= a < b < |ranked| ==> Dist(ix.chunks[ranked[a]], q) <= Dist(ix.chunks[ranked[b]], q)
    ensures AscendingHits(Passing(ix, q, ranked))
  {
    if ranked != [] {
      var n := |ranked| - 1;
      var front := ranked[..n];
      assert forall a :: 0 <= a < n ==> front[a] == ranked[a];
      PassingAscends(ix, q, front);
      var before := Passing(ix, q, front);
      forall a | 0 <= a < |before| ensures before[a].distance <= Dist(ix.chunks[ranked[n]], q) {
        PassingMeans(ix, q, front, before[a]);
      }
    }
  }

  /** What the cut to `k` drops is no nearer than what it keeps. */
  lemma CutKeepsNearest(hits: seq<Hit>, k: nat, h: Hit)
    requires AscendingHits(hits) && h in hits && h !in Take(hits, k)
    ensures |Take(hits, k)| == k && forall g :: g in Take(hits, k) ==> g.distance <= h.distance
  {
    var i :| 0 <= i < |hits| && hits[i] == h;
    KeptBelow(hits, k, i);
    forall g | g in Take(hits, k) ensures g.distance <= h.distance {
      var j :| 0 <= j < |Take(hits, k)| && Take(hits, k)[j] == g;
      assert hits[j] == g;
    }
  }

  lemma KeptBelow(hits: seq<Hit>, k: nat, i: nat)
    requires i < |hits|
    ensures i < k ==> hits[i] in Take(hits, k)
  {
    if i < k { assert Take(hits, k)[i] == hits[i]; }
  }

  lemma MissedIsNoNearer(ix: Index, q: nat, fetch: nat, k: nat, ranked: seq<nat>, i: nat)
    requires IsKnn(ix, q, fetch, ranked) && i < |ix.chunks| && ix.chunks[i].doc in ix.listed
    requires HitAt(ix, q, i) !in Take(Passing(ix, q, ranked), k)
    ensures forall h :: h in Take(Passing(ix, q, ranked), k) ==> h.distance <= Dist(ix.chunks[i], q)
    ensures i in ranked ==> |Take(Passing(ix, q, ranked), k)| == k
  {
    var passing := Passing(ix, q, ranked);
    PassingAscends(ix, q, ranked);
    if i in ranked {
      PassingMeans(ix, q, ranked, HitAt(ix, q, i));
      CutKeepsNearest(passing, k, HitAt(ix, q, i));
    } else {
      forall h | h in Take(passing, k) ensures h.distance <= Dist(ix.chunks[i], q) {
        assert h in passing;
        PassingMeans(ix, q, ranked, h);
      }
    }
  }

  /** The positions below `n`. */
  function Below(n: nat): (s: set<nat>)
    ensures |s| == n && forall i: nat :: i in s <==> i < n
  {
    if n == 0 then {} else Below(n - 1) + {n - 1}
  }

  /** A fetch that takes in the whole index misses no position. */
  lemma WholeFetch(ix: Index, ranked: seq<nat>)
    requires Distinct(ranked) && Positions(ix, ranked) && |ranked| == |ix.chunks|
    ensures forall i: nat :: i < |ix.chunks| ==> i in ranked
  {
    SeenSize(ranked);
    assert Seen(ranked) <= Below(|ix.chunks|);
    SameSizeSame(Seen(ranked), Below(|ix.chunks|));
    assert forall i: nat :: i in Seen(ranked) <==> i in ranked;
  }

  lemma SameSizeSame(a: set<nat>, b: set<nat>)
    requires a <= b && |a| == |b|
    ensures a == b
  {
    assert |b - a| == |b| - |a|;
  }

  function Seen(ranked: seq<nat>): set<nat> { set j | j in ranked }

  lemma {:induction false} SeenSize(ranked: seq<nat>)
    requires Distinct(ranked)
    ensures |Seen(ranked)| == |ranked|
  {
    if ranked != [] {
      var n := |ranked| - 1;
      var front := ranked[..n];
      SeenSize(front);
      assert ranked == front + [ranked[n]];
      assert ranked[n] !in front;
      assert Seen(ranked) == Seen(front) + {ranked[n]};
    }
  }

  lemma MissedFromWhole(ix: Index, q: nat, fetch: nat, k: nat, ranked: seq<nat>, i: nat)
    requires IsKnn(ix, q, fetch, ranked) && i < |ix.chunks| && ix.chunks[i].doc in ix.listed
    requires HitAt(ix, q, i) !in Take(Passing(ix, q, ranked), k) && |ix.chunks| <= fetch
    ensures |Take(Passing(ix, q, ranked), k)| == k
  {
    WholeFetch(ix, ranked);
    MissedIsNoNearer(ix, q, fetch, k, ranked, i);
  }

  lemma MissedChunk(ix: Index, q: nat, fetch: nat, k: nat, ranked: seq<nat>, c: Chunk)
    requires IsKnn(ix, q, fetch, ranked) && c in ix.chunks && c.doc in ix.listed
    requires Hit(c.doc, Dist(c, q)) !in Take(Passing(ix, q, ranked), k)
    ensures forall h :: h in Take(Passing(ix, q, ranked), k) ==> h.distance <= Dist(c, q)
    ensures |ix.chunks| <= fetch ==> |Take(Passing(ix, q, ranked), k)| == k
  {
    var i :| 0 <= i < |ix.chunks| && ix.chunks[i] == c;
    MissedIsNoNearer(ix, q, fetch, k, ranked, i);
    if |ix.chunks| <= fetch { MissedFromWhole(ix, q, fetch, k, ranked, i); }
  }

  lemma HitsAreChunks(ix: Index, q: nat, fetch: nat, k: nat, ranked: seq<nat>)
    requires IsKnn(ix, q, fetch, ranked)
    ensures var hits := Take(Passing(ix, q, ranked), k);
            |hits| <= k && AscendingHits(hits) && forall h :: h in hits ==> HasChunk(ix, q, h)
  {
    PassingAscends(ix, q, ranked);
    forall h | h in Take(Passing(ix, q, ranked), k) ensures HasChunk(ix, q, h) {
      assert h in Passing(ix, q, ranked);
      PassingMeans(ix, q, ranked, h);
      var a :| 0 <= a < |ranked| && ix.chunks[ranked[a]].doc in ix.listed && HitAt(ix, q, ranked[a]) == h;
      assert ix.chunks[ranked[a]] in ix.chunks;
    }
  }

  /** Cut or not, the hits are chunks of the layer, nearest first, and nothing nearer is
      missing; a search is short either because it reported all or because it was cut. */
  lemma SearchMeans(ix: Index, q: nat, fetch: nat, k: nat, hits: seq<Hit>)
    requires Finds(ix, q, fetch, k, hits)
    ensures |hits| <= k && AscendingHits(hits) && forall h :: h in hits ==> HasChunk(ix, q, h)
    ensures NearestFirst(ix, q, hits)
    ensures |hits| < k && |ix.chunks| <= fetch ==> ReportsAll(ix, q, hits)
  {
    var ranked :| IsKnn(ix, q, fetch, ranked) && hits == Take(Passing(ix, q, ranked), k);
    HitsAreChunks(ix, q, fetch, k, ranked);
    forall c | c in ix.chunks && c.doc in ix.listed && Hit(c.doc, Dist(c, q)) !in hits
      ensures forall h :: h in hits ==> h.distance <= Dist(c, q)
      ensures |ix.chunks| <= fetch ==> |hits| == k
    {
      MissedChunk(ix, q, fetch, k, ranked, c);
    }
  }

  /** A search is exact iff it is full or nothing it should report was left beyond its fetch;
      so it is when it is full, and when its fetch took in the whole index. */
  lemma ExactIff(ix: Index, q: nat, fetch: nat, k: nat, hits: seq<Hit>)
    requires Finds(ix, q, fetch, k, hits)
    ensures Exact(ix, q, k, hits) <==> |hits| == k || ReportsAll(ix, q, hits)
    ensures |hits| == k || |ix.chunks| <= fetch ==> Exact(ix, q, k, hits)
  {
    SearchMeans(ix, q, fetch, k, hits);
  }
}

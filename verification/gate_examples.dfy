/** Two indexes whose searches mislead the page list of a prompt. */
module GateExamples {
  import opened Options
  import opened Sequences
  import opened VectorSearch
  import opened ExistingPages
  import opened GateTheory

  // ------------------------------------------------------------------
  // Two near chunks of one document.

  const CHUNK_A := Chunk("A", [1.0, 10.0])

  const CHUNK_B := Chunk("B", [10.0, 9.0])

  const CHUNK_D := Chunk("D", [2.0, 10.0])

  ghost predicate IsCrowded(ix: Index) {
    && |ix.chunks| == 4 && ix.chunks[0] == CHUNK_A && ix.chunks[1] == CHUNK_A && ix.chunks[2] == CHUNK_B
    && ix.chunks[3] == CHUNK_D && ix.listed == {"A", "B", "D"}
  }

  /** Four chunks, all fetched. */
  lemma RanksFour(ix: Index, q: nat, fetch: nat, r: seq<nat>)
    requires |ix.chunks| == 4 <= fetch && |r| == 4 && Positions(ix, r) && Distinct(r)
    requires Dist(ix.chunks[r[0]], q) <= Dist(ix.chunks[r[1]], q) <= Dist(ix.chunks[r[2]], q)
    requires Dist(ix.chunks[r[2]], q) <= Dist(ix.chunks[r[3]], q)
    ensures IsKnn(ix, q, fetch, r)
  {
    WholeFetch(ix, r);
  }

  lemma FirstOfFour(ix: Index, q: nat, r: seq<nat>, hits: seq<Hit>, fetch: nat)
    requires IsKnn(ix, q, fetch, r) && |r| == 4 && |hits| == 2
    requires ix.chunks[r[0]].doc in ix.listed && ix.chunks[r[1]].doc in ix.listed
    requires HitAt(ix, q, r[0]) == hits[0] && HitAt(ix, q, r[1]) == hits[1]
    ensures Finds(ix, q, fetch, 2, hits)
  {
    AllPass(ix, q, r[..2], hits);
    PassingGrows(ix, q, r, 2);
    assert Take(Passing(ix, q, r), 2) == hits;
  }

  lemma FirstCrowdedSearch(ix: Index, r: seq<nat>)
    requires IsCrowded(ix) && |r| == 4 && r[0] == 0 && r[1] == 1 && r[2] == 3 && r[3] == 2
    ensures Finds(ix, 0, 20, 2, [Hit("A", 1.0), Hit("A", 1.0)])
  {
    RanksFour(ix, 0, 20, r);
    FirstOfFour(ix, 0, r, [Hit("A", 1.0), Hit("A", 1.0)], 20);
  }

  lemma SecondCrowdedSearch(ix: Index, r: seq<nat>)
    requires IsCrowded(ix) && |r| == 4 && r[0] == 2 && r[1] == 0 && r[2] == 1 && r[3] == 3
    ensures Finds(ix, 1, 20, 2, [Hit("B", 9.0), Hit("A", 10.0)])
  {
    RanksFour(ix, 1, 20, r);
    FirstOfFour(ix, 1, r, [Hit("B", 9.0), Hit("A", 10.0)], 20);
  }

  lemma TwoSearches(a: seq<Hit>, b: seq<Hit>)
    ensures AllHits([Some(a), Some(b)]) == a + b
  {
    var searches := [Some(a), Some(b)];
    assert searches[..1] == [Some(a)] && searches[..1][..0] == [];
    assert AllHits(searches[..1]) == a;
  }

  lemma TwoSearched(ix: Index, a: seq<Hit>, b: seq<Hit>, fetch: nat, k: nat)
    requires forall c :: c in ix.chunks ==> |c.distances| == 2
    requires Finds(ix, 0, fetch, k, a) && Finds(ix, 1, fetch, k, b)
    ensures Searched(ix, [Some(a), Some(b)], fetch, k)
  {
    var searches := [Some(a), Some(b)];
    forall q | 0 <= q < 2 ensures Finds(ix, q, fetch, k, searches[q].value) {
      assert searches[0].value == a && searches[1].value == b;
    }
  }

  lemma BothPages(best: map<string, real>, chosen: seq<string>, hits: seq<Hit>)
    requires best == map["A" := 1.0, "B" := 9.0] && chosen == ["A", "B"]
    requires hits == [Hit("A", 1.0), Hit("A", 1.0), Hit("B", 9.0), Hit("A", 10.0)]
    ensures IsBest(best, hits) && IsTopK(chosen, best, 2)
  {
    assert hits[0] == Hit("A", 1.0) && hits[2] == Hit("B", 9.0);
    assert "A"[0] != "B"[0];
    assert best.Keys == {"A", "B"};
  }

  lemma CrowdedSearches(ix: Index, a: seq<Hit>, b: seq<Hit>)
    requires IsCrowded(ix) && a == [Hit("A", 1.0), Hit("A", 1.0)] && b == [Hit("B", 9.0), Hit("A", 10.0)]
    ensures Searched(ix, [Some(a), Some(b)], 20, 2)
  {
    assert Finds(ix, 0, 20, 2, a) by { FirstCrowdedSearch(ix, [0, 1, 3, 2]); }
    assert Finds(ix, 1, 20, 2, b) by { SecondCrowdedSearch(ix, [2, 0, 1, 3]); }
    assert forall c :: c in ix.chunks ==> |c.distances| == 2;
    TwoSearched(ix, a, b, 20, 2);
  }

  lemma CrowdedChoice(a: seq<Hit>, b: seq<Hit>, best: map<string, real>, chosen: seq<string>)
    requires a == [Hit("A", 1.0), Hit("A", 1.0)] && b == [Hit("B", 9.0), Hit("A", 10.0)]
    requires best == map["A" := 1.0, "B" := 9.0] && chosen == ["A", "B"]
    ensures Chose([Some(a), Some(b)], 2, best, chosen)
  {
    TwoSearches(a, b);
    BothPages(best, chosen, a + b);
  }

  lemma CrowdedIsWrong(ix: Index, chosen: seq<string>)
    requires IsCrowded(ix) && chosen == ["A", "B"]
    ensures !TrueTopK(ix, chosen, 2)
  {
    assert "A"[0] != "B"[0] && "A"[0] != "D"[0] && "B"[0] != "D"[0];
    assert ix.chunks[3] == CHUNK_D && chosen[1] == "B" && chosen[1] in chosen;
    forall c | c in ix.chunks && c.doc == "B" ensures c == CHUNK_B {}
    assert Dist(CHUNK_D, 0) == 2.0 && Dist(CHUNK_B, 0) == 10.0 && Dist(CHUNK_B, 1) == 9.0;
    NearerIsLeftOut(ix, chosen, 2, "B", CHUNK_D, 0);
  }

  /** A document with two near chunks fills a search of two, although its fetch took in the
      whole index: D, second nearest to the first embedding, is left out for B, which is far
      from both. */
  lemma ManyChunksCrowdOut() returns (ix: Index, searches: Searches, best: map<string, real>, chosen: seq<string>)
    ensures Chose(searches, 2, best, chosen) && Searched(ix, searches, 2 * OVER_FETCH, 2)
    ensures |ix.chunks| <= 2 * OVER_FETCH && !SomeShort(searches, 2) && !TrueTopK(ix, chosen, 2)
  {
    ix := Index([CHUNK_A, CHUNK_A, CHUNK_B, CHUNK_D], {"A", "B", "D"});
    var a, b := [Hit("A", 1.0), Hit("A", 1.0)], [Hit("B", 9.0), Hit("A", 10.0)];
    searches, best, chosen := [Some(a), Some(b)], map["A" := 1.0, "B" := 9.0], ["A", "B"];
    CrowdedSearches(ix, a, b);
    CrowdedChoice(a, b, best, chosen);
    CrowdedIsWrong(ix, chosen);
  }

  // ------------------------------------------------------------------
  // A fetch used up by chunks of another layer.

  const OURS := Chunk("S", [60.0, 1.0])

  const PAGE_A := Chunk("A", [5.0, 50.0])

  const PAGE_B := Chunk("B", [9.0, 3.0])

  /** Ten source chunks, and two pages of one chunk each. */
  ghost predicate IsUnderFilled(ix: Index) {
    && |ix.chunks| == 12 && (forall i :: 0 <= i < 10 ==> ix.chunks[i] == OURS)
    && ix.chunks[10] == PAGE_A && ix.chunks[11] == PAGE_B && ix.listed == {"A", "B"}
  }

  lemma SourcesAreNotListed(ix: Index)
    requires IsUnderFilled(ix)
    ensures OURS.doc !in ix.listed && PAGE_A.doc in ix.listed && PAGE_B.doc in ix.listed
  {
    assert "S"[0] != "A"[0] && "S"[0] != "B"[0];
  }

  lemma FirstRanking(ix: Index, ranked: seq<nat>)
    requires IsUnderFilled(ix) && |ranked| == 10 && ranked[0] == 10 && ranked[1] == 11
    requires forall a :: 2 <= a < 10 ==> ranked[a] == a - 2
    ensures IsKnn(ix, 0, 10, ranked)
  {
    forall i: nat | i < 12 && i !in ranked ensures Dist(ix.chunks[i], 0) == 60.0 {
      assert ranked[0] in ranked && ranked[1] in ranked;
    }
  }

  lemma FullFirstSearch(ix: Index)
    requires IsUnderFilled(ix)
    ensures Finds(ix, 0, 10, 1, [Hit("A", 5.0)])
  {
    var ranked := [10, 11] + Range(0, 8);
    FirstRanking(ix, ranked);
    SourcesAreNotListed(ix);
    AllPass(ix, 0, ranked[..1], [Hit("A", 5.0)]);
    PassingGrows(ix, 0, ranked, 1);
    assert Take(Passing(ix, 0, ranked), 1) == [Hit("A", 5.0)];
  }

  lemma EmptySecondSearch(ix: Index)
    requires IsUnderFilled(ix)
    ensures Finds(ix, 1, 10, 1, [])
  {
    var ranked := Range(0, 10);
    SourcesAreNotListed(ix);
    NonePasses(ix, 1, ranked);
    forall i: nat | i < 12 && i !in ranked ensures i >= 10 { InRange(0, 10, i); }
    assert IsKnn(ix, 1, 10, ranked);
  }

  lemma BIsLeftOut(ix: Index, chosen: seq<string>)
    requires IsUnderFilled(ix) && chosen == ["A"]
    ensures !TrueTopK(ix, chosen, 1)
  {
    assert "S"[0] != "A"[0] && "A"[0] != "B"[0];
    assert ix.chunks[11] == PAGE_B && chosen[0] == "A" && chosen[0] in chosen;
    forall c | c in ix.chunks && c.doc == "A" ensures c == PAGE_A {}
    assert Dist(PAGE_B, 1) == 3.0 && Dist(PAGE_A, 0) == 5.0 && Dist(PAGE_A, 1) == 50.0;
    NearerIsLeftOut(ix, chosen, 1, "A", PAGE_B, 1);
  }

  lemma UnderFilledSearches(ix: Index, a: seq<Hit>, b: seq<Hit>)
    requires IsUnderFilled(ix) && a == [Hit("A", 5.0)] && b == []
    ensures Searched(ix, [Some(a), Some(b)], 10, 1)
  {
    assert Finds(ix, 0, 10, 1, a) by { FullFirstSearch(ix); }
    assert Finds(ix, 1, 10, 1, b) by { EmptySecondSearch(ix); }
    assert forall c :: c in ix.chunks ==> |c.distances| == 2;
    TwoSearched(ix, a, b, 10, 1);
  }

  lemma UnderFilledChoice(a: seq<Hit>, b: seq<Hit>, best: map<string, real>, chosen: seq<string>)
    requires a == [Hit("A", 5.0)] && b == [] && best == map["A" := 5.0] && chosen == ["A"]
    ensures Chose([Some(a), Some(b)], 1, best, chosen) && SomeShort([Some(a), Some(b)], 1)
  {
    TwoSearches(a, b);
    assert a + b == a && a[0] in a;
    assert best.Keys == {"A"};
    assert |[Some(a), Some(b)][1].value| < 1;
  }

  /** The group's own chunks are the nearest ones and use up a fetch of ten: the second search
      comes back empty, and B, next to that embedding, is left out for A. No search names a
      document twice, and one is short. */
  lemma UnderFilledSearchMisleads()
      returns (ix: Index, searches: Searches, best: map<string, real>, chosen: seq<string>)
    ensures Chose(searches, 1, best, chosen) && Searched(ix, searches, 1 * OVER_FETCH, 1)
    ensures forall q :: 0 <= q < |searches| ==> OneHitPerDocument(searches[q].value)
    ensures SomeShort(searches, 1) && !TrueTopK(ix, chosen, 1)
  {
    ix := Index(seq(10, _ => OURS) + [PAGE_A, PAGE_B], {"A", "B"});
    var a, b: seq<Hit> := [Hit("A", 5.0)], [];
    searches, best, chosen := [Some(a), Some(b)], map["A" := 5.0], ["A"];
    UnderFilledSearches(ix, a, b);
    UnderFilledChoice(a, b, best, chosen);
    BIsLeftOut(ix, chosen);
  }
}

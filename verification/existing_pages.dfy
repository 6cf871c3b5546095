/** Which existing pages a group's prompt lists: all of them while they are few, and past
    that the documents nearest to the group's chunks. */
module ExistingPages {
  import opened Options
  import opened Sequences
  import Sorting
  import opened SynthGroups
  import opened VectorSearch

  /** A titled row of the knowledge layer. */
  datatype Row = Row(title: string, stem: string, category: string)

  /** One vector search per group chunk with an embedding; none where the store has no
      index to search. */
  type Searches = seq<Option<seq<Hit>>>

  function Show(r: Row): Shown { Shown(r.title, r.stem, r.category) }

  function ShowAll(rows: seq<Row>): seq<Shown> { seq(|rows|, i requires 0 <= i < |rows| => Show(rows[i])) }

  function TotalSize(rows: seq<Row>, size: Row -> nat): nat {
    if rows == [] then 0 else TotalSize(rows[..|rows| - 1], size) + size(rows[|rows| - 1])
  }

  /** Every row's size is in the total, once. */
  lemma {:induction false} TotalSizeSplits(rows: seq<Row>, size: Row -> nat, i: nat)
    requires i < |rows|
    ensures TotalSize(rows, size) == TotalSize(rows[..i], size) + size(rows[i]) + TotalSize(rows[i + 1..], size)
    ensures TotalSize([], size) == 0
  {
    var n := |rows| - 1;
    if i < n {
      TotalSizeSplits(rows[..n], size, i);
      assert rows[..n][..i] == rows[..i] && rows[..n][i + 1..] == rows[i + 1..][..|rows[i + 1..]| - 1];
    }
  }

  /** What is shown of a list of rows: title, stem and category of each, in order. */
  ghost predicate ShownWhole(out: seq<Shown>, rows: seq<Row>) {
    && |out| == |rows|
    && forall i :: 0 <= i < |rows| ==>
         out[i].title == rows[i].title && out[i].stem == rows[i].stem && out[i].category == rows[i].category
  }

  // ------------------------------------------------------------------
  // The best distance of each document.

  /** The hits of every search, in order. */
  function AllHits(searches: Searches): seq<Hit> {
    if searches == [] then []
    else
      var last := searches[|searches| - 1];
      AllHits(searches[..|searches| - 1]) + if last.Some? then last.value else []
  }

  /** `best` maps each document hit to the least distance of any of its hits. */
  ghost predicate IsBest(best: map<string, real>, hits: seq<Hit>) {
    && (forall h :: h in hits ==> h.doc in best && best[h.doc] <= h.distance)
    && (forall d :: d in best ==> Hit(d, best[d]) in hits)
  }

  method Improve(best0: map<string, real>, more: seq<Hit>, ghost hits: seq<Hit>) returns (best: map<string, real>)
    requires IsBest(best0, hits)
    ensures IsBest(best, hits + more)
  {
    best := best0;
    assert hits + more[..0] == hits;
    for i := 0 to |more|
      invariant IsBest(best, hits + more[..i])
    {
      var h := more[i];
      assert hits + more[..i + 1] == hits + more[..i] + [h];
      BestGrows(best, hits + more[..i], h);
      if h.doc !in best || h.distance < best[h.doc] { best := best[h.doc := h.distance]; }
    }
    assert more[..|more|] == more;
  }

  lemma BestGrows(best: map<string, real>, hits: seq<Hit>, h: Hit)
    requires IsBest(best, hits)
    ensures IsBest(if h.doc !in best || h.distance < best[h.doc] then best[h.doc := h.distance] else best, hits + [h])
  {
    var next := if h.doc !in best || h.distance < best[h.doc] then best[h.doc := h.distance] else best;
    forall d | d in next ensures Hit(d, next[d]) in hits + [h] {
      if d == h.doc && next[d] == h.distance { assert h in hits + [h]; } else { assert Hit(d, best[d]) in hits; }
    }
  }

  /** The nested hit loops; none as soon as one search is not supported. */
  method BestDistances(searches: Searches) returns (best: Option<map<string, real>>)
    ensures best.None? <==> None in searches
    ensures best.Some? ==> IsBest(best.value, AllHits(searches))
  {
    var sofar: map<string, real> := map[];
    for i := 0 to |searches|
      invariant None !in searches[..i] && IsBest(sofar, AllHits(searches[..i]))
    {
      if searches[i].None? { return None; }
      assert searches[..i + 1] == searches[..i] + [searches[i]];
      sofar := Improve(sofar, searches[i].value, AllHits(searches[..i]));
    }
    assert searches[..|searches|] == searches;
    best := Some(sofar);
  }

  // ------------------------------------------------------------------
  // The nearest documents.

  /** At most `k` documents, nearest first, none of those left out nearer than any chosen. */
  ghost predicate IsTopK(chosen: seq<string>, best: map<string, real>, k: nat) {
    && Sorting.Sorted(chosen, best)
    && |chosen| == (if |best| > k then k else |best|)
    && forall c, o :: c in chosen && o in best && o !in chosen ==> best[c] <= best[o]
  }

  method TopK(best: map<string, real>, k: nat) returns (chosen: seq<string>)
    ensures IsTopK(chosen, best, k)
  {
    var order := Sorting.SortByValue(best);
    chosen := if |order| > k then order[..k] else order;
    PrefixIsTopK(order, best, k);
  }

  lemma PrefixIsTopK(order: seq<string>, best: map<string, real>, k: nat)
    requires Sorting.Sorted(order, best) && |order| == |best| && forall x :: x in order <==> x in best
    ensures IsTopK(if |order| > k then order[..k] else order, best, k)
  {
    var chosen := if |order| > k then order[..k] else order;
    assert forall i :: 0 <= i < |chosen| ==> chosen[i] == order[i];
    forall c, o | c in chosen && o in best && o !in chosen ensures best[c] <= best[o] {
      var i :| 0 <= i < |chosen| && chosen[i] == c;
      var j :| 0 <= j < |order| && order[j] == o;
      assert i < j;
    }
  }

  /** The rows of the chosen documents that are still there and titled, in the same order. */
  function TitledRows(chosen: seq<string>, stored: map<string, Row>): seq<Shown> {
    if chosen == [] then []
    else
      var n := |chosen| - 1;
      TitledRows(chosen[..n], stored) +
      if Titled(chosen[n], stored) then [Show(stored[chosen[n]])] else []
  }

  predicate Titled(doc: string, stored: map<string, Row>) { doc in stored && stored[doc].title != "" }

  /** The positions of the titled documents. */
  function TitledAt(chosen: seq<string>, stored: map<string, Row>): seq<nat> {
    if chosen == [] then []
    else
      var n := |chosen| - 1;
      TitledAt(chosen[..n], stored) + if Titled(chosen[n], stored) then [n] else []
  }

  lemma {:induction false} TitledAtMeans(chosen: seq<string>, stored: map<string, Row>)
    ensures forall i: nat :: i in TitledAt(chosen, stored) <==>
            i < |chosen| && chosen[i] in stored && stored[chosen[i]].title != ""
    ensures forall a, b :: 0 <= a < b < |TitledAt(chosen, stored)| ==>
            TitledAt(chosen, stored)[a] < TitledAt(chosen, stored)[b]
  {
    if chosen != [] {
      var n := |chosen| - 1;
      var front := TitledAt(chosen[..n], stored);
      TitledAtMeans(chosen[..n], stored);
      assert forall a :: 0 <= a < |front| ==> front[a] in front;
    }
  }

  ghost predicate ShownAt(out: seq<Shown>, picks: seq<nat>, chosen: seq<string>, stored: map<string, Row>) {
    && |out| == |picks|
    && forall a :: 0 <= a < |out| ==>
         picks[a] < |chosen| && chosen[picks[a]] in stored &&
         var row := stored[chosen[picks[a]]];
         out[a].title == row.title && out[a].stem == row.stem && out[a].category == row.category
  }

  lemma {:induction false} TitledRowsAt(chosen: seq<string>, stored: map<string, Row>)
    ensures ShownAt(TitledRows(chosen, stored), TitledAt(chosen, stored), chosen, stored)
  {
    if chosen != [] {
      TitledRowsAt(chosen[..|chosen| - 1], stored);
    }
  }

  /** In order, one entry for each chosen document that is stored with a title, and no other. */
  lemma TitledRowsMeans(chosen: seq<string>, stored: map<string, Row>) returns (picks: seq<nat>)
    ensures ShownAt(TitledRows(chosen, stored), picks, chosen, stored)
    ensures forall i: nat :: i in picks <==>
            i < |chosen| && chosen[i] in stored && stored[chosen[i]].title != ""
    ensures forall a, b :: 0 <= a < b < |picks| ==> picks[a] < picks[b]
  {
    picks := TitledAt(chosen, stored);
    TitledAtMeans(chosen, stored);
    TitledRowsAt(chosen, stored);
  }

  method FetchTitled(chosen: seq<string>, stored: map<string, Row>) returns (out: seq<Shown>)
    ensures out == TitledRows(chosen, stored)
  {
    out := [];
    for i := 0 to |chosen|
      invariant out == TitledRows(chosen[..i], stored)
    {
      assert chosen[..i + 1][..i] == chosen[..i];
      if Titled(chosen[i], stored) { out := out + [Show(stored[chosen[i]])]; }
    }
    assert chosen[..|chosen|] == chosen;
  }

  /** The whole choice. Without a usable search the section falls back to the first pages
      and is never empty while pages exist. */
  method ExistingPagesForPrompt(snapshot: seq<Row>, size: Row -> nat, maxBytes: nat, k: nat, searches: Searches,
      stored: map<string, Row>) returns (out: seq<Shown>, ghost chosen: seq<string>, ghost best: map<string, real>)
    ensures snapshot == [] || TotalSize(snapshot, size) <= maxBytes ==>
              out == ShowAll(snapshot) && ShownWhole(out, snapshot)
    ensures snapshot != [] && TotalSize(snapshot, size) > maxBytes && (None in searches || AllHits(searches) == []) ==>
              out == Take(ShowAll(snapshot), k)
    ensures snapshot != [] && TotalSize(snapshot, size) > maxBytes && None !in searches && AllHits(searches) != [] ==>
              IsBest(best, AllHits(searches)) && IsTopK(chosen, best, k) && out == TitledRows(chosen, stored)
  {
    chosen, best := [], map[];
    if snapshot == [] { return [], chosen, best; }
    var total := 0;
    for i := 0 to |snapshot|
      invariant total == TotalSize(snapshot[..i], size)
    {
      assert snapshot[..i + 1][..i] == snapshot[..i];
      total := total + size(snapshot[i]);
    }
    assert snapshot[..|snapshot|] == snapshot;
    if total <= maxBytes { return ShowAll(snapshot), chosen, best; }
    var found := BestDistances(searches);
    if found.None? { return Take(ShowAll(snapshot), k), chosen, best; }
    NoBestWithoutHits(found.value, AllHits(searches));
    if found.value == map[] { return Take(ShowAll(snapshot), k), chosen, best; }
    var top := TopK(found.value, k);
    chosen, best := top, found.value;
    out := FetchTitled(top, stored);
  }

  lemma NoBestWithoutHits(best: map<string, real>, hits: seq<Hit>)
    requires IsBest(best, hits)
    ensures best == map[] <==> hits == []
  {
    if hits != [] { assert hits[0] in hits; }
    if best != map[] { var d :| d in best; assert Hit(d, best[d]) in hits; }
  }
}

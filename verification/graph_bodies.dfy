/** The finished graph, told from the documents' bodies: each link of each readable document is
    counted at its place. */
module GraphBodies {
  import opened Options
  import opened Graph
  import opened GraphLinks
  import opened GraphTheory

  type Bodies = seq<Option<seq<Link>>>

  /** Link `j` of document `i`. */
  ghost predicate IsPlace(bodies: Bodies, i: nat, j: nat) {
    i < |bodies| && bodies[i].Some? && j < |bodies[i].value|
  }

  function LinkAt(bodies: Bodies, i: nat, j: nat): Link
    requires IsPlace(bodies, i, j)
  {
    bodies[i].value[j]
  }

  /** The places whose link, in its document, satisfies `p`. */
  ghost function Places(docs: seq<Doc>, bodies: Bodies, p: (string, Link) -> bool): set<(nat, nat)>
    requires |bodies| == |docs|
  {
    set i: nat, j: nat | i < |bodies| && bodies[i].Some? && j < |bodies[i].value| &&
                         p(docs[i].path, bodies[i].value[j]) :: (i, j)
  }

  // ------------------------------------------------------------------
  // Counting occurrences is counting places.

  ghost function CountIf(os: seq<Occurrence>, p: (string, Link) -> bool): nat {
    if os == [] then 0
    else CountIf(os[..|os| - 1], p) + if p(os[|os| - 1].source, os[|os| - 1].link) then 1 else 0
  }

  lemma {:induction false} CountIfConcat(a: seq<Occurrence>, b: seq<Occurrence>, p: (string, Link) -> bool)
    ensures CountIf(a + b, p) == CountIf(a, p) + CountIf(b, p)
  {
    if b == [] {
      assert a + b == a;
    } else {
      assert (a + b)[..|a + b| - 1] == a + b[..|b| - 1];
      CountIfConcat(a, b[..|b| - 1], p);
    }
  }

  /** The links of document `n` that satisfy `p`, as places. */
  ghost function PlacesIn(n: nat, source: string, links: seq<Link>, p: (string, Link) -> bool): set<(nat, nat)> {
    set j: nat | j < |links| && p(source, links[j]) :: (n, j)
  }

  lemma {:induction false} CountInDocument(n: nat, source: string, links: seq<Link>, p: (string, Link) -> bool)
    ensures CountIf(OccurrencesIn(source, links), p) == |PlacesIn(n, source, links, p)|
  {
    var os := OccurrencesIn(source, links);
    if links != [] {
      var m := |links| - 1;
      var front := links[..m];
      CountInDocument(n, source, front, p);
      assert os[..m] == OccurrencesIn(source, front);
      var before, after := PlacesIn(n, source, front, p), PlacesIn(n, source, links, p);
      assert (n, m) !in before;
      assert after == before + if p(source, links[m]) then {(n, m)} else {};
    }
  }

  lemma {:induction false} CountIsPlaces(docs: seq<Doc>, bodies: Bodies, p: (string, Link) -> bool)
    requires |bodies| == |docs|
    ensures CountIf(Flatten(docs, bodies), p) == |Places(docs, bodies, p)|
  {
    if docs != [] {
      var n := |docs| - 1;
      CountIsPlaces(docs[..n], bodies[..n], p);
      var mine := if bodies[n].Some? then bodies[n].value else [];
      CountInDocument(n, docs[n].path, mine, p);
      CountIfConcat(Flatten(docs[..n], bodies[..n]), OccurrencesIn(docs[n].path, mine), p);
      PlacesGrow(docs, bodies, n, mine, p);
      assert OccurrencesIn(docs[n].path, []) == [];
    }
  }

  lemma PlacesGrow(docs: seq<Doc>, bodies: Bodies, n: nat, mine: seq<Link>, p: (string, Link) -> bool)
    requires |bodies| == |docs| == n + 1 && mine == if bodies[n].Some? then bodies[n].value else []
    ensures |Places(docs, bodies, p)| == |Places(docs[..n], bodies[..n], p)| + |PlacesIn(n, docs[n].path, mine, p)|
  {
    var before, more := Places(docs[..n], bodies[..n], p), PlacesIn(n, docs[n].path, mine, p);
    assert Places(docs, bodies, p) == before + more;
    assert before !! more;
  }

  // ------------------------------------------------------------------
  // Weights and unresolved counts.

  lemma {:induction false} FatesCounted(u: Universe, os: seq<Occurrence>, f: Fate, p: (string, Link) -> bool)
    requires forall s, l :: p(s, l) <==> FateOf(u, Occurrence(s, l)) == f
    ensures CountFate(u, os, f) == CountIf(os, p)
  {
    if os != [] { FatesCounted(u, os[..|os| - 1], f, p); }
  }

  /** A link of `k`'s document under `k`'s text and anchor that leads to `k`'s target, a node. */
  ghost predicate Supports(docs: seq<Doc>, norms: Norms, k: EdgeKey, source: string, link: Link) {
    && source == k.source && link.target == k.text && link.anchor == k.anchor
    && LeadsTo(docs, norms, link, k.target) && k.target in PathsByKey(docs).Values
  }

  /** A wikilink of `b`'s document under `b`'s text and anchor that means no page. */
  ghost predicate LeadsNowhere(docs: seq<Doc>, norms: Norms, b: BrokenKey, source: string, link: Link) {
    && source == b.source && link.target == b.text && link.anchor == b.anchor && link.kind.Wiki?
    && forall t :: !Means(EntriesOf(docs), norms, link.target, t)
  }

  ghost function SupportPlaces(docs: seq<Doc>, bodies: Bodies, norms: Norms, k: EdgeKey): set<(nat, nat)>
    requires |bodies| == |docs|
  {
    set i: nat, j: nat | i < |bodies| && bodies[i].Some? && j < |bodies[i].value| &&
                         Supports(docs, norms, k, docs[i].path, bodies[i].value[j]) :: (i, j)
  }

  ghost function NowherePlaces(docs: seq<Doc>, bodies: Bodies, norms: Norms, b: BrokenKey): set<(nat, nat)>
    requires |bodies| == |docs|
  {
    set i: nat, j: nat | i < |bodies| && bodies[i].Some? && j < |bodies[i].value| &&
                         LeadsNowhere(docs, norms, b, docs[i].path, bodies[i].value[j]) :: (i, j)
  }

  lemma FateCountIsPlaces(u: Universe, docs: seq<Doc>, bodies: Bodies, f: Fate, places: set<(nat, nat)>)
    requires |bodies| == |docs|
    requires forall q :: q in places <==>
               IsPlace(bodies, q.0, q.1) && FateOf(u, Occurrence(docs[q.0].path, LinkAt(bodies, q.0, q.1))) == f
    ensures CountFate(u, Flatten(docs, bodies), f) == |places|
  {
    var p := (s, l) => FateOf(u, Occurrence(s, l)) == f;
    FatesCounted(u, Flatten(docs, bodies), f, p);
    CountIsPlaces(docs, bodies, p);
    assert Places(docs, bodies, p) == places;
  }

  /** An edge is there iff some link of some readable document supports it, and its weight is
      the number of places of such links. */
  lemma EdgeWeightMeans(acc: Acc, u: Universe, docs: seq<Doc>, bodies: Bodies, norms: Norms, k: EdgeKey)
    requires |bodies| == |docs| && IsUniverse(u, docs, norms) && Agrees(acc, u, Flatten(docs, bodies))
    ensures k in acc.edges <==> SupportPlaces(docs, bodies, norms, k) != {}
    ensures k in acc.edges ==> acc.edges[k].weight == |SupportPlaces(docs, bodies, norms, k)|
  {
    var places := SupportPlaces(docs, bodies, norms, k);
    forall q ensures q in places <==> IsPlace(bodies, q.0, q.1) &&
                                      FateOf(u, Occurrence(docs[q.0].path, LinkAt(bodies, q.0, q.1))) == Joins(k)
    {
      if IsPlace(bodies, q.0, q.1) {
        FateMeans(u, docs, norms, Occurrence(docs[q.0].path, LinkAt(bodies, q.0, q.1)), k);
      }
    }
    FateCountIsPlaces(u, docs, bodies, Joins(k), places);
  }

  /** The same for the unresolved wikilinks. */
  lemma UnresolvedMeans(acc: Acc, u: Universe, docs: seq<Doc>, bodies: Bodies, norms: Norms, b: BrokenKey)
    requires |bodies| == |docs| && IsUniverse(u, docs, norms) && Agrees(acc, u, Flatten(docs, bodies))
    ensures b in acc.unresolved <==> NowherePlaces(docs, bodies, norms, b) != {}
    ensures b in acc.unresolved ==> acc.unresolved[b] == |NowherePlaces(docs, bodies, norms, b)|
  {
    var places := NowherePlaces(docs, bodies, norms, b);
    forall q ensures q in places <==> IsPlace(bodies, q.0, q.1) &&
                                      FateOf(u, Occurrence(docs[q.0].path, LinkAt(bodies, q.0, q.1))) == Breaks(b)
    {
      if IsPlace(bodies, q.0, q.1) { BreaksMeans(u, docs, norms, docs[q.0].path, LinkAt(bodies, q.0, q.1), b); }
    }
    FateCountIsPlaces(u, docs, bodies, Breaks(b), places);
  }

  lemma BreaksMeans(u: Universe, docs: seq<Doc>, norms: Norms, source: string, link: Link, b: BrokenKey)
    requires IsUniverse(u, docs, norms)
    ensures FateOf(u, Occurrence(source, link)) == Breaks(b) <==> LeadsNowhere(docs, norms, b, source, link)
  {
    var o := Occurrence(source, link);
    FateMeans(u, docs, norms, o, EdgeKey("", "", "", None));
    if link.kind.Wiki? {
      assert forall t :: LeadsTo(docs, norms, link, t) <==> Means(EntriesOf(docs), norms, link.target, t);
    }
  }

  // ------------------------------------------------------------------
  // Kinds.

  ghost predicate Earlier(p: (nat, nat), q: (nat, nat)) { p.0 < q.0 || (p.0 == q.0 && p.1 < q.1) }

  function OccurrenceAt(docs: seq<Doc>, bodies: Bodies, q: (nat, nat)): Occurrence
    requires |bodies| == |docs| && IsPlace(bodies, q.0, q.1)
  {
    Occurrence(docs[q.0].path, LinkAt(bodies, q.0, q.1))
  }

  lemma {:induction false} PlaceIsVisited(docs: seq<Doc>, bodies: Bodies, q: (nat, nat))
    requires |bodies| == |docs| && IsPlace(bodies, q.0, q.1)
    ensures OccurrenceAt(docs, bodies, q) in Flatten(docs, bodies)
  {
    var n := |docs| - 1;
    if q.0 < n {
      PlaceIsVisited(docs[..n], bodies[..n], q);
    } else {
      assert OccurrencesIn(docs[n].path, bodies[n].value)[q.1] == OccurrenceAt(docs, bodies, q);
    }
  }

  /** The first occurrence that joins an edge is at the first place whose link does. */
  lemma {:induction false} FirstPlace(u: Universe, docs: seq<Doc>, bodies: Bodies, k: EdgeKey, i: nat)
    returns (q: (nat, nat))
    requires |bodies| == |docs| && FirstAt(u, Flatten(docs, bodies), k, i)
    ensures IsPlace(bodies, q.0, q.1) && OccurrenceAt(docs, bodies, q) == Flatten(docs, bodies)[i]
    ensures forall r: (nat, nat) :: IsPlace(bodies, r.0, r.1) && Earlier(r, q) ==>
              FateOf(u, OccurrenceAt(docs, bodies, r)) != Joins(k)
  {
    var n := |docs| - 1;
    var front := Flatten(docs[..n], bodies[..n]);
    if i < |front| {
      assert forall j :: 0 <= j < |front| ==> Flatten(docs, bodies)[j] == front[j];
      q := FirstPlace(u, docs[..n], bodies[..n], k, i);
      forall r: (nat, nat) | IsPlace(bodies, r.0, r.1) && Earlier(r, q)
        ensures FateOf(u, OccurrenceAt(docs, bodies, r)) != Joins(k)
      {
        assert IsPlace(bodies[..n], r.0, r.1);
        assert OccurrenceAt(docs[..n], bodies[..n], r) == OccurrenceAt(docs, bodies, r);
      }
    } else {
      var mine := OccurrencesIn(docs[n].path, bodies[n].value);
      q := (n, i - |front|);
      forall r: (nat, nat) | IsPlace(bodies, r.0, r.1) && Earlier(r, q)
        ensures FateOf(u, OccurrenceAt(docs, bodies, r)) != Joins(k)
      {
        if r.0 < n {
          PlaceIsVisited(docs[..n], bodies[..n], r);
          var j :| 0 <= j < |front| && front[j] == OccurrenceAt(docs[..n], bodies[..n], r);
          assert Flatten(docs, bodies)[j] == front[j];
        } else {
          assert Flatten(docs, bodies)[|front| + r.1] == mine[r.1];
        }
      }
    }
  }

  /** The place of the first supporting link. */
  ghost predicate IsFirst(places: set<(nat, nat)>, q: (nat, nat)) {
    q in places && forall r: (nat, nat) :: r in places ==> !Earlier(r, q)
  }

  /** An edge has the kind of the first link that supports it, by document and then by position. */
  lemma EdgeKindMeans(acc: Acc, u: Universe, docs: seq<Doc>, bodies: Bodies, norms: Norms, k: EdgeKey)
    returns (q: (nat, nat))
    requires |bodies| == |docs| && IsUniverse(u, docs, norms) && Agrees(acc, u, Flatten(docs, bodies))
    requires k in acc.edges
    ensures IsFirst(SupportPlaces(docs, bodies, norms, k), q) && acc.edges[k].kind == bodies[q.0].value[q.1].kind
  {
    var os := Flatten(docs, bodies);
    var i: nat :| FirstAt(u, os, k, i) && acc.edges[k].kind == os[i].link.kind;
    q := FirstPlace(u, docs, bodies, k, i);
    forall r: (nat, nat) | IsPlace(bodies, r.0, r.1)
      ensures r in SupportPlaces(docs, bodies, norms, k) <==> FateOf(u, OccurrenceAt(docs, bodies, r)) == Joins(k)
    {
      FateMeans(u, docs, norms, OccurrenceAt(docs, bodies, r), k);
    }
  }

  // ------------------------------------------------------------------
  // Conservation, of the bodies.

  /** Every wikilink of a readable document, and every markdown link of one that names a document. */
  ghost function LinkPlaces(docs: seq<Doc>, bodies: Bodies, norms: Norms): set<(nat, nat)>
    requires |bodies| == |docs|
  {
    set i: nat, j: nat | i < |bodies| && bodies[i].Some? && j < |bodies[i].value| &&
                         (bodies[i].value[j].kind.Wiki? || (bodies[i].value[j].kind.Markdown? &&
                                                            Names(docs, norms, bodies[i].value[j]))) :: (i, j)
  }

  ghost predicate Names(docs: seq<Doc>, norms: Norms, link: Link) {
    exists d :: d in docs && d.key == norms.path(link.target)
  }

  lemma {:induction false} LinksCounted(u: Universe, os: seq<Occurrence>, p: (string, Link) -> bool)
    requires forall s, l :: p(s, l) <==> l.kind.Wiki? || (l.kind.Markdown? && u.norms.path(l.target) in u.keys)
    ensures CountWiki(os) + CountNaming(u, os) == CountIf(os, p)
  {
    if os != [] { LinksCounted(u, os[..|os| - 1], p); }
  }

  /** With distinct path keys no such link is lost: weights and unresolved counts add up to the
      number of their places. */
  lemma NoLinkIsLost(acc: Acc, u: Universe, docs: seq<Doc>, bodies: Bodies, norms: Norms)
    requires |bodies| == |docs| && IsUniverse(u, docs, norms) && Agrees(acc, u, Flatten(docs, bodies))
    requires DistinctKeys(docs)
    ensures Sum(Weights(acc.edges)) + Sum(acc.unresolved) == |LinkPlaces(docs, bodies, norms)|
  {
    var os := Flatten(docs, bodies);
    var p := (s: string, l: Link) => l.kind.Wiki? || (l.kind.Markdown? && norms.path(l.target) in u.keys);
    DistinctKeysConserve(acc, u, docs, norms, os);
    LinksCounted(u, os, p);
    CountIsPlaces(docs, bodies, p);
    forall link: Link ensures Names(docs, norms, link) <==> norms.path(link.target) in u.keys {
      KeysKeepTheLast(docs, norms.path(link.target));
    }
    assert Places(docs, bodies, p) == LinkPlaces(docs, bodies, norms);
  }
}

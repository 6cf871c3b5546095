/** The group loop of one source: bounded retries, the in-batch titles, and the feedback of
    wikilink targets that no page satisfies yet. */
module SynthGroups {
  import opened Options
  import opened Graph
  import opened Sequences
  import Sorting
  import SynthRun

  const PRIORITY_TARGETS_TOP_K := 5

  /** One page as the model answered it, its body already parsed into links. */
  datatype Page = Page(title: string, stem: string, category: string, links: seq<Link>)

  /** What a prompt shows of a page. */
  datatype Shown = Shown(title: string, stem: string, category: string)

  datatype Reply = Pages(pages: seq<Page>) | Partial(pages: seq<Page>, retry: bool) | Unparsable

  /** One completion call: only a transient provider error is retried. */
  datatype Call = Answers(reply: Reply) | Transient | Fatal

  datatype CallResult = Got(reply: Reply) | GaveUp | Raised

  /** The provider and the cancel token, asked by group and attempt; attempt 0 stands for
      the check before the group. */
  datatype World = World(llm: (nat, nat) -> Call, cancelled: (nat, nat) -> bool)

  /** A target and the number of pages that wanted it. */
  datatype Wish = Wish(title: string, count: nat)

  datatype Prompt = Prompt(batch: seq<Shown>, priority: seq<Wish>)

  datatype SourceOutcome = SourceOutcome(pages: seq<Page>, groups: seq<SynthRun.GroupOutcome>, parseErrors: nat,
      prompts: seq<Prompt>)

  // ------------------------------------------------------------------
  // Retries.

  /** After `calls` calls to the provider the group's call ends with `r`. */
  ghost predicate Ends(w: World, g: nat, retries: nat, r: CallResult, calls: nat) {
    && 1 <= calls <= retries + 1
    && (forall a :: 1 <= a < calls ==> w.llm(g, a).Transient? && !w.cancelled(g, a))
    && match r
       case Got(reply) => w.llm(g, calls) == Answers(reply)
       case GaveUp => calls == retries + 1 && w.llm(g, calls).Transient?
       case Raised =>
         w.llm(g, calls).Fatal? || (w.llm(g, calls).Transient? && calls <= retries && w.cancelled(g, calls))
  }

  lemma EndsOnce(w: World, g: nat, retries: nat, r: CallResult, calls: nat, other: CallResult, more: nat)
    requires Ends(w, g, retries, r, calls) && Ends(w, g, retries, other, more)
    ensures r == other && calls == more
  {
  }

  method Complete(w: World, g: nat, retries: nat) returns (r: CallResult, calls: nat)
    ensures Ends(w, g, retries, r, calls)
  {
    var attempts := retries + 1;
    calls := 1;
    while true
      invariant 1 <= calls <= attempts
      invariant forall a :: 1 <= a < calls ==> w.llm(g, a).Transient? && !w.cancelled(g, a)
      decreases attempts - calls
    {
      match w.llm(g, calls)
      case Answers(reply) => return Got(reply), calls;
      case Fatal => return Raised, calls;
      case Transient =>
        if calls == attempts { return GaveUp, calls; }
        if w.cancelled(g, calls) { return Raised, calls; }
        calls := calls + 1;
    }
  }

  function PagesOf(r: CallResult): seq<Page> {
    match r
    case Got(Pages(ps)) => ps
    case Got(Partial(ps, _)) => ps
    case _ => []
  }

  function OutcomeOf(r: CallResult): SynthRun.GroupOutcome {
    match r
    case Got(Pages(_)) => SynthRun.Parsed
    case Got(Partial(_, retry)) => if retry then SynthRun.PartialRetry else SynthRun.PartialKept
    case Got(Unparsable) => SynthRun.Unparsed
    case _ => SynthRun.ProviderGaveUp
  }

  // ------------------------------------------------------------------
  // The in-batch titles.

  function AsShown(p: Page): Shown { Shown(p.title, p.stem, if p.category == "" then "page" else p.category) }

  function Titles(batch: seq<Shown>): set<string> { set b | b in batch :: b.title }

  function Batch(pages: seq<Page>): seq<Shown> {
    if pages == [] then []
    else
      var n := |pages| - 1;
      var batch := Batch(pages[..n]);
      if pages[n].title != "" && pages[n].title !in Titles(batch) then batch + [AsShown(pages[n])] else batch
  }

  /** Page `i` is the first of its title. */
  ghost predicate First(pages: seq<Page>, i: int) {
    0 <= i < |pages| && pages[i].title != "" && forall j :: 0 <= j < i ==> pages[j].title != pages[i].title
  }

  lemma {:induction false} BatchTitles(pages: seq<Page>, t: string)
    ensures t in Titles(Batch(pages)) <==> t != "" && exists p :: p in pages && p.title == t
  {
    if pages != [] {
      var n := |pages| - 1;
      BatchTitles(pages[..n], t);
      BatchTitles(pages[..n], pages[n].title);
      assert pages == pages[..n] + [pages[n]];
      TitlesAppend(Batch(pages[..n]), AsShown(pages[n]));
    }
  }

  /** `at` lists the first pages, in order, and the batch shows exactly those. */
  ghost predicate ShowsFirsts(pages: seq<Page>, batch: seq<Shown>, at: seq<int>) {
    && |at| == |batch|
    && (forall k :: 0 <= k < |at| ==> First(pages, at[k]) && batch[k] == AsShown(pages[at[k]]))
    && (forall k, l :: 0 <= k < l < |at| ==> at[k] < at[l])
    && forall i :: First(pages, i) ==> i in at
  }

  lemma FirstAppend(pages: seq<Page>, p: Page, i: int)
    ensures First(pages + [p], i) <==>
            First(pages, i) || (i == |pages| && p.title != "" && forall q :: q in pages ==> q.title != p.title)
  {
    assert forall j :: 0 <= j < |pages| ==> (pages + [p])[j] == pages[j] && pages[j] in pages;
    if First(pages + [p], |pages|) {
      forall q | q in pages ensures q.title != p.title { var j :| 0 <= j < |pages| && pages[j] == q; }
    }
  }

  lemma FirstsNext(pages: seq<Page>, batch: seq<Shown>, at: seq<int>, p: Page)
    requires ShowsFirsts(pages, batch, at)
    ensures if p.title != "" && forall q :: q in pages ==> q.title != p.title
            then ShowsFirsts(pages + [p], batch + [AsShown(p)], at + [|pages|])
            else ShowsFirsts(pages + [p], batch, at)
  {
    forall i ensures First(pages + [p], i) <==>
      First(pages, i) || (i == |pages| && p.title != "" && forall q :: q in pages ==> q.title != p.title)
    {
      FirstAppend(pages, p, i);
    }
  }

  /** The batch holds the first page of every title, in the order emitted, and no title twice. */
  lemma {:induction false} BatchIsFirstPages(pages: seq<Page>) returns (at: seq<int>)
    ensures ShowsFirsts(pages, Batch(pages), at)
  {
    if pages == [] {
      at := [];
    } else {
      var n := |pages| - 1;
      var before := BatchIsFirstPages(pages[..n]);
      assert pages == pages[..n] + [pages[n]];
      BatchTitles(pages[..n], pages[n].title);
      FirstsNext(pages[..n], Batch(pages[..n]), before, pages[n]);
      at := if pages[n].title != "" && pages[n].title !in Titles(Batch(pages[..n])) then before + [n] else before;
    }
  }

  lemma TitlesAppend(batch: seq<Shown>, b: Shown)
    ensures Titles(batch + [b]) == Titles(batch) + {b.title}
  {
    assert forall x :: x in batch + [b] <==> x in batch || x == b;
  }

  lemma BatchAppend(pages: seq<Page>, p: Page)
    ensures Batch(pages + [p]) ==
            if p.title != "" && p.title !in Titles(Batch(pages)) then Batch(pages) + [AsShown(p)] else Batch(pages)
  {
    assert (pages + [p])[..|pages|] == pages;
  }

  lemma OneMorePage(before: seq<Page>, pages: seq<Page>, i: nat)
    requires i < |pages|
    ensures before + pages[..i + 1] == before + pages[..i] + [pages[i]]
  {
    assert pages[..i + 1] == pages[..i] + [pages[i]];
  }

  method ExtendBatch(pages: seq<Page>, batch0: seq<Shown>, seen0: set<string>, ghost before: seq<Page>)
    returns (batch: seq<Shown>, seen: set<string>)
    requires batch0 == Batch(before) && seen0 == Titles(batch0)
    ensures batch == Batch(before + pages) && seen == Titles(batch)
  {
    batch, seen := batch0, seen0;
    ghost var all := before;
    assert all == before + pages[..0];
    for i := 0 to |pages|
      invariant all == before + pages[..i]
      invariant batch == Batch(all) && seen == Titles(batch)
    {
      var p := pages[i];
      BatchAppend(all, p);
      if p.title != "" && p.title !in seen {
        TitlesAppend(batch, AsShown(p));
        batch := batch + [AsShown(p)];
        seen := seen + {p.title};
      }
      OneMorePage(before, pages, i);
      all := all + [p];
    }
    assert pages[..|pages|] == pages;
  }

  // ------------------------------------------------------------------
  // The known titles.

  function PathFor(b: Shown): string { "knowledge/" + b.category + "/" + b.stem + ".md" }

  function Known(snapshot: map<string, string>, batch: seq<Shown>): map<string, string> {
    if batch == [] then snapshot
    else
      var b := batch[|batch| - 1];
      var known := Known(snapshot, batch[..|batch| - 1]);
      if b.title in known then known else known[b.title := PathFor(b)]
  }

  lemma {:induction false} KnownTitles(snapshot: map<string, string>, batch: seq<Shown>)
    ensures Known(snapshot, batch).Keys == snapshot.Keys + Titles(batch)
  {
    if batch != [] {
      var n := |batch| - 1;
      KnownTitles(snapshot, batch[..n]);
      assert batch == batch[..n] + [batch[n]];
      TitlesAppend(batch[..n], batch[n]);
    }
  }

  /** Existing pages win. */
  lemma {:induction false} KnownKeepsExisting(snapshot: map<string, string>, batch: seq<Shown>, t: string)
    requires t in snapshot
    ensures t in Known(snapshot, batch) && Known(snapshot, batch)[t] == snapshot[t]
  {
    if batch != [] { KnownKeepsExisting(snapshot, batch[..|batch| - 1], t); }
  }

  /** Every other title has the path of its first batch entry. */
  lemma {:induction false} KnownTakesFirst(snapshot: map<string, string>, batch: seq<Shown>, i: nat)
    requires i < |batch| && batch[i].title !in snapshot && forall j :: 0 <= j < i ==> batch[j].title != batch[i].title
    ensures batch[i].title in Known(snapshot, batch) && Known(snapshot, batch)[batch[i].title] == PathFor(batch[i])
  {
    var n := |batch| - 1;
    if i < n {
      KnownTakesFirst(snapshot, batch[..n], i);
    } else {
      KnownTitles(snapshot, batch[..n]);
    }
  }

  method BuildKnownTitleIndex(snapshot: map<string, string>, batch: seq<Shown>) returns (known: map<string, string>)
    ensures known == Known(snapshot, batch)
  {
    known := snapshot;
    for i := 0 to |batch|
      invariant known == Known(snapshot, batch[..i])
    {
      assert batch[..i + 1][..i] == batch[..i];
      if batch[i].title !in known { known := known[batch[i].title := PathFor(batch[i])]; }
    }
    assert batch[..|batch|] == batch;
  }

  function KnownEntries(known: map<string, string>): Entries { set t | t in known :: (t, known[t]) }

  lemma KnownExact(known: map<string, string>, t: string)
    ensures Exact(KnownEntries(known), t) == if t in known then {known[t]} else {}
  {
    if t in known { assert (t, known[t]) in KnownEntries(known); }
  }

  method BuildFuzzyOver(known: map<string, string>, norms: Norms) returns (index: Index)
    ensures IsFuzzyIndex(index, KnownEntries(known), norms)
  {
    index := map[];
    var left := known.Keys;
    while left != {}
      invariant left <= known.Keys
      invariant IsFuzzyIndex(index, Of(KnownEntries(known), known.Keys - left), norms)
      decreases |left|
    {
      var t :| t in left;
      KnownFuzzyGrows(index, known, known.Keys - left, t, norms);
      assert known.Keys - left + {t} == known.Keys - (left - {t});
      left := left - {t};
      if norms.title(t) != "" { index := AddOnce(index, norms.title(t), known[t]); }
    }
    assert Of(KnownEntries(known), known.Keys - {}) == KnownEntries(known);
  }

  lemma KnownFuzzyGrows(index: Index, known: map<string, string>, done: set<string>, t: string, norms: Norms)
    requires t in known && IsFuzzyIndex(index, Of(KnownEntries(known), done), norms)
    ensures var next := if norms.title(t) != "" then AddOnce(index, norms.title(t), known[t]) else index;
            IsFuzzyIndex(next, Of(KnownEntries(known), done + {t}), norms)
  {
    var next := if norms.title(t) != "" then AddOnce(index, norms.title(t), known[t]) else index;
    KnownExact(known, t);
    FuzzyIndexGrows(index, next, KnownEntries(known), done, t, norms);
  }

  function WikilinkResolves(target: string, known: map<string, string>, fuzzy: Index, norms: Norms): bool {
    if target in known then true
    else
      var key := norms.target(target);
      |if key != "" then Listed(fuzzy, key) else []| == 1
  }

  ghost predicate Resolved(known: map<string, string>, norms: Norms, target: string) {
    exists p :: Means(KnownEntries(known), norms, target, p)
  }

  /** A target counts as satisfied exactly when it means one page of the title map. */
  lemma ResolvesIsExact(target: string, known: map<string, string>, fuzzy: Index, norms: Norms)
    requires IsFuzzyIndex(fuzzy, KnownEntries(known), norms)
    ensures WikilinkResolves(target, known, fuzzy, norms) <==> Resolved(known, norms, target)
  {
    var entries := KnownEntries(known);
    KnownExact(known, target);
    var key := norms.target(target);
    if target in known {
      assert Means(entries, norms, target, known[target]);
    } else if key != "" {
      var cands := Listed(fuzzy, key);
      ListsOne(cands, Candidates(entries, norms, key));
      if |cands| == 1 { assert Means(entries, norms, target, cands[0]); }
    }
  }

  /** Every page of the map is in the graph, which indexes the titles of all layers. */
  ghost predicate KnownIn(known: map<string, string>, entries: Entries) {
    forall t :: t in known ==> (t, known[t]) in entries
  }

  ghost predicate Two(paths: set<string>) { exists p, q :: p in paths && q in paths && p != q }

  /** Two pages share the target as their title, or, if none has it, its normalised form. */
  ghost predicate Crowded(entries: Entries, norms: Norms, target: string) {
    Two(if Exact(entries, target) != {} then Exact(entries, target)
      else Candidates(entries, norms, norms.target(target)))
  }

  /** The base graph sees every document of a title, so it may refuse what this map lets pass:
      a target that counts as satisfied here resolves there exactly when it is not crowded. */
  lemma GraphRefusesCrowded(known: map<string, string>, entries: Entries, norms: Norms, target: string)
    requires KnownIn(known, entries) && Resolved(known, norms, target)
    ensures (exists p :: Means(entries, norms, target, p)) <==> !Crowded(entries, norms, target)
  {
    var few := KnownEntries(known);
    KnownExact(known, target);
    MeansSomePage(few, norms, target);
    MeansSomePage(entries, norms, target);
    if target in known {
      assert (target, known[target]) in entries && known[target] in Exact(entries, target);
    } else {
      FewCandidates(known, entries, norms, norms.target(target));
    }
  }

  /** And it may resolve what this map does not satisfy: then to a document, such as a source,
      that the map does not keep under its title. */
  lemma GraphKnowsMore(known: map<string, string>, entries: Entries, norms: Norms, target: string, p: string)
    returns (title: string)
    requires !Resolved(known, norms, target) && Means(entries, norms, target, p) && KnownIn(known, entries)
    ensures (title, p) in entries && (title !in known || known[title] != p)
    ensures title == target || norms.title(title) == norms.target(target)
  {
    var few, key := KnownEntries(known), norms.target(target);
    KnownExact(known, target);
    MeansSomePage(few, norms, target);
    if Exact(entries, target) == {p} {
      assert p in Exact(entries, target);
      title := target;
      if target in known { assert Means(few, norms, target, known[target]); }
    } else {
      FewCandidates(known, entries, norms, key);
      assert p in Candidates(entries, norms, key);
      var e :| e in entries && norms.title(e.0) == key && e.1 == p;
      title := e.0;
    }
  }

  /** A target means some page iff its titles, or else its candidates, are one path. */
  lemma MeansSomePage(entries: Entries, norms: Norms, target: string)
    ensures (exists p :: Means(entries, norms, target, p)) <==>
            if Exact(entries, target) != {} then !Two(Exact(entries, target))
            else var key := norms.target(target);
                 key != "" && Candidates(entries, norms, key) != {} && !Two(Candidates(entries, norms, key))
  {
    var exact, key := Exact(entries, target), norms.target(target);
    var cands := Candidates(entries, norms, key);
    if p :| p in exact && !Two(exact) {
      assert exact == {p} && Means(entries, norms, target, p);
    } else if exact == {} && key != "" && !Two(cands) {
      if p :| p in cands { assert cands == {p} && Means(entries, norms, target, p); }
    }
    if p :| Means(entries, norms, target, p) {
      assert exact == {p} || cands == {p};
    }
  }

  lemma FewCandidates(known: map<string, string>, entries: Entries, norms: Norms, key: string)
    requires KnownIn(known, entries)
    ensures Candidates(KnownEntries(known), norms, key) <= Candidates(entries, norms, key)
    ensures forall t :: t in known && norms.title(t) == key ==> known[t] in Candidates(KnownEntries(known), norms, key)
  {
    forall t | t in known && norms.title(t) == key ensures known[t] in Candidates(KnownEntries(known), norms, key) {
      assert (t, known[t]) in KnownEntries(known);
    }
  }

  // ------------------------------------------------------------------
  // Wanted targets.

  ghost predicate Links(p: Page, t: string) { exists l :: l in p.links && l.kind.Wiki? && l.target == t }

  /** The page links to a title that could be created and that no known page satisfies. */
  ghost predicate Wants(p: Page, t: string, known: map<string, string>, norms: Norms) {
    Links(p, t) && norms.target(t) != "" && !Resolved(known, norms, t)
  }

  method UnresolvedTargets(p: Page, known: map<string, string>, fuzzy: Index, norms: Norms) returns (out: seq<string>)
    requires IsFuzzyIndex(fuzzy, KnownEntries(known), norms)
    ensures forall t :: t in out <==> Wants(p, t, known, norms)
  {
    out := [];
    for i := 0 to |p.links|
      invariant forall t :: t in out <==> Wants(p.(links := p.links[..i]), t, known, norms)
    {
      var l := p.links[i];
      ghost var was := out;
      ResolvesIsExact(l.target, known, fuzzy, norms);
      if l.kind.Wiki? && norms.target(l.target) != "" && !WikilinkResolves(l.target, known, fuzzy, norms) {
        out := out + [l.target];
      }
      forall t ensures Links(p.(links := p.links[..i + 1]), t) <==>
        Links(p.(links := p.links[..i]), t) || (l.kind.Wiki? && l.target == t)
      {
        LinksAppend(p, i, t);
      }
    }
    assert p.(links := p.links[..|p.links|]) == p;
  }

  lemma LinksAppend(p: Page, i: nat, t: string)
    requires i < |p.links|
    ensures Links(p.(links := p.links[..i + 1]), t) <==>
            Links(p.(links := p.links[..i]), t) || (p.links[i].kind.Wiki? && p.links[i].target == t)
  {
    assert p.links[..i + 1] == p.links[..i] + [p.links[i]];
    assert p.links[i] in p.links[..i + 1];
  }

  ghost function PagesWanting(pages: seq<Page>, t: string, known: map<string, string>, norms: Norms): nat {
    if pages == [] then 0
    else
      PagesWanting(pages[..|pages| - 1], t, known, norms) + if Wants(pages[|pages| - 1], t, known, norms) then 1 else 0
  }

  function CountOf(counts: map<string, nat>, t: string): nat { if t in counts then counts[t] else 0 }

  ghost predicate Positive(counts: map<string, nat>) { forall t :: t in counts ==> counts[t] > 0 }

  /** Each of a page's targets counts once, however often the page repeats it. */
  method CountTargets(targets: seq<string>, counts0: map<string, nat>) returns (counts: map<string, nat>)
    requires Positive(counts0)
    ensures Positive(counts)
    ensures forall t :: CountOf(counts, t) == CountOf(counts0, t) + if t in targets then 1 else 0
  {
    counts := counts0;
    var left := set t | t in targets;
    ghost var done: set<string> := {};
    while left != {}
      invariant Positive(counts)
      invariant forall t :: t in targets <==> t in left || t in done
      invariant left !! done
      invariant forall t :: CountOf(counts, t) == CountOf(counts0, t) + if t in done then 1 else 0
      decreases |left|
    {
      var t :| t in left;
      left := left - {t};
      done := done + {t};
      counts := counts[t := CountOf(counts, t) + 1];
    }
  }

  method CountUnresolved(pages: seq<Page>, known: map<string, string>, fuzzy: Index, norms: Norms,
      counts0: map<string, nat>) returns (counts: map<string, nat>)
    requires IsFuzzyIndex(fuzzy, KnownEntries(known), norms) && Positive(counts0)
    ensures Positive(counts)
    ensures forall t :: CountOf(counts, t) == CountOf(counts0, t) + PagesWanting(pages, t, known, norms)
  {
    counts := counts0;
    for i := 0 to |pages|
      invariant Positive(counts)
      invariant forall t :: CountOf(counts, t) == CountOf(counts0, t) + PagesWanting(pages[..i], t, known, norms)
    {
      var targets := UnresolvedTargets(pages[i], known, fuzzy, norms);
      counts := CountTargets(targets, counts);
      assert pages[..i + 1][..i] == pages[..i];
    }
    assert pages[..|pages|] == pages;
  }

  // ------------------------------------------------------------------
  // What the next prompt surfaces.

  /** Most wanted first, no title twice. */
  ghost predicate Ranked(wishes: seq<Wish>) {
    forall i, j :: 0 <= i < j < |wishes| ==> wishes[i].count >= wishes[j].count && wishes[i].title != wishes[j].title
  }

  predicate Listing(wishes: seq<Wish>, t: string) { exists i :: 0 <= i < |wishes| && wishes[i].title == t }

  /** `pending` is the most wanted of the targets that no known page satisfies: nothing left
      out is wanted more than anything listed, and nothing is left out while there is room. */
  ghost predicate MostWanted(pending: seq<Wish>, count: string -> nat, known: map<string, string>, norms: Norms) {
    && |pending| <= PRIORITY_TARGETS_TOP_K && Ranked(pending)
    && (forall x :: x in pending ==> x.count == count(x.title) > 0 && !Resolved(known, norms, x.title))
    && (forall t :: count(t) > 0 && !Resolved(known, norms, t) && !Listing(pending, t) ==>
          |pending| == PRIORITY_TARGETS_TOP_K && forall x :: x in pending ==> x.count >= count(t))
  }

  method StillPending(order: seq<string>, counts: map<string, nat>, known: map<string, string>, fuzzy: Index,
      norms: Norms) returns (all: seq<Wish>)
    requires Distinct(order) && forall t :: t in order <==> t in counts
    requires forall i, j :: 0 <= i < j < |order| ==> counts[order[i]] >= counts[order[j]]
    ensures Ranked(all)
    ensures forall t :: Listing(all, t) <==> t in counts && !WikilinkResolves(t, known, fuzzy, norms)
    ensures forall x :: x in all ==> x.title in counts && x.count == counts[x.title]
  {
    all := [];
    for k := 0 to |order|
      invariant Ranked(all)
      invariant forall t :: Listing(all, t) <==> t in order[..k] && !WikilinkResolves(t, known, fuzzy, norms)
      invariant forall x :: x in all ==> x.title in order[..k] && x.title in counts && x.count == counts[x.title]
    {
      var t := order[k];
      assert t in counts;
      assert order[..k + 1] == order[..k] + [t];
      if !WikilinkResolves(t, known, fuzzy, norms) {
        ListingAppend(all, Wish(t, counts[t]));
        StaysRanked(all, order, counts, k);
        all := all + [Wish(t, counts[t])];
      }
    }
    assert order[..|order|] == order;
  }

  lemma ListingAppend(all: seq<Wish>, x: Wish)
    ensures forall t :: Listing(all + [x], t) <==> Listing(all, t) || t == x.title
  {
    forall t ensures Listing(all + [x], t) <==> Listing(all, t) || t == x.title {
      assert (all + [x])[|all|] == x;
      if Listing(all, t) {
        var i :| 0 <= i < |all| && all[i].title == t;
        assert (all + [x])[i].title == t;
      }
    }
  }

  lemma StaysRanked(all: seq<Wish>, order: seq<string>, counts: map<string, nat>, k: nat)
    requires k < |order| && Ranked(all) && Distinct(order) && forall t :: t in order ==> t in counts
    requires forall i, j :: 0 <= i < j < |order| ==> counts[order[i]] >= counts[order[j]]
    requires forall x :: x in all ==> x.title in order[..k] && x.count == counts[x.title]
    ensures Ranked(all + [Wish(order[k], counts[order[k]])])
  {
    forall i | 0 <= i < |all| ensures all[i].count >= counts[order[k]] && all[i].title != order[k] {
      assert all[i] in all;
      var j :| 0 <= j < k && order[j] == all[i].title;
    }
  }

  /** The counted targets, most wanted first. */
  method MostCommon(counts: map<string, nat>) returns (order: seq<string>)
    ensures Distinct(order) && forall t :: t in order <==> t in counts
    ensures forall i, j :: 0 <= i < j < |order| ==> counts[order[i]] >= counts[order[j]]
  {
    var ranks := map t | t in counts :: -(counts[t] as real);
    order := Sorting.SortByValue(ranks);
    forall i, j | 0 <= i < j < |order| ensures counts[order[i]] >= counts[order[j]] {
      assert order[i] in ranks && order[j] in ranks;
      assert ranks[order[i]] <= ranks[order[j]];
    }
  }

  method PickPriority(counts: map<string, nat>, known: map<string, string>, fuzzy: Index, norms: Norms)
    returns (pending: seq<Wish>)
    requires IsFuzzyIndex(fuzzy, KnownEntries(known), norms) && Positive(counts)
    ensures MostWanted(pending, t => CountOf(counts, t), known, norms)
  {
    var order := MostCommon(counts);
    var all := StillPending(order, counts, known, fuzzy, norms);
    pending := if |all| > PRIORITY_TARGETS_TOP_K then all[..PRIORITY_TARGETS_TOP_K] else all;
    forall t ensures Listing(all, t) <==> CountOf(counts, t) > 0 && !Resolved(known, norms, t) {
      ResolvesIsExact(t, known, fuzzy, norms);
    }
    TopIsMostWanted(all, t => CountOf(counts, t), known, norms);
  }

  lemma TopIsMostWanted(all: seq<Wish>, count: string -> nat, known: map<string, string>, norms: Norms)
    requires Ranked(all) && forall x :: x in all ==> x.count == count(x.title)
    requires forall t :: Listing(all, t) <==> count(t) > 0 && !Resolved(known, norms, t)
    ensures MostWanted(if |all| > PRIORITY_TARGETS_TOP_K then all[..PRIORITY_TARGETS_TOP_K] else all, count,
            known, norms)
  {
    var pending := if |all| > PRIORITY_TARGETS_TOP_K then all[..PRIORITY_TARGETS_TOP_K] else all;
    forall x | x in pending ensures x.count == count(x.title) > 0 && !Resolved(known, norms, x.title) {
      var i :| 0 <= i < |pending| && pending[i] == x;
      assert all[i] == x;
      assert Listing(all, x.title);
    }
    forall t | Listing(all, t) && !Listing(pending, t)
      ensures |pending| == PRIORITY_TARGETS_TOP_K && forall x :: x in pending ==> x.count >= count(t)
    {
      TailIsLess(all, pending, count, t);
    }
  }

  lemma TailIsLess(all: seq<Wish>, pending: seq<Wish>, count: string -> nat, t: string)
    requires Ranked(all) && (forall x :: x in all ==> x.count == count(x.title)) && Listing(all, t) &&
             !Listing(pending, t)
    requires pending <= all
    ensures |pending| < |all| && forall x :: x in pending ==> x.count >= count(t)
  {
    var j :| 0 <= j < |all| && all[j].title == t;
    assert all[j] in all;
    assert forall i :: 0 <= i < |pending| ==> pending[i] == all[i];
    forall x | x in pending ensures x.count >= count(t) {
      var i :| 0 <= i < |pending| && pending[i] == x;
      assert all[i] == x;
    }
  }

  // ------------------------------------------------------------------
  // The loop over the groups.

  function Flatten(history: seq<seq<Page>>): seq<Page> {
    if history == [] then [] else Flatten(history[..|history| - 1]) + history[|history| - 1]
  }

  /** The titles known once the groups of `history` have answered. */
  function KnownAfter(snapshot: map<string, string>, history: seq<seq<Page>>): map<string, string> {
    Known(snapshot, Batch(Flatten(history)))
  }

  /** How many pages wanted `t` while it was unsatisfied after their own group. */
  ghost function Wanting(history: seq<seq<Page>>, snapshot: map<string, string>, norms: Norms, t: string): nat {
    if history == [] then 0
    else
      var n := |history| - 1;
      Wanting(history[..n], snapshot, norms, t) + PagesWanting(history[n], t, KnownAfter(snapshot, history), norms)
  }

  ghost predicate IsPrompt(prompt: Prompt, history: seq<seq<Page>>, snapshot: map<string, string>, norms: Norms) {
    && prompt.batch == Batch(Flatten(history))
    && MostWanted(prompt.priority, t => Wanting(history, snapshot, norms, t), KnownAfter(snapshot, history), norms)
  }

  /** The loop's memory after the groups of `history`. */
  datatype Memory = Memory(batch: seq<Shown>, seen: set<string>, counts: map<string, nat>)

  ghost predicate Remembers(m: Memory, history: seq<seq<Page>>, snapshot: map<string, string>, norms: Norms) {
    && m.batch == Batch(Flatten(history)) && m.seen == Titles(m.batch)
    && Positive(m.counts) && forall t :: CountOf(m.counts, t) == Wanting(history, snapshot, norms, t)
  }

  method PromptFor(g: nat, m: Memory, snapshot: map<string, string>, norms: Norms, ghost history: seq<seq<Page>>)
    returns (prompt: Prompt)
    requires |history| == g && Remembers(m, history, snapshot, norms)
    ensures IsPrompt(prompt, history, snapshot, norms)
  {
    var pending: seq<Wish> := [];
    if g >= 1 && m.counts != map[] {
      var known := BuildKnownTitleIndex(snapshot, m.batch);
      var fuzzy := BuildFuzzyOver(known, norms);
      pending := PickPriority(m.counts, known, fuzzy, norms);
    } else {
      forall t ensures Wanting(history, snapshot, norms, t) == 0 {
        assert CountOf(m.counts, t) == Wanting(history, snapshot, norms, t);
      }
    }
    prompt := Prompt(m.batch, pending);
  }

  method Remember(m0: Memory, pages: seq<Page>, snapshot: map<string, string>, norms: Norms,
      ghost history: seq<seq<Page>>) returns (m: Memory)
    requires Remembers(m0, history, snapshot, norms)
    ensures Remembers(m, history + [pages], snapshot, norms)
  {
    ghost var grown := history + [pages];
    assert grown[..|history|] == history;
    var batch, seen := ExtendBatch(pages, m0.batch, m0.seen, Flatten(history));
    var known := BuildKnownTitleIndex(snapshot, batch);
    var fuzzy := BuildFuzzyOver(known, norms);
    var counts := CountUnresolved(pages, known, fuzzy, norms, m0.counts);
    m := Memory(batch, seen, counts);
  }

  lemma EmptyReplyRemembered(m: Memory, snapshot: map<string, string>, norms: Norms, history: seq<seq<Page>>)
    requires Remembers(m, history, snapshot, norms)
    ensures Remembers(m, history + [[]], snapshot, norms)
  {
    assert (history + [[]])[..|history|] == history;
    assert Flatten(history + [[]]) == Flatten(history);
  }

  /** Group `g` ran to its end with this outcome and these pages. */
  ghost predicate Ran(w: World, g: nat, retries: nat, outcome: SynthRun.GroupOutcome, pages: seq<Page>) {
    && !w.cancelled(g, 0)
    && exists r, calls :: Ends(w, g, retries, r, calls) && !r.Raised? && OutcomeOf(r) == outcome && PagesOf(r) == pages
  }

  ghost predicate Stops(w: World, g: nat, retries: nat) {
    w.cancelled(g, 0) || exists calls :: Ends(w, g, retries, Raised, calls)
  }

  /** One of the first `total` groups stops the source. */
  ghost predicate AnyStops(w: World, total: nat, retries: nat) {
    total > 0 && (AnyStops(w, total - 1, retries) || Stops(w, total - 1, retries))
  }

  lemma {:induction false} AnyStopsMeans(w: World, total: nat, retries: nat)
    ensures AnyStops(w, total, retries) <==> exists g :: 0 <= g < total && Stops(w, g, retries)
  {
    if total > 0 { AnyStopsMeans(w, total - 1, retries); }
  }

  lemma {:induction false} AnyStopsGrows(w: World, some: nat, total: nat, retries: nat)
    requires some <= total && AnyStops(w, some, retries)
    ensures AnyStops(w, total, retries)
    decreases total
  {
    if some < total { AnyStopsGrows(w, some, total - 1, retries); }
  }

  ghost predicate SourceRan(w: World, retries: nat, out: SourceOutcome, history: seq<seq<Page>>,
      snapshot: map<string, string>, norms: Norms)
  {
    && |out.groups| == |out.prompts| == |history|
    && out.pages == Flatten(history)
    && out.parseErrors == SynthRun.ParseErrors(out.groups)
    && (forall g :: 0 <= g < |history| ==> Ran(w, g, retries, out.groups[g], history[g]))
    && (forall g :: 0 <= g < |history| ==> IsPrompt(out.prompts[g], history[..g], snapshot, norms))
  }

  /** The loop's outcome and memory are those of the groups of `history`. */
  ghost predicate Sound(w: World, retries: nat, state: (SourceOutcome, Memory), history: seq<seq<Page>>,
      snapshot: map<string, string>, norms: Norms)
  {
    SourceRan(w, retries, state.0, history, snapshot, norms) && Remembers(state.1, history, snapshot, norms)
  }

  /** One group: its prompt, its call, and what the loop remembers of the answer. */
  method RunGroup(w: World, g: nat, retries: nat, out: SourceOutcome, m: Memory, snapshot: map<string, string>,
      norms: Norms, ghost history: seq<seq<Page>>)
      returns (next: Option<(SourceOutcome, Memory)>, ghost pages: seq<Page>)
    requires |history| == g && Sound(w, retries, (out, m), history, snapshot, norms)
    ensures next.None? <==> Stops(w, g, retries)
    ensures next.Some? ==> Sound(w, retries, next.value, history + [pages], snapshot, norms)
  {
    if w.cancelled(g, 0) { return None, []; }
    var prompt := PromptFor(g, m, snapshot, norms, history);
    var r, calls := Complete(w, g, retries);
    if r.Raised? { return None, []; }
    pages := PagesOf(r);
    RunsOrStops(w, g, retries, r, calls);
    GroupRan(w, retries, out, history, snapshot, norms, OutcomeOf(r), pages, prompt);
    var after := m;
    if r.Got? && !r.reply.Unparsable? {
      after := Remember(m, PagesOf(r), snapshot, norms, history);
    } else {
      EmptyReplyRemembered(m, snapshot, norms, history);
    }
    next := Some((Extend(out, OutcomeOf(r), PagesOf(r), prompt), after));
  }

  /** One source, group by group. An error that is not transient, or a cancellation, leaves
      no outcome; anything else yields one outcome and one prompt per group. */
  method SynthPagesFromSource(total: nat, snapshot: map<string, string>, norms: Norms, w: World, retries: nat)
    returns (result: Option<SourceOutcome>, ghost history: seq<seq<Page>>)
    ensures result.Some? ==> |history| == total && SourceRan(w, retries, result.value, history, snapshot, norms)
    ensures result.None? <==> AnyStops(w, total, retries)
  {
    var out := SourceOutcome([], [], 0, []);
    var m := Memory([], {}, map[]);
    history := [];
    NothingYet(w, retries, snapshot, norms);
    for g := 0 to total
      invariant |history| == g && !AnyStops(w, g, retries)
      invariant Sound(w, retries, (out, m), history, snapshot, norms)
    {
      var next, pages := RunGroup(w, g, retries, out, m, snapshot, norms, history);
      if next.None? {
        AnyStopsGrows(w, g + 1, total, retries);
        return None, history;
      }
      out, m := next.value.0, next.value.1;
      history := history + [pages];
    }
    result := Some(out);
  }

  lemma NothingYet(w: World, retries: nat, snapshot: map<string, string>, norms: Norms)
    ensures SourceRan(w, retries, SourceOutcome([], [], 0, []), [], snapshot, norms)
    ensures Remembers(Memory([], {}, map[]), [], snapshot, norms)
  {
  }

  function Extend(out: SourceOutcome, outcome: SynthRun.GroupOutcome, pages: seq<Page>, prompt: Prompt): SourceOutcome {
    SourceOutcome(out.pages + pages, out.groups + [outcome],
                  out.parseErrors + (if SynthRun.NeedsRetry(outcome) then 1 else 0), out.prompts + [prompt])
  }

  lemma RunsOrStops(w: World, g: nat, retries: nat, r: CallResult, calls: nat)
    requires !w.cancelled(g, 0) && Ends(w, g, retries, r, calls) && !r.Raised?
    ensures Ran(w, g, retries, OutcomeOf(r), PagesOf(r)) && !Stops(w, g, retries)
  {
    if c :| Ends(w, g, retries, Raised, c) { EndsOnce(w, g, retries, r, calls, Raised, c); }
  }

  lemma RanSoFar(w: World, retries: nat, groups: seq<SynthRun.GroupOutcome>, history: seq<seq<Page>>,
      outcome: SynthRun.GroupOutcome, pages: seq<Page>)
    requires |groups| == |history| && forall g :: 0 <= g < |history| ==> Ran(w, g, retries, groups[g], history[g])
    requires Ran(w, |history|, retries, outcome, pages)
    ensures forall g :: 0 <= g <= |history| ==> Ran(w, g, retries, (groups + [outcome])[g], (history + [pages])[g])
  {
  }

  lemma PromptsSoFar(prompts: seq<Prompt>, history: seq<seq<Page>>, snapshot: map<string, string>, norms: Norms,
      prompt: Prompt, pages: seq<Page>)
    requires |prompts| == |history| && forall g :: 0 <= g < |history| ==>
             IsPrompt(prompts[g], history[..g], snapshot, norms)
    requires IsPrompt(prompt, history, snapshot, norms)
    ensures forall g :: 0 <= g <= |history| ==>
            IsPrompt((prompts + [prompt])[g], (history + [pages])[..g], snapshot, norms)
  {
    forall g | 0 <= g <= |history|
      ensures IsPrompt((prompts + [prompt])[g], (history + [pages])[..g], snapshot, norms)
    {
      assert (history + [pages])[..g] == history[..g];
      assert history[..|history|] == history;
    }
  }

  lemma GroupRan(w: World, retries: nat, out: SourceOutcome, history: seq<seq<Page>>, snapshot: map<string, string>,
      norms: Norms, outcome: SynthRun.GroupOutcome, pages: seq<Page>, prompt: Prompt)
    requires SourceRan(w, retries, out, history, snapshot, norms)
    requires Ran(w, |history|, retries, outcome, pages) && IsPrompt(prompt, history, snapshot, norms)
    ensures SourceRan(w, retries, Extend(out, outcome, pages, prompt), history + [pages], snapshot, norms)
  {
    assert (history + [pages])[..|history|] == history;
    ParseErrorsAppend(out.groups, outcome);
    RanSoFar(w, retries, out.groups, history, outcome, pages);
    PromptsSoFar(out.prompts, history, snapshot, norms, prompt, pages);
  }

  lemma ParseErrorsAppend(groups: seq<SynthRun.GroupOutcome>, g: SynthRun.GroupOutcome)
    ensures SynthRun.ParseErrors(groups + [g]) == SynthRun.ParseErrors(groups) + if SynthRun.NeedsRetry(g) then 1 else 0
  {
    if groups != [] {
      assert (groups + [g])[1..] == groups[1..] + [g];
      ParseErrorsAppend(groups[1..], g);
    }
  }
}

/** One page per path: the merge of a source's pages before they are written, and the view
    of a run's pages that the self-check takes. */
module PageDedup {
  import opened Sequences

  datatype Page = Page(path: string, title: string, body: string, tags: seq<string>, sources: seq<string>)

  datatype Strategy = MergeBody | KeepFirst

  /** Whitespace trimming at a body's end and at its start. */
  datatype Trims = Trims(right: string -> string, left: string -> string)

  function Merge(first: Page, p: Page, strategy: Strategy, trims: Trims): Page {
    if strategy.KeepFirst? then first
    else first.(body := trims.right(first.body) + "\n\n---\n\n" + trims.left(p.body),
                tags := first.tags + Absent(p.tags, first.tags),
                sources := first.sources + Absent(p.sources, first.sources))
  }

  // ------------------------------------------------------------------
  // What the merge of one path is, path by path.

  /** The pages of one path, in order. */
  function OfPath(pages: seq<Page>, path: string): seq<Page> {
    if pages == [] then []
    else OfPath(pages[..|pages| - 1], path) + if pages[|pages| - 1].path == path then [pages[|pages| - 1]] else []
  }

  lemma {:induction false} OfPathMeans(pages: seq<Page>, path: string)
    ensures forall p :: p in OfPath(pages, path) <==> p in pages && p.path == path
  {
    if pages != [] {
      OfPathMeans(pages[..|pages| - 1], path);
      assert pages == pages[..|pages| - 1] + [pages[|pages| - 1]];
    }
  }

  /** A group of pages folded into its first. */
  function Fold(group: seq<Page>, strategy: Strategy, trims: Trims): Page
    requires group != []
  {
    if |group| == 1 then group[0]
      else Merge(Fold(group[..|group| - 1], strategy, trims), group[|group| - 1], strategy, trims)
  }

  /** The paths in the order they first appear. */
  function Paths(pages: seq<Page>): seq<string> {
    if pages == [] then []
    else
      var before := Paths(pages[..|pages| - 1]);
      var path := pages[|pages| - 1].path;
      if path in before then before else before + [path]
  }

  lemma {:induction false} PathsMeans(pages: seq<Page>)
    ensures forall path :: path in Paths(pages) <==> exists p :: p in pages && p.path == path
    ensures forall i, j :: 0 <= i < j < |Paths(pages)| ==> Paths(pages)[i] != Paths(pages)[j]
  {
    if pages != [] {
      PathsMeans(pages[..|pages| - 1]);
      assert pages == pages[..|pages| - 1] + [pages[|pages| - 1]];
    }
  }

  ghost predicate FirstSeen(pages: seq<Page>, i: nat, path: string) {
    i < |pages| && pages[i].path == path && forall j :: 0 <= j < i ==> pages[j].path != path
  }

  /** They come in the order of their first pages. */
  lemma {:induction false} PathsByAppearance(pages: seq<Page>) returns (at: seq<nat>)
    ensures |at| == |Paths(pages)| && forall k :: 0 <= k < |at| ==> FirstSeen(pages, at[k], Paths(pages)[k])
    ensures forall k, l :: 0 <= k < l < |at| ==> at[k] < at[l]
  {
    at := [];
    if pages != [] {
      var n := |pages| - 1;
      var front := PathsByAppearance(pages[..n]);
      PathsMeans(pages[..n]);
      forall k | 0 <= k < |front| ensures FirstSeen(pages, front[k], Paths(pages[..n])[k]) {
        assert FirstSeen(pages[..n], front[k], Paths(pages[..n])[k]);
      }
      at := if pages[n].path in Paths(pages[..n]) then front else front + [n];
      if pages[n].path !in Paths(pages[..n]) {
        forall j | 0 <= j < n ensures pages[j].path != pages[n].path { assert pages[..n][j] in pages[..n]; }
      }
    }
  }

  lemma PathHasPages(pages: seq<Page>, path: string)
    ensures OfPath(pages, path) != [] <==> path in Paths(pages)
  {
    PathsMeans(pages);
    OfPathMeans(pages, path);
    if OfPath(pages, path) != [] { assert OfPath(pages, path)[0] in OfPath(pages, path); }
  }

  ghost predicate IsDedup(out: seq<Page>, pages: seq<Page>, strategy: Strategy, trims: Trims) {
    && |out| == |Paths(pages)|
    && forall i :: 0 <= i < |out| ==>
         OfPath(pages, Paths(pages)[i]) != [] && out[i] == Fold(OfPath(pages, Paths(pages)[i]), strategy, trims)
  }

  ghost predicate SeenSoFar(seen: map<string, Page>, pages: seq<Page>, strategy: Strategy, trims: Trims) {
    forall path :: (path in seen <==> OfPath(pages, path) != []) &&
                   (path in seen ==> seen[path] == Fold(OfPath(pages, path), strategy, trims))
  }

  lemma FoldNext(pages: seq<Page>, p: Page, path: string, strategy: Strategy, trims: Trims)
    ensures OfPath(pages + [p], path) == if p.path == path then OfPath(pages, path) + [p] else OfPath(pages, path)
    ensures p.path == path ==>
              Fold(OfPath(pages + [p], path), strategy, trims) ==
              if OfPath(pages, path) == [] then p
                else Merge(Fold(OfPath(pages, path), strategy, trims), p, strategy, trims)
  {
    assert (pages + [p])[..|pages|] == pages;
    var group := OfPath(pages, path);
    if p.path == path { assert (group + [p])[..|group|] == group; }
  }

  function See(seen: map<string, Page>, p: Page, strategy: Strategy, trims: Trims): map<string, Page> {
    seen[p.path := if p.path in seen then Merge(seen[p.path], p, strategy, trims) else p]
  }

  lemma SeenNext(seen: map<string, Page>, pages: seq<Page>, p: Page, strategy: Strategy, trims: Trims)
    requires SeenSoFar(seen, pages, strategy, trims)
    ensures SeenSoFar(See(seen, p, strategy, trims), pages + [p], strategy, trims)
  {
    var next := See(seen, p, strategy, trims);
    forall path ensures (path in next <==> OfPath(pages + [p], path) != []) &&
                        (path in next ==> next[path] == Fold(OfPath(pages + [p], path), strategy, trims)) {
      FoldNext(pages, p, path, strategy, trims);
      assert path in seen <==> OfPath(pages, path) != [];
    }
  }

  method DedupPagesBySlug(pages: seq<Page>, strategy: Strategy, trims: Trims) returns (out: seq<Page>)
    ensures IsDedup(out, pages, strategy, trims)
  {
    var seen: map<string, Page> := map[];
    var order: seq<string> := [];
    for i := 0 to |pages|
      invariant order == Paths(pages[..i]) && SeenSoFar(seen, pages[..i], strategy, trims)
    {
      var p := pages[i];
      assert pages[..i + 1] == pages[..i] + [p] && pages[..i + 1][..i] == pages[..i];
      PathHasPages(pages[..i], p.path);
      SeenNext(seen, pages[..i], p, strategy, trims);
      if p.path !in seen { order := order + [p.path]; }
      seen := See(seen, p, strategy, trims);
    }
    assert pages[..|pages|] == pages;
    out := InOrder(order, seen, pages, strategy, trims);
  }

  method InOrder(order: seq<string>, seen: map<string, Page>, ghost pages: seq<Page>, ghost strategy: Strategy,
      ghost trims: Trims) returns (out: seq<Page>)
    requires order == Paths(pages) && SeenSoFar(seen, pages, strategy, trims)
    ensures IsDedup(out, pages, strategy, trims)
  {
    out := [];
    for i := 0 to |order|
      invariant |out| == i && forall j :: 0 <= j < i ==> order[j] in seen && out[j] == seen[order[j]]
    {
      PathHasPages(pages, order[i]);
      out := out + [seen[order[i]]];
    }
  }

  /** Merging loses no attribution: each source and tag of each page is on the page of its
      path, and nothing else is. */
  lemma {:induction false} FoldKeepsSources(group: seq<Page>, trims: Trims, x: string)
    requires group != []
    ensures x in Fold(group, MergeBody, trims).sources <==> exists p :: p in group && x in p.sources
    ensures x in Fold(group, MergeBody, trims).tags <==> exists p :: p in group && x in p.tags
    ensures Fold(group, MergeBody, trims).path == group[0].path && Fold(group, MergeBody, trims).title == group[0].title
  {
    var n := |group| - 1;
    assert group == group[..n] + [group[n]];
    if n == 0 {
      assert group[0] in group;
    } else {
      FoldKeepsSources(group[..n], trims, x);
      var first := Fold(group[..n], MergeBody, trims);
      AbsentMeans(group[n].sources, first.sources);
      AbsentMeans(group[n].tags, first.tags);
    }
  }

  /** Each page appends the tags and sources that the pages before it have not. */
  lemma FoldGrows(group: seq<Page>, p: Page, trims: Trims)
    requires group != []
    ensures var before, after := Fold(group, MergeBody, trims), Fold(group + [p], MergeBody, trims);
            && after.tags == before.tags + Absent(p.tags, before.tags)
            && after.sources == before.sources + Absent(p.sources, before.sources)
  {
    assert (group + [p])[..|group|] == group;
  }

  // ------------------------------------------------------------------
  // Bodies.

  /** The characters of a text that trimming can never take. */
  function Ink(text: string, blank: char -> bool): string {
    if text == "" then ""
    else Ink(text[..|text| - 1], blank) + if blank(text[|text| - 1]) then "" else [text[|text| - 1]]
  }

  /** Trimming takes blanks only. */
  ghost predicate TrimBlanks(trims: Trims, blank: char -> bool) {
    && (forall s :: Ink(trims.right(s), blank) == Ink(s, blank))
    && (forall s :: Ink(trims.left(s), blank) == Ink(s, blank))
  }

  lemma {:induction false} InkConcat(a: string, b: string, blank: char -> bool)
    ensures Ink(a + b, blank) == Ink(a, blank) + Ink(b, blank)
  {
    if b == "" {
      assert a + b == a;
    } else {
      assert (a + b)[..|a + b| - 1] == a + b[..|b| - 1];
      InkConcat(a, b[..|b| - 1], blank);
    }
  }

  /** The group's bodies one after the other, a rule between each two. */
  function AllInk(group: seq<Page>, blank: char -> bool): string
    requires group != []
  {
    var last := Ink(group[|group| - 1].body, blank);
    if |group| == 1 then last else AllInk(group[..|group| - 1], blank) + "---" + last
  }

  lemma InkOfOne(c: char, blank: char -> bool)
    ensures Ink([c], blank) == if blank(c) then "" else [c]
  {
    assert [c][..0] == "";
  }

  lemma InkOfBreaks(blank: char -> bool)
    requires blank('\n')
    ensures Ink("\n\n", blank) == ""
  {
    InkOfOne('\n', blank);
    InkConcat(['\n'], ['\n'], blank);
    assert "\n\n" == ['\n'] + ['\n'];
  }

  lemma InkOfDashes(blank: char -> bool)
    requires !blank('-')
    ensures Ink("---", blank) == "---"
  {
    InkOfOne('-', blank);
    InkConcat(['-'], ['-'], blank);
    InkConcat(['-'] + ['-'], ['-'], blank);
    assert "---" == ['-'] + ['-'] + ['-'];
  }

  lemma InkOfRule(rule: string, blank: char -> bool)
    requires blank('\n') && !blank('-') && rule == "\n\n---\n\n"
    ensures Ink(rule, blank) == "---"
  {
    InkOfBreaks(blank);
    InkOfDashes(blank);
    InkConcat("\n\n", "---", blank);
    InkConcat("\n\n" + "---", "\n\n", blank);
    assert rule == "\n\n" + "---" + "\n\n";
  }

  lemma InkJoined(a: string, rule: string, b: string, blank: char -> bool)
    ensures Ink(a + rule + b, blank) == Ink(a, blank) + Ink(rule, blank) + Ink(b, blank)
  {
    InkConcat(a + rule, b, blank);
    InkConcat(a, rule, blank);
  }

  /** A merge loses no text: the merged body has the ink of every page of the path, in order. */
  lemma {:induction false} FoldKeepsText(group: seq<Page>, trims: Trims, blank: char -> bool)
    requires group != [] && TrimBlanks(trims, blank) && blank('\n') && !blank('-')
    ensures Ink(Fold(group, MergeBody, trims).body, blank) == AllInk(group, blank)
  {
    var n := |group| - 1;
    if n > 0 {
      FoldKeepsText(group[..n], trims, blank);
      var first, p, rule := Fold(group[..n], MergeBody, trims), group[n], "\n\n---\n\n";
      InkOfRule(rule, blank);
      InkJoined(trims.right(first.body), rule, trims.left(p.body), blank);
    }
  }

  /** Where only the first is kept it is kept whole. */
  lemma {:induction false} KeepFirstKeepsIt(group: seq<Page>, trims: Trims)
    requires group != []
    ensures Fold(group, KeepFirst, trims) == group[0]
  {
    if |group| > 1 { KeepFirstKeepsIt(group[..|group| - 1], trims); }
  }

  lemma DedupKeepsAttribution(out: seq<Page>, pages: seq<Page>, trims: Trims, p: Page, x: string) returns (i: nat)
    requires IsDedup(out, pages, MergeBody, trims) && p in pages && x in p.sources
    ensures i < |out| && out[i].path == p.path && x in out[i].sources
  {
    PathsMeans(pages);
    OfPathMeans(pages, p.path);
    var path := p.path;
    assert path in Paths(pages);
    i :| 0 <= i < |Paths(pages)| && Paths(pages)[i] == path;
    FoldKeepsSources(OfPath(pages, path), trims, x);
    assert OfPath(pages, path)[0] in OfPath(pages, path);
  }

  /** No two pages of the result share a path, so no write overwrites another. */
  lemma DedupPathsAreDistinct(out: seq<Page>, pages: seq<Page>, strategy: Strategy, trims: Trims)
    requires IsDedup(out, pages, strategy, trims)
    ensures forall i, j :: 0 <= i < j < |out| ==> out[i].path != out[j].path
  {
    PathsMeans(pages);
    forall i | 0 <= i < |out| ensures out[i].path == Paths(pages)[i] {
      var group := OfPath(pages, Paths(pages)[i]);
      OfPathMeans(pages, Paths(pages)[i]);
      FoldPath(group, strategy, trims);
      assert group[0] in group;
    }
  }

  lemma {:induction false} FoldPath(group: seq<Page>, strategy: Strategy, trims: Trims)
    requires group != []
    ensures Fold(group, strategy, trims).path == group[0].path
  {
    if |group| > 1 { FoldPath(group[..|group| - 1], strategy, trims); }
  }

  // ------------------------------------------------------------------
  // The self-check's view.

  /** One page write of a run: the file is rewritten first, then the persist lands or breaks,
      and a broken one hides the row. */
  datatype Write = Lands(page: Page) | Breaks(page: Page)

  /** What each path written by a run has on disk, and the pages whose rows are active. */
  datatype Base = Base(files: map<string, Page>, active: map<string, Page>)

  function Put(b: Base, w: Write): Base {
    match w
    case Lands(p) => Base(b.files[p.path := p], b.active[p.path := p])
    case Breaks(p) => Base(b.files[p.path := p], b.active - {p.path})
  }

  function AfterWrites(ws: seq<Write>): Base {
    if ws == [] then Base(map[], map[]) else Put(AfterWrites(ws[..|ws| - 1]), ws[|ws| - 1])
  }

  /** The pages the run notes as produced: those whose persist landed. */
  function Produced(ws: seq<Write>): seq<Page> {
    if ws == [] then []
    else Produced(ws[..|ws| - 1]) + if ws[|ws| - 1].Lands? then [ws[|ws| - 1].page] else []
  }

  /** The last page of each path. */
  function LastOf(pages: seq<Page>): map<string, Page> {
    if pages == [] then map[] else LastOf(pages[..|pages| - 1])[pages[|pages| - 1].path := pages[|pages| - 1]]
  }

  /** A dictionary keyed by path keeps the first position and the last page. */
  method FinalPages(produced: seq<Page>) returns (out: seq<Page>)
    ensures |out| == |Paths(produced)| == |LastOf(produced)|
    ensures forall i :: 0 <= i < |out| ==>
            Paths(produced)[i] in LastOf(produced) && out[i] == LastOf(produced)[Paths(produced)[i]]
    ensures forall path :: path in LastOf(produced) ==> LastOf(produced)[path] in out
  {
    var last: map<string, Page> := map[];
    var order: seq<string> := [];
    for i := 0 to |produced|
      invariant order == Paths(produced[..i]) && last == LastOf(produced[..i])
      invariant |order| == |last| && forall path :: path in order <==> path in last
    {
      assert produced[..i + 1][..i] == produced[..i];
      var p := produced[i];
      if p.path !in last { order := order + [p.path]; }
      last := last[p.path := p];
    }
    assert produced[..|produced|] == produced;
    out := seq(|order|, i requires 0 <= i < |order| && order[i] in last => last[order[i]]);
    forall path | path in last ensures last[path] in out {
      var i :| 0 <= i < |order| && order[i] == path;
      assert out[i] == last[path];
    }
  }

  /** Did the last write of `path` land? */
  ghost predicate LastLands(ws: seq<Write>, path: string) {
    exists i :: 0 <= i < |ws| && ws[i].Lands? && ws[i].page.path == path &&
                forall j :: i < j < |ws| ==> ws[j].page.path != path
  }

  lemma LastLandsNext(ws: seq<Write>, path: string)
    requires ws != []
    ensures var n := |ws| - 1;
            LastLands(ws, path) <==> if ws[n].page.path == path then ws[n].Lands? else LastLands(ws[..n], path)
  {
    var n := |ws| - 1;
    if LastLands(ws[..n], path) && ws[n].page.path != path {
      var i :| 0 <= i < n && ws[..n][i].Lands? && ws[..n][i].page.path == path && forall j :: i < j < n ==>
        ws[..n][j].page.path != path;
      assert ws[i] == ws[..n][i];
      forall j | i < j < |ws| ensures ws[j].page.path != path { if j < n { assert ws[..n][j] == ws[j]; } }
    }
    if LastLands(ws, path) && ws[n].page.path != path {
      var i :| 0 <= i < |ws| && ws[i].Lands? && ws[i].page.path == path && forall j :: i < j < |ws| ==>
        ws[j].page.path != path;
      assert ws[..n][i] == ws[i] && forall j :: 0 <= j < n ==> ws[..n][j] == ws[j];
    }
  }

  lemma LastOfAppend(pages: seq<Page>, p: Page)
    ensures LastOf(pages + [p]) == LastOf(pages)[p.path := p]
  {
    assert (pages + [p])[..|pages|] == pages;
  }

  lemma ProducedNext(ws: seq<Write>)
    requires ws != []
    ensures var n := |ws| - 1;
            var before := LastOf(Produced(ws[..n]));
            LastOf(Produced(ws)) == if ws[n].Lands? then before[ws[n].page.path := ws[n].page] else before
  {
    var n := |ws| - 1;
    var before := Produced(ws[..n]);
    if ws[n].Lands? {
      LastOfAppend(before, ws[n].page);
    } else {
      assert Produced(ws) == before;
    }
  }

  /** The view and the base, path by path: every active page is viewed as it is; and a path
      in the view is active, and on disk, as viewed iff its last write landed. */
  lemma {:induction false} ViewAgainstBase(ws: seq<Write>, path: string)
    ensures var b, view := AfterWrites(ws), LastOf(Produced(ws));
            && (path in b.active <==> LastLands(ws, path))
            && (path in b.active ==> path in view && path in b.files && view[path] == b.active[path] == b.files[path])
            && (path in view ==> path in b.files)
  {
    if ws != [] {
      LastLandsNext(ws, path);
      ProducedNext(ws);
      ViewAgainstBase(ws[..|ws| - 1], path);
    }
  }

  /** The view is what the base holds iff no path was broken by its last write after an
      earlier one had landed. */
  lemma ViewIsTheBaseIff(ws: seq<Write>)
    ensures LastOf(Produced(ws)) == AfterWrites(ws).active <==>
            forall p :: p in Produced(ws) ==> LastLands(ws, p.path)
  {
    var b, view := AfterWrites(ws), LastOf(Produced(ws));
    forall path
      ensures path in b.active <==> LastLands(ws, path)
      ensures path in b.active ==> path in view && view[path] == b.active[path]
      ensures path in view <==> exists p :: p in Produced(ws) && p.path == path
    {
      ViewAgainstBase(ws, path);
      LastOfMeans(Produced(ws), path);
    }
    if view == b.active {
      forall p | p in Produced(ws) ensures LastLands(ws, p.path) { assert p.path in view; }
    }
  }

  lemma {:induction false} LastOfMeans(pages: seq<Page>, path: string)
    ensures path in LastOf(pages) <==> exists p :: p in pages && p.path == path
  {
    if pages != [] {
      LastOfMeans(pages[..|pages| - 1], path);
      assert pages == pages[..|pages| - 1] + [pages[|pages| - 1]];
    }
  }

  /** Two sources give one path; the second one's persist breaks.  The base has the second
      text on disk and no active row; the check still looks at the first. */
  lemma BrokenRewriteCounterexample(first: Page, second: Page)
    requires first.path == second.path && first != second
    ensures var ws := [Lands(first), Breaks(second)];
            && Produced(ws) == [first] && LastOf(Produced(ws)) == map[first.path := first]
            && AfterWrites(ws) == Base(map[first.path := second], map[])
  {
    var ws := [Lands(first), Breaks(second)];
    assert ws[..1] == [Lands(first)] && ws[..1][..0] == [];
    assert Produced(ws[..1]) == [first] && [first][..0] == [];
    var once := AfterWrites(ws[..1]);
    assert once == Put(AfterWrites([]), Lands(first));
    assert once.files == map[first.path := first] && once.active == map[first.path := first];
    assert once.active - {second.path} == map[];
  }
}

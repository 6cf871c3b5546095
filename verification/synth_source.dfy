/** One source from the provider's replies to its rows in the log. */
module SynthSource {
  import opened Options
  import opened Graph
  import opened KnowledgeLog
  import opened SynthGroups
  import SynthRun
  import SynthProtocol

  // ------------------------------------------------------------------
  // What a group's call came to, told from the provider and the cancel token alone.

  /** The `calls`-th call answers, after transient errors with no cancel between. */
  ghost predicate Answered(w: World, g: nat, retries: nat, calls: nat, reply: Reply) {
    && 1 <= calls <= retries + 1 && w.llm(g, calls) == Answers(reply)
    && forall a :: 1 <= a < calls ==> w.llm(g, a).Transient? && !w.cancelled(g, a)
  }

  /** Every call the budget allows failed for the moment. */
  ghost predicate Exhausted(w: World, g: nat, retries: nat) {
    && (forall a :: 1 <= a <= retries + 1 ==> w.llm(g, a).Transient?)
    && forall a :: 1 <= a <= retries ==> !w.cancelled(g, a)
  }

  /** A group keeps the pages of its answer, of a partial one too, and its outcome is that of the
      answer; one that could not be parsed or never came leaves no page. */
  lemma GroupMeans(w: World, retries: nat, out: SourceOutcome, history: seq<seq<Page>>, snapshot: map<string, string>,
      norms: Norms, g: nat)
    requires SourceRan(w, retries, out, history, snapshot, norms) && g < |history|
    ensures (exists calls, reply :: Answered(w, g, retries, calls, reply)) || Exhausted(w, g, retries)
    ensures forall calls, ps :: Answered(w, g, retries, calls, Pages(ps)) ==>
                                  history[g] == ps && out.groups[g] == SynthRun.Parsed
    ensures forall calls, ps :: Answered(w, g, retries, calls, Partial(ps, false)) ==>
                                  history[g] == ps && out.groups[g] == SynthRun.PartialKept
    ensures forall calls, ps :: Answered(w, g, retries, calls, Partial(ps, true)) ==>
                                  history[g] == ps && out.groups[g] == SynthRun.PartialRetry
    ensures forall calls :: Answered(w, g, retries, calls, Unparsable) ==>
                              history[g] == [] && out.groups[g] == SynthRun.Unparsed
    ensures Exhausted(w, g, retries) ==> history[g] == [] && out.groups[g] == SynthRun.ProviderGaveUp
  {
    assert Ran(w, g, retries, out.groups[g], history[g]);
    var r, n :| Ends(w, g, retries, r, n) && !r.Raised? && OutcomeOf(r) == out.groups[g] && PagesOf(r) == history[g];
    forall calls, reply | Answered(w, g, retries, calls, reply) ensures r == Got(reply) {
      EndsOnce(w, g, retries, r, n, Got(reply), calls);
    }
    if Exhausted(w, g, retries) { EndsOnce(w, g, retries, r, n, GaveUp, retries + 1); }
    if r.Got? { assert Answered(w, g, retries, n, r.reply); }
  }

  // ------------------------------------------------------------------
  // The pages of the source.

  /** How many pages the first `g` groups gave. */
  function PagesBefore(history: seq<seq<Page>>, g: nat): nat
    requires g <= |history|
  {
    if g == 0 then 0 else PagesBefore(history, g - 1) + |history[g - 1]|
  }

  lemma {:induction false} FlattenAt(history: seq<seq<Page>>, g: nat)
    requires g < |history|
    ensures |Flatten(history)| == PagesBefore(history, |history|)
    ensures PagesBefore(history, g) + |history[g]| <= |Flatten(history)|
    ensures forall i :: 0 <= i < |history[g]| ==> Flatten(history)[PagesBefore(history, g) + i] == history[g][i]
  {
    var n := |history| - 1;
    BeforeOfFront(history, n);
    if g < n {
      FlattenAt(history[..n], g);
      BeforeOfFront(history, g);
    } else if n > 0 {
      FlattenAt(history[..n], n - 1);
    }
  }

  lemma {:induction false} BeforeOfFront(history: seq<seq<Page>>, g: nat)
    requires history != [] && g <= |history| - 1
    ensures PagesBefore(history[..|history| - 1], g) == PagesBefore(history, g)
  {
    if g > 0 { BeforeOfFront(history, g - 1); }
  }

  /** `pages` has the pages of group `g` where they belong, after those of the groups before. */
  ghost predicate HasGroup(pages: seq<Page>, history: seq<seq<Page>>, g: nat) {
    && g < |history| && |pages| == PagesBefore(history, |history|)
    && PagesBefore(history, g) + |history[g]| <= |pages|
    && forall i :: 0 <= i < |history[g]| ==> pages[PagesBefore(history, g) + i] == history[g][i]
  }

  lemma FlattenHas(history: seq<seq<Page>>, g: nat)
    requires g < |history|
    ensures HasGroup(Flatten(history), history, g)
  {
    FlattenAt(history, g);
  }

  /** The source's pages are those of its groups, one group after the other. */
  lemma SourcePagesMean(w: World, retries: nat, out: SourceOutcome, history: seq<seq<Page>>,
      snapshot: map<string, string>, norms: Norms, g: nat)
    requires SourceRan(w, retries, out, history, snapshot, norms) && g < |history|
    ensures HasGroup(out.pages, history, g)
  {
    FlattenHas(history, g);
  }

  /** Its errors are the groups that have to be asked for again. */
  lemma SourceErrorsMean(w: World, retries: nat, out: SourceOutcome, history: seq<seq<Page>>,
      snapshot: map<string, string>, norms: Norms)
    requires SourceRan(w, retries, out, history, snapshot, norms)
    ensures out.parseErrors == |SynthProtocol.Unsettled(out.groups)|
  {
    SynthProtocol.GroupNotesCount("", out.groups);
  }

  // ------------------------------------------------------------------
  // What a prompt shows.

  function ShownCategory(p: Page): string { if p.category == "" then "page" else p.category }

  /** A prompt shows the first page of each title so far, in the order emitted, and at most five
      targets; while there is room no wanted target is left out. */
  lemma PromptShows(prompt: Prompt, history: seq<seq<Page>>, snapshot: map<string, string>, norms: Norms)
    returns (at: seq<int>)
    requires IsPrompt(prompt, history, snapshot, norms)
    ensures |at| == |prompt.batch| && forall k, l :: 0 <= k < l < |at| ==> at[k] < at[l]
    ensures forall i :: First(Flatten(history), i) <==> i in at
    ensures forall k :: 0 <= k < |at| ==>
              First(Flatten(history), at[k]) && var p := Flatten(history)[at[k]];
              prompt.batch[k].title == p.title && prompt.batch[k].stem == p.stem &&
              prompt.batch[k].category == ShownCategory(p)
    ensures |prompt.priority| <= 5
    ensures forall t :: Wanting(history, snapshot, norms, t) > 0 &&
                        !Resolved(KnownAfter(snapshot, history), norms, t) && !Listing(prompt.priority, t) ==>
              |prompt.priority| == 5
  {
    at := BatchIsFirstPages(Flatten(history));
  }

  /** The titles known to a prompt: the snapshot's, and of the others each page's so far under
      the file name of the first page that has it. */
  lemma KnownTitleMeans(snapshot: map<string, string>, history: seq<seq<Page>>, t: string)
    ensures var known := KnownAfter(snapshot, history);
            && (t in snapshot ==> t in known && known[t] == snapshot[t])
            && (t in known <==> t in snapshot || (t != "" && exists p :: p in Flatten(history) && p.title == t))
            && forall i :: t !in snapshot && First(Flatten(history), i) && Flatten(history)[i].title == t ==>
                 t in known &&
                 known[t] == "knowledge/" + ShownCategory(Flatten(history)[i]) + "/" + Flatten(history)[i].stem + ".md"
  {
    var pages := Flatten(history);
    var batch := Batch(pages);
    KnownTitles(snapshot, batch);
    BatchTitles(pages, t);
    if t in snapshot { KnownKeepsExisting(snapshot, batch, t); }
    var at := BatchIsFirstPages(pages);
    forall i | t !in snapshot && First(pages, i) && pages[i].title == t
      ensures t in Known(snapshot, batch) &&
              Known(snapshot, batch)[t] == "knowledge/" + ShownCategory(pages[i]) + "/" + pages[i].stem + ".md"
    {
      var k :| 0 <= k < |at| && at[k] == i;
      forall j | 0 <= j < k ensures batch[j].title != t { assert First(pages, at[j]) && at[j] < i; }
      KnownTakesFirst(snapshot, batch, k);
    }
  }

  /** A wikilink of page `i` of group `g` named `t`, and no title known after that group had one
      meaning for it. */
  ghost predicate WantedAt(history: seq<seq<Page>>, snapshot: map<string, string>, norms: Norms, t: string, g: nat,
      i: nat)
    requires g < |history| && i < |history[g]|
  {
    var known := KnownAfter(snapshot, history[..g + 1]);
    && (exists l :: l in history[g][i].links && l.kind.Wiki? && l.target == t)
    && norms.target(t) != "" && forall p :: !Means(KnownEntries(known), norms, t, p)
  }

  lemma WantedMeans(history: seq<seq<Page>>, snapshot: map<string, string>, norms: Norms, t: string, g: nat, i: nat)
    requires g < |history| && i < |history[g]|
    ensures WantedAt(history, snapshot, norms, t, g, i) <==>
            Wants(history[g][i], t, KnownAfter(snapshot, history[..g + 1]), norms)
  {
  }

  ghost function WantingPlaces(history: seq<seq<Page>>, snapshot: map<string, string>, norms: Norms,
      t: string): set<(nat, nat)>
  {
    set g: nat, i: nat | g < |history| && i < |history[g]| && WantedAt(history, snapshot, norms, t, g, i) :: (g, i)
  }

  lemma OneMorePlace(before: set<(nat, nat)>, after: set<(nat, nat)>, g: nat, n: nat, more: bool)
    requires forall q :: q in after <==> q in before || (more && q == (g, n))
    requires (g, n) !in before
    ensures |after| == |before| + if more then 1 else 0
  {
    assert after == before + if more then {(g, n)} else {};
  }

  /** The places of the first `k` pages of group `g` that want `t`. */
  ghost function WantingIn(g: nat, pages: seq<Page>, t: string, known: map<string, string>, norms: Norms,
      k: nat): set<(nat, nat)>
    requires k <= |pages|
  {
    set i: nat | i < k && Wants(pages[i], t, known, norms) :: (g, i)
  }

  lemma {:induction false} PagesWantingCount(g: nat, pages: seq<Page>, t: string, known: map<string, string>,
      norms: Norms, k: nat)
    requires k <= |pages|
    ensures PagesWanting(pages[..k], t, known, norms) == |WantingIn(g, pages, t, known, norms, k)|
  {
    if k > 0 {
      var before, after := WantingIn(g, pages, t, known, norms, k - 1), WantingIn(g, pages, t, known, norms, k);
      PagesWantingCount(g, pages, t, known, norms, k - 1);
      assert pages[..k][..k - 1] == pages[..k - 1];
      OneMorePlace(before, after, g, k - 1, Wants(pages[k - 1], t, known, norms));
    }
  }

  lemma Disjoint(a: set<(nat, nat)>, b: set<(nat, nat)>, all: set<(nat, nat)>, n: nat)
    requires forall q :: q in all <==> q in a || q in b
    requires (forall q :: q in a ==> q.0 < n) && forall q :: q in b ==> q.0 == n
    ensures |all| == |a| + |b|
  {
    assert all == a + b && a !! b;
  }

  lemma PlacesSplit(history: seq<seq<Page>>, snapshot: map<string, string>, norms: Norms, t: string, q: (nat, nat))
    requires history != []
    ensures var n := |history| - 1;
            q in WantingPlaces(history, snapshot, norms, t) <==>
            || q in WantingPlaces(history[..n], snapshot, norms, t)
            || q in WantingIn(n, history[n], t, KnownAfter(snapshot, history), norms, |history[n]|)
  {
    var n := |history| - 1;
    assert history[..n + 1] == history;
    if q.0 < n {
      assert history[..n][..q.0 + 1] == history[..q.0 + 1];
    } else if q.0 == n && q.1 < |history[n]| {
      WantedMeans(history, snapshot, norms, t, n, q.1);
    }
  }

  /** The count behind a priority target is the number of those places. */
  lemma {:induction false} WantingMeans(history: seq<seq<Page>>, snapshot: map<string, string>, norms: Norms, t: string)
    ensures Wanting(history, snapshot, norms, t) == |WantingPlaces(history, snapshot, norms, t)|
  {
    if history != [] {
      var n := |history| - 1;
      var known := KnownAfter(snapshot, history);
      WantingMeans(history[..n], snapshot, norms, t);
      PagesWantingCount(n, history[n], t, known, norms, |history[n]|);
      assert history[n][..|history[n]|] == history[n];
      forall q
        ensures q in WantingPlaces(history, snapshot, norms, t) <==>
                || q in WantingPlaces(history[..n], snapshot, norms, t)
                || q in WantingIn(n, history[n], t, known, norms, |history[n]|)
      {
        PlacesSplit(history, snapshot, norms, t, q);
      }
      Disjoint(WantingPlaces(history[..n], snapshot, norms, t), WantingIn(n, history[n], t, known, norms, |history[n]|),
               WantingPlaces(history, snapshot, norms, t), n);
    }
  }

  // ------------------------------------------------------------------
  // The markers it earns.

  /** The group's answer could not be parsed, or was cut short, or never came. */
  ghost predicate Unanswered(w: World, g: nat, retries: nat) {
    || Exhausted(w, g, retries)
    || (exists calls :: Answered(w, g, retries, calls, Unparsable))
    || exists calls, ps :: Answered(w, g, retries, calls, Partial(ps, true))
  }

  /** A single such group leaves its source without a done marker, whatever its pages do. */
  lemma UnansweredBlocksDone(w: World, retries: nat, out: SourceOutcome, history: seq<seq<Page>>,
      snapshot: map<string, string>, norms: Norms, g: nat, s: string, surfaced: bool, pages: seq<SynthRun.PageOutcome>)
    requires SourceRan(w, retries, out, history, snapshot, norms) && g < |history| && Unanswered(w, g, retries)
    ensures forall r :: r in SynthRun.AttemptRows(s, SynthRun.Fanned(out.groups, surfaced, pages)) ==>
                          !r.action.DoneAct?
  {
    GroupMeans(w, retries, out, history, snapshot, norms, g);
    assert out.groups[g] in out.groups;
    SynthProtocol.AttemptMarkers(s, SynthRun.Fanned(out.groups, surfaced, pages));
  }

  lemma AnsweredIsKept(w: World, retries: nat, out: SourceOutcome, history: seq<seq<Page>>,
      snapshot: map<string, string>, norms: Norms, g: nat)
    requires SourceRan(w, retries, out, history, snapshot, norms) && g < |history| && !Unanswered(w, g, retries)
    ensures out.groups[g] == SynthRun.Parsed || out.groups[g] == SynthRun.PartialKept
  {
    GroupMeans(w, retries, out, history, snapshot, norms, g);
    var calls, reply :| Answered(w, g, retries, calls, reply);
    assert !reply.Unparsable?;
    assert reply.Partial? ==> reply == Partial(reply.pages, reply.retry);
    assert reply.Pages? ==> reply == Pages(reply.pages);
  }

  /** And without one, and with every page stored, the source is done. */
  lemma AnsweredEarnsDone(w: World, retries: nat, out: SourceOutcome, history: seq<seq<Page>>,
      snapshot: map<string, string>, norms: Norms, s: string, surfaced: bool, pages: seq<SynthRun.PageOutcome>)
    requires SourceRan(w, retries, out, history, snapshot, norms)
    requires forall g :: 0 <= g < |history| ==> !Unanswered(w, g, retries)
    requires forall p :: p in pages ==> p.Stored?
    ensures Row(DoneAct, s, "") in SynthRun.AttemptRows(s, SynthRun.Fanned(out.groups, surfaced, pages))
  {
    forall o | o in out.groups ensures o.Parsed? || o.PartialKept? {
      var g :| 0 <= g < |out.groups| && out.groups[g] == o;
      AnsweredIsKept(w, retries, out, history, snapshot, norms, g);
    }
    var a := SynthRun.Fanned(out.groups, surfaced, pages);
    SynthProtocol.AttemptMarkers(s, a);
    var plain := SynthProtocol.VerdictIsTheLastRow(s, a);
  }
}

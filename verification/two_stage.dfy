/** Both sampling stages in a row: the second, given room for the first one's corpus, loses
    no document and no query. */
module TwoStage {
  import opened Options
  import opened Sequences
  import opened Subsample
  import opened Convert

  ghost predicate OncePerId(lines: seq<Line>) { forall i, j :: 0 <= i < j < |lines| ==> lines[i].id != lines[j].id }

  /** The files written between the stages list every entry of a map once. */
  ghost predicate ListsOut(lines: seq<Line>, m: map<string, string>) {
    && (forall i :: 0 <= i < |lines| ==> lines[i].id in m && lines[i].text == m[lines[i].id])
    && AllIds(lines) == m.Keys && OncePerId(lines)
  }

  ghost predicate IsListing(list: map<string, string> -> seq<Line>) { forall m :: ListsOut(list(m), m) }

  lemma {:induction false} IdsOfMeans(lines: seq<Line>)
    ensures Members(IdsOf(lines)) == AllIds(lines) - {""}
  {
    if lines != [] {
      var n := |lines| - 1;
      IdsOfMeans(lines[..n]);
      assert lines == lines[..n] + [lines[n]];
      AllIdsAppend(lines[..n], lines[n]);
      MembersAppend(IdsOf(lines[..n]), lines[n].id);
    }
  }

  lemma {:induction false} IdsOfDistinct(lines: seq<Line>)
    requires OncePerId(lines)
    ensures Distinct(IdsOf(lines))
  {
    if lines != [] {
      var n := |lines| - 1;
      IdsOfDistinct(lines[..n]);
      IdsOfMeans(lines[..n]);
      LastIdIsNew(lines);
      assert lines[n].id !in Members(IdsOf(lines[..n]));
    }
  }

  lemma LastIdIsNew(lines: seq<Line>)
    requires lines != [] && OncePerId(lines)
    ensures lines[|lines| - 1].id !in AllIds(lines[..|lines| - 1])
  {
  }

  /** The judgements that reach the second stage name only documents of the sample. */
  lemma RelevantIdsAreSampled(s: Sample, corpus: map<string, string>, queries: map<string, string>,
      rows: seq<Judgement>, num: nat, target: nat)
    requires IsSample(s, corpus, queries, rows, num, target)
    ensures RelevantIds(s.qrels) <= s.corpus.Keys
  {
    forall r | r in s.qrels ensures r.pid in s.corpus {
      KeptMeans(rows, s.queries.Keys, s.corpus.Keys, r);
    }
  }

  /** With room for the target the second stage keeps every document. */
  lemma EveryDocumentIsKept(s: Sample, corpus: map<string, string>, queries: map<string, string>,
      rows: seq<Judgement>, num: nat, target: nat, docs: seq<Line>, size: nat)
    requires IsSample(s, corpus, queries, rows, num, target) && ListsOut(docs, s.corpus) && target <= size &&
             "" !in corpus
    ensures RelevantIds(s.qrels) + Members(IdsOf(docs)) == s.corpus.Keys
    ensures |RelevantIds(s.qrels)| + |Others(IdsOf(docs), RelevantIds(s.qrels))| <= size
  {
    IdsOfMeans(docs);
    IdsOfDistinct(docs);
    RelevantIdsAreSampled(s, corpus, queries, rows, num, target);
    assert "" !in s.corpus.Keys;
    assert RelevantIds(s.qrels) + Members(IdsOf(docs)) == s.corpus.Keys;
    DistinctOthersFill(IdsOf(docs), RelevantIds(s.qrels));
  }

  lemma EveryQueryIsAnswerable(s: Sample, corpus: map<string, string>, queries: map<string, string>,
      rows: seq<Judgement>, num: nat, target: nat, lines: seq<Line>, stems: map<string, string>)
    requires IsSample(s, corpus, queries, rows, num, target) && ListsOut(lines, s.queries) &&
             stems.Keys == s.corpus.Keys
    ensures forall l :: l in lines ==> Answerable(l.id, s.qrels, stems)
  {
    forall l | l in lines ensures Answerable(l.id, s.qrels, stems) {
      SampledQueriesKeepTheirGold(s, corpus, queries, rows, num, target, l.id);
      var r :| r in s.qrels && Gold(r, l.id, s.corpus);
    }
  }

  /** The queries with an id and a text. */
  function Askable(queries: map<string, string>): set<string> { set q | q in queries && q != "" && queries[q] != "" }

  function AskedIds(lines: seq<Line>): set<string> { set l | l in lines && Asked(l) :: l.id }

  lemma {:induction false} AskedCount(lines: seq<Line>)
    requires OncePerId(lines)
    ensures |AskedIds(lines)| == CountAsked(lines)
  {
    if lines != [] {
      var n := |lines| - 1;
      AskedCount(lines[..n]);
      LastIdIsNew(lines);
      assert lines == lines[..n] + [lines[n]];
      assert lines[n].id !in AskedIds(lines[..n]);
      assert AskedIds(lines) == AskedIds(lines[..n]) + if Asked(lines[n]) then {lines[n].id} else {};
    }
  }

  lemma AskedAreAskable(lines: seq<Line>, queries: map<string, string>)
    requires ListsOut(lines, queries)
    ensures CountAsked(lines) == |Askable(queries)|
  {
    AskedCount(lines);
    forall q | q in Askable(queries) ensures q in AskedIds(lines) {
      var i := IndexOf(lines, q);
      assert lines[i] in lines;
    }
    assert AskedIds(lines) == Askable(queries);
  }

  /** No two documents of the sample share a stem, and all have one. */
  ghost predicate StemsFit(corpus: map<string, string>, stem: string -> Option<string>) {
    && (forall c :: c in corpus ==> stem(c).Some?)
    && forall c, d :: c in corpus && d in corpus && c != d ==> stem(c) != stem(d)
  }

  lemma CleanIff(docs: seq<Line>, corpus: map<string, string>, stem: string -> Option<string>)
    requires ListsOut(docs, corpus)
    ensures Clean(docs, corpus.Keys, stem) <==> StemsFit(corpus, stem)
  {
    if Clean(docs, corpus.Keys, stem) {
      forall c, d | c in corpus && d in corpus ensures stem(c).Some? && (c != d ==> stem(c) != stem(d)) {
        var i := IndexOf(docs, c);
        var j := IndexOf(docs, d);
        if i < j || j < i { assert stem(docs[i].id) != stem(docs[j].id); }
      }
    }
  }

  lemma IndexOf(lines: seq<Line>, c: string) returns (i: nat)
    requires c in AllIds(lines)
    ensures i < |lines| && lines[i].id == c
  {
    var l :| l in lines && l.id == c;
    i :| 0 <= i < |lines| && lines[i] == l;
  }

  ghost predicate AllTexts(queries: map<string, string>) { forall q :: q in queries ==> q != "" && queries[q] != "" }

  lemma SurvivorsOf(s: Sample, corpus: map<string, string>, queries: map<string, string>, rows: seq<Judgement>,
      num: nat, target: nat, lines: seq<Line>, stems: map<string, string>)
    requires IsSample(s, corpus, queries, rows, num, target) && ListsOut(lines, s.queries) &&
             stems.Keys == s.corpus.Keys
    ensures |Survivors(lines, s.qrels, stems)| == CountAsked(lines) == |Askable(s.queries)|
  {
    EveryQueryIsAnswerable(s, corpus, queries, rows, num, target, lines, stems);
    NothingDropped(lines, s.qrels, stems);
    AskedAreAskable(lines, s.queries);
  }

  /** Of queries that all have an id and a text each sampled one is asked. */
  lemma AllTextsAskable(s: Sample, corpus: map<string, string>, queries: map<string, string>, rows: seq<Judgement>,
      num: nat, target: nat)
    requires IsSample(s, corpus, queries, rows, num, target) && AllTexts(queries)
    ensures |Askable(s.queries)| == num
  {
    assert Askable(s.queries) == s.queries.Keys;
  }

  /** The second stage on a sample of the first. */
  method ConvertSample(s: Sample, size: nat, shuffle: seq<string> -> seq<string>,
      list: map<string, string> -> seq<Line>, stem: string -> Option<string>, ghost corpus: map<string, string>,
      ghost queries: map<string, string>, ghost rows: seq<Judgement>, ghost num: nat, ghost target: nat)
      returns (result: Result)
    requires IsShuffle(shuffle) && IsListing(list) && target <= size && "" !in corpus
    requires IsSample(s, corpus, queries, rows, num, target)
    ensures result.Converted? <==> StemsFit(s.corpus, stem) && Askable(s.queries) != {}
    ensures result.NoQueries? <==> StemsFit(s.corpus, stem) && Askable(s.queries) == {}
    ensures Blames(result, s.corpus, stem)
    ensures result.Converted? ==>
              result.data.stems.Keys == s.corpus.Keys && result.data.dropped == 0 &&
              |result.data.questions| == |Askable(s.queries)|
  {
    var docs, lines := list(s.corpus), list(s.queries);
    var keep;
    result, keep := ConvertBundle(docs, lines, s.qrels, size, shuffle, stem);
    EveryDocumentIsKept(s, corpus, queries, rows, num, target, docs, size);
    WholeSampleConverts(s, corpus, queries, rows, num, target, docs, lines, stem, result);
    FaultsAreBlamed(docs, s.corpus, lines, s.qrels, stem, result);
  }

  /** A refusal names what the sample has: a document without a stem, or two of one stem. */
  ghost predicate Blames(result: Result, corpus: map<string, string>, stem: string -> Option<string>) {
    && (result.BadPassageId? ==> exists c :: c in corpus && stem(c).None?)
    && (result.StemCollision? ==> exists c, d :: c in corpus && d in corpus && c != d && stem(c) == stem(d))
  }

  lemma FaultsAreBlamed(docs: seq<Line>, corpus: map<string, string>, lines: seq<Line>, rows: seq<Judgement>,
      stem: string -> Option<string>, result: Result)
    requires ListsOut(docs, corpus) && Converts(result, corpus.Keys, docs, lines, rows, stem)
    ensures Blames(result, corpus, stem)
  {
    if result.BadPassageId? {
      var i :| NoStemAt(docs, i, corpus.Keys, stem);
    } else if result.StemCollision? {
      var i :| ClashAt(docs, i, corpus.Keys, stem);
      var j :| 0 <= j < i && docs[j].id in corpus.Keys && stem(docs[j].id) == stem(docs[i].id);
      assert docs[j].id != docs[i].id;
    }
  }

  lemma WholeSampleConverts(s: Sample, corpus: map<string, string>, queries: map<string, string>,
      rows: seq<Judgement>, num: nat, target: nat, docs: seq<Line>, lines: seq<Line>, stem: string -> Option<string>,
      result: Result)
    requires IsSample(s, corpus, queries, rows, num, target) && ListsOut(docs, s.corpus) && ListsOut(lines, s.queries)
    requires Converts(result, s.corpus.Keys, docs, lines, s.qrels, stem)
    ensures result.Converted? <==> StemsFit(s.corpus, stem) && Askable(s.queries) != {}
    ensures result.NoQueries? <==> StemsFit(s.corpus, stem) && Askable(s.queries) == {}
    ensures result.Converted? ==>
              result.data.stems.Keys == s.corpus.Keys && result.data.dropped == 0 &&
              |result.data.questions| == |Askable(s.queries)|
  {
    CleanIff(docs, s.corpus, stem);
    if result.Converted? {
      WrittenKeys(result.data.stems, docs, s.corpus, stem);
      SurvivorsOf(s, corpus, queries, rows, num, target, lines, result.data.stems);
    } else if result.NoQueries? {
      var stems :| Written(stems, docs, s.corpus.Keys, stem) && Survivors(lines, s.qrels, stems) == [];
      NoneSurvives(s, corpus, queries, rows, num, target, docs, lines, stem, stems);
    }
  }

  lemma NoneSurvives(s: Sample, corpus: map<string, string>, queries: map<string, string>, rows: seq<Judgement>,
      num: nat, target: nat, docs: seq<Line>, lines: seq<Line>, stem: string -> Option<string>,
      stems: map<string, string>)
    requires IsSample(s, corpus, queries, rows, num, target) && ListsOut(docs, s.corpus) && ListsOut(lines, s.queries)
    requires Written(stems, docs, s.corpus.Keys, stem) && Survivors(lines, s.qrels, stems) == []
    ensures Askable(s.queries) == {}
  {
    WrittenKeys(stems, docs, s.corpus, stem);
    SurvivorsOf(s, corpus, queries, rows, num, target, lines, stems);
  }

  lemma WrittenKeys(stems: map<string, string>, docs: seq<Line>, corpus: map<string, string>,
      stem: string -> Option<string>)
    requires Written(stems, docs, corpus.Keys, stem) && ListsOut(docs, corpus)
    ensures stems.Keys == corpus.Keys
  {
    assert corpus.Keys * corpus.Keys == corpus.Keys;
  }

  /** Prepare and convert. Every sampled document gets its file, no query is dropped, and of the
      sampled queries those with an id and a text come out, all `num` if each has them. Besides
      the refusals of the first stage the things that can fail are two document ids with one
      stem, an id without any, and a sample none of whose queries has an id and a text. */
  method PrepareAndConvert(corpus: map<string, string>, queries: map<string, string>, rows: seq<Judgement>, num: nat,
      target: nat, size: nat, draw: Draw, shuffle: seq<string> -> seq<string>,
      list: map<string, string> -> seq<Line>, stem: string -> Option<string>) returns (sampled: Outcome, result: Result)
    requires IsDraw(draw) && IsShuffle(shuffle) && IsListing(list) && target <= size && "" !in corpus
    ensures sampled.Sampled? <==>
            var judged := Judged(queries, corpus, rows);
            num <= |judged| && |GoldOf(draw(0, judged, num), corpus, rows)| <= target
    ensures sampled.Sampled? ==> IsSample(sampled.sample, corpus, queries, rows, num, target)
    ensures sampled.Sampled? ==>
              var s := sampled.sample;
              && (result.Converted? <==> StemsFit(s.corpus, stem) && Askable(s.queries) != {})
              && (result.NoQueries? <==> StemsFit(s.corpus, stem) && Askable(s.queries) == {})
              && Blames(result, s.corpus, stem)
    ensures sampled.Sampled? && result.Converted? ==>
              result.data.stems.Keys == sampled.sample.corpus.Keys && result.data.dropped == 0 &&
              |result.data.questions| == |Askable(sampled.sample.queries)|
    ensures sampled.Sampled? && AllTexts(queries) ==> |Askable(sampled.sample.queries)| == num
  {
    sampled := SubsampleQueries(corpus, queries, rows, num, target, draw);
    result := NoQueries;
    if sampled.Sampled? {
      result := ConvertSample(sampled.sample, size, shuffle, list, stem, corpus, queries, rows, num, target);
      if AllTexts(queries) { AllTextsAskable(sampled.sample, corpus, queries, rows, num, target); }
    }
  }
}

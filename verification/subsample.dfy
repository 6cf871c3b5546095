/** The first sampling stage: a fixed number of queries, every document judged relevant to
    one of them, and distractors up to the target size. */
module Subsample {

  datatype Judgement = Judgement(qid: string, pid: string, score: int)

  datatype Stats = Stats(relevant: nat, distractors: nat, corpusSize: nat, rowsKept: nat)

  datatype Sample = Sample(corpus: map<string, string>, queries: map<string, string>, qrels: seq<Judgement>,
      stats: Stats)

  datatype Outcome = Sampled(sample: Sample) | TooFewJudgedQueries(judged: nat) | TooManyGoldDocuments(gold: nat)

  /** A seeded draw of `k` members of a pool, which is sorted first and so enters as a set;
      the first argument counts the draws. */
  type Draw = (nat, set<string>, nat) -> set<string>

  ghost predicate IsDraw(draw: Draw) {
    forall i: nat, pool: set<string>, k: nat :: k <= |pool| ==> draw(i, pool, k) <= pool && |draw(i, pool, k)| == k
  }

  /** The row is a positive judgement of query `q` on a document of the corpus. */
  predicate Gold(r: Judgement, q: string, corpus: map<string, string>) { r.qid == q && r.score > 0 && r.pid in corpus }

  ghost predicate IsJudged(q: string, corpus: map<string, string>, rows: seq<Judgement>) {
    exists i :: 0 <= i < |rows| && Gold(rows[i], q, corpus)
  }

  ghost function Judged(queries: map<string, string>, corpus: map<string, string>, rows: seq<Judgement>): set<string> {
    set q | q in queries && IsJudged(q, corpus, rows)
  }

  ghost function GoldOf(qids: set<string>, corpus: map<string, string>, rows: seq<Judgement>): set<string> {
    set i | 0 <= i < |rows| && rows[i].qid in qids && Gold(rows[i], rows[i].qid, corpus) :: rows[i].pid
  }

  // ------------------------------------------------------------------
  // The rows of each query.

  type ByQuery = map<string, seq<(string, int)>>

  function RowsOf(index: ByQuery, q: string): seq<(string, int)> { if q in index then index[q] else [] }

  ghost predicate Groups(index: ByQuery, rows: seq<Judgement>) {
    forall q, p, s :: (p, s) in RowsOf(index, q) <==> Judgement(q, p, s) in rows
  }

  method GroupByQuery(rows: seq<Judgement>) returns (index: ByQuery)
    ensures Groups(index, rows)
  {
    index := map[];
    for i := 0 to |rows|
      invariant Groups(index, rows[..i])
    {
      var r := rows[i];
      assert rows[..i + 1] == rows[..i] + [r];
      index := index[r.qid := RowsOf(index, r.qid) + [(r.pid, r.score)]];
    }
    assert rows[..|rows|] == rows;
  }

  /** Whether a query has a positive judgement inside the corpus. */
  method HasGold(q: string, index: ByQuery, corpus: map<string, string>, ghost rows: seq<Judgement>)
      returns (found: bool)
    requires Groups(index, rows)
    ensures found <==> IsJudged(q, corpus, rows)
  {
    var mine := RowsOf(index, q);
    found := false;
    for i := 0 to |mine|
      invariant found <==> exists j :: 0 <= j < i && mine[j].1 > 0 && mine[j].0 in corpus
    {
      if mine[i].1 > 0 && mine[i].0 in corpus { found := true; }
    }
    if found {
      var j :| 0 <= j < |mine| && mine[j].1 > 0 && mine[j].0 in corpus;
      assert (mine[j].0, mine[j].1) in mine;
      assert Judgement(q, mine[j].0, mine[j].1) in rows;
    }
    forall i | 0 <= i < |rows| && Gold(rows[i], q, corpus) ensures found {
      assert Judgement(q, rows[i].pid, rows[i].score) in rows;
      assert (rows[i].pid, rows[i].score) in mine;
    }
  }

  method JudgedQueries(queries: map<string, string>, index: ByQuery, corpus: map<string, string>,
      ghost rows: seq<Judgement>) returns (judged: set<string>)
    requires Groups(index, rows)
    ensures judged == Judged(queries, corpus, rows)
  {
    judged := {};
    var left := queries.Keys;
    while left != {}
      invariant left <= queries.Keys
      invariant forall q :: q in judged <==> q in queries && q !in left && IsJudged(q, corpus, rows)
      decreases |left|
    {
      var q :| q in left;
      var found := HasGold(q, index, corpus, rows);
      if found { judged := judged + {q}; }
      left := left - {q};
    }
    assert judged == Judged(queries, corpus, rows);
  }

  /** The relevant documents of one query join those found so far. */
  method AddGold(q: string, index: ByQuery, corpus: map<string, string>, gold0: set<string>, ghost rows: seq<Judgement>)
    returns (gold: set<string>)
    requires Groups(index, rows)
    ensures gold == gold0 + GoldOf({q}, corpus, rows)
  {
    gold := gold0;
    var mine := RowsOf(index, q);
    for i := 0 to |mine|
      invariant gold == gold0 + set j | 0 <= j < i && mine[j].1 > 0 && mine[j].0 in corpus :: mine[j].0
    {
      if mine[i].1 > 0 && mine[i].0 in corpus { gold := gold + {mine[i].0}; }
    }
    var found := set j | 0 <= j < |mine| && mine[j].1 > 0 && mine[j].0 in corpus :: mine[j].0;
    forall p ensures p in found <==> p in GoldOf({q}, corpus, rows) {
      GoldOfOne(p, q, index, corpus, rows);
    }
  }

  lemma GoldOfOne(p: string, q: string, index: ByQuery, corpus: map<string, string>, rows: seq<Judgement>)
    requires Groups(index, rows)
    ensures p in GoldOf({q}, corpus, rows) <==> exists j ::
            0 <= j < |RowsOf(index, q)| && RowsOf(index, q)[j].1 > 0 && RowsOf(index, q)[j].0 == p && p in corpus
  {
    var mine := RowsOf(index, q);
    if p in GoldOf({q}, corpus, rows) {
      var i :| 0 <= i < |rows| && rows[i].qid in {q} && Gold(rows[i], rows[i].qid, corpus) && rows[i].pid == p;
      assert Judgement(q, p, rows[i].score) in rows;
      assert (p, rows[i].score) in mine;
    }
    if j :| 0 <= j < |mine| && mine[j].1 > 0 && mine[j].0 == p && p in corpus {
      assert (p, mine[j].1) in mine;
      var i :| 0 <= i < |rows| && rows[i] == Judgement(q, p, mine[j].1);
      assert Gold(rows[i], rows[i].qid, corpus);
    }
  }

  lemma GoldOfMore(qids: set<string>, q: string, corpus: map<string, string>, rows: seq<Judgement>)
    ensures GoldOf(qids + {q}, corpus, rows) == GoldOf(qids, corpus, rows) + GoldOf({q}, corpus, rows)
  {
  }

  method RelevantDocuments(qids: set<string>, index: ByQuery, corpus: map<string, string>, ghost rows: seq<Judgement>)
    returns (gold: set<string>)
    requires Groups(index, rows)
    ensures gold == GoldOf(qids, corpus, rows) && gold <= corpus.Keys
  {
    gold := {};
    var left := qids;
    ghost var done: set<string> := {};
    while left != {}
      invariant left + done == qids && left !! done
      invariant gold == GoldOf(done, corpus, rows)
      decreases |left|
    {
      var q :| q in left;
      gold := AddGold(q, index, corpus, gold, rows);
      GoldOfMore(done, q, corpus, rows);
      left, done := left - {q}, done + {q};
    }
    assert done == qids;
  }

  // ------------------------------------------------------------------
  // The sample.

  /** The rows of sampled queries on sampled documents, in their order. */
  function Kept(rows: seq<Judgement>, qids: set<string>, pids: set<string>): seq<Judgement> {
    if rows == [] then []
    else
      var r := rows[|rows| - 1];
      Kept(rows[..|rows| - 1], qids, pids) + if r.qid in qids && r.pid in pids then [r] else []
  }

  lemma {:induction false} KeptMeans(rows: seq<Judgement>, qids: set<string>, pids: set<string>, r: Judgement)
    ensures r in Kept(rows, qids, pids) <==> r in rows && r.qid in qids && r.pid in pids
    ensures multiset(Kept(rows, qids, pids))[r] == if r.qid in qids && r.pid in pids then multiset(rows)[r] else 0
  {
    if rows != [] {
      var n := |rows| - 1;
      KeptMeans(rows[..n], qids, pids, r);
      assert rows == rows[..n] + [rows[n]];
    }
  }

  function Restrict(m: map<string, string>, ks: set<string>): map<string, string>
    requires ks <= m.Keys
  {
    map k | k in ks :: m[k]
  }

  /** The sample holds exactly the drawn queries, their gold documents and drawn distractors. */
  ghost predicate IsSample(s: Sample, corpus: map<string, string>, queries: map<string, string>,
      rows: seq<Judgement>, num: nat, target: nat)
  {
    && s.queries.Keys <= Judged(queries, corpus, rows) && |s.queries| == num
    && (forall q :: q in s.queries ==> s.queries[q] == queries[q])
    && s.corpus.Keys <= corpus.Keys && |s.corpus| == (if target < |corpus| then target else |corpus|)
    && (forall p :: p in s.corpus ==> s.corpus[p] == corpus[p])
    && GoldOf(s.queries.Keys, corpus, rows) <= s.corpus.Keys
    && s.qrels == Kept(rows, s.queries.Keys, s.corpus.Keys)
  }

  /** Nothing a sampled query needs is lost: each has a positive judgement in the sample, and
      every positive judgement it had on a corpus document is still there. */
  lemma SampledQueriesKeepTheirGold(s: Sample, corpus: map<string, string>, queries: map<string, string>,
      rows: seq<Judgement>, num: nat, target: nat, q: string)
    requires IsSample(s, corpus, queries, rows, num, target) && q in s.queries
    ensures exists r :: r in s.qrels && Gold(r, q, s.corpus)
    ensures forall r :: r in rows && Gold(r, q, corpus) ==> r in s.qrels && Gold(r, q, s.corpus)
  {
    forall r | r in rows && Gold(r, q, corpus) ensures r in s.qrels && Gold(r, q, s.corpus) {
      var i :| 0 <= i < |rows| && rows[i] == r;
      assert rows[i].pid in GoldOf(s.queries.Keys, corpus, rows);
      KeptMeans(rows, s.queries.Keys, s.corpus.Keys, r);
    }
    var i :| 0 <= i < |rows| && Gold(rows[i], q, corpus);
    assert rows[i] in rows;
  }

  lemma UnionSize(a: set<string>, b: set<string>)
    requires a !! b
    ensures |a + b| == |a| + |b|
  {
  }

  /** The second draw's members of the pool, or the whole pool when it is too small. */
  ghost predicate Drawn(picked: set<string>, pool: set<string>, wanted: nat, draw: Draw) {
    picked == if wanted > |pool| then pool else draw(1, pool, wanted)
  }

  function Budget(gold: set<string>, target: nat): nat
    requires |gold| <= target
  {
    target - |gold|
  }

  /** Draws distractors, all that are left when they are too few. */
  method PickDistractors(corpus: map<string, string>, gold: set<string>, target: nat, draw: Draw)
      returns (distractors: set<string>)
    requires IsDraw(draw) && gold <= corpus.Keys && |gold| <= target
    ensures distractors <= corpus.Keys - gold
    ensures |gold + distractors| == if target < |corpus| then target else |corpus|
    ensures Drawn(distractors, corpus.Keys - gold, Budget(gold, target), draw)
  {
    var pool := corpus.Keys - gold;
    var budget := Budget(gold, target);
    if budget > |pool| {
      distractors := pool;
    } else {
      distractors := draw(1, pool, budget);
    }
    FilledUp(corpus.Keys, gold, pool, distractors, budget);
  }

  lemma FilledUp(all: set<string>, gold: set<string>, pool: set<string>, picked: set<string>, budget: nat)
    requires gold <= all && pool == all - gold && picked <= pool
    requires |picked| == if budget > |pool| then |pool| else budget
    ensures |gold + picked| == if |gold| + budget < |all| then |gold| + budget else |all|
  {
    UnionSize(gold, pool);
    UnionSize(gold, picked);
    assert gold + pool == all;
  }

  method KeepRows(rows: seq<Judgement>, qids: set<string>, pids: set<string>) returns (kept: seq<Judgement>)
    ensures kept == Kept(rows, qids, pids)
  {
    kept := [];
    for i := 0 to |rows|
      invariant kept == Kept(rows[..i], qids, pids)
    {
      assert rows[..i + 1][..i] == rows[..i];
      if rows[i].qid in qids && rows[i].pid in pids { kept := kept + [rows[i]]; }
    }
    assert rows[..|rows|] == rows;
  }

  method SubsampleQueries(corpus: map<string, string>, queries: map<string, string>, rows: seq<Judgement>, num: nat,
      target: nat, draw: Draw) returns (out: Outcome)
    requires IsDraw(draw)
    ensures out.TooFewJudgedQueries? <==> num > |Judged(queries, corpus, rows)|
    ensures out.TooManyGoldDocuments? <==>
              && num <= |Judged(queries, corpus, rows)|
              && |GoldOf(draw(0, Judged(queries, corpus, rows), num), corpus, rows)| > target
    ensures out.TooFewJudgedQueries? ==> out.judged == |Judged(queries, corpus, rows)|
    ensures out.TooManyGoldDocuments? ==>
              out.gold == |GoldOf(draw(0, Judged(queries, corpus, rows), num), corpus, rows)|
    ensures out.Sampled? ==> IsSample(out.sample, corpus, queries, rows, num, target)
    ensures out.Sampled? ==>
              && out.sample.queries.Keys == draw(0, Judged(queries, corpus, rows), num)
              && var s := out.sample; var gold := GoldOf(s.queries.Keys, corpus, rows);
              |gold| <= target && Drawn(s.corpus.Keys - gold, corpus.Keys - gold, Budget(gold, target), draw)
    ensures out.Sampled? ==>
              var s := out.sample; var gold := GoldOf(s.queries.Keys, corpus, rows);
              s.stats == Stats(|gold|, |s.corpus.Keys - gold|, |s.corpus|, |s.qrels|)
  {
    var index := GroupByQuery(rows);
    var judged := JudgedQueries(queries, index, corpus, rows);
    if num > |judged| { return TooFewJudgedQueries(|judged|); }
    var qids := draw(0, judged, num);
    var gold := RelevantDocuments(qids, index, corpus, rows);
    if |gold| > target { return TooManyGoldDocuments(|gold|); }
    var distractors := PickDistractors(corpus, gold, target, draw);
    var pids := gold + distractors;
    var kept := KeepRows(rows, qids, pids);
    var stats := Stats(|gold|, |distractors|, |pids|, |kept|);
    assert pids - gold == distractors;
    out := Sampled(Sample(Restrict(corpus, pids), Restrict(queries, qids), kept, stats));
    Assembled(corpus, queries, rows, num, target, qids, pids, stats);
  }

  lemma Assembled(corpus: map<string, string>, queries: map<string, string>, rows: seq<Judgement>, num: nat,
      target: nat, qids: set<string>, pids: set<string>, stats: Stats)
    requires qids <= Judged(queries, corpus, rows) && |qids| == num
    requires pids <= corpus.Keys && |pids| == (if target < |corpus| then target else |corpus|) &&
             GoldOf(qids, corpus, rows) <= pids
    ensures var s := Sample(Restrict(corpus, pids), Restrict(queries, qids), Kept(rows, qids, pids), stats);
            IsSample(s, corpus, queries, rows, num, target) && s.queries.Keys == qids && s.corpus.Keys == pids
            && |s.corpus| == |pids|
  {
    assert Restrict(corpus, pids).Keys == pids && Restrict(queries, qids).Keys == qids;
  }
}

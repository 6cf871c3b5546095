/** The second stage: a corpus sample around the relevant set, files under sanitised stems,
    and the queries that still have a judged document. */
module Convert {
  import opened Options
  import opened Sequences
  import opened Subsample

  /** One line of a corpus or a query file. */
  datatype Line = Line(id: string, text: string)

  /** A query with the stems that answer it; the file lists them sorted. */
  datatype Question = Question(text: string, answers: multiset<string>)

  datatype Dataset = Dataset(stems: map<string, string>, questions: seq<Question>, dropped: nat)

  datatype Result = Converted(data: Dataset) | BadPassageId | StemCollision | NoQueries

  ghost predicate IsShuffle(shuffle: seq<string> -> seq<string>) {
    forall xs :: multiset(shuffle(xs)) == multiset(xs)
  }

  // ------------------------------------------------------------------
  // Sampling the corpus.

  /** The ids outside `taken`, in order. */
  function Others(ids: seq<string>, taken: set<string>): seq<string> {
    if ids == [] then []
    else Others(ids[..|ids| - 1], taken) + if ids[|ids| - 1] in taken then [] else [ids[|ids| - 1]]
  }

  lemma {:induction false} OthersMeans(ids: seq<string>, taken: set<string>)
    ensures Members(Others(ids, taken)) == Members(ids) - taken
  {
    if ids != [] {
      var n := |ids| - 1;
      OthersMeans(ids[..n], taken);
      assert ids == ids[..n] + [ids[n]];
      assert ids[n] in Members(ids);
      assert forall x :: x in Others(ids[..n], taken) <==> x in Members(Others(ids[..n], taken));
    }
  }

  lemma {:induction false} OthersDistinct(ids: seq<string>, taken: set<string>)
    requires Distinct(ids)
    ensures Distinct(Others(ids, taken))
  {
    if ids != [] {
      var n := |ids| - 1;
      OthersDistinct(ids[..n], taken);
      OthersMeans(ids[..n], taken);
      assert ids[n] !in Members(ids[..n]);
      assert ids[n] !in Members(Others(ids[..n], taken));
    }
  }

  /** The relevant ids, topped up to the size with the first of the others. */
  function ToppedTo(relevant: set<string>, mixed: seq<string>, size: nat): set<string> {
    if |relevant| >= size then relevant
    else
      var fill := size - |relevant|;
      relevant + Members(Take(mixed, fill))
  }

  function SampleOf(ids: seq<string>, relevant: set<string>, size: nat,
      shuffle: seq<string> -> seq<string>): set<string>
  {
    ToppedTo(relevant, shuffle(Others(ids, relevant)), size)
  }

  /** Keeps the relevant ids whatever the size, and everything once the size has room for
      the relevant ids and each listing of another id. */
  method StratifiedSample(ids: seq<string>, relevant: set<string>, size: nat, shuffle: seq<string> -> seq<string>)
    returns (sampled: set<string>)
    requires IsShuffle(shuffle)
    ensures sampled == SampleOf(ids, relevant, size, shuffle)
    ensures relevant <= sampled <= relevant + Members(ids)
    ensures |relevant| >= size ==> sampled == relevant
    ensures |relevant| < size ==> |sampled| <= size
    ensures |relevant| + |Others(ids, relevant)| <= size ==> sampled == relevant + Members(ids)
  {
    sampled := relevant;
    if |relevant| >= size {
      FullAlready(ids, relevant, size);
      return;
    }
    var rest := CollectOthers(ids, relevant);
    var mixed := shuffle(rest);
    var fill := size - |relevant|;
    ShuffledOthers(ids, relevant, mixed);
    TopUp(relevant, Members(ids), mixed, fill);
    sampled := relevant + Members(Take(mixed, fill));
  }

  lemma ShuffledOthers(ids: seq<string>, relevant: set<string>, mixed: seq<string>)
    requires multiset(mixed) == multiset(Others(ids, relevant))
    ensures Members(mixed) == Members(ids) - relevant && |mixed| == |Others(ids, relevant)|
  {
    SameMultiset(mixed, Others(ids, relevant));
    OthersMeans(ids, relevant);
  }

  method CollectOthers(ids: seq<string>, taken: set<string>) returns (rest: seq<string>)
    ensures rest == Others(ids, taken)
  {
    rest := [];
    for i := 0 to |ids|
      invariant rest == Others(ids[..i], taken)
    {
      assert ids[..i + 1][..i] == ids[..i];
      if ids[i] !in taken { rest := rest + [ids[i]]; }
    }
    assert ids[..|ids|] == ids;
  }

  lemma FullAlready(ids: seq<string>, relevant: set<string>, size: nat)
    requires |relevant| >= size
    ensures |relevant| + |Others(ids, relevant)| <= size ==> relevant == relevant + Members(ids)
  {
    OthersMeans(ids, relevant);
    if Others(ids, relevant) == [] { assert Members(ids) - relevant == {}; }
  }

  lemma TopUp(relevant: set<string>, others: set<string>, mixed: seq<string>, fill: nat)
    requires Members(mixed) == others - relevant
    ensures var sampled := relevant + Members(Take(mixed, fill));
            sampled <= relevant + others && |sampled| <= |relevant| + fill
    ensures |mixed| <= fill ==> relevant + Members(Take(mixed, fill)) == relevant + others
  {
    TakeMembers(mixed, fill);
    ToppedUp(relevant, others, Members(mixed), Members(Take(mixed, fill)));
  }

  /** A set with some of what another has beyond it. */
  lemma ToppedUp(a: set<string>, b: set<string>, rest: set<string>, c: set<string>)
    requires rest == b - a && c <= rest
    ensures a + c <= a + b && |a + c| == |a| + |c|
    ensures a + c == a + b <==> c == rest
    ensures |a + b| == |a| + |rest|
  {
    UnionSize(a, c);
    UnionSize(a, rest);
    assert a + b == a + rest;
    if a + c == a + b {
      forall x | x in rest ensures x in c { assert x in a + b; }
    }
  }

  lemma TakeMembers(xs: seq<string>, k: nat)
    ensures Members(Take(xs, k)) <= Members(xs) && |Members(Take(xs, k))| <= |Take(xs, k)|
    ensures |Take(xs, k)| == if k < |xs| then k else |xs|
    ensures |xs| <= k ==> Take(xs, k) == xs
  {
    MembersSize(Take(xs, k));
  }

  lemma SameMultiset(xs: seq<string>, ys: seq<string>)
    requires multiset(xs) == multiset(ys)
    ensures |xs| == |ys| && Members(xs) == Members(ys)
  {
    assert |multiset(xs)| == |xs| && |multiset(ys)| == |ys|;
    forall x ensures x in xs <==> x in ys {
      assert x in xs <==> x in multiset(xs);
      assert x in ys <==> x in multiset(ys);
    }
  }

  lemma DistinctOthersFill(ids: seq<string>, relevant: set<string>)
    requires Distinct(ids)
    ensures |relevant| + |Others(ids, relevant)| == |relevant + Members(ids)|
  {
    OthersMeans(ids, relevant);
    OthersDistinct(ids, relevant);
    MembersSize(Others(ids, relevant));
    UnionSize(relevant, Members(ids) - relevant);
    assert relevant + (Members(ids) - relevant) == relevant + Members(ids);
  }

  lemma DistinctShuffle(ids: seq<string>, relevant: set<string>, mixed: seq<string>)
    requires Distinct(ids) && multiset(mixed) == multiset(Others(ids, relevant))
    ensures Members(mixed) == Members(ids) - relevant && |Members(mixed)| == |mixed|
  {
    ShuffledOthers(ids, relevant, mixed);
    SameMultiset(mixed, Others(ids, relevant));
    OthersDistinct(ids, relevant);
    MembersSize(Others(ids, relevant));
  }

  /** `sampled` has the size asked for, within `all` and never below `relevant`. */
  ghost predicate FillsUp(sampled: set<string>, relevant: set<string>, others: set<string>, all: set<string>, size: nat)
  {
    && |sampled| == (if |relevant| >= size then |relevant| else if size < |all| then size else |all|)
    && (sampled == all <==> |all| <= size || others <= relevant)
  }

  /** Of distinct ids the sample has exactly the size asked for, within what there is and
      never below the relevant ids; so it is everything iff there is room or nothing to add. */
  lemma DistinctIdsLeaveRoom(ids: seq<string>, relevant: set<string>, size: nat, shuffle: seq<string> -> seq<string>)
    requires Distinct(ids) && IsShuffle(shuffle)
    ensures var sampled, all := SampleOf(ids, relevant, size, shuffle), relevant + Members(ids);
            FillsUp(sampled, relevant, Members(ids), all, size)
  {
    var mixed := shuffle(Others(ids, relevant));
    DistinctShuffle(ids, relevant, mixed);
    ToppedToFillsUp(relevant, Members(ids), mixed, size);
  }

  lemma DistinctSample(relevant: set<string>, others: set<string>, mixed: seq<string>, size: nat, fill: nat)
    requires |Members(mixed)| == |mixed| && Members(mixed) == others - relevant
    requires |relevant| < size && fill == size - |relevant|
    ensures FillsUp(relevant + Members(Take(mixed, fill)), relevant, others, relevant + others, size)
  {
    FilledTo(relevant, others, mixed, fill);
    NothingToAdd(relevant, others, Members(mixed));
    FillsUpWhen(relevant + Members(Take(mixed, fill)), relevant, others, relevant + others, size, fill, |mixed|);
  }

  lemma ToppedToFillsUp(relevant: set<string>, others: set<string>, mixed: seq<string>, size: nat)
    requires |Members(mixed)| == |mixed| && Members(mixed) == others - relevant
    ensures FillsUp(ToppedTo(relevant, mixed, size), relevant, others, relevant + others, size)
  {
    if |relevant| < size {
      var fill := size - |relevant|;
      assert ToppedTo(relevant, mixed, size) == relevant + Members(Take(mixed, fill));
      DistinctSample(relevant, others, mixed, size, fill);
    } else {
      assert ToppedTo(relevant, mixed, size) == relevant;
      FullSample(relevant, others, mixed, size);
    }
  }

  lemma FillsUpWhen(sampled: set<string>, relevant: set<string>, others: set<string>, all: set<string>, size: nat,
      fill: nat, n: nat)
    requires |relevant| < size && fill == size - |relevant| && |all| == |relevant| + n
    requires |sampled| == |relevant| + (if fill < n then fill else n) && (sampled == all <==> n <= fill)
    requires n == 0 <==> others <= relevant
    ensures FillsUp(sampled, relevant, others, all, size)
  {
  }

  lemma FullSample(relevant: set<string>, others: set<string>, mixed: seq<string>, size: nat)
    requires |Members(mixed)| == |mixed| && Members(mixed) == others - relevant && |relevant| >= size
    ensures FillsUp(relevant, relevant, others, relevant + others, size)
  {
    ToppedUp(relevant, others, Members(mixed), {});
    NothingToAdd(relevant, others, Members(mixed));
  }

  lemma NothingToAdd(a: set<string>, b: set<string>, rest: set<string>)
    requires rest == b - a
    ensures |rest| == 0 <==> b <= a
    ensures a + {} == a
  {
    if |rest| == 0 { assert rest == {}; }
    forall x | x in b && b <= a ensures x !in rest {}
    if b <= a { assert rest == {}; }
    if rest == {} { forall x | x in b ensures x in a { assert x in rest || x in a; } }
  }

  /** Distinct ids fill the sample up one by one. */
  lemma FilledTo(relevant: set<string>, others: set<string>, mixed: seq<string>, fill: nat)
    requires |Members(mixed)| == |mixed| && Members(mixed) == others - relevant
    ensures |relevant + Members(Take(mixed, fill))| == |relevant| + (if fill < |mixed| then fill else |mixed|)
    ensures relevant + Members(Take(mixed, fill)) == relevant + others <==> |mixed| <= fill
    ensures |relevant + others| == |relevant| + |mixed|
  {
    TakeMembers(mixed, fill);
    TakeDistinct(mixed, fill);
    ToppedUp(relevant, others, Members(mixed), Members(Take(mixed, fill)));
  }

  lemma TakeDistinct(xs: seq<string>, k: nat)
    requires |Members(xs)| == |xs|
    ensures |Members(Take(xs, k))| == |Take(xs, k)|
  {
    MembersSize(xs);
    MembersSize(Take(xs, k));
  }

  lemma {:induction false} OthersOfNone(ids: seq<string>)
    ensures Others(ids, {}) == ids
  {
    if ids != [] {
      OthersOfNone(ids[..|ids| - 1]);
      assert ids == ids[..|ids| - 1] + [ids[|ids| - 1]];
    }
  }

  /** How many places the sample has for other ids. */
  function Room(relevant: set<string>, size: nat): nat { if |relevant| >= size then 0 else size - |relevant| }

  /** Under every shuffle the sample is everything. */
  ghost predicate NeverPushesOut(ids: seq<string>, relevant: set<string>, size: nat) {
    forall shuffle :: IsShuffle(shuffle) ==> SampleOf(ids, relevant, size, shuffle) == relevant + Members(ids)
  }

  function Copies(ids: seq<string>, x: string): nat { multiset(ids)[x] }

  lemma ToppedToTakes(relevant: set<string>, mixed: seq<string>, size: nat)
    ensures ToppedTo(relevant, mixed, size) == relevant + Members(Take(mixed, Room(relevant, size)))
  {
    if |relevant| >= size {
      assert Take(mixed, 0) == [];
      assert relevant + {} == relevant;
    }
  }

  /** What is left out of a list has at least the copies of an id that is nowhere taken. */
  lemma LeftOutCopies(mixed: seq<string>, room: nat, x: string)
    requires x in mixed && x !in Take(mixed, room)
    ensures Copies(mixed, x) + room <= |mixed|
  {
    var rest := mixed[room..];
    assert mixed == Take(mixed, room) + rest;
    assert multiset(mixed) == multiset(Take(mixed, room)) + multiset(rest);
    assert multiset(Take(mixed, room))[x] == 0;
    CopiesAtMost(rest, x);
  }

  lemma {:induction false} CopiesAtMost(xs: seq<string>, x: string)
    ensures multiset(xs)[x] <= |xs|
  {
    if xs != [] {
      var n := |xs| - 1;
      CopiesAtMost(xs[..n], x);
      assert xs == xs[..n] + [xs[n]];
    }
  }

  function Without(xs: seq<string>, x: string): seq<string> {
    if xs == [] then []
    else Without(xs[..|xs| - 1], x) + if xs[|xs| - 1] == x then [] else [xs[|xs| - 1]]
  }

  function Only(xs: seq<string>, x: string): seq<string> {
    if xs == [] then [] else Only(xs[..|xs| - 1], x) + if xs[|xs| - 1] == x then [x] else []
  }

  /** The shuffle that puts the copies of one id last. */
  function Behind(xs: seq<string>, x: string): seq<string> { Without(xs, x) + Only(xs, x) }

  lemma {:induction false} WithoutMeans(xs: seq<string>, x: string)
    ensures x !in Without(xs, x) && |Without(xs, x)| + Copies(xs, x) == |xs|
  {
    if xs != [] {
      var n := |xs| - 1;
      WithoutMeans(xs[..n], x);
      assert xs == xs[..n] + [xs[n]];
    }
  }

  lemma {:induction false} BehindMeans(xs: seq<string>, x: string)
    ensures multiset(Without(xs, x)) + multiset(Only(xs, x)) == multiset(xs)
  {
    if xs != [] {
      var n := |xs| - 1;
      var front, y := xs[..n], xs[n];
      BehindMeans(front, x);
      assert multiset(xs) == multiset(front) + multiset{y} by { assert xs == front + [y]; }
      if y == x {
        assert Without(xs, x) == Without(front, x) && Only(xs, x) == Only(front, x) + [y];
      } else {
        assert Only(xs, x) == Only(front, x) && Without(xs, x) == Without(front, x) + [y];
      }
    }
  }

  function PutsBehind(x: string): seq<string> -> seq<string> { xs => Behind(xs, x) }

  lemma BehindIsShuffle(x: string)
    ensures IsShuffle(PutsBehind(x))
  {
    forall xs ensures multiset(PutsBehind(x)(xs)) == multiset(xs) { BehindMeans(xs, x); }
  }

  lemma BehindIsNotTaken(xs: seq<string>, x: string, room: nat)
    requires Copies(xs, x) + room <= |xs|
    ensures x !in Take(Behind(xs, x), room)
  {
    WithoutMeans(xs, x);
    var taken := Take(Behind(xs, x), room);
    forall i | 0 <= i < |taken| ensures taken[i] != x {
      assert taken[i] == Without(xs, x)[i] && Without(xs, x)[i] in Without(xs, x);
    }
  }

  lemma MissedBy(ids: seq<string>, relevant: set<string>, mixed: seq<string>, size: nat, x: string)
    requires x in Others(ids, relevant) && x !in Take(mixed, Room(relevant, size))
    ensures x !in ToppedTo(relevant, mixed, size) && x in relevant + Members(ids)
  {
    OthersMeans(ids, relevant);
    assert x in Members(Others(ids, relevant));
    ToppedToTakes(relevant, mixed, size);
  }

  lemma PushedOut(ids: seq<string>, relevant: set<string>, size: nat, x: string)
    requires x in Others(ids, relevant)
    requires !Abundant(Others(ids, relevant), Room(relevant, size), x)
    ensures !NeverPushesOut(ids, relevant, size)
  {
    var others := Others(ids, relevant);
    BehindIsShuffle(x);
    BehindIsNotTaken(others, x, Room(relevant, size));
    MissedBy(ids, relevant, Behind(others, x), size, x);
    assert SampleOf(ids, relevant, size, PutsBehind(x)) == ToppedTo(relevant, Behind(others, x), size);
  }

  /** More copies of the id than listings are left out. */
  predicate Abundant(others: seq<string>, room: nat, x: string) { Copies(others, x) + room > |others| }

  lemma KeptUnderShuffle(ids: seq<string>, relevant: set<string>, size: nat, shuffle: seq<string> -> seq<string>)
    requires IsShuffle(shuffle)
    requires forall x :: x in Others(ids, relevant) ==> Abundant(Others(ids, relevant), Room(relevant, size), x)
    ensures SampleOf(ids, relevant, size, shuffle) == relevant + Members(ids)
  {
    var others, room := Others(ids, relevant), Room(relevant, size);
    var mixed := shuffle(others);
    SameMultiset(mixed, others);
    OthersMeans(ids, relevant);
    forall x | x in mixed ensures x in Take(mixed, room) {
      assert x in Members(mixed) && x in others;
      if x !in Take(mixed, room) { LeftOutCopies(mixed, room, x); }
    }
    ToppedToTakes(relevant, mixed, size);
    assert Members(Take(mixed, room)) == Members(mixed);
    assert relevant + (Members(ids) - relevant) == relevant + Members(ids);
  }

  /** Of any ids, repeated or not: no id can be pushed out iff fewer listings are left out than
      any other id has. */
  lemma NothingPushedOutIff(ids: seq<string>, relevant: set<string>, size: nat)
    ensures var others := Others(ids, relevant);
            NeverPushesOut(ids, relevant, size) <==>
            forall x :: x in others ==> Abundant(others, Room(relevant, size), x)
  {
    var others, room := Others(ids, relevant), Room(relevant, size);
    if x :| x in others && !Abundant(others, room, x) {
      PushedOut(ids, relevant, size, x);
    } else {
      forall shuffle | IsShuffle(shuffle)
        ensures SampleOf(ids, relevant, size, shuffle) == relevant + Members(ids)
      {
        KeptUnderShuffle(ids, relevant, size, shuffle);
      }
    }
  }

  function Unshuffled(ids: seq<string>): seq<string> { ids }

  /** An id listed twice can push out another, although the size has room for both. */
  lemma RepeatedIdsCanPushOut(a: string, b: string)
    requires a != b
    ensures var ids := [a, a, b];
            IsShuffle(Unshuffled) && Members(ids) == {a, b} && |{a, b}| == 2 && SampleOf(ids, {}, 2, Unshuffled) == {a}
  {
    OthersOfNone([a, a, b]);
    assert Members([a, a, b]) == {a, b};
    assert [a, a, b][..2] == [a, a];
  }

  // ------------------------------------------------------------------
  // The positive judgements of each query.

  type Answers = map<string, seq<string>>

  function AnswersOf(answers: Answers, q: string): seq<string> { if q in answers then answers[q] else [] }

  /** The documents judged relevant to `q`, in row order. */
  function Positive(rows: seq<Judgement>, q: string): seq<string> {
    if rows == [] then []
    else
      var r := rows[|rows| - 1];
      Positive(rows[..|rows| - 1], q) + if r.qid == q && r.score > 0 then [r.pid] else []
  }

  lemma {:induction false} PositiveMeans(rows: seq<Judgement>, q: string, p: string)
    ensures p in Positive(rows, q) <==> exists r :: r in rows && r.qid == q && r.score > 0 && r.pid == p
  {
    if rows != [] {
      PositiveMeans(rows[..|rows| - 1], q, p);
      assert rows == rows[..|rows| - 1] + [rows[|rows| - 1]];
    }
  }

  ghost predicate Loaded(answers: Answers, rows: seq<Judgement>) {
    (forall q :: AnswersOf(answers, q) == Positive(rows, q)) && forall q :: q in answers ==> answers[q] != []
  }

  method LoadQrels(rows: seq<Judgement>) returns (answers: Answers)
    ensures Loaded(answers, rows)
  {
    answers := map[];
    for i := 0 to |rows|
      invariant Loaded(answers, rows[..i])
    {
      assert rows[..i + 1][..i] == rows[..i];
      var r := rows[i];
      if r.score > 0 { answers := answers[r.qid := AnswersOf(answers, r.qid) + [r.pid]]; }
    }
    assert rows[..|rows|] == rows;
  }

  ghost function RelevantIds(rows: seq<Judgement>): set<string> { set r | r in rows && r.score > 0 :: r.pid }

  method AllAnswers(answers: Answers, ghost rows: seq<Judgement>) returns (ids: set<string>)
    requires Loaded(answers, rows)
    ensures ids == RelevantIds(rows)
  {
    ids := set q, i | q in answers && 0 <= i < |answers[q]| :: answers[q][i];
    forall p ensures p in ids <==> p in RelevantIds(rows) {
      if p in ids {
        var q, i :| q in answers && 0 <= i < |answers[q]| && answers[q][i] == p;
        PositiveMeans(rows, q, p);
        assert p in AnswersOf(answers, q);
      }
      if p in RelevantIds(rows) {
        var r :| r in rows && r.score > 0 && r.pid == p;
        PositiveMeans(rows, r.qid, p);
        var i :| 0 <= i < |answers[r.qid]| && answers[r.qid][i] == p;
      }
    }
  }

  // ------------------------------------------------------------------
  // Writing the sampled documents.

  /** The non-empty ids of a corpus file, in order. */
  function IdsOf(lines: seq<Line>): seq<string> {
    if lines == [] then []
    else IdsOf(lines[..|lines| - 1]) + if lines[|lines| - 1].id == "" then [] else [lines[|lines| - 1].id]
  }

  /** Every kept line has a stem, and no two kept lines share one. */
  ghost predicate Clean(docs: seq<Line>, keep: set<string>, stem: string -> Option<string>) {
    && (forall i :: 0 <= i < |docs| && docs[i].id in keep ==> stem(docs[i].id).Some?)
    && forall i, j :: 0 <= i < j < |docs| && docs[i].id in keep && docs[j].id in keep ==>
       stem(docs[i].id) != stem(docs[j].id)
  }

  function AllIds(lines: seq<Line>): set<string> { set l | l in lines :: l.id }

  lemma AllIdsAppend(lines: seq<Line>, l: Line)
    ensures AllIds(lines + [l]) == AllIds(lines) + {l.id}
  {
    assert forall x :: x in lines + [l] <==> x in lines || x == l;
  }

  /** The stems written for the kept lines. */
  ghost predicate Written(stems: map<string, string>, docs: seq<Line>, keep: set<string>,
      stem: string -> Option<string>)
  {
    stems.Keys == keep * AllIds(docs) && forall c :: c in stems ==> stem(c) == Some(stems[c])
  }

  /** Up to line `i` all is well, and that line is kept but has no stem. */
  ghost predicate NoStemAt(docs: seq<Line>, i: int, keep: set<string>, stem: string -> Option<string>) {
    0 <= i < |docs| && Clean(docs[..i], keep, stem) && docs[i].id in keep && stem(docs[i].id).None?
  }

  /** Up to line `i` all is well, and that line is kept but an earlier kept one has its stem. */
  ghost predicate ClashAt(docs: seq<Line>, i: int, keep: set<string>, stem: string -> Option<string>) {
    && 0 <= i < |docs| && Clean(docs[..i], keep, stem) && docs[i].id in keep && stem(docs[i].id).Some?
    && exists j :: 0 <= j < i && docs[j].id in keep && stem(docs[j].id) == stem(docs[i].id)
  }

  /** So only one of the two errors fits the files. */
  lemma OneFault(docs: seq<Line>, i: int, j: int, keep: set<string>, stem: string -> Option<string>)
    requires NoStemAt(docs, i, keep, stem)
    ensures !ClashAt(docs, j, keep, stem)
  {
  }

  datatype Files = Files(stems: map<string, string>) | BadId | Collides

  method WriteCorpus(docs: seq<Line>, keep: set<string>, stem: string -> Option<string>) returns (files: Files)
    ensures files.Files? <==> Clean(docs, keep, stem)
    ensures files.BadId? ==> exists i :: NoStemAt(docs, i, keep, stem)
    ensures files.Collides? ==> exists i :: ClashAt(docs, i, keep, stem)
    ensures files.Files? ==> Written(files.stems, docs, keep, stem)
  {
    var stems: map<string, string> := map[];
    for i := 0 to |docs|
      invariant Clean(docs[..i], keep, stem) && Written(stems, docs[..i], keep, stem)
    {
      var cid := docs[i].id;
      assert docs[..i + 1] == docs[..i] + [docs[i]];
      AllIdsAppend(docs[..i], docs[i]);
      if cid in keep {
        var st := stem(cid);
        if st.None? {
          assert NoStemAt(docs, i, keep, stem);
          return BadId;
        }
        NextStem(docs, i, keep, stem, stems);
        if exists c :: c in stems && stems[c] == st.value {
          assert ClashAt(docs, i, keep, stem);
          return Collides;
        }
        stems := stems[cid := st.value];
      }
    }
    assert docs[..|docs|] == docs;
    files := Files(stems);
  }

  /** A kept line's stem is free exactly when no earlier kept line has it. */
  lemma NextStem(docs: seq<Line>, i: nat, keep: set<string>, stem: string -> Option<string>, stems: map<string, string>)
    requires i < |docs| && Written(stems, docs[..i], keep, stem) && docs[i].id in keep && stem(docs[i].id).Some?
    ensures (exists c :: c in stems && stems[c] == stem(docs[i].id).value) <==>
            exists j :: 0 <= j < i && docs[j].id in keep && stem(docs[j].id) == stem(docs[i].id)
  {
    var st := stem(docs[i].id);
    if c :| c in stems && stems[c] == st.value {
      assert c in AllIds(docs[..i]);
      var l :| l in docs[..i] && l.id == c;
      var j :| 0 <= j < i && docs[j] == l;
      assert stem(docs[j].id) == st;
    }
    if j :| 0 <= j < i && docs[j].id in keep && stem(docs[j].id) == st {
      assert docs[j] in docs[..i];
      assert docs[j].id in stems;
    }
  }

  // ------------------------------------------------------------------
  // The questions that survive.

  /** The stems of those answers that were written. */
  function Renamed(ids: seq<string>, stems: map<string, string>): seq<string> {
    if ids == [] then []
    else
      var c := ids[|ids| - 1];
      Renamed(ids[..|ids| - 1], stems) + if c in stems then [stems[c]] else []
  }

  lemma {:induction false} RenamedNonEmpty(ids: seq<string>, stems: map<string, string>)
    ensures Renamed(ids, stems) != [] <==> exists c :: c in ids && c in stems
  {
    if ids != [] {
      RenamedNonEmpty(ids[..|ids| - 1], stems);
      assert ids == ids[..|ids| - 1] + [ids[|ids| - 1]];
    }
  }

  method Rename(ids: seq<string>, stems: map<string, string>) returns (kept: seq<string>)
    ensures kept == Renamed(ids, stems)
  {
    kept := [];
    for i := 0 to |ids|
      invariant kept == Renamed(ids[..i], stems)
    {
      assert ids[..i + 1][..i] == ids[..i];
      if ids[i] in stems { kept := kept + [stems[ids[i]]]; }
    }
    assert ids[..|ids|] == ids;
  }

  predicate Asked(l: Line) { l.id != "" && l.text != "" }

  /** A written document answers the query. */
  ghost predicate Answerable(q: string, rows: seq<Judgement>, stems: map<string, string>) {
    exists r :: r in rows && r.qid == q && r.score > 0 && r.pid in stems
  }

  lemma AnswerableIff(q: string, rows: seq<Judgement>, stems: map<string, string>)
    ensures Answerable(q, rows, stems) <==> Renamed(Positive(rows, q), stems) != []
  {
    RenamedNonEmpty(Positive(rows, q), stems);
    forall p ensures p in Positive(rows, q) <==> exists r :: r in rows && r.qid == q && r.score > 0 && r.pid == p {
      PositiveMeans(rows, q, p);
    }
  }

  ghost function Survivors(lines: seq<Line>, rows: seq<Judgement>, stems: map<string, string>): seq<Question> {
    if lines == [] then []
    else
      var l := lines[|lines| - 1];
      Survivors(lines[..|lines| - 1], rows, stems) +
      if Asked(l) && Answerable(l.id, rows, stems)
      then [Question(l.text, multiset(Renamed(Positive(rows, l.id), stems)))]
      else []
  }

  lemma {:induction false} RenamedMeans(ids: seq<string>, stems: map<string, string>, stem: string)
    ensures stem in Renamed(ids, stems) <==> exists c :: c in ids && c in stems && stems[c] == stem
  {
    if ids != [] {
      RenamedMeans(ids[..|ids| - 1], stems, stem);
      assert ids == ids[..|ids| - 1] + [ids[|ids| - 1]];
    }
  }

  /** The rows that judge a document of that stem relevant to `q`. */
  ghost function AnswerRows(q: string, rows: seq<Judgement>, stems: map<string, string>, stem: string): set<nat> {
    set i: nat | i < |rows| && rows[i].qid == q && rows[i].score > 0 && rows[i].pid in stems &&
                 stems[rows[i].pid] == stem
  }

  lemma OneMoreRow(before: set<nat>, after: set<nat>, n: nat, more: bool)
    requires n !in before && forall i: nat :: i in after <==> i in before || (more && i == n)
    ensures |after| == |before| + if more then 1 else 0
  {
    assert after == before + if more then {n} else {};
  }

  lemma RenamedAppend(ids: seq<string>, c: string, stems: map<string, string>, stem: string)
    ensures multiset(Renamed(ids + [c], stems))[stem] ==
            multiset(Renamed(ids, stems))[stem] + if c in stems && stems[c] == stem then 1 else 0
  {
    assert (ids + [c])[..|ids|] == ids;
    var before := Renamed(ids, stems);
    if c in stems {
      assert multiset(before + [stems[c]]) == multiset(before) + multiset{stems[c]};
    } else {
      assert before + [] == before;
    }
  }

  predicate Tells(r: Judgement, q: string, stems: map<string, string>, stem: string) {
    r.qid == q && r.score > 0 && r.pid in stems && stems[r.pid] == stem
  }

  lemma AnswerAppend(q: string, front: seq<Judgement>, r: Judgement, stems: map<string, string>, stem: string)
    ensures multiset(Renamed(Positive(front + [r], q), stems))[stem] ==
            multiset(Renamed(Positive(front, q), stems))[stem] + if Tells(r, q, stems, stem) then 1 else 0
  {
    assert (front + [r])[..|front|] == front;
    if r.qid == q && r.score > 0 {
      RenamedAppend(Positive(front, q), r.pid, stems, stem);
    } else {
      assert Positive(front + [r], q) == Positive(front, q);
    }
  }

  lemma AnswerRowsAppend(q: string, front: seq<Judgement>, r: Judgement, stems: map<string, string>, stem: string)
    ensures |AnswerRows(q, front + [r], stems, stem)| ==
            |AnswerRows(q, front, stems, stem)| + if Tells(r, q, stems, stem) then 1 else 0
  {
    assert forall i: nat :: i < |front| ==> (front + [r])[i] == front[i];
    OneMoreRow(AnswerRows(q, front, stems, stem), AnswerRows(q, front + [r], stems, stem), |front|,
               Tells(r, q, stems, stem));
  }

  /** A stem is listed once for each such row. */
  lemma {:induction false} AnswerCount(q: string, rows: seq<Judgement>, stems: map<string, string>, stem: string)
    ensures multiset(Renamed(Positive(rows, q), stems))[stem] == |AnswerRows(q, rows, stems, stem)|
  {
    if rows != [] {
      var front, r := rows[..|rows| - 1], rows[|rows| - 1];
      assert rows == front + [r];
      AnswerCount(q, front, stems, stem);
      AnswerAppend(q, front, r, stems, stem);
      AnswerRowsAppend(q, front, r, stems, stem);
    }
  }

  /** `q` carries the text of the query `l` and, once a judgement, the stems of the written
      documents judged relevant to it. */
  ghost predicate Carries(q: Question, l: Line, rows: seq<Judgement>, stems: map<string, string>) {
    && q.text == l.text
    && (forall stem :: q.answers[stem] == |AnswerRows(l.id, rows, stems, stem)|)
    && forall stem :: stem in q.answers <==>
                      exists r :: r in rows && r.qid == l.id && r.score > 0 && r.pid in stems && stems[r.pid] == stem
  }

  lemma PositivesMean(rows: seq<Judgement>, q: string)
    ensures forall p :: p in Positive(rows, q) <==> exists r :: r in rows && r.qid == q && r.score > 0 && r.pid == p
  {
    forall p ensures p in Positive(rows, q) <==> exists r :: r in rows && r.qid == q && r.score > 0 && r.pid == p {
      PositiveMeans(rows, q, p);
    }
  }

  lemma QuestionAnswers(l: Line, rows: seq<Judgement>, stems: map<string, string>)
    ensures Carries(Question(l.text, multiset(Renamed(Positive(rows, l.id), stems))), l, rows, stems)
  {
    forall stem
      ensures stem in multiset(Renamed(Positive(rows, l.id), stems)) <==>
              exists r :: r in rows && r.qid == l.id && r.score > 0 && r.pid in stems && stems[r.pid] == stem
    {
      RenamedMeans(Positive(rows, l.id), stems, stem);
      PositivesMean(rows, l.id);
    }
    forall stem ensures multiset(Renamed(Positive(rows, l.id), stems))[stem] == |AnswerRows(l.id, rows, stems, stem)| {
      AnswerCount(l.id, rows, stems, stem);
    }
  }

  ghost predicate Survives(l: Line, rows: seq<Judgement>, stems: map<string, string>) {
    l.id != "" && l.text != "" && Answerable(l.id, rows, stems)
  }

  /** The positions of the queries that survive. */
  ghost function SurviveAt(lines: seq<Line>, rows: seq<Judgement>, stems: map<string, string>): seq<nat> {
    if lines == [] then []
    else
      var n := |lines| - 1;
      SurviveAt(lines[..n], rows, stems) + if Survives(lines[n], rows, stems) then [n] else []
  }

  lemma {:induction false} SurviveAtMeans(lines: seq<Line>, rows: seq<Judgement>, stems: map<string, string>)
    ensures forall i: nat :: i in SurviveAt(lines, rows, stems) <==> i < |lines| && Survives(lines[i], rows, stems)
    ensures forall a, b :: 0 <= a < b < |SurviveAt(lines, rows, stems)| ==>
              SurviveAt(lines, rows, stems)[a] < SurviveAt(lines, rows, stems)[b]
  {
    if lines != [] {
      var n := |lines| - 1;
      var front := SurviveAt(lines[..n], rows, stems);
      SurviveAtMeans(lines[..n], rows, stems);
      assert forall a :: 0 <= a < |front| ==> front[a] in front;
    }
  }

  ghost predicate CarriedAt(qs: seq<Question>, picks: seq<nat>, lines: seq<Line>, rows: seq<Judgement>,
      stems: map<string, string>)
  {
    |qs| == |picks| && forall a :: 0 <= a < |qs| ==> picks[a] < |lines| && Carries(qs[a], lines[picks[a]], rows, stems)
  }

  lemma {:induction false} SurvivorsAt(lines: seq<Line>, rows: seq<Judgement>, stems: map<string, string>)
    ensures CarriedAt(Survivors(lines, rows, stems), SurviveAt(lines, rows, stems), lines, rows, stems)
  {
    if lines != [] {
      var n := |lines| - 1;
      SurvivorsAt(lines[..n], rows, stems);
      QuestionAnswers(lines[n], rows, stems);
    }
  }

  /** The questions are, in order, those of the queries that have an id, a text and a written
      answer, each with its text and its answers' stems. */
  lemma SurvivorsMean(lines: seq<Line>, rows: seq<Judgement>, stems: map<string, string>) returns (picks: seq<nat>)
    ensures CarriedAt(Survivors(lines, rows, stems), picks, lines, rows, stems)
    ensures forall i: nat :: i in picks <==> i < |lines| && Survives(lines[i], rows, stems)
    ensures forall a, b :: 0 <= a < b < |picks| ==> picks[a] < picks[b]
  {
    picks := SurviveAt(lines, rows, stems);
    SurviveAtMeans(lines, rows, stems);
    SurvivorsAt(lines, rows, stems);
  }

  function CountAsked(lines: seq<Line>): nat {
    if lines == [] then 0 else CountAsked(lines[..|lines| - 1]) + if Asked(lines[|lines| - 1]) then 1 else 0
  }

  method EmitQuestions(lines: seq<Line>, answers: Answers, stems: map<string, string>, ghost rows: seq<Judgement>)
    returns (questions: seq<Question>, dropped: nat)
    requires Loaded(answers, rows)
    ensures questions == Survivors(lines, rows, stems)
    ensures |questions| + dropped == CountAsked(lines)
  {
    questions, dropped := [], 0;
    for i := 0 to |lines|
      invariant questions == Survivors(lines[..i], rows, stems)
      invariant |questions| + dropped == CountAsked(lines[..i])
    {
      assert lines[..i + 1][..i] == lines[..i];
      var l := lines[i];
      if Asked(l) {
        var kept := Rename(AnswersOf(answers, l.id), stems);
        AnswerableIff(l.id, rows, stems);
        if kept != [] { questions := questions + [Question(l.text, multiset(kept))]; } else { dropped := dropped + 1; }
      }
    }
    assert lines[..|lines|] == lines;
  }

  /** If every asked query is answerable, none is dropped. */
  lemma {:induction false} NothingDropped(lines: seq<Line>, rows: seq<Judgement>, stems: map<string, string>)
    requires forall l :: l in lines && Asked(l) ==> Answerable(l.id, rows, stems)
    ensures |Survivors(lines, rows, stems)| == CountAsked(lines)
  {
    if lines != [] {
      assert lines[|lines| - 1] in lines;
      NothingDropped(lines[..|lines| - 1], rows, stems);
    }
  }

  // ------------------------------------------------------------------
  // The conversion.

  method IdsIn(docs: seq<Line>) returns (ids: seq<string>)
    ensures ids == IdsOf(docs)
  {
    ids := [];
    for i := 0 to |docs|
      invariant ids == IdsOf(docs[..i])
    {
      assert docs[..i + 1][..i] == docs[..i];
      if docs[i].id != "" { ids := ids + [docs[i].id]; }
    }
    assert docs[..|docs|] == docs;
  }

  /** What a run on these files gives, `keep` being the sampled ids: every kept document
      under its stem, and of the asked queries exactly those a written document answers. */
  ghost predicate Converts(result: Result, keep: set<string>, docs: seq<Line>, lines: seq<Line>,
      rows: seq<Judgement>, stem: string -> Option<string>)
  {
    && (result.Converted? || result.NoQueries? <==> Clean(docs, keep, stem))
    && (result.BadPassageId? ==> exists i :: NoStemAt(docs, i, keep, stem))
    && (result.StemCollision? ==> exists i :: ClashAt(docs, i, keep, stem))
    && (result.Converted? ==>
          var d := result.data;
          && Written(d.stems, docs, keep, stem) && d.questions == Survivors(lines, rows, d.stems) != []
          && |d.questions| + d.dropped == CountAsked(lines))
    && (result.NoQueries? ==> exists stems :: Written(stems, docs, keep, stem) && Survivors(lines, rows, stems) == [])
  }

  method ConvertBundle(docs: seq<Line>, lines: seq<Line>, rows: seq<Judgement>, size: nat,
      shuffle: seq<string> -> seq<string>, stem: string -> Option<string>) returns (result: Result, keep: set<string>)
    requires IsShuffle(shuffle)
    ensures keep == SampleOf(IdsOf(docs), RelevantIds(rows), size, shuffle)
    ensures RelevantIds(rows) <= keep <= RelevantIds(rows) + Members(IdsOf(docs))
    ensures |RelevantIds(rows)| + |Others(IdsOf(docs), RelevantIds(rows))| <= size ==>
            keep == RelevantIds(rows) + Members(IdsOf(docs))
    ensures Converts(result, keep, docs, lines, rows, stem)
  {
    var answers := LoadQrels(rows);
    var relevant := AllAnswers(answers, rows);
    var ids := IdsIn(docs);
    var sampled := StratifiedSample(ids, relevant, size, shuffle);
    keep := sampled;
    var files := WriteCorpus(docs, sampled, stem);
    match files
    case BadId => result := BadPassageId;
    case Collides => result := StemCollision;
    case Files(stems) =>
      var questions, dropped := EmitQuestions(lines, answers, stems, rows);
      result := if questions == [] then NoQueries else Converted(Dataset(stems, questions, dropped));
  }
}

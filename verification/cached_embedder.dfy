/** The replay tool's caching embedder and the batches that warm it up. */
module CachedEmbedder {
  import opened Options
  import opened Sequences

  type Vector = seq<real>

  type Key = (string, string)

  /** What the plain embedder answers: one vector a text, in order. */
  function Plain(vector: Key -> Vector, model: string, texts: seq<string>): seq<Vector> {
    seq(|texts|, i requires 0 <= i < |texts| => vector((model, texts[i])))
  }

  /** A deterministic provider; a call may raise. The calls made so far are kept. */
  class Inner {
    const vector: Key -> Vector
    const raises: nat -> bool
    var calls: seq<(string, seq<string>)>

    constructor (vector: Key -> Vector, raises: nat -> bool)
      ensures this.vector == vector && this.raises == raises && calls == []
    {
      this.vector, this.raises, this.calls := vector, raises, [];
    }

    method Embed(model: string, texts: seq<string>) returns (r: Option<seq<Vector>>)
      modifies this
      ensures calls == old(calls) + [(model, texts)]
      ensures r == if raises(|old(calls)|) then None else Some(Plain(vector, model, texts))
    {
      r := if raises(|calls|) then None
        else Some(seq(|texts|, i requires 0 <= i < |texts| => vector((model, texts[i]))));
      calls := calls + [(model, texts)];
    }
  }

  ghost predicate Truthful(cache: map<Key, Vector>, vector: Key -> Vector) {
    forall k :: k in cache ==> cache[k] == vector(k)
  }

  /** The texts a cache cannot answer, in order, with repeats. */
  function Misses(cache: map<Key, Vector>, model: string, texts: seq<string>): seq<string> {
    if texts == [] then []
    else
      var t := texts[|texts| - 1];
      Misses(cache, model, texts[..|texts| - 1]) + if (model, t) in cache then [] else [t]
  }

  /** Text by text: one that is cached is none of them, any other is listed where it stands. */
  lemma {:induction false} MissesMean(cache: map<Key, Vector>, model: string, texts: seq<string>, i: nat)
    requires i < |texts|
    ensures Misses(cache, model, []) == []
    ensures Misses(cache, model, texts) ==
            Misses(cache, model, texts[..i]) + (if (model, texts[i]) in cache then [] else [texts[i]]) +
            Misses(cache, model, texts[i + 1..])
  {
    var n := |texts| - 1;
    if i < n {
      MissesMean(cache, model, texts[..n], i);
      assert texts[..n][..i] == texts[..i] && texts[..n][i + 1..] == texts[i + 1..][..|texts[i + 1..]| - 1];
    }
  }

  lemma {:induction false} NothingMissing(cache: map<Key, Vector>, model: string, texts: seq<string>)
    requires forall i :: 0 <= i < |texts| ==> (model, texts[i]) in cache
    ensures Misses(cache, model, texts) == []
  {
    if texts != [] { NothingMissing(cache, model, texts[..|texts| - 1]); }
  }

  function Keys(model: string, texts: seq<string>): set<Key> { set t | t in texts :: (model, t) }

  /** The list with its empty slots dropped. */
  function Filled(slots: seq<Option<Vector>>): seq<Vector> {
    if slots == [] then []
    else Filled(slots[..|slots| - 1]) + if slots[|slots| - 1].Some? then [slots[|slots| - 1].value] else []
  }

  lemma {:induction false} AllFilled(slots: seq<Option<Vector>>, vs: seq<Vector>)
    requires |slots| == |vs| && forall i :: 0 <= i < |slots| ==> slots[i] == Some(vs[i])
    ensures Filled(slots) == vs
  {
    if slots != [] {
      var n := |slots| - 1;
      AllFilled(slots[..n], vs[..n]);
      assert vs == vs[..n] + [vs[n]];
    }
  }

  class Cached {
    const inner: Inner
    var cache: map<Key, Vector>

    constructor (inner: Inner, cache: map<Key, Vector>)
      ensures this.inner == inner && this.cache == cache
    {
      this.inner, this.cache := inner, cache;
    }

    ghost predicate Valid() reads this, inner { Truthful(cache, inner.vector) }

    /** Looks every text up, leaving the slots of the misses empty. */
    method Lookup(model: string, texts: seq<string>, slots: array<Option<Vector>>)
        returns (missAt: seq<nat>, missing: seq<string>)
      requires slots.Length == |texts| && Valid()
      requires forall i :: 0 <= i < |texts| ==> slots[i] == None
      modifies slots
      ensures missing == Misses(cache, model, texts) && |missAt| == |missing|
      ensures forall j :: 0 <= j < |missAt| ==> missAt[j] < |texts| && texts[missAt[j]] == missing[j]
      ensures forall i :: 0 <= i < |texts| ==>
                if (model, texts[i]) in cache then slots[i] == Some(inner.vector((model, texts[i])))
                  else slots[i] == None && i in missAt
    {
      missAt, missing := [], [];
      for i := 0 to |texts|
        invariant missing == Misses(cache, model, texts[..i]) && |missAt| == |missing|
        invariant forall j :: 0 <= j < |missAt| ==> missAt[j] < i && texts[missAt[j]] == missing[j]
        invariant forall k :: i <= k < |texts| ==> slots[k] == None
        invariant forall k :: 0 <= k < i ==>
                    if (model, texts[k]) in cache then slots[k] == Some(inner.vector((model, texts[k])))
                      else slots[k] == None && k in missAt
      {
        assert texts[..i + 1][..i] == texts[..i];
        if (model, texts[i]) in cache {
          slots[i] := Some(cache[(model, texts[i])]);
        } else {
          missAt, missing := missAt + [i], missing + [texts[i]];
        }
      }
      assert texts[..|texts|] == texts;
    }

    /** Puts the new vectors into their slots and into the cache. */
    method Store(model: string, texts: seq<string>, slots: array<Option<Vector>>, missAt: seq<nat>,
        missing: seq<string>, news: seq<Vector>)
      requires slots.Length == |texts| && Valid() && |missAt| == |missing|
      requires forall j :: 0 <= j < |missAt| ==> missAt[j] < |texts| && texts[missAt[j]] == missing[j]
      requires news == Plain(inner.vector, model, missing)
      modifies slots, this`cache
      ensures Valid() && cache.Keys == old(cache.Keys) + Keys(model, missing)
      ensures forall i :: 0 <= i < |texts| ==>
                slots[i] == if i in missAt then Some(inner.vector((model, texts[i]))) else old(slots[i])
    {
      for j := 0 to |missing|
        invariant Valid() && cache.Keys == old(cache.Keys) + Keys(model, missing[..j])
        invariant forall i :: 0 <= i < |texts| ==>
                    slots[i] == if i in missAt[..j] then Some(inner.vector((model, texts[i]))) else old(slots[i])
      {
        assert missAt[..j + 1] == missAt[..j] + [missAt[j]] && missing[..j + 1] == missing[..j] + [missing[j]];
        slots[missAt[j]] := Some(news[j]);
        cache := cache[(model, missing[j]) := news[j]];
      }
      assert missAt[..|missing|] == missAt && missing[..|missing|] == missing;
    }

    method Collect(slots: array<Option<Vector>>) returns (vs: seq<Vector>)
      ensures vs == Filled(slots[..])
    {
      vs := [];
      for i := 0 to slots.Length
        invariant vs == Filled(slots[..i])
      {
        assert slots[..i + 1][..i] == slots[..i];
        if slots[i].Some? { vs := vs + [slots[i].value]; }
      }
      assert slots[..slots.Length] == slots[..];
    }

    /** The answer of the plain embedder, from at most one inner call, made for exactly the
        texts the cache lacks; a call that raises leaves the cache as it was. */
    method Embed(model: string, texts: seq<string>) returns (r: Option<seq<Vector>>)
      requires Valid()
      modifies this`cache, inner
      ensures Valid()
      ensures r.Some? ==> r.value == Plain(inner.vector, model, texts)
      ensures var missing := Misses(old(cache), model, texts);
              if missing == [] then r.Some? && inner.calls == old(inner.calls) && cache == old(cache)
              else
                && inner.calls == old(inner.calls) + [(model, missing)]
                && (r.None? <==> inner.raises(|old(inner.calls)|))
                && (if r.Some? then cache.Keys == old(cache.Keys) + Keys(model, missing) else cache == old(cache))
    {
      var slots := new Option<Vector>[|texts|](_ => None);
      var missAt, missing := Lookup(model, texts, slots);
      if missing != [] {
        var news := inner.Embed(model, missing);
        if news.None? { return None; }
        Store(model, texts, slots, missAt, missing, news.value);
      }
      var vs := Collect(slots);
      AllFilled(slots[..], Plain(inner.vector, model, texts));
      r := Some(vs);
    }
  }

  // ------------------------------------------------------------------
  // Warming up.

  function Joined(batches: seq<seq<string>>): seq<string> {
    if batches == [] then [] else Joined(batches[..|batches| - 1]) + batches[|batches| - 1]
  }

  /** Consecutive batches of `n`, the last one perhaps shorter, none empty. */
  ghost predicate AreBatches(batches: seq<seq<string>>, n: nat) {
    && (forall b :: 0 <= b < |batches| ==> 1 <= |batches[b]| <= n)
    && forall b :: 0 <= b < |batches| - 1 ==> |batches[b]| == n
  }

  function Least(a: nat, b: nat): nat { if a < b then a else b }

  lemma JoinedAppend(batches: seq<seq<string>>, b: seq<string>)
    ensures Joined(batches + [b]) == Joined(batches) + b
  {
    assert (batches + [b])[..|batches|] == batches;
  }

  method Batches(texts: seq<string>, n: nat) returns (batches: seq<seq<string>>)
    requires n >= 1
    ensures Joined(batches) == texts && AreBatches(batches, n)
  {
    batches := [];
    var start := 0;
    while start < |texts|
      invariant Joined(batches) == texts[..Least(start, |texts|)] && AreBatches(batches, n)
      invariant start < |texts| ==> forall b :: 0 <= b < |batches| ==> |batches[b]| == n
      decreases |texts| - start
    {
      var end := Least(start + n, |texts|);
      assert texts[..end] == texts[..start] + texts[start..end];
      JoinedAppend(batches, texts[start..end]);
      batches := batches + [texts[start..end]];
      start := start + n;
    }
  }

  function Asked(model: string, batches: seq<seq<string>>): seq<(string, seq<string>)> {
    seq(|batches|, i requires 0 <= i < |batches| => (model, batches[i]))
  }

  /** Sorts a set of texts. */
  ghost predicate IsListing(list: set<string> -> seq<string>) {
    forall s :: Distinct(list(s)) && forall t :: t in list(s) <==> t in s
  }

  /** Does the `b`-th call after the first `made` ones raise? */
  predicate RaisesAt(inner: Inner, made: nat, b: nat) { inner.raises(made + b) }

  ghost predicate SomeRaises(inner: Inner, made: nat, n: nat) { exists b :: 0 <= b < n && RaisesAt(inner, made, b) }

  /** From `before` to `after`, one call a batch, up to and with the first one that raises. */
  ghost predicate AskedUntilRaise(inner: Inner, model: string, batches: seq<seq<string>>,
      before: seq<(string, seq<string>)>, after: seq<(string, seq<string>)>)
  {
    var made := |after| - |before|;
    && 0 <= made <= |batches| && after == before + Asked(model, batches[..made])
    && (forall b :: 0 <= b < made - 1 ==> !RaisesAt(inner, |before|, b))
    && if SomeRaises(inner, |before|, |batches|) then made > 0 && RaisesAt(inner, |before|, made - 1)
       else made == |batches|
  }

  /** Embeds every distinct query exactly once, in batches, and gives up at a call that raises. */
  method PrebatchQueryEmbeds(inner: Inner, model: string, queries: seq<string>, n: nat,
      list: set<string> -> seq<string>) returns (cache: Option<map<Key, Vector>>, ghost batches: seq<seq<string>>)
    requires n >= 1 && IsListing(list)
    modifies inner
    ensures AreBatches(batches, n) && Distinct(Joined(batches)) && forall t :: t in Joined(batches) <==> t in queries
    ensures cache.Some? ==>
              && Truthful(cache.value, inner.vector) && cache.value.Keys == Keys(model, queries)
              && inner.calls == old(inner.calls) + Asked(model, batches)
    ensures cache.None? <==> SomeRaises(inner, |old(inner.calls)|, |batches|)
    ensures AskedUntilRaise(inner, model, batches, old(inner.calls), inner.calls)
  {
    var unique := list(set t | t in queries);
    var parts := Batches(unique, n);
    batches := parts;
    var warm: map<Key, Vector> := map[];
    for b := 0 to |parts|
      invariant Truthful(warm, inner.vector) && warm.Keys == Keys(model, Joined(parts[..b]))
      invariant inner.calls == old(inner.calls) + Asked(model, parts[..b])
      invariant forall a :: 0 <= a < b ==> !RaisesAt(inner, |old(inner.calls)|, a)
    {
      assert parts[..b + 1][..b] == parts[..b];
      assert Asked(model, parts[..b + 1]) == Asked(model, parts[..b]) + [(model, parts[b])];
      var vectors := inner.Embed(model, parts[b]);
      assert vectors.None? <==> RaisesAt(inner, |old(inner.calls)|, b);
      if vectors.None? { return None, batches; }
      warm := AddAll(warm, inner.vector, model, parts[b], vectors.value);
      KeysJoin(model, Joined(parts[..b]), parts[b]);
    }
    assert parts[..|parts|] == parts;
    assert Keys(model, unique) == Keys(model, queries);
    cache := Some(warm);
  }

  lemma KeysJoin(model: string, a: seq<string>, b: seq<string>)
    ensures Keys(model, a + b) == Keys(model, a) + Keys(model, b)
  {
    assert forall t :: t in a + b <==> t in a || t in b;
  }

  method AddAll(cache0: map<Key, Vector>, ghost vector: Key -> Vector, model: string, texts: seq<string>,
      vectors: seq<Vector>) returns (cache: map<Key, Vector>)
    requires Truthful(cache0, vector) && vectors == Plain(vector, model, texts)
    ensures Truthful(cache, vector) && cache.Keys == cache0.Keys + Keys(model, texts)
  {
    cache := cache0;
    for i := 0 to |texts|
      invariant Truthful(cache, vector) && cache.Keys == cache0.Keys + Keys(model, texts[..i])
    {
      assert texts[..i + 1] == texts[..i] + [texts[i]];
      cache := cache[(model, texts[i]) := vectors[i]];
    }
    assert texts[..|texts|] == texts;
  }

  /** Any run of requests on a warmed cache: the plain answers, and not one inner call. */
  method ServeWarm(e: Cached, model: string, requests: seq<seq<string>>) returns (answers: seq<seq<Vector>>)
    requires e.Valid() && forall i, t :: 0 <= i < |requests| && t in requests[i] ==> (model, t) in e.cache
    modifies e`cache, e.inner
    ensures e.inner.calls == old(e.inner.calls) && e.cache == old(e.cache)
    ensures |answers| == |requests| && forall i :: 0 <= i < |requests| ==>
            answers[i] == Plain(e.inner.vector, model, requests[i])
  {
    answers := [];
    for i := 0 to |requests|
      invariant e.Valid() && e.inner.calls == old(e.inner.calls) && e.cache == old(e.cache)
      invariant |answers| == i && forall k :: 0 <= k < i ==> answers[k] == Plain(e.inner.vector, model, requests[k])
    {
      var texts := requests[i];
      NothingMissing(e.cache, model, texts);
      var r := e.Embed(model, texts);
      answers := answers + [r.value];
    }
  }

  /** Warm up, then serve requests made of the queries: the plain answers, with the inner
      embedder asked for each distinct query once and never again. */
  method Replay(inner: Inner, model: string, queries: seq<string>, n: nat, list: set<string> -> seq<string>,
      requests: seq<seq<string>>) returns (answers: Option<seq<seq<Vector>>>, ghost batches: seq<seq<string>>)
    requires n >= 1 && IsListing(list) && forall i, t :: 0 <= i < |requests| && t in requests[i] ==> t in queries
    modifies inner
    ensures AreBatches(batches, n) && Distinct(Joined(batches)) && forall t :: t in Joined(batches) <==> t in queries
    ensures answers.None? <==> SomeRaises(inner, |old(inner.calls)|, |batches|)
    ensures AskedUntilRaise(inner, model, batches, old(inner.calls), inner.calls)
    ensures answers.Some? ==> inner.calls == old(inner.calls) + Asked(model, batches)
    ensures answers.Some? ==>
              |answers.value| == |requests| && forall i :: 0 <= i < |requests| ==>
                answers.value[i] == Plain(inner.vector, model, requests[i])
  {
    var warm;
    warm, batches := PrebatchQueryEmbeds(inner, model, queries, n, list);
    if warm.None? { return None, batches; }
    var e := new Cached(inner, warm.value);
    var served := ServeWarm(e, model, requests);
    answers := Some(served);
  }
}

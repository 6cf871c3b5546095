/** Ordering the keys of a map by their values, smallest first. */
module Sorting {
  import opened Sequences

  ghost predicate Ascending(order: seq<string>, value: map<string, real>)
    requires forall x :: x in order ==> x in value
  {
    forall i, j :: 0 <= i < j < |order| ==> value[order[i]] <= value[order[j]]
  }

  ghost predicate Sorted(order: seq<string>, value: map<string, real>) {
    (forall x :: x in order ==> x in value) && Distinct(order) && Ascending(order, value)
  }

  method Insert(order: seq<string>, x: string, value: map<string, real>) returns (longer: seq<string>)
    requires Sorted(order, value) && x in value && x !in order
    ensures Sorted(longer, value) && |longer| == |order| + 1
    ensures forall y :: y in longer <==> y in order || y == x
  {
    var i := 0;
    while i < |order| && value[order[i]] <= value[x]
      invariant 0 <= i <= |order| && forall j :: 0 <= j < i ==> value[order[j]] <= value[x]
    {
      i := i + 1;
    }
    longer := order[..i] + [x] + order[i..];
    InsertedAt(order, x, value, i);
  }

  lemma InsertedMembers(order: seq<string>, x: string, i: nat)
    requires i <= |order|
    ensures forall y :: y in order[..i] + [x] + order[i..] <==> y in order || y == x
  {
    assert order == order[..i] + order[i..];
    forall y ensures y in order[..i] + [x] + order[i..] <==> y in order || y == x {
      assert y in order <==> y in order[..i] || y in order[i..];
    }
  }

  /** Where the members of the longer list come from. */
  function Before(i: nat, j: nat): nat { if j > i then j - 1 else j }

  lemma InsertedAt(order: seq<string>, x: string, value: map<string, real>, i: nat)
    requires Sorted(order, value) && x in value && x !in order && i <= |order|
    requires forall j :: 0 <= j < i ==> value[order[j]] <= value[x]
    requires i < |order| ==> value[order[i]] > value[x]
    ensures var longer := order[..i] + [x] + order[i..];
            Sorted(longer, value) && forall y :: y in longer <==> y in order || y == x
  {
    var longer := order[..i] + [x] + order[i..];
    InsertedMembers(order, x, i);
    assert forall j :: 0 <= j < |longer| && j != i ==> longer[j] == order[Before(i, j)];
    forall j, k | 0 <= j < k < |longer| ensures longer[j] != longer[k] && value[longer[j]] <= value[longer[k]] {
      InsertedPair(order, x, value, i, j, k);
    }
  }

  lemma InsertedPair(order: seq<string>, x: string, value: map<string, real>, i: nat, j: nat, k: nat)
    requires Sorted(order, value) && x in value && x !in order && i <= |order| && j < k <= |order|
    requires forall j :: 0 <= j < i ==> value[order[j]] <= value[x]
    requires i < |order| ==> value[order[i]] > value[x]
    ensures var a, b := if j == i then x else order[Before(i, j)], if k == i then x else order[Before(i, k)];
            a in value && b in value && a != b && value[a] <= value[b]
  {
    if k != i { assert order[Before(i, k)] in order; }
    if j != i { assert order[Before(i, j)] in order; }
    if j == i { assert value[order[i]] <= value[order[Before(i, k)]]; }
  }

  method SortByValue(value: map<string, real>) returns (order: seq<string>)
    ensures Sorted(order, value) && |order| == |value|
    ensures forall x :: x in order <==> x in value
  {
    order := [];
    var left := value.Keys;
    while left != {}
      invariant left <= value.Keys && Sorted(order, value) && |order| + |left| == |value.Keys|
      invariant forall x :: x in order <==> x in value.Keys - left
      decreases |left|
    {
      var x :| x in left;
      left := left - {x};
      order := Insert(order, x, value);
    }
  }
}

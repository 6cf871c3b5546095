/** Lists without repeats, their members, and their first elements. */
module Sequences {
  ghost predicate Distinct<T>(xs: seq<T>) { forall i, j :: 0 <= i < j < |xs| ==> xs[i] != xs[j] }

  function Members(xs: seq<string>): set<string> { set x | x in xs }

  /** The first `n`, or all there are. */
  function Take<T>(xs: seq<T>, n: nat): seq<T> { if n >= |xs| then xs else xs[..n] }

  lemma MembersAppend(xs: seq<string>, x: string)
    ensures Members(xs + [x]) == Members(xs) + {x}
  {
    assert forall y :: y in xs + [x] <==> y in xs || y == x;
  }

  lemma {:induction false} MembersSize(xs: seq<string>)
    ensures |Members(xs)| <= |xs|
    ensures |Members(xs)| == |xs| <==> Distinct(xs)
  {
    if xs != [] {
      var n := |xs| - 1;
      MembersSize(xs[..n]);
      assert xs == xs[..n] + [xs[n]];
      MembersAppend(xs[..n], xs[n]);
      if xs[n] !in Members(xs[..n]) {
        assert |Members(xs)| == |Members(xs[..n])| + 1;
      } else {
        assert Members(xs) == Members(xs[..n]);
        var i :| 0 <= i < n && xs[i] == xs[n];
      }
    }
  }

  /** What `from` has not of `more`. */
  function Absent<T(==)>(more: seq<T>, from: seq<T>): seq<T> {
    if more == [] then []
    else Absent(more[..|more| - 1], from) + if more[|more| - 1] in from then [] else [more[|more| - 1]]
  }

  lemma {:induction false} AbsentMeans<T>(more: seq<T>, from: seq<T>)
    ensures forall x :: x in Absent(more, from) <==> x in more && x !in from
  {
    if more != [] {
      AbsentMeans(more[..|more| - 1], from);
      assert more == more[..|more| - 1] + [more[|more| - 1]];
    }
  }

  /** In their order, each as often as it is listed. */
  lemma {:induction false} AbsentKeepsOrder<T>(more: seq<T>, from: seq<T>, i: nat)
    requires i < |more|
    ensures Absent([], from) == []
    ensures Absent(more, from) ==
            Absent(more[..i], from) + (if more[i] in from then [] else [more[i]]) + Absent(more[i + 1..], from)
  {
    var n := |more| - 1;
    if i < n {
      AbsentKeepsOrder(more[..n], from, i);
      assert more[..n][..i] == more[..i] && more[..n][i + 1..] == more[i + 1..][..|more[i + 1..]| - 1];
    }
  }
}

/** The order of strings, and sorting by it. */
module Ordering {

  /** Lexicographic, shorter first. */
  predicate Leq(a: string, b: string) {
    a == "" || (b != "" && (a[0] < b[0] || (a[0] == b[0] && Leq(a[1..], b[1..]))))
  }

  /** One comes before another if it is its beginning, or smaller where the two first differ. */
  lemma {:induction false} LeqIsDictionary(a: string, b: string)
    ensures Leq(a, b) <==> a <= b || exists i | 0 <= i < |a| && i < |b| :: a[..i] == b[..i] && a[i] < b[i]
    decreases |a|
  {
    if a != "" && b != "" && a[0] == b[0] {
      LeqIsDictionary(a[1..], b[1..]);
      var c, d := a[1..], b[1..];
      assert a == [a[0]] + c && b == [a[0]] + d;
      if i :| 0 <= i < |c| && i < |d| && c[..i] == d[..i] && c[i] < d[i] {
        assert a[..i + 1] == [a[0]] + c[..i] && b[..i + 1] == [a[0]] + d[..i];
        assert a[i + 1] < b[i + 1];
      }
      if i :| 0 <= i < |a| && i < |b| && a[..i] == b[..i] && a[i] < b[i] {
        assert i > 0 && c[..i - 1] == a[..i][1..] && d[..i - 1] == b[..i][1..];
        assert c[i - 1] < d[i - 1];
      }
    } else if a != "" && b != "" {
      assert a[..0] == b[..0];
      assert forall i | 0 < i < |a| && i < |b| :: a[..i][0] != b[..i][0];
    }
  }

  lemma {:induction false} LeqTotal(a: string, b: string)
    ensures Leq(a, b) || Leq(b, a)
    decreases |a|
  {
    if a != "" && b != "" && a[0] == b[0] {
      LeqTotal(a[1..], b[1..]);
    }
  }

  lemma {:induction false} LeqTransitive(a: string, b: string, c: string)
    requires Leq(a, b) && Leq(b, c)
    ensures Leq(a, c)
    decreases |a|
  {
    if a != "" && a[0] == b[0] == c[0] {
      LeqTransitive(a[1..], b[1..], c[1..]);
    }
  }

  predicate IsSorted(xs: seq<string>) {
    forall i, j :: 0 <= i < j < |xs| ==> Leq(xs[i], xs[j])
  }

  predicate Distinct(xs: seq<string>) {
    forall i, j :: 0 <= i < j < |xs| ==> xs[i] != xs[j]
  }

  lemma SortedCons(x: string, xs: seq<string>)
    requires IsSorted(xs) && forall i | 0 <= i < |xs| :: Leq(x, xs[i])
    ensures IsSorted([x] + xs)
  {
    hide Leq;
  }

  lemma LeqAll(x: string, xs: seq<string>)
    requires IsSorted(xs) && (xs != [] ==> Leq(x, xs[0]))
    ensures forall i | 0 <= i < |xs| :: Leq(x, xs[i])
  {
    hide Leq;
    forall i | 0 <= i < |xs| ensures Leq(x, xs[i]) {
      if i > 0 { LeqTransitive(x, xs[0], xs[i]); }
    }
  }

  /** What is least stays so when something not less comes in. */
  lemma LeastStays(xs: seq<string>, x: string, rest: seq<string>)
    requires IsSorted(xs) && xs != [] && !Leq(x, xs[0])
    requires multiset(rest) == multiset(xs[1..]) + multiset{x}
    ensures forall i | 0 <= i < |rest| :: Leq(xs[0], rest[i])
  {
    LeqTotal(x, xs[0]);
    hide Leq;
    forall i | 0 <= i < |rest| ensures Leq(xs[0], rest[i]) {
      assert rest[i] in multiset(rest);
      assert rest[i] == x || rest[i] in xs[1..];
    }
  }

  function Insert(x: string, xs: seq<string>): (r: seq<string>)
    requires IsSorted(xs)
    ensures IsSorted(r) && multiset(r) == multiset(xs) + multiset{x}
  {
    if xs == [] then [x]
    else if Leq(x, xs[0]) then
      LeqAll(x, xs);
      SortedCons(x, xs);
      [x] + xs
    else
      var rest := Insert(x, xs[1..]);
      LeastStays(xs, x, rest);
      SortedCons(xs[0], rest);
      assert xs == [xs[0]] + xs[1..];
      [xs[0]] + rest
  }

  /** The sorted list of the same strings. */
  function Sort(xs: seq<string>): (r: seq<string>)
    ensures IsSorted(r) && multiset(r) == multiset(xs)
  {
    if xs == [] then []
    else
      assert xs == [xs[0]] + xs[1..];
      Insert(xs[0], Sort(xs[1..]))
  }

  lemma DistinctCounts(xs: seq<string>)
    requires Distinct(xs)
    ensures forall x :: multiset(xs)[x] <= 1
  {
    if xs != [] {
      var last := |xs| - 1;
      assert xs == xs[..last] + [xs[last]];
      DistinctCounts(xs[..last]);
    }
  }

  lemma RepeatCounts(xs: seq<string>, i: nat, j: nat)
    requires i < j < |xs| && xs[i] == xs[j]
    ensures multiset(xs)[xs[j]] >= 2
  {
    assert xs == xs[..j] + xs[j..];
    assert xs[..j][i] in xs[..j] && xs[j..][0] in xs[j..];
    assert multiset(xs) == multiset(xs[..j]) + multiset(xs[j..]);
  }

  lemma CountsDistinct(xs: seq<string>)
    requires forall x :: multiset(xs)[x] <= 1
    ensures Distinct(xs)
  {
    forall i, j | 0 <= i < j < |xs|
      ensures xs[i] != xs[j]
    {
      if xs[i] == xs[j] {
        RepeatCounts(xs, i, j);
      }
    }
  }

  /** Sorting keeps the strings and, if there were none, makes no duplicates. */
  lemma SortKeeps(xs: seq<string>)
    ensures forall x :: x in Sort(xs) <==> x in xs
    ensures Distinct(xs) ==> Distinct(Sort(xs))
  {
    forall x
      ensures x in Sort(xs) <==> x in xs
    {
      assert x in Sort(xs) <==> x in multiset(Sort(xs));
      assert x in xs <==> x in multiset(xs);
    }
    if Distinct(xs) {
      DistinctCounts(xs);
      CountsDistinct(Sort(xs));
    }
  }

  lemma {:induction false} LeqAntisymmetric(a: string, b: string)
    requires Leq(a, b) && Leq(b, a)
    ensures a == b
    decreases |a|
  {
    if a != "" {
      LeqAntisymmetric(a[1..], b[1..]);
      assert a == [a[0]] + a[1..] && b == [b[0]] + b[1..];
    }
  }

  predicate Least(k: string, keys: set<string>) {
    k in keys && forall j | j in keys :: Leq(k, j)
  }

  lemma {:induction false} LeastExists(keys: set<string>)
    requires keys != {}
    ensures exists k :: Least(k, keys)
  {
    var k :| k in keys;
    LeqTotal(k, k);
    if keys == {k} {
      assert Least(k, keys);
    } else {
      var rest := keys - {k};
      LeastExists(rest);
      var m :| Least(m, rest);
      LeqTotal(k, m);
      if Leq(m, k) {
        assert Least(m, keys);
      } else {
        forall j | j in keys ensures Leq(k, j) {
          if j != k { LeqTransitive(k, m, j); }
        }
        assert Least(k, keys);
      }
    }
  }

  lemma LeastUnique(keys: set<string>)
    ensures forall j, k | Least(j, keys) && Least(k, keys) :: j == k
  {
    forall j, k | Least(j, keys) && Least(k, keys) ensures j == k {
      LeqAntisymmetric(j, k);
    }
  }

  /** A set of strings as a sorted list. */
  function SortedKeys(keys: set<string>): (r: seq<string>)
    ensures IsSorted(r) && Distinct(r) && forall x :: x in r <==> x in keys
  {
    if keys == {} then []
    else
      LeastExists(keys);
      LeastUnique(keys);
      var k :| Least(k, keys);
      [k] + SortedKeys(keys - {k})
  }

  lemma HeadIsLeast(xs: seq<string>, x: string)
    requires IsSorted(xs) && x in xs
    ensures Leq(xs[0], x)
  {
    LeqTotal(x, x);
  }

  /** A sorted list without repetitions is determined by its elements. */
  lemma {:induction false} SortedUnique(xs: seq<string>, ys: seq<string>)
    requires IsSorted(xs) && Distinct(xs) && IsSorted(ys) && Distinct(ys)
    requires forall x :: x in xs <==> x in ys
    ensures xs == ys
  {
    assert ys != [] ==> ys[0] in ys;
    if xs != [] {
      assert xs[0] in xs && xs[0] in ys && ys[0] in ys && ys[0] in xs;
      HeadIsLeast(xs, ys[0]);
      HeadIsLeast(ys, xs[0]);
      LeqAntisymmetric(xs[0], ys[0]);
      assert forall x :: x in xs[1..] <==> x in xs && x != xs[0];
      assert forall x :: x in ys[1..] <==> x in ys && x != ys[0];
      SortedUnique(xs[1..], ys[1..]);
      assert xs == [xs[0]] + xs[1..] && ys == [ys[0]] + ys[1..];
    }
  }

  /** The keys of a map, sorted: collected in whatever order the map yields them. */
  method SortedKeysOf(m: map<string, string>) returns (keys: seq<string>)
    ensures keys == SortedKeys(m.Keys)
  {
    keys := [];
    var left := m.Keys;
    while left != {}
      invariant left <= m.Keys && Distinct(keys)
      invariant forall x :: x in keys <==> x in m.Keys && x !in left
    {
      var k :| k in left;
      keys := keys + [k];
      left := left - {k};
    }
    SortKeeps(keys);
    keys := Sort(keys);
    SortedUnique(keys, SortedKeys(m.Keys));
  }
}

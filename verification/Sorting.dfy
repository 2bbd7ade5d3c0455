/** The stable sort of `Array.prototype.sort`, and the fact that a strict total order leaves it one possible result. */
module Sorting {

  /** `before` never holds both ways on elements of `s`, is transitive there, and separates distinct elements. */
  ghost predicate StrictTotalOn<T(!new)>(before: (T, T) -> bool, s: seq<T>) {
    && (forall x, y | x in s && y in s :: !(before(x, y) && before(y, x)))
    && (forall x, y | x in s && y in s :: x == y || before(x, y) || before(y, x))
    && (forall x, y, z | x in s && y in s && z in s :: before(x, y) && before(y, z) ==> before(x, z))
  }

  ghost predicate SortedBy<T(!new)>(before: (T, T) -> bool, s: seq<T>) {
    forall i, j | 0 <= i < j < |s| :: !before(s[j], s[i])
  }

  /** Places `x` after every element that does not come strictly after it. */
  function Insert<T>(before: (T, T) -> bool, x: T, s: seq<T>): (r: seq<T>)
    ensures multiset(r) == multiset(s) + multiset{x}
    ensures |r| == |s| + 1
  {
    if s == [] then [x]
    else
      var last, init := s[|s| - 1], s[..|s| - 1];
      assert s == init + [last];
      if before(x, last) then Insert(before, x, init) + [last] else s + [x]
  }

  function Sort<T>(before: (T, T) -> bool, s: seq<T>): (r: seq<T>)
    ensures multiset(r) == multiset(s)
    ensures |r| == |s|
  {
    if s == [] then []
    else
      assert s == s[..|s| - 1] + [s[|s| - 1]];
      Insert(before, s[|s| - 1], Sort(before, s[..|s| - 1]))
  }

  lemma SameElements<T>(a: seq<T>, b: seq<T>)
    requires multiset(a) == multiset(b)
    ensures |a| == |b|
    ensures forall x :: x in a <==> x in b
  {
    assert |multiset(a)| == |a| && |multiset(b)| == |b|;
    forall x ensures x in a <==> x in b {
      assert x in a <==> x in multiset(a);
      assert x in b <==> x in multiset(b);
    }
  }

  lemma {:induction false} InsertKeepsSorted<T(!new)>(before: (T, T) -> bool, x: T, s: seq<T>)
    requires StrictTotalOn(before, s + [x]) && SortedBy(before, s)
    ensures SortedBy(before, Insert(before, x, s))
  {
    if s != [] {
      var last, init := s[|s| - 1], s[..|s| - 1];
      assert x in s + [x] && last in s + [x];
      assert forall y | y in s :: y in s + [x];
      if before(x, last) {
        assert forall y | y in init + [x] :: y in s + [x];
        InsertKeepsSorted(before, x, init);
        var r := Insert(before, x, init);
        assert multiset(r) == multiset(init + [x]);
        SameElements(r, init + [x]);
        forall i, j | 0 <= i < j < |r + [last]| ensures !before((r + [last])[j], (r + [last])[i]) {
          if j == |r| {
            assert r[i] in r && r[i] in init + [x];
            if r[i] in init {
              var k :| 0 <= k < |init| && init[k] == r[i];
              assert s[k] == r[i] && !before(s[|s| - 1], s[k]);
            }
          }
        }
      } else {
        forall i | 0 <= i < |s| ensures !before(x, s[i]) {
          assert s[i] in s && (i < |s| - 1 ==> !before(last, s[i]));
        }
      }
    }
  }

  lemma {:induction false} SortIsSorted<T(!new)>(before: (T, T) -> bool, s: seq<T>)
    requires StrictTotalOn(before, s)
    ensures SortedBy(before, Sort(before, s))
  {
    if s != [] {
      var x, init := s[|s| - 1], s[..|s| - 1];
      assert s == init + [x];
      assert forall y | y in init :: y in s;
      SortIsSorted(before, init);
      SameElements(Sort(before, init), init);
      var sorted := Sort(before, init);
      assert forall y | y in sorted + [x] :: y in s;
      InsertKeepsSorted(before, x, sorted);
    }
  }

  lemma SortedHeadIsLeast<T(!new)>(before: (T, T) -> bool, s: seq<T>, x: T)
    requires StrictTotalOn(before, s) && SortedBy(before, s) && x in s
    ensures x == s[0] || before(s[0], x)
  {
    var i :| 0 <= i < |s| && s[i] == x;
    assert s[0] in s && (i > 0 ==> !before(s[i], s[0]));
  }

  lemma SubsetIsTotal<T(!new)>(before: (T, T) -> bool, s: seq<T>, t: seq<T>)
    requires StrictTotalOn(before, s) && forall x :: x in t ==> x in s
    ensures StrictTotalOn(before, t)
  {
  }

  /** A strict total order leaves one sorted arrangement of a multiset of elements. */
  lemma {:induction false} SortedIsUnique<T(!new)>(before: (T, T) -> bool, a: seq<T>, b: seq<T>)
    requires StrictTotalOn(before, a) && multiset(a) == multiset(b)
    requires SortedBy(before, a) && SortedBy(before, b)
    ensures a == b
  {
    SameElements(a, b);
    if a != [] {
      assert a[0] == b[0] by {
        assert a[0] in a && b[0] in b;
        SortedHeadIsLeast(before, a, b[0]);
        SubsetIsTotal(before, a, b);
        SortedHeadIsLeast(before, b, a[0]);
      }
      assert a == [a[0]] + a[1..] && b == [b[0]] + b[1..];
      assert multiset(a[1..]) == multiset(a) - multiset{a[0]};
      assert multiset(b[1..]) == multiset(b) - multiset{b[0]};
      SubsetIsTotal(before, a, a[1..]);
      TailIsSorted(before, a);
      TailIsSorted(before, b);
      SortedIsUnique(before, a[1..], b[1..]);
    }
  }

  lemma TailIsSorted<T(!new)>(before: (T, T) -> bool, s: seq<T>)
    requires s != [] && SortedBy(before, s)
    ensures SortedBy(before, s[1..])
  {
    forall i, j | 0 <= i < j < |s[1..]| ensures !before(s[1..][j], s[1..][i]) {
      assert s[1..][j] == s[j + 1] && s[1..][i] == s[i + 1];
    }
  }

  /** Sorting forgets the order in which the elements arrived. */
  lemma SortForgetsOrder<T(!new)>(before: (T, T) -> bool, a: seq<T>, b: seq<T>)
    requires StrictTotalOn(before, a) && multiset(a) == multiset(b)
    ensures Sort(before, a) == Sort(before, b)
  {
    SameElements(a, b);
    SortIsSorted(before, a);
    SortIsSorted(before, b);
    SameElements(a, Sort(before, a));
    SortedIsUnique(before, Sort(before, a), Sort(before, b));
  }

  /** The sum of `weight` over the elements. */
  function Total<T>(s: seq<T>, weight: T -> nat): nat {
    if s == [] then 0 else Total(s[..|s| - 1], weight) + weight(s[|s| - 1])
  }

  lemma TotalAppend<T>(s: seq<T>, x: T, weight: T -> nat)
    ensures Total(s + [x], weight) == Total(s, weight) + weight(x)
  {
    assert (s + [x])[..|s|] == s;
  }

  lemma {:induction false} TotalConcat<T>(s: seq<T>, t: seq<T>, weight: T -> nat)
    ensures Total(s + t, weight) == Total(s, weight) + Total(t, weight)
  {
    if t == [] {
      assert s + t == s;
    } else {
      assert (s + t)[..|s + t| - 1] == s + t[..|t| - 1];
      TotalConcat(s, t[..|t| - 1], weight);
    }
  }

  lemma {:induction false} TotalInsert<T>(before: (T, T) -> bool, x: T, s: seq<T>, weight: T -> nat)
    ensures Total(Insert(before, x, s), weight) == Total(s, weight) + weight(x)
  {
    TotalAppend(s, x, weight);
    if s != [] && before(x, s[|s| - 1]) {
      TotalInsert(before, x, s[..|s| - 1], weight);
      TotalAppend(Insert(before, x, s[..|s| - 1]), s[|s| - 1], weight);
    }
  }

  /** Sorting does not change a total. */
  lemma {:induction false} TotalSort<T>(before: (T, T) -> bool, s: seq<T>, weight: T -> nat)
    ensures Total(Sort(before, s), weight) == Total(s, weight)
  {
    if s != [] {
      TotalSort(before, s[..|s| - 1], weight);
      TotalInsert(before, s[|s| - 1], Sort(before, s[..|s| - 1]), weight);
    }
  }
}

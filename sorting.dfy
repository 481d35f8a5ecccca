/** `list.sort()` on a list of texts: Python orders strings
    lexicographically by code point, and a sorted list is determined by its
    elements alone, so the sort is modelled by any one sorting function
    together with the proof that sorted permutations coincide. */
module Sorting {

  /** `a <= b` on Python strings: the first differing character decides, and
      a proper prefix comes first. */
  predicate LessEq(a: string, b: string)
    decreases |a|
  {
    a == [] || (b != [] && (a[0] < b[0] || (a[0] == b[0] && LessEq(a[1..], b[1..]))))
  }

  lemma {:induction false} LessEqRefl(a: string)
    ensures LessEq(a, a)
    decreases |a|
  {
    if a != [] {
      LessEqRefl(a[1..]);
    }
  }

  lemma {:induction false} LessEqTotal(a: string, b: string)
    ensures LessEq(a, b) || LessEq(b, a)
    decreases |a|
  {
    if a != [] && b != [] && a[0] == b[0] {
      LessEqTotal(a[1..], b[1..]);
    }
  }

  lemma {:induction false} LessEqAntisymmetric(a: string, b: string)
    requires LessEq(a, b) && LessEq(b, a)
    ensures a == b
    decreases |a|
  {
    if a != [] {
      LessEqAntisymmetric(a[1..], b[1..]);
      assert a == [a[0]] + a[1..] && b == [b[0]] + b[1..];
    }
  }

  lemma {:induction false} LessEqTransitive(a: string, b: string, c: string)
    requires LessEq(a, b) && LessEq(b, c)
    ensures LessEq(a, c)
    decreases |a|
  {
    if a != [] && a[0] == b[0] && b[0] == c[0] {
      LessEqTransitive(a[1..], b[1..], c[1..]);
    }
  }

  /** Every element is at most every later one. */
  predicate Sorted(s: seq<string>) {
    forall i, j :: 0 <= i < j < |s| ==> LessEq(s[i], s[j])
  }

  /** `x` placed before the first element it does not exceed. */
  function Insert(x: string, s: seq<string>): (r: seq<string>)
    ensures multiset(r) == multiset(s) + multiset{x}
    ensures |r| == |s| + 1
  {
    if s == [] then [x]
    else if LessEq(x, s[0]) then [x] + s
    else
      assert s == [s[0]] + s[1..];
      [s[0]] + Insert(x, s[1..])
  }

  lemma {:induction false} InsertSorted(x: string, s: seq<string>)
    requires Sorted(s)
    ensures Sorted(Insert(x, s))
  {
    if s == [] {
    } else if LessEq(x, s[0]) {
      forall j | 0 <= j < |s| ensures LessEq(x, s[j]) {
        if j > 0 { LessEqTransitive(x, s[0], s[j]); }
      }
      ConsSorted(x, s);
    } else {
      LessEqTotal(x, s[0]);
      SortedTail(s);
      InsertSorted(x, s[1..]);
      var t := Insert(x, s[1..]);
      forall j | 0 <= j < |t| ensures LessEq(s[0], t[j]) {
        assert t[j] in multiset(t);
        if t[j] != x {
          assert t[j] in multiset(s[1..]);
          var k :| 0 <= k < |s[1..]| && s[1..][k] == t[j];
          assert s[k + 1] == t[j];
        }
      }
      ConsSorted(s[0], t);
    }
  }

  /** An element at most every element of a sorted list may go in front. */
  lemma ConsSorted(y: string, u: seq<string>)
    requires Sorted(u) && forall j :: 0 <= j < |u| ==> LessEq(y, u[j])
    ensures Sorted([y] + u)
  {
    var r := [y] + u;
    forall i, j | 0 <= i < j < |r| ensures LessEq(r[i], r[j]) {
      if i == 0 {
        assert r[j] == u[j - 1];
      } else {
        assert r[i] == u[i - 1] && r[j] == u[j - 1];
      }
    }
  }

  /** The sorted arrangement of `s` (an insertion sort). */
  function SortedOf(s: seq<string>): (r: seq<string>)
    ensures multiset(r) == multiset(s)
    ensures |r| == |s|
  {
    if s == [] then []
    else
      assert s == [s[0]] + s[1..];
      Insert(s[0], SortedOf(s[1..]))
  }

  lemma {:induction false} SortedOfSorted(s: seq<string>)
    ensures Sorted(SortedOf(s))
  {
    if s != [] {
      SortedOfSorted(s[1..]);
      InsertSorted(s[0], SortedOf(s[1..]));
    }
  }

  /** Sorting a list without duplicates leaves it without duplicates. */
  lemma {:induction false} SortedOfNoDup(s: seq<string>)
    requires forall i, j :: 0 <= i < j < |s| ==> s[i] != s[j]
    ensures forall i, j :: 0 <= i < j < |SortedOf(s)| ==> SortedOf(s)[i] != SortedOf(s)[j]
  {
    if s != [] {
      var t := s[1..];
      TailDistinct(s);
      SortedOfNoDup(t);
      InsertNoDup(s[0], SortedOf(t));
    }
  }

  lemma {:induction false} InsertNoDup(x: string, s: seq<string>)
    requires forall i, j :: 0 <= i < j < |s| ==> s[i] != s[j]
    requires x !in multiset(s)
    ensures forall i, j :: 0 <= i < j < |Insert(x, s)| ==> Insert(x, s)[i] != Insert(x, s)[j]
  {
    if s == [] {
    } else if LessEq(x, s[0]) {
      ConsDistinct(x, s);
    } else {
      var t := s[1..];
      TailDistinct(s);
      assert s == [s[0]] + t;
      InsertNoDup(x, t);
      assert s[0] != x;
      ConsDistinct(s[0], Insert(x, t));
    }
  }

  /** The tail of a list without duplicates has none and lacks the head. */
  lemma TailDistinct(s: seq<string>)
    requires s != [] && forall i, j :: 0 <= i < j < |s| ==> s[i] != s[j]
    ensures forall i, j :: 0 <= i < j < |s[1..]| ==> s[1..][i] != s[1..][j]
    ensures s[0] !in multiset(s[1..])
  {
    var t := s[1..];
    forall i, j | 0 <= i < j < |t| ensures t[i] != t[j] {
      assert t[i] == s[i + 1] && t[j] == s[j + 1];
    }
    forall k | 0 <= k < |t| ensures t[k] != s[0] {
      assert t[k] == s[k + 1];
    }
    assert s[0] !in t;
  }

  /** Putting an absent element in front of a list without duplicates
      gives a list without duplicates. */
  lemma ConsDistinct(y: string, u: seq<string>)
    requires forall i, j :: 0 <= i < j < |u| ==> u[i] != u[j]
    requires y !in multiset(u)
    ensures forall i, j :: 0 <= i < j < |[y] + u| ==> ([y] + u)[i] != ([y] + u)[j]
  {
    var r := [y] + u;
    forall i, j | 0 <= i < j < |r| ensures r[i] != r[j] {
      if i == 0 {
        assert r[j] == u[j - 1] && r[j] in multiset(u);
      } else {
        assert r[i] == u[i - 1] && r[j] == u[j - 1];
      }
    }
  }

  /** The first element of a sorted list is at most every element of it. */
  lemma SortedHeadLeast(s: seq<string>, x: string)
    requires Sorted(s) && s != [] && x in s
    ensures LessEq(s[0], x)
  {
    var k :| 0 <= k < |s| && s[k] == x;
    if k == 0 { LessEqRefl(x); }
  }

  lemma MultisetTail(a: seq<string>, b: seq<string>)
    requires a != [] && b != [] && a[0] == b[0] && multiset(a) == multiset(b)
    ensures multiset(a[1..]) == multiset(b[1..])
  {
    assert a == [a[0]] + a[1..] && b == [b[0]] + b[1..];
    assert multiset(a) == multiset{a[0]} + multiset(a[1..]);
    assert multiset(b) == multiset{b[0]} + multiset(b[1..]);
    forall y ensures multiset(a[1..])[y] == multiset(b[1..])[y] {
      assert multiset(a)[y] == multiset{a[0]}[y] + multiset(a[1..])[y];
    }
  }

  lemma SortedTail(a: seq<string>)
    requires Sorted(a) && a != []
    ensures Sorted(a[1..])
  {
    forall i, j | 0 <= i < j < |a[1..]| ensures LessEq(a[1..][i], a[1..][j]) {
      assert a[1..][i] == a[i + 1] && a[1..][j] == a[j + 1];
    }
  }

  /** Two sorted lists with the same elements are the same list: sorting
      depends only on the elements. */
  lemma {:induction false} SortedUnique(a: seq<string>, b: seq<string>)
    requires Sorted(a) && Sorted(b) && multiset(a) == multiset(b)
    ensures a == b
  {
    assert |a| == |multiset(a)| == |multiset(b)| == |b|;
    if a != [] {
      assert a[0] in multiset(b) && b[0] in multiset(a);
      SortedHeadLeast(a, b[0]);
      SortedHeadLeast(b, a[0]);
      LessEqAntisymmetric(a[0], b[0]);
      MultisetTail(a, b);
      SortedTail(a);
      SortedTail(b);
      SortedUnique(a[1..], b[1..]);
      assert a == [a[0]] + a[1..] && b == [b[0]] + b[1..];
    }
  }

  /** `sorted(s)` is the one sorted arrangement of the elements of `s`. */
  lemma SortedOfUnique(s: seq<string>, r: seq<string>)
    requires Sorted(r) && multiset(r) == multiset(s)
    ensures r == SortedOf(s)
  {
    SortedOfSorted(s);
    SortedUnique(r, SortedOf(s));
  }
}

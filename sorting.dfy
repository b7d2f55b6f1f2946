/** Sorting by a comparator and the string order used to sort team members.

    A comparator sort is modelled by an insertion sort: each element is
    inserted after every element it does not precede. The model proves that
    the result is an ordered permutation; it does not prove that the order of
    equivalent elements is kept. */
module Sorting {

  /** `leq` is total and transitive: what a comparator must be for sorting
      by it to make sense. */
  ghost predicate TotalPreorder<T(!new)>(leq: (T, T) -> bool) {
    && (forall a, b :: leq(a, b) || leq(b, a))
    && (forall a, b, c :: leq(a, b) && leq(b, c) ==> leq(a, c))
  }

  predicate SortedBy<T>(s: seq<T>, leq: (T, T) -> bool) {
    forall i, j :: 0 <= i < j < |s| ==> leq(s[i], s[j])
  }

  /** Inserts `x` after every trailing element that does not come after it. */
  function InsertBy<T>(s: seq<T>, x: T, leq: (T, T) -> bool): (r: seq<T>)
    ensures multiset(r) == multiset(s) + multiset{x}
    ensures |r| == |s| + 1
  {
    if s == [] || leq(s[|s| - 1], x) then s + [x]
    else
      assert s == s[..|s| - 1] + [s[|s| - 1]];
      InsertBy(s[..|s| - 1], x, leq) + [s[|s| - 1]]
  }

  /** Insertion sort by `leq`, inserting each element after the elements it does not precede. */
  function SortBy<T>(s: seq<T>, leq: (T, T) -> bool): (r: seq<T>)
    ensures multiset(r) == multiset(s)
    ensures |r| == |s|
  {
    if s == [] then []
    else
      assert s == s[..|s| - 1] + [s[|s| - 1]];
      InsertBy(SortBy(s[..|s| - 1], leq), s[|s| - 1], leq)
  }

  lemma {:induction false} InsertSorted<T(!new)>(s: seq<T>, x: T, leq: (T, T) -> bool)
    requires TotalPreorder(leq)
    requires SortedBy(s, leq)
    ensures SortedBy(InsertBy(s, x, leq), leq)
  {
    if s == [] || leq(s[|s| - 1], x) {
    } else {
      var init, last := s[..|s| - 1], s[|s| - 1];
      InsertSorted(init, x, leq);
      var r' := InsertBy(init, x, leq);
      forall i | 0 <= i < |r'| ensures leq(r'[i], last) {
        assert r'[i] in multiset(r');
        if r'[i] != x {
          assert r'[i] in multiset(init);
          var k :| 0 <= k < |init| && init[k] == r'[i];
          assert s[k] == r'[i];
        }
      }
    }
  }

  /** The sort yields an ordered permutation of its input. */
  lemma {:induction false} SortBySorted<T(!new)>(s: seq<T>, leq: (T, T) -> bool)
    requires TotalPreorder(leq)
    ensures SortedBy(SortBy(s, leq), leq)
    ensures multiset(SortBy(s, leq)) == multiset(s)
  {
    if s != [] {
      SortBySorted(s[..|s| - 1], leq);
      InsertSorted(SortBy(s[..|s| - 1], leq), s[|s| - 1], leq);
    }
  }

  /** Sorting an already ordered sequence leaves it as it is. */
  lemma {:induction false} SortByOfSorted<T>(s: seq<T>, leq: (T, T) -> bool)
    requires SortedBy(s, leq)
    ensures SortBy(s, leq) == s
  {
    if s != [] {
      var init, x := s[..|s| - 1], s[|s| - 1];
      assert SortedBy(init, leq) by {
        forall i, j | 0 <= i < j < |init| ensures leq(init[i], init[j]) {
          assert init[i] == s[i] && init[j] == s[j];
        }
      }
      SortByOfSorted(init, leq);
      if init != [] {
        assert init[|init| - 1] == s[|s| - 2];
      }
      assert s == init + [x];
    }
  }

  /** `f` applied to every element, in order. */
  function Map<A, B>(s: seq<A>, f: A -> B): (r: seq<B>)
    ensures |r| == |s|
    ensures forall i :: 0 <= i < |s| ==> r[i] == f(s[i])
  {
    seq(|s|, i requires 0 <= i < |s| => f(s[i]))
  }

  /** Taking out the element at `j` takes its image out of the image. */
  lemma MapRemove<A, B>(s: seq<A>, j: int, f: A -> B)
    requires 0 <= j < |s|
    ensures multiset(Map(s, f)) == multiset(Map(s[..j] + s[j + 1..], f)) + multiset{f(s[j])}
  {
    var u, v, m := s[..j], s[j + 1..], Map(s, f);
    assert m == m[..j] + [m[j]] + m[j + 1..];
    assert m[..j] == Map(u, f);
    assert m[j + 1..] == Map(v, f);
    assert Map(u + v, f) == Map(u, f) + Map(v, f);
  }

  /** Reordering the input reorders the image: the same values, counted with multiplicity. */
  lemma {:induction false} MapOfPermutation<A, B>(a: seq<A>, b: seq<A>, f: A -> B)
    requires multiset(a) == multiset(b)
    ensures multiset(Map(a, f)) == multiset(Map(b, f))
    decreases |a|
  {
    if a == [] {
      assert |multiset(b)| == |b|;
    } else {
      var n := |a| - 1;
      var x := a[n];
      assert x in multiset(b);
      var j :| 0 <= j < |b| && b[j] == x;
      assert a[..n] + a[n + 1..] == a[..n];
      assert a == a[..n] + [x];
      assert b == b[..j] + [x] + b[j + 1..];
      assert multiset(a[..n]) == multiset(a) - multiset{x};
      assert multiset(b[..j] + b[j + 1..]) == multiset(b) - multiset{x};
      MapOfPermutation(a[..n], b[..j] + b[j + 1..], f);
      MapRemove(a, n, f);
      MapRemove(b, j, f);
    }
  }

  // ---------------------------------------------------------------------
  // Lexicographic order on strings (the model's reading of localeCompare)

  predicate StrLeq(a: string, b: string) {
    a == [] || (b != [] && (a[0] < b[0] || (a[0] == b[0] && StrLeq(a[1..], b[1..]))))
  }

  lemma {:induction false} StrLeqTotal(a: string, b: string)
    ensures StrLeq(a, b) || StrLeq(b, a)
  {
    if a != [] && b != [] && a[0] == b[0] {
      StrLeqTotal(a[1..], b[1..]);
    }
  }

  lemma {:induction false} StrLeqTransitive(a: string, b: string, c: string)
    requires StrLeq(a, b) && StrLeq(b, c)
    ensures StrLeq(a, c)
  {
    if a != [] && a[0] == b[0] && b[0] == c[0] {
      StrLeqTransitive(a[1..], b[1..], c[1..]);
    }
  }

  lemma {:induction false} StrLeqAntisymmetric(a: string, b: string)
    requires StrLeq(a, b) && StrLeq(b, a)
    ensures a == b
  {
    if a != [] {
      StrLeqAntisymmetric(a[1..], b[1..]);
      assert a == [a[0]] + a[1..] && b == [b[0]] + b[1..];
    }
  }

  lemma StrLeqReflexive(a: string)
    ensures StrLeq(a, a)
  {
    StrLeqTotal(a, a);
  }

  /** The head of an ordered string sequence precedes every string in it. */
  lemma HeadIsLeast(s: seq<string>, x: string)
    requires SortedBy(s, StrLeq) && x in s
    ensures StrLeq(s[0], x)
  {
    var i :| 0 <= i < |s| && s[i] == x;
    if i == 0 { StrLeqReflexive(x); }
  }

  lemma TailMultiset<T>(a: seq<T>, b: seq<T>)
    requires a != [] && b != [] && a[0] == b[0] && multiset(a) == multiset(b)
    ensures multiset(a[1..]) == multiset(b[1..])
  {
    assert a == [a[0]] + a[1..] && b == [b[0]] + b[1..];
    assert multiset(a) == multiset{a[0]} + multiset(a[1..]);
    assert multiset(b) == multiset{b[0]} + multiset(b[1..]);
    assert multiset(a[1..]) == multiset(a) - multiset{a[0]};
    assert multiset(b[1..]) == multiset(b) - multiset{b[0]};
  }

  /** Two string sequences, both in lexicographic order, that hold the same
      strings are the same sequence. */
  lemma {:induction false} SortedStringsUnique(a: seq<string>, b: seq<string>)
    requires SortedBy(a, StrLeq) && SortedBy(b, StrLeq)
    requires multiset(a) == multiset(b)
    ensures a == b
  {
    if a != [] {
      assert |multiset(a)| == |a| && |multiset(b)| == |b|;
      assert a[0] in multiset(b) && b[0] in multiset(a);
      HeadIsLeast(b, a[0]);
      HeadIsLeast(a, b[0]);
      StrLeqAntisymmetric(a[0], b[0]);
      TailMultiset(a, b);
      assert SortedBy(a[1..], StrLeq) && SortedBy(b[1..], StrLeq);
      SortedStringsUnique(a[1..], b[1..]);
      assert a == [a[0]] + a[1..] && b == [b[0]] + b[1..];
    }
  }
}

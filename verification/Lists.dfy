/** Sequence vocabulary shared by the model: options and results, filters, images and subsequences.
    The recursive definitions peel the last element, which is how an append loop grows its result. */
module Lists {

  datatype Option<+T> = None | Some(value: T)

  datatype Result<+T> = Ok(value: T) | Err(error: string)

  function Last<T>(s: seq<T>): T
    requires s != []
  {
    s[|s| - 1]
  }

  function Init<T>(s: seq<T>): seq<T>
    requires s != []
  {
    s[..|s| - 1]
  }

  /** The elements of `s` that satisfy `keep`, in order. */
  function Filter<T>(keep: T -> bool, s: seq<T>): seq<T> {
    if s == [] then [] else
    if keep(Last(s)) then Filter(keep, Init(s)) + [Last(s)] else Filter(keep, Init(s))
  }

  function Map<T, U>(f: T -> U, s: seq<T>): seq<U> {
    seq(|s|, i requires 0 <= i < |s| => f(s[i]))
  }

  /** Concatenation of the images of the elements of `s`. */
  function FlatMap<T, U>(f: T -> seq<U>, s: seq<T>): seq<U> {
    if s == [] then [] else FlatMap(f, Init(s)) + f(Last(s))
  }

  ghost predicate NoDuplicates<T>(s: seq<T>) {
    forall i, j :: 0 <= i < j < |s| ==> s[i] != s[j]
  }

  /** `a` can be obtained from `b` by deleting elements. */
  ghost predicate Subsequence<T>(a: seq<T>, b: seq<T>) {
    a == [] || (b != [] && (Subsequence(a, Init(b)) || (Last(a) == Last(b) && Subsequence(Init(a), Init(b)))))
  }

  /** `c` is a shuffle of `a` and `b` that keeps the order of each. */
  ghost predicate Interleaves<T>(a: seq<T>, b: seq<T>, c: seq<T>) {
    if c == [] then a == [] && b == [] else
      || (a != [] && Last(a) == Last(c) && Interleaves(Init(a), b, Init(c)))
      || (b != [] && Last(b) == Last(c) && Interleaves(a, Init(b), Init(c)))
  }

  lemma ConcatAssociative<T>(a: seq<T>, b: seq<T>, c: seq<T>)
    ensures (a + b) + c == a + (b + c)
  {
  }

  lemma FilterAppend<T>(keep: T -> bool, s: seq<T>, x: T)
    ensures Filter(keep, s + [x]) == if keep(x) then Filter(keep, s) + [x] else Filter(keep, s)
  {
    assert Init(s + [x]) == s;
  }

  lemma {:induction false} FilterConcat<T>(keep: T -> bool, a: seq<T>, b: seq<T>)
    ensures Filter(keep, a + b) == Filter(keep, a) + Filter(keep, b)
  {
    if b == [] {
      assert a + b == a;
    } else {
      assert a + b == a + Init(b) + [Last(b)];
      FilterConcat(keep, a, Init(b));
      FilterAppend(keep, a + Init(b), Last(b));
    }
  }

  lemma {:induction false} FilterMembers<T>(keep: T -> bool, s: seq<T>, x: T)
    ensures x in Filter(keep, s) <==> x in s && keep(x)
  {
    if s != [] {
      FilterMembers(keep, Init(s), x);
      assert s == Init(s) + [Last(s)];
    }
  }

  lemma {:induction false} SizeOfSet<T>(s: seq<T>)
    requires NoDuplicates(s)
    ensures |set x | x in s| == |s|
  {
    if s != [] {
      SizeOfSet(Init(s));
      assert (set x | x in s) == (set x | x in Init(s)) + {Last(s)};
    }
  }

  lemma FilterElements<T>(keep: T -> bool, s: seq<T>)
    ensures forall x :: x in Filter(keep, s) <==> x in s && keep(x)
  {
    forall x
      ensures x in Filter(keep, s) <==> x in s && keep(x)
    {
      FilterMembers(keep, s, x);
    }
  }

  /** A filter keeps the multiplicity of what it keeps. */
  lemma {:induction false} FilterCounts<T>(keep: T -> bool, s: seq<T>, x: T)
    ensures multiset(Filter(keep, s))[x] == if keep(x) then multiset(s)[x] else 0
  {
    if s != [] {
      FilterCounts(keep, Init(s), x);
      MultisetSplit(s);
      if keep(Last(s)) {
        MultisetSplit(Filter(keep, s));
        assert Init(Filter(keep, Init(s)) + [Last(s)]) == Filter(keep, Init(s));
      }
    }
  }

  lemma {:induction false} FilterCongruence<T>(f: T -> bool, g: T -> bool, s: seq<T>)
    requires forall i :: 0 <= i < |s| ==> f(s[i]) == g(s[i])
    ensures Filter(f, s) == Filter(g, s)
  {
    if s != [] {
      FilterCongruence(f, g, Init(s));
    }
  }

  /** Filtering twice is filtering once by the conjunction. */
  lemma {:induction false} FilterCompose<T>(f: T -> bool, g: T -> bool, both: T -> bool, s: seq<T>)
    requires forall i :: 0 <= i < |s| ==> both(s[i]) == (f(s[i]) && g(s[i]))
    ensures Filter(g, Filter(f, s)) == Filter(both, s)
  {
    if s != [] {
      FilterCompose(f, g, both, Init(s));
      if f(Last(s)) {
        FilterAppend(g, Filter(f, Init(s)), Last(s));
      }
    }
  }

  /** Sizes add up when two filters split a third one. */
  lemma {:induction false} FilterSplit<T>(whole: T -> bool, left: T -> bool, right: T -> bool, s: seq<T>)
    requires forall i :: 0 <= i < |s| ==> whole(s[i]) == (left(s[i]) || right(s[i]))
    requires forall i :: 0 <= i < |s| ==> !(left(s[i]) && right(s[i]))
    ensures |Filter(whole, s)| == |Filter(left, s)| + |Filter(right, s)|
  {
    if s != [] {
      FilterSplit(whole, left, right, Init(s));
    }
  }

  lemma InitLast<T>(s: seq<T>)
    requires s != []
    ensures s == Init(s) + [Last(s)]
  {
  }

  lemma {:induction false} FilterKeepsAll<T>(keep: T -> bool, s: seq<T>)
    requires forall i :: 0 <= i < |s| ==> keep(s[i])
    ensures Filter(keep, s) == s
  {
    if s != [] {
      var front, last := Init(s), Last(s);
      assert keep(last);
      FilterKeepsAll(keep, front);
      InitLast(s);
    }
  }

  lemma {:induction false} FilterMonotone<T>(keep: T -> bool, a: seq<T>, b: seq<T>)
    requires Subsequence(a, b)
    ensures Subsequence(Filter(keep, a), Filter(keep, b))
    decreases |b|
  {
    if a != [] {
      var fb := Filter(keep, Init(b));
      if Subsequence(a, Init(b)) {
        FilterMonotone(keep, a, Init(b));
        assert Init(fb + [Last(b)]) == fb;
      } else {
        FilterMonotone(keep, Init(a), Init(b));
        var fa := Filter(keep, Init(a));
        assert Init(fb + [Last(b)]) == fb && Init(fa + [Last(b)]) == fa;
      }
    }
  }

  lemma {:induction false} SubsequenceLength<T>(a: seq<T>, b: seq<T>)
    requires Subsequence(a, b)
    ensures |a| <= |b|
    decreases |b|
  {
    if a != [] {
      if Subsequence(a, Init(b)) {
        SubsequenceLength(a, Init(b));
      } else {
        SubsequenceLength(Init(a), Init(b));
      }
    }
  }

  lemma {:induction false} MapSubsequence<T, U>(f: T -> U, a: seq<T>, b: seq<T>)
    requires Subsequence(a, b)
    ensures Subsequence(Map(f, a), Map(f, b))
    decreases |b|
  {
    if a != [] {
      assert Init(Map(f, b)) == Map(f, Init(b));
      if Subsequence(a, Init(b)) {
        MapSubsequence(f, a, Init(b));
      } else {
        MapSubsequence(f, Init(a), Init(b));
        assert Init(Map(f, a)) == Map(f, Init(a));
      }
    }
  }

  lemma FlatMapAppend<T, U>(f: T -> seq<U>, s: seq<T>, x: T)
    ensures FlatMap(f, s + [x]) == FlatMap(f, s) + f(x)
  {
    assert Init(s + [x]) == s;
  }

  lemma {:induction false} FlatMapConcat<T, U>(f: T -> seq<U>, a: seq<T>, b: seq<T>)
    ensures FlatMap(f, a + b) == FlatMap(f, a) + FlatMap(f, b)
  {
    if b == [] {
      assert a + b == a;
    } else {
      FlatMapConcat(f, a, Init(b));
      assert Init(a + b) == a + Init(b);
    }
  }

  lemma MultisetRemoveAt<T>(s: seq<T>, i: nat)
    requires i < |s|
    ensures multiset(s[..i] + s[i + 1..]) == multiset(s) - multiset{s[i]}
  {
    assert s == s[..i] + [s[i]] + s[i + 1..];
  }

  lemma MultisetInit<T>(s: seq<T>)
    requires s != []
    ensures multiset(Init(s)) == multiset(s) - multiset{Last(s)}
  {
    assert s == Init(s) + [Last(s)];
  }

  lemma MultisetSplit<T>(s: seq<T>)
    requires s != []
    ensures multiset(s) == multiset(Init(s)) + multiset{Last(s)}
  {
    assert s == Init(s) + [Last(s)];
  }

  lemma FlatMapRemoveAt<T, U>(f: T -> seq<U>, s: seq<T>, i: nat)
    requires i < |s|
    ensures multiset(FlatMap(f, s)) == multiset(FlatMap(f, s[..i] + s[i + 1..])) + multiset(f(s[i]))
  {
    hide FlatMap;
    var left, x, right := s[..i], s[i], s[i + 1..];
    var l, r := FlatMap(f, left), FlatMap(f, right);
    assert FlatMap(f, s) == (l + f(x)) + r by {
      assert s == (left + [x]) + right;
      FlatMapConcat(f, left + [x], right);
      FlatMapAppend(f, left, x);
    }
    assert FlatMap(f, left + right) == l + r by { FlatMapConcat(f, left, right); }
  }

  /** Rearranging the arguments only rearranges the results. */
  lemma {:induction false} FlatMapPermutation<T, U>(f: T -> seq<U>, a: seq<T>, b: seq<T>)
    requires multiset(a) == multiset(b)
    ensures multiset(FlatMap(f, a)) == multiset(FlatMap(f, b))
    decreases |a|
  {
    if a == [] {
      assert |multiset(b)| == 0;
    } else {
      var x := Last(a);
      assert x in multiset(a);
      var i :| 0 <= i < |b| && b[i] == x;
      MultisetInit(a);
      MultisetRemoveAt(b, i);
      FlatMapPermutation(f, Init(a), b[..i] + b[i + 1..]);
      FlatMapRemoveAt(f, b, i);
    }
  }

  ghost predicate NonIncreasing(s: seq<int>) {
    forall i, j :: 0 <= i < j < |s| ==> s[i] >= s[j]
  }

  lemma LastsAgree(a: seq<int>, b: seq<int>)
    requires a != [] && b != []
    requires NonIncreasing(a) && NonIncreasing(b) && multiset(a) == multiset(b)
    ensures Last(a) == Last(b)
  {
    assert Last(a) in multiset(b) && Last(b) in multiset(a) by {
      assert Last(a) in multiset(a) && Last(b) in multiset(b);
    }
    assert Last(a) in b && Last(b) in a;
  }

  lemma SameEnds<T>(a: seq<T>, b: seq<T>)
    requires a != [] && b != [] && Init(a) == Init(b) && Last(a) == Last(b)
    ensures a == b
  {
    assert a == Init(a) + [Last(a)] && b == Init(b) + [Last(b)];
  }

  /** A nonincreasing sequence is determined by its elements. */
  lemma {:induction false} NonIncreasingUnique(a: seq<int>, b: seq<int>)
    requires NonIncreasing(a) && NonIncreasing(b) && multiset(a) == multiset(b)
    ensures a == b
    decreases |a|
  {
    if a == [] || b == [] {
      assert |multiset(a)| == |a| && |multiset(b)| == |b|;
    } else {
      LastsAgree(a, b);
      MultisetInit(a);
      MultisetInit(b);
      NonIncreasingUnique(Init(a), Init(b));
      SameEnds(a, b);
    }
  }

  lemma {:induction false} Occurrences<T>(s: seq<T>, x: T)
    requires NoDuplicates(s)
    ensures multiset(s)[x] == if x in s then 1 else 0
  {
    if s != [] {
      Occurrences(Init(s), x);
      MultisetInit(s);
      InitLast(s);
    }
  }

  /** Two duplicate-free sequences with the same elements are permutations of each other. */
  lemma SameElements<T>(a: seq<T>, b: seq<T>)
    requires NoDuplicates(a) && NoDuplicates(b) && forall x :: x in a <==> x in b
    ensures multiset(a) == multiset(b)
  {
    forall x
      ensures multiset(a)[x] == multiset(b)[x]
    {
      Occurrences(a, x);
      Occurrences(b, x);
    }
  }
}

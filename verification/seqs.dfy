/** `Array.prototype.filter` and the order-preserving "subsequence" relation. */
module Seqs {
  import opened Base


  /** `s.filter(p)`: the elements of `s` that satisfy `p`, in their order. */
  function Filter<T>(p: T -> bool, s: seq<T>): (r: seq<T>)
    ensures |r| <= |s|
    ensures forall i :: 0 <= i < |r| ==> p(r[i])
    ensures forall i :: 0 <= i < |s| && p(s[i]) ==> s[i] in r
    ensures forall x :: x in r ==> x in s
  {
    if s == [] then []
    else (if p(s[0]) then [s[0]] else []) + Filter(p, s[1..])
  }

  /** `a` can be obtained from `b` by deleting elements. */
  ghost predicate IsSubsequence<T>(a: seq<T>, b: seq<T>)
    decreases |b|
  {
    if a == [] then true
    else if b == [] then false
    else (a[0] == b[0] && IsSubsequence(a[1..], b[1..])) || IsSubsequence(a, b[1..])
  }

  lemma {:induction false} FilterIsSubsequence<T>(p: T -> bool, s: seq<T>)
    ensures IsSubsequence(Filter(p, s), s)
  {
    if s != [] {
      FilterIsSubsequence(p, s[1..]);
      var r := Filter(p, s);
      if p(s[0]) {
        assert r[0] == s[0] && r[1..] == Filter(p, s[1..]);
      } else {
        assert r == Filter(p, s[1..]);
      }
    }
  }

  /** Filtering by `p` and by its negation `q` splits `s` without loss. */
  lemma {:induction false} FilterPartition<T>(p: T -> bool, q: T -> bool, s: seq<T>)
    requires forall x :: q(x) == !p(x)
    ensures multiset(Filter(p, s)) + multiset(Filter(q, s)) == multiset(s)
  {
    if s != [] {
      var a, b := Filter(p, s[1..]), Filter(q, s[1..]);
      FilterPartition(p, q, s[1..]);
      assert p(s[0]) ==> Filter(p, s) == [s[0]] + a && Filter(q, s) == b;
      assert !p(s[0]) ==> Filter(p, s) == a && Filter(q, s) == [s[0]] + b;
      assert s == [s[0]] + s[1..];
      OneSideGetsTheHead(s[0], a, b, s[1..], Filter(p, s), Filter(q, s));
    }
  }

  /** Adding `x` to one side of a split of `rest` splits `[x] + rest`. */
  lemma OneSideGetsTheHead<T>(x: T, a: seq<T>, b: seq<T>, rest: seq<T>, a': seq<T>, b': seq<T>)
    requires multiset(a) + multiset(b) == multiset(rest)
    requires (a' == [x] + a && b' == b) || (a' == a && b' == [x] + b)
    ensures multiset(a') + multiset(b') == multiset([x] + rest)
  {
    assert multiset([x] + rest) == multiset{x} + multiset(rest);
    if a' == [x] + a && b' == b {
      assert multiset(a') == multiset{x} + multiset(a);
    } else {
      assert multiset(b') == multiset{x} + multiset(b);
    }
  }

  /** Filters with the same verdict on every element agree. */
  lemma {:induction false} FilterSameVerdict<T>(p: T -> bool, q: T -> bool, s: seq<T>)
    requires forall x :: p(x) == q(x)
    ensures Filter(p, s) == Filter(q, s)
  {
    if s != [] {
      FilterSameVerdict(p, q, s[1..]);
    }
  }

  /** Filtering distributes over concatenation. */
  lemma {:induction false} FilterAppend<T>(p: T -> bool, a: seq<T>, b: seq<T>)
    ensures Filter(p, a + b) == Filter(p, a) + Filter(p, b)
  {
    if a == [] {
      assert a + b == b;
    } else {
      assert (a + b)[0] == a[0] && (a + b)[1..] == a[1..] + b;
      FilterAppend(p, a[1..], b);
    }
  }

  /** A filter that every element passes keeps the whole sequence. */
  lemma {:induction false} FilterKeepsAll<T>(p: T -> bool, s: seq<T>)
    requires forall i :: 0 <= i < |s| ==> p(s[i])
    ensures Filter(p, s) == s
  {
    if s != [] {
      FilterKeepsAll(p, s[1..]);
    }
  }

  /** The first element of `s` that satisfies `p`, as a `findFirst` or
      `findUnique` query returns it. */
  function FirstMatch<T>(p: T -> bool, s: seq<T>): (r: Option<T>)
    ensures r.Some? ==> r.value in s && p(r.value)
    ensures r.None? <==> forall i :: 0 <= i < |s| ==> !p(s[i])
  {
    if s == [] then None
    else if p(s[0]) then Some(s[0])
    else FirstMatch(p, s[1..])
  }

  /** The index of the first element of `s` that satisfies `p`, or |s|. */
  function FirstIndex<T>(p: T -> bool, s: seq<T>): (k: nat)
    ensures k <= |s|
    ensures forall i :: 0 <= i < k ==> !p(s[i])
    ensures k < |s| ==> p(s[k])
  {
    if s == [] then 0
    else if p(s[0]) then 0
    else 1 + FirstIndex(p, s[1..])
  }

  /** `FirstMatch` returns the element at `FirstIndex`. */
  lemma {:induction false} FirstMatchAtFirstIndex<T>(p: T -> bool, s: seq<T>)
    ensures FirstMatch(p, s) == if FirstIndex(p, s) < |s| then Some(s[FirstIndex(p, s)]) else None
  {
    if s != [] && !p(s[0]) {
      FirstMatchAtFirstIndex(p, s[1..]);
    }
  }
}

/** `Array.prototype.filter` and the subsequence relation it establishes. */
module Seqs {

  /** `b` contains the elements of `a` in the same order, possibly with others in between. */
  predicate IsSubsequence<T(==)>(a: seq<T>, b: seq<T>) {
    if a == [] then true
    else if b == [] then false
    else if a[0] == b[0] then IsSubsequence(a[1..], b[1..])
    else IsSubsequence(a, b[1..])
  }

  /** `s.filter(p)`: the elements that satisfy `p`, in their original order. */
  function Filter<T>(s: seq<T>, p: T -> bool): (r: seq<T>)
    ensures |r| <= |s|
    ensures forall x :: x in r ==> x in s && p(x)
    ensures forall x :: x in s && p(x) ==> x in r
  {
    if s == [] then []
    else
      assert forall x :: x in s ==> x == s[0] || x in s[1..];
      (if p(s[0]) then [s[0]] else []) + Filter(s[1..], p)
  }

  lemma {:induction false} FilterIsSubsequence<T>(s: seq<T>, p: T -> bool)
    ensures IsSubsequence(Filter(s, p), s)
  {
    if s != [] {
      FilterIsSubsequence(s[1..], p);
      var rest := Filter(s[1..], p);
      if p(s[0]) {
        assert Filter(s, p) == [s[0]] + rest;
        assert ([s[0]] + rest)[1..] == rest;
      } else {
        assert Filter(s, p) == rest;
        SubsequenceOfTail(rest, s);
      }
    }
  }

  /** Filtering a sequence with a given first element. */
  lemma FilterCons<T>(x: T, s: seq<T>, p: T -> bool)
    ensures Filter([x] + s, p) == (if p(x) then [x] else []) + Filter(s, p)
  {
    assert ([x] + s)[1..] == s;
  }

  /** Moving `x` past `y` changes no filter that does not keep both. */
  lemma FilterPassOver<T>(p: T -> bool, x: T, y: T, rest: seq<T>, t: seq<T>)
    requires Filter(rest, p) == Filter([x] + t, p)
    requires !(p(x) && p(y))
    ensures Filter([y] + rest, p) == Filter([x] + ([y] + t), p)
  {
    FilterCons(y, rest, p);
    FilterCons(x, t, p);
    FilterCons(x, [y] + t, p);
    FilterCons(y, t, p);
  }

  /** Filtering a concatenation filters each part. */
  lemma {:induction false} FilterConcat<T>(a: seq<T>, b: seq<T>, p: T -> bool)
    ensures Filter(a + b, p) == Filter(a, p) + Filter(b, p)
  {
    if a == [] {
      assert a + b == b;
    } else {
      var ab := a + b;
      var head := if p(a[0]) then [a[0]] else [];
      assert ab[0] == a[0] && ab[1..] == a[1..] + b;
      FilterConcat(a[1..], b, p);
      assert Filter(ab, p) == head + (Filter(a[1..], p) + Filter(b, p));
      assert Filter(a, p) == head + Filter(a[1..], p);
    }
  }

  /** An element that passes the filter lands at the position given by the
      number of passing elements before it. */
  lemma FilterAt<T>(s: seq<T>, p: T -> bool, j: nat)
    requires j < |s| && p(s[j])
    ensures |Filter(s[..j], p)| < |Filter(s, p)|
    ensures Filter(s, p)[|Filter(s[..j], p)|] == s[j]
  {
    assert s == s[..j] + s[j..];
    FilterConcat(s[..j], s[j..], p);
    assert s[j..][0] == s[j];
  }

  /** A subsequence of the tail is a subsequence of the whole sequence. */
  lemma {:induction false} SubsequenceOfTail<T>(a: seq<T>, b: seq<T>)
    requires b != [] && IsSubsequence(a, b[1..])
    ensures IsSubsequence(a, b)
  {
    if a != [] && a[0] == b[0] {
      var c := b[1..];
      if a[0] == c[0] {
        SubsequenceOfTail(a[1..], c);
      } else {
        SubsequenceDropHead(a, c);
      }
    }
  }

  /** If `a` is a subsequence of `c`, then so is `a` without its first element. */
  lemma {:induction false} SubsequenceDropHead<T>(a: seq<T>, c: seq<T>)
    requires a != [] && IsSubsequence(a, c)
    ensures IsSubsequence(a[1..], c)
  {
    if c != [] {
      if a[0] == c[0] {
        if a[1..] != [] {
          SubsequenceOfTail(a[1..], c);
        }
      } else {
        SubsequenceDropHead(a, c[1..]);
        if a[1..] != [] {
          SubsequenceOfTail(a[1..], c);
        }
      }
    }
  }

  /** A prefix of a subsequence is a subsequence. */
  lemma {:induction false} SubsequencePrefix<T>(a: seq<T>, b: seq<T>, n: nat)
    requires n <= |a| && IsSubsequence(a, b)
    ensures IsSubsequence(a[..n], b)
  {
    if n > 0 && b != [] {
      if a[0] == b[0] {
        SubsequencePrefix(a[1..], b[1..], n - 1);
        assert a[..n][1..] == a[1..][..n - 1];
      } else {
        SubsequencePrefix(a, b[1..], n);
      }
    }
  }

  /** Filtering with a predicate every element satisfies changes nothing. */
  lemma {:induction false} FilterAll<T>(s: seq<T>, p: T -> bool)
    requires forall x :: x in s ==> p(x)
    ensures Filter(s, p) == s
  {
    if s != [] {
      FilterAll(s[1..], p);
    }
  }

  /** Two successive filters are one filter by the conjunction `pq`. */
  lemma {:induction false} FilterFilter<T>(s: seq<T>, p: T -> bool, q: T -> bool, pq: T -> bool)
    requires forall x :: pq(x) == (p(x) && q(x))
    ensures Filter(Filter(s, p), q) == Filter(s, pq)
  {
    if s != [] {
      FilterFilter(s[1..], p, q, pq);
      var rest := Filter(s[1..], p);
      if p(s[0]) {
        assert Filter(s, p) == [s[0]] + rest;
        assert ([s[0]] + rest)[1..] == rest;
      } else {
        assert Filter(s, p) == rest;
      }
    }
  }

  /** Extending a slice by one element extends the concatenation by it. */
  lemma AppendSliceNext<T>(a: seq<T>, b: seq<T>, k: nat)
    requires k < |b|
    ensures a + b[..k + 1] == (a + b[..k]) + [b[k]]
  {
    assert b[..k + 1] == b[..k] + [b[k]];
  }

  /** A prefix of `a + b` that ends inside `b` is a prefix of anything `a + b`
      is a prefix of. */
  lemma PrefixOfConcat<T>(a: seq<T>, b: seq<T>, c: seq<T>, k: nat)
    requires |a + b| <= |c| && c[..|a + b|] == a + b && k <= |b|
    ensures |a| + k <= |c| && c[..|a| + k] == a + b[..k]
  {
    assert c[..|a| + k] == (a + b)[..|a| + k];
  }

  /** Filters by predicates that agree on the elements are the same filter. */
  lemma {:induction false} FilterExt<T>(s: seq<T>, p: T -> bool, q: T -> bool)
    requires forall x :: x in s ==> p(x) == q(x)
    ensures Filter(s, p) == Filter(s, q)
  {
    if s != [] {
      FilterExt(s[1..], p, q);
    }
  }

  /** Permutations of each other have the same members. */
  lemma PermutationMembers<T>(a: seq<T>, b: seq<T>, x: T)
    requires multiset(a) == multiset(b)
    ensures x in a <==> x in b
  {
    assert x in a <==> x in multiset(a);
    assert x in b <==> x in multiset(b);
  }
}

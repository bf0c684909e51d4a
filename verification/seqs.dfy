/** Order-preserving filtering, prefixes and searches over sequences: the
    `Array.prototype.filter`, `slice(0, n)` and `find` the source relies on,
    with the facts about them that the rest of the model uses. */
module Seqs {
  import opened Wrappers

  /** `s.filter(p)`: the elements of `s` satisfying `p`, in their original order. */
  function Filter<T>(s: seq<T>, p: T -> bool): (r: seq<T>)
    ensures |r| <= |s|
    ensures forall i :: 0 <= i < |r| ==> r[i] in s && p(r[i])
    ensures forall i :: 0 <= i < |s| && p(s[i]) ==> s[i] in r
  {
    if |s| == 0 then []
    else if p(s[0]) then [s[0]] + Filter(s[1..], p)
    else Filter(s[1..], p)
  }

  /** `r` is obtained from `s` by deleting elements (order kept). The test
      matches greedily, which is complete for subsequences. */
  predicate IsSubseq<T(==)>(r: seq<T>, s: seq<T>)
    decreases |s|
  {
    if |r| == 0 then true
    else if |s| == 0 then false
    else if r[0] == s[0] then IsSubseq(r[1..], s[1..])
    else IsSubseq(r, s[1..])
  }

  /** `s.slice(0, n)` for a non-negative `n`. */
  function Take<T>(s: seq<T>, n: nat): (r: seq<T>)
    ensures |r| == if n <= |s| then n else |s|
    ensures r <= s
  {
    if n <= |s| then s[..n] else s
  }

  /** `s.find(p)`: the first element satisfying `p`, if any. */
  function FindFirst<T>(s: seq<T>, p: T -> bool): (r: Option<T>)
    ensures r.None? <==> forall i :: 0 <= i < |s| ==> !p(s[i])
    ensures r.Some? ==> exists i :: 0 <= i < |s| && s[i] == r.value && p(s[i]) &&
                                    forall j :: 0 <= j < i ==> !p(s[j])
  {
    if |s| == 0 then None
    else if p(s[0]) then Some(s[0])
    else
      var r := FindFirst(s[1..], p);
      if r.Some? then
        ghost var i :| 0 <= i < |s| - 1 && s[1..][i] == r.value && p(s[1..][i]) &&
                       forall j :: 0 <= j < i ==> !p(s[1..][j]);
        assert s[i + 1] == r.value && forall j :: 0 <= j < i + 1 ==> !p(s[j]);
        r
      else r
  }

  /** A filter never reorders: its result is a subsequence of its input. */
  lemma {:induction false} FilterIsSubseq<T>(s: seq<T>, p: T -> bool)
    ensures IsSubseq(Filter(s, p), s)
  {
    if |s| > 0 {
      FilterIsSubseq(s[1..], p);
    }
  }

  /** A filter keeps every copy of each element satisfying `p` and no copy
      of any other element. */
  lemma {:induction false} FilterCounts<T>(s: seq<T>, p: T -> bool)
    ensures forall x :: multiset(Filter(s, p))[x] == if p(x) then multiset(s)[x] else 0
  {
    if |s| > 0 {
      FilterCounts(s[1..], p);
      assert s == [s[0]] + s[1..];
      assert multiset(s) == multiset{s[0]} + multiset(s[1..]);
    }
  }

  /** Filtering distributes over concatenation. */
  lemma {:induction false} FilterAppend<T>(a: seq<T>, b: seq<T>, p: T -> bool)
    ensures Filter(a + b, p) == Filter(a, p) + Filter(b, p)
  {
    if |a| > 0 {
      assert (a + b)[1..] == a[1..] + b;
      FilterAppend(a[1..], b, p);
    } else {
      assert a + b == b;
    }
  }

  /** A filter whose predicate holds everywhere is the identity. */
  lemma {:induction false} FilterAll<T>(s: seq<T>, p: T -> bool)
    requires forall i :: 0 <= i < |s| ==> p(s[i])
    ensures Filter(s, p) == s
  {
    if |s| > 0 {
      FilterAll(s[1..], p);
      assert [s[0]] + s[1..] == s;
    }
  }

  /** A filter whose predicate holds nowhere yields the empty sequence. */
  lemma {:induction false} FilterNone<T>(s: seq<T>, p: T -> bool)
    requires forall i :: 0 <= i < |s| ==> !p(s[i])
    ensures Filter(s, p) == []
  {
    if |s| > 0 {
      FilterNone(s[1..], p);
    }
  }

  /** Filtering by `p` and then by a stronger `q` is filtering by `q`. */
  lemma {:induction false} FilterFilterStronger<T>(s: seq<T>, p: T -> bool, q: T -> bool)
    requires forall x :: q(x) ==> p(x)
    ensures Filter(Filter(s, p), q) == Filter(s, q)
  {
    if |s| > 0 {
      FilterFilterStronger(s[1..], p, q);
    }
  }

  /** Two filters with complementary predicates split `s` into two parts whose
      lengths add up and whose elements together are exactly those of `s`. */
  lemma {:induction false} FilterPartition<T>(s: seq<T>, p: T -> bool, q: T -> bool)
    requires forall x :: q(x) == !p(x)
    ensures |Filter(s, p)| + |Filter(s, q)| == |s|
    ensures multiset(Filter(s, p)) + multiset(Filter(s, q)) == multiset(s)
  {
    if |s| > 0 {
      FilterPartition(s[1..], p, q);
      assert s == [s[0]] + s[1..];
      assert multiset(s) == multiset{s[0]} + multiset(s[1..]);
    }
  }

  /** When `r` holds exactly where one of two exclusive predicates holds, the
      `r`-filter is as long as the other two together. */
  lemma {:induction false} FilterCountUnion<T>(s: seq<T>, p: T -> bool, q: T -> bool, r: T -> bool)
    requires forall x :: r(x) == (p(x) || q(x))
    requires forall x :: !(p(x) && q(x))
    ensures |Filter(s, r)| == |Filter(s, p)| + |Filter(s, q)|
  {
    if |s| > 0 {
      FilterCountUnion(s[1..], p, q, r);
    }
  }

  /** Filters with pointwise-equal predicates agree. */
  lemma {:induction false} FilterCongruent<T>(s: seq<T>, p: T -> bool, q: T -> bool)
    requires forall i :: 0 <= i < |s| ==> p(s[i]) == q(s[i])
    ensures Filter(s, p) == Filter(s, q)
  {
    if |s| > 0 {
      FilterCongruent(s[1..], p, q);
    }
  }

  /** A prefix of a subsequence of `s` is itself a subsequence of `s`. */
  lemma {:induction false} PrefixOfSubseq<T>(a: seq<T>, b: seq<T>, s: seq<T>)
    requires a <= b
    requires IsSubseq(b, s)
    ensures IsSubseq(a, s)
    decreases |s|
  {
    if |a| > 0 && |s| > 0 {
      if b[0] == s[0] {
        assert a[1..] <= b[1..];
        PrefixOfSubseq(a[1..], b[1..], s[1..]);
      } else {
        PrefixOfSubseq(a, b, s[1..]);
      }
    }
  }

  /** When exactly the element at index `k` satisfies `p`, the filter is that element. */
  lemma {:induction false} FilterSingleMatch<T>(s: seq<T>, p: T -> bool, k: nat)
    requires k < |s| && p(s[k])
    requires forall i :: 0 <= i < |s| && i != k ==> !p(s[i])
    ensures Filter(s, p) == [s[k]]
  {
    if k == 0 {
      FilterNone(s[1..], p);
    } else {
      FilterSingleMatch(s[1..], p, k - 1);
    }
  }

  /** Two positions satisfying `p` give a filter of at least two elements. */
  lemma {:induction false} FilterTwoMatches<T>(s: seq<T>, p: T -> bool, i: nat, j: nat)
    requires i < j < |s| && p(s[i]) && p(s[j])
    ensures |Filter(s, p)| >= 2
  {
    if i == 0 {
      assert s[j] == s[1..][j - 1];
    } else {
      FilterTwoMatches(s[1..], p, i - 1, j - 1);
    }
  }

  /** A subsequence is no longer than its host, and equal to it when as long. */
  lemma {:induction false} SubseqLength<T>(r: seq<T>, s: seq<T>)
    requires IsSubseq(r, s)
    ensures |r| <= |s|
    ensures |r| == |s| ==> r == s
    decreases |s|
  {
    if |r| > 0 {
      if r[0] == s[0] {
        SubseqLength(r[1..], s[1..]);
        if |r| == |s| {
          assert r == [r[0]] + r[1..] && s == [s[0]] + s[1..];
        }
      } else {
        SubseqLength(r, s[1..]);
      }
    }
  }

  /** The first element of a non-empty sequence is one of its members. */
  lemma HeadIsMember<T>(s: seq<T>)
    requires |s| > 0
    ensures s[0] in s
  {
  }
}

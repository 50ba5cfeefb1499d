/** Sequence helpers shared by the table operations: row filters, concatenation of row lists. */
module Seqs {
  import opened Wrappers

  /** The elements of `s` that satisfy `p`, in their original order (a boolean mask over a table). */
  function Filter<T>(s: seq<T>, p: T -> bool): (r: seq<T>)
    ensures |r| <= |s|
    ensures forall i :: 0 <= i < |r| ==> r[i] in s && p(r[i])
    ensures forall i :: 0 <= i < |s| && p(s[i]) ==> s[i] in r
  {
    if s == [] then [] else (if p(s[0]) then [s[0]] else []) + Filter(s[1..], p)
  }

  lemma {:induction false} FilterConcat<T>(a: seq<T>, b: seq<T>, p: T -> bool)
    ensures Filter(a + b, p) == Filter(a, p) + Filter(b, p)
  {
    if a == [] {
      assert a + b == b;
    } else {
      assert (a + b)[0] == a[0];
      assert (a + b)[1..] == a[1..] + b;
      FilterConcat(a[1..], b, p);
    }
  }

  /** The filter keeps every copy of a passing element and no copy of a failing one. */
  lemma {:induction false} FilterMultiset<T>(s: seq<T>, p: T -> bool, x: T)
    ensures multiset(Filter(s, p))[x] == if p(x) then multiset(s)[x] else 0
  {
    if s != [] {
      FilterMultiset(s[1..], p, x);
      assert s == [s[0]] + s[1..];
      assert multiset(s) == multiset([s[0]]) + multiset(s[1..]);
      var head := if p(s[0]) then [s[0]] else [];
      assert Filter(s, p) == head + Filter(s[1..], p);
      assert multiset(Filter(s, p)) == multiset(head) + multiset(Filter(s[1..], p));
    }
  }

  /** A filter that every element passes keeps the whole sequence. */
  lemma {:induction false} FilterAll<T>(s: seq<T>, p: T -> bool)
    requires forall i :: 0 <= i < |s| ==> p(s[i])
    ensures Filter(s, p) == s
  {
    if s != [] {
      FilterAll(s[1..], p);
    }
  }

  /** A filter that no element passes keeps nothing. */
  lemma FilterNone<T>(s: seq<T>, p: T -> bool)
    requires forall i :: 0 <= i < |s| ==> !p(s[i])
    ensures Filter(s, p) == []
  {
  }

  /** The filter keeps its length exactly when every element passes. */
  lemma {:induction false} FilterKeepsLength<T>(s: seq<T>, p: T -> bool)
    ensures |Filter(s, p)| == |s| <==> forall i :: 0 <= i < |s| ==> p(s[i])
  {
    if s != [] {
      FilterKeepsLength(s[1..], p);
      if !p(s[0]) {
        assert |Filter(s, p)| < |s|;
      }
    }
  }

  /** Filtering by the disjunction of two exclusive conditions counts both. */
  lemma {:induction false} FilterDisjointCount<T>(s: seq<T>, p: T -> bool, q: T -> bool, pq: T -> bool)
    requires forall x :: pq(x) == (p(x) || q(x))
    requires forall x :: !(p(x) && q(x))
    ensures |Filter(s, pq)| == |Filter(s, p)| + |Filter(s, q)|
  {
    if s != [] {
      FilterDisjointCount(s[1..], p, q, pq);
    }
  }

  /** At least two elements pass exactly when, besides the passing `s[i]`, another one does. */
  lemma {:induction false} FilterAtLeastTwo<T>(s: seq<T>, p: T -> bool, i: int)
    requires 0 <= i < |s| && p(s[i])
    ensures |Filter(s, p)| >= 2 <==> exists j :: 0 <= j < |s| && j != i && p(s[j])
  {
    var tail := s[1..];
    if i == 0 {
      if exists j :: 0 <= j < |s| && j != 0 && p(s[j]) {
        var j :| 0 <= j < |s| && j != 0 && p(s[j]);
        assert tail[j - 1] in Filter(tail, p);
      } else {
        FilterNone(tail, p);
      }
    } else {
      FilterAtLeastTwo(tail, p, i - 1);
      assert tail[i - 1] in Filter(tail, p);
      if !p(s[0]) {
        if exists j :: 0 <= j < |s| && j != i && p(s[j]) {
          var j :| 0 <= j < |s| && j != i && p(s[j]);
          assert tail[j - 1] == s[j];
        }
        if exists j :: 0 <= j < |tail| && j != i - 1 && p(tail[j]) {
          var j :| 0 <= j < |tail| && j != i - 1 && p(tail[j]);
          assert s[j + 1] == tail[j];
        }
      }
    }
  }

  /** `a` is `b` with some elements deleted: an order-preserving subsequence. */
  predicate Subsequence<T(==)>(a: seq<T>, b: seq<T>)
    decreases |b|
  {
    if a == [] then true
    else if b == [] then false
    else (a[0] == b[0] && Subsequence(a[1..], b[1..])) || Subsequence(a, b[1..])
  }

  lemma {:induction false} FilterIsSubsequence<T>(s: seq<T>, p: T -> bool)
    ensures Subsequence(Filter(s, p), s)
  {
    if s != [] {
      FilterIsSubsequence(s[1..], p);
      if p(s[0]) {
        assert Filter(s, p)[0] == s[0];
        assert Filter(s, p)[1..] == Filter(s[1..], p);
      } else {
        assert Filter(s, p) == Filter(s[1..], p);
      }
    }
  }

  /** Indexing into either part of a concatenation. */
  lemma AppendIndex<T>(a: seq<T>, b: seq<T>, k: nat)
    requires k < |a| + |b|
    ensures k < |a| ==> (a + b)[k] == a[k]
    ensures k >= |a| ==> (a + b)[k] == b[k - |a|]
  {
  }

  /** `pd.concat` of a list of tables, once the list is known to be non-empty. */
  function Flatten<T>(ss: seq<seq<T>>): (r: seq<T>)
  {
    if ss == [] then [] else Flatten(ss[..|ss| - 1]) + ss[|ss| - 1]
  }

  lemma FlattenAppend<T>(ss: seq<seq<T>>, s: seq<T>)
    ensures Flatten(ss + [s]) == Flatten(ss) + s
  {
    assert (ss + [s])[..|ss|] == ss;
  }

  /** The first element of `s` satisfying `p`: the row a left merge picks up when its key
      matches at most one row of the right table. */
  function FindFirst<T>(s: seq<T>, p: T -> bool): (r: Option<T>)
    ensures r.Some? ==> r.value in s && p(r.value)
    ensures r.None? ==> forall i :: 0 <= i < |s| ==> !p(s[i])
  {
    if s == [] then None else if p(s[0]) then Some(s[0]) else FindFirst(s[1..], p)
  }

  /** When exactly one element satisfies `p`, `FindFirst` finds that one. */
  lemma {:induction false} FindFirstUnique<T>(s: seq<T>, p: T -> bool, j: int)
    requires 0 <= j < |s| && p(s[j])
    requires forall i :: 0 <= i < |s| && p(s[i]) ==> i == j
    ensures FindFirst(s, p) == Some(s[j])
  {
    if j > 0 {
      assert !p(s[0]);
      assert s[1..][j - 1] == s[j];
      FindFirstUnique(s[1..], p, j - 1);
    }
  }
}

/** The `Array.prototype.filter` the pages use, with what it guarantees. */
module Seqs {

  /** `s.filter(keep)`. */
  function Filter<T>(s: seq<T>, keep: T -> bool): (r: seq<T>)
    ensures |r| <= |s|
    ensures forall i :: 0 <= i < |r| ==> r[i] in s && keep(r[i])
    ensures forall i :: 0 <= i < |s| && keep(s[i]) ==> s[i] in r
  {
    if s == [] then [] else (if keep(s[0]) then [s[0]] else []) + Filter(s[1..], keep)
  }

  /** `a` is `b` with some elements deleted, the rest in their order. */
  predicate IsSubsequence<T(==)>(a: seq<T>, b: seq<T>) {
    a == [] || (b != [] && ((a[0] == b[0] && IsSubsequence(a[1..], b[1..])) || IsSubsequence(a, b[1..])))
  }

  /** Filtering keeps the surviving elements in their original order. */
  lemma {:induction false} FilterIsSubsequence<T>(s: seq<T>, keep: T -> bool)
    ensures IsSubsequence(Filter(s, keep), s)
  {
    if s != [] {
      FilterIsSubsequence(s[1..], keep);
      var r := Filter(s, keep);
      if keep(s[0]) {
        assert r[0] == s[0] && r[1..] == Filter(s[1..], keep);
      } else {
        assert r == Filter(s[1..], keep);
      }
    }
  }

  /** `s.filter(keep).length`. */
  function Count<T>(s: seq<T>, keep: T -> bool): (n: nat)
    ensures n <= |s|
  {
    |Filter(s, keep)|
  }

  /** Elements meeting two exclusive tests are counted apart, never twice. */
  lemma {:induction false} CountDisjoint<T>(s: seq<T>, a: T -> bool, b: T -> bool)
    requires forall x :: !(a(x) && b(x))
    ensures Count(s, a) + Count(s, b) <= |s|
  {
    if s != [] {
      CountDisjoint(s[1..], a, b);
    }
  }

  /** Two exclusive tests that together make up a third split its filter:
      the two lists are as long as the third. */
  lemma {:induction false} FilterSplit<T>(s: seq<T>, keep: T -> bool, a: T -> bool, b: T -> bool)
    requires forall x :: keep(x) <==> a(x) || b(x)
    requires forall x :: !(a(x) && b(x))
    ensures |Filter(s, a)| + |Filter(s, b)| == |Filter(s, keep)|
  {
    if s != [] {
      FilterSplit(s[1..], keep, a, b);
    }
  }

  /** A filter that keeps nothing returns the empty list. */
  lemma {:induction false} FilterKeepsNone<T>(s: seq<T>, keep: T -> bool)
    requires forall i :: 0 <= i < |s| ==> !keep(s[i])
    ensures Filter(s, keep) == []
  {
    if s != [] {
      FilterKeepsNone(s[1..], keep);
    }
  }

  /** When at most one position passes the test, at most one element is kept. */
  lemma {:induction false} CountAtMostOne<T>(s: seq<T>, keep: T -> bool)
    requires forall i, j :: 0 <= i < |s| && 0 <= j < |s| && keep(s[i]) && keep(s[j]) ==> i == j
    ensures Count(s, keep) <= 1
  {
    if s != [] {
      if keep(s[0]) {
        assert forall j :: 0 <= j < |s[1..]| ==> !keep(s[1..][j]) by {
          forall j | 0 <= j < |s[1..]|
            ensures !keep(s[1..][j])
          {
            assert s[1..][j] == s[j + 1];
          }
        }
        FilterKeepsNone(s[1..], keep);
      } else {
        assert forall i :: 0 <= i < |s[1..]| ==> s[1..][i] == s[i + 1];
        CountAtMostOne(s[1..], keep);
      }
    }
  }
}

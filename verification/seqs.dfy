/** Array operations the storefront uses: `filter`, `map` on a single
    record, `new Set(...)` de-duplication and the default `sort`. */
module Seqs {
  import opened Strings

  // ---------------------------------------------------------------------
  // Subsequences and filtering
  // ---------------------------------------------------------------------

  /** `a` is `b` with some elements dropped, order kept. */
  predicate IsSubseq<T(==,!new)>(a: seq<T>, b: seq<T>)
    decreases |b|
  {
    |a| == 0 || (|b| > 0 && ((a[0] == b[0] && IsSubseq(a[1..], b[1..])) || IsSubseq(a, b[1..])))
  }

  lemma {:induction false} SubseqReflexive<T(!new)>(a: seq<T>)
    ensures IsSubseq(a, a)
  {
    if |a| > 0 {
      SubseqReflexive(a[1..]);
    }
  }

  /** `s.filter(p)`. */
  function Filter<T(!new)>(s: seq<T>, p: T -> bool): (r: seq<T>)
    ensures |r| <= |s|
    ensures forall x :: x in r <==> x in s && p(x)
    ensures forall i :: 0 <= i < |r| ==> p(r[i])
  {
    if |s| == 0 then []
    else if p(s[0]) then [s[0]] + Filter(s[1..], p)
    else Filter(s[1..], p)
  }

  /** A filter keeps the survivors in their original order. */
  lemma {:induction false} FilterIsSubseq<T(!new)>(s: seq<T>, p: T -> bool)
    ensures IsSubseq(Filter(s, p), s)
  {
    if |s| > 0 {
      FilterIsSubseq(s[1..], p);
      var r := Filter(s, p);
      if p(s[0]) {
        assert r[0] == s[0] && r[1..] == Filter(s[1..], p);
      }
    }
  }

  /** A filter that keeps everything is the identity. */
  lemma {:induction false} FilterKeepsAll<T(!new)>(s: seq<T>, p: T -> bool)
    requires forall i :: 0 <= i < |s| ==> p(s[i])
    ensures Filter(s, p) == s
  {
    if |s| > 0 {
      FilterKeepsAll(s[1..], p);
      assert [s[0]] + s[1..] == s;
    }
  }

  /** Two filters in a row are one filter on the conjunction. */
  lemma {:induction false} FilterFilter<T(!new)>(s: seq<T>, p: T -> bool, q: T -> bool, pq: T -> bool)
    requires forall x :: pq(x) == (p(x) && q(x))
    ensures Filter(Filter(s, p), q) == Filter(s, pq)
  {
    if |s| > 0 {
      FilterFilter(s[1..], p, q, pq);
      if p(s[0]) {
        assert Filter(s, p)[1..] == Filter(s[1..], p);
      }
    }
  }

  /** A filter distributes over concatenation. */
  lemma {:induction false} FilterAppend<T(!new)>(a: seq<T>, b: seq<T>, p: T -> bool)
    ensures Filter(a + b, p) == Filter(a, p) + Filter(b, p)
  {
    if |a| == 0 {
      assert a + b == b;
    } else {
      assert (a + b)[1..] == a[1..] + b;
      FilterAppend(a[1..], b, p);
    }
  }

  /** A filter that rejects everything is empty. */
  lemma {:induction false} FilterDropsAll<T(!new)>(s: seq<T>, p: T -> bool)
    requires forall i :: 0 <= i < |s| ==> !p(s[i])
    ensures Filter(s, p) == []
  {
    if |s| > 0 {
      FilterDropsAll(s[1..], p);
    }
  }

  /** Filtering by a predicate and by its negation splits the length. */
  lemma {:induction false} FilterPartition<T(!new)>(s: seq<T>, p: T -> bool, np: T -> bool)
    requires forall x :: np(x) == !p(x)
    ensures |Filter(s, p)| + |Filter(s, np)| == |s|
  {
    if |s| > 0 {
      FilterPartition(s[1..], p, np);
    }
  }

  /** Two predicates that agree everywhere filter alike. */
  lemma {:induction false} FilterSame<T(!new)>(s: seq<T>, p: T -> bool, q: T -> bool)
    requires forall x :: p(x) == q(x)
    ensures Filter(s, p) == Filter(s, q)
  {
    if |s| > 0 {
      FilterSame(s[1..], p, q);
    }
  }

  /** Two filters, each applied only when its switch is on, are one filter
      on the conjunction of the switched-on predicates. */
  lemma FilterOptional<T(!new)>(s: seq<T>, useP: bool, p: T -> bool, useQ: bool, q: T -> bool, pq: T -> bool)
    requires forall x :: pq(x) == ((useP ==> p(x)) && (useQ ==> q(x)))
    ensures var a := if useP then Filter(s, p) else s;
      (if useQ then Filter(a, q) else a) == Filter(s, pq)
  {
    if useP && useQ {
      FilterFilter(s, p, q, pq);
    } else if useP {
      FilterSame(s, p, pq);
    } else if useQ {
      FilterSame(s, q, pq);
    } else {
      FilterKeepsAll(s, pq);
    }
  }

  /** `s.map(x => sel(x) ? f(x) : x)`: rewrites the selected elements in
      place and leaves the others alone. */
  function MapWhere<T(!new)>(s: seq<T>, sel: T -> bool, f: T -> T): (r: seq<T>)
    ensures |r| == |s|
    ensures forall i :: 0 <= i < |s| ==> r[i] == (if sel(s[i]) then f(s[i]) else s[i])
  {
    seq(|s|, i requires 0 <= i < |s| => if sel(s[i]) then f(s[i]) else s[i])
  }

  /** A rewrite that selects nothing is the identity. */
  lemma MapWhereNone<T(!new)>(s: seq<T>, sel: T -> bool, f: T -> T)
    requires forall i :: 0 <= i < |s| ==> !sel(s[i])
    ensures MapWhere(s, sel, f) == s
  {
  }

  // ---------------------------------------------------------------------
  // Duplicates
  // ---------------------------------------------------------------------

  predicate NoDups<T(==,!new)>(s: seq<T>) {
    forall i, j :: 0 <= i < j < |s| ==> s[i] != s[j]
  }

  /** A duplicate-free sequence holds each value at most once. */
  lemma {:induction false} NoDupsCounts<T(!new)>(s: seq<T>, x: T)
    requires NoDups(s)
    ensures multiset(s)[x] <= 1
  {
    if |s| > 0 {
      assert NoDups(s[1..]);
      NoDupsCounts(s[1..], x);
      assert s == [s[0]] + s[1..];
      assert multiset(s) == multiset{s[0]} + multiset(s[1..]);
      if x == s[0] {
        assert x !in s[1..];
      }
    }
  }

  /** A value found at two indices occurs at least twice. */
  lemma TwiceCounts<T(!new)>(s: seq<T>, i: int, j: int)
    requires 0 <= i < j < |s| && s[i] == s[j]
    ensures multiset(s)[s[i]] >= 2
  {
    assert s == s[..j] + s[j..];
    assert multiset(s) == multiset(s[..j]) + multiset(s[j..]);
    assert s[i] in s[..j];
    assert s[j] in s[j..];
  }

  /** Rearranging a duplicate-free sequence keeps it duplicate-free. */
  lemma PermutationNoDups<T(!new)>(a: seq<T>, b: seq<T>)
    requires multiset(a) == multiset(b) && NoDups(b)
    ensures NoDups(a)
  {
    forall i, j | 0 <= i < j < |a|
      ensures a[i] != a[j]
    {
      if a[i] == a[j] {
        TwiceCounts(a, i, j);
        NoDupsCounts(b, a[i]);
      }
    }
  }

  /** `Array.from(new Set(s))`: each value once, at its first occurrence. */
  function Distinct<T(==,!new)>(s: seq<T>): (r: seq<T>)
    ensures NoDups(r)
    ensures forall x :: x in r <==> x in s
  {
    if |s| == 0 then []
    else
      var init := Distinct(s[..|s| - 1]);
      assert s == s[..|s| - 1] + [s[|s| - 1]];
      if s[|s| - 1] in init then init else init + [s[|s| - 1]]
  }

  // ---------------------------------------------------------------------
  // Default string sort
  // ---------------------------------------------------------------------

  predicate SortedLex(s: seq<string>) {
    forall i, j :: 0 <= i < j < |s| ==> LexLe(s[i], s[j])
  }

  /** Inserts `x` into a sorted sequence at its place. */
  function InsertLex(x: string, s: seq<string>): (r: seq<string>)
    requires SortedLex(s)
    ensures multiset(r) == multiset(s) + multiset{x}
    ensures SortedLex(r)
  {
    if |s| == 0 then [x]
    else if LexLe(x, s[0]) then
      LexPrepend(x, s);
      [x] + s
    else
      var t := InsertLex(x, s[1..]);
      LexLeTotal(x, s[0]);
      assert s == [s[0]] + s[1..];
      LexHeadStays(s[0], x, s[1..], t);
      [s[0]] + t
  }

  /** A string no greater than the head of a sorted sequence can go in
      front of it. */
  lemma LexPrepend(x: string, s: seq<string>)
    requires SortedLex(s) && |s| > 0 && LexLe(x, s[0])
    ensures SortedLex([x] + s)
  {
    forall j | 0 <= j < |s| ensures LexLe(x, s[j]) {
      if j > 0 { LexLeTransitive(x, s[0], s[j]); }
    }
  }

  /** The head of a sorted sequence, no greater than `x`, stays in front of
      any rearrangement of the rest with `x` added. */
  lemma LexHeadStays(h: string, x: string, rest: seq<string>, t: seq<string>)
    requires SortedLex([h] + rest) && SortedLex(t)
    requires LexLe(h, x)
    requires multiset(t) == multiset(rest) + multiset{x}
    ensures SortedLex([h] + t)
  {
    forall i | 0 <= i < |t| ensures LexLe(h, t[i]) {
      assert t[i] in multiset(t);
      if t[i] != x {
        assert t[i] in multiset(rest) + multiset{x};
        assert t[i] in multiset(rest);
        var k :| 0 <= k < |rest| && rest[k] == t[i];
        assert ([h] + rest)[0] == h && ([h] + rest)[k + 1] == rest[k];
      }
    }
  }

  /** `s.sort()` on strings (insertion sort; the default sort is stable). */
  function SortLex(s: seq<string>): (r: seq<string>)
    ensures multiset(r) == multiset(s)
    ensures SortedLex(r)
  {
    if |s| == 0 then []
    else
      assert s == [s[0]] + s[1..];
      InsertLex(s[0], SortLex(s[1..]))
  }

  /** A sorted duplicate-free list is strictly increasing. */
  lemma SortedDistinctStrict(s: seq<string>)
    requires SortedLex(s) && NoDups(s)
    ensures forall i, j :: 0 <= i < j < |s| ==> LexLe(s[i], s[j]) && !LexLe(s[j], s[i])
  {
    forall i, j | 0 <= i < j < |s|
      ensures !LexLe(s[j], s[i])
    {
      if LexLe(s[j], s[i]) {
        LexLeAntisymmetric(s[i], s[j]);
      }
    }
  }

  /** `Array.from(new Set(s)).sort()`: the distinct values in order. */
  function SortedDistinct(s: seq<string>): (r: seq<string>)
    ensures SortedLex(r) && NoDups(r)
    ensures forall x :: x in r <==> x in s
  {
    var d := Distinct(s);
    var r := SortLex(d);
    PermutationNoDups(r, d);
    assert forall x :: x in r <==> x in multiset(d);
    r
  }

  /** The head of a sorted list sorts before every element. */
  lemma HeadIsLeast(a: seq<string>, x: string)
    requires SortedLex(a) && x in a
    ensures LexLe(a[0], x)
  {
    var j :| 0 <= j < |a| && a[j] == x;
    if j == 0 {
      LexLeReflexive(x);
    }
  }

  lemma SameElementsEmpty<T(!new)>(a: seq<T>, b: seq<T>)
    requires forall x :: x in a <==> x in b
    ensures |a| == 0 <==> |b| == 0
  {
    if |a| > 0 { assert a[0] in a; }
    if |b| > 0 { assert b[0] in b; }
  }

  /** Two duplicate-free sorted lists with the same elements are equal, so
      the distinct sorted categories are determined by the set of categories. */
  lemma {:induction false} SortedDistinctUnique(a: seq<string>, b: seq<string>)
    requires SortedLex(a) && NoDups(a) && SortedLex(b) && NoDups(b)
    requires forall x :: x in a <==> x in b
    ensures a == b
  {
    SameElementsEmpty(a, b);
    if |a| > 0 {
      assert a[0] in a && b[0] in b;
      HeadIsLeast(a, b[0]);
      HeadIsLeast(b, a[0]);
      LexLeAntisymmetric(a[0], b[0]);
      assert a == [a[0]] + a[1..] && b == [b[0]] + b[1..];
      assert NoDups(a[1..]) && NoDups(b[1..]);
      forall x ensures x in a[1..] <==> x in b[1..] {
        assert x in a[1..] <==> x in a && x != a[0];
        assert x in b[1..] <==> x in b && x != b[0];
      }
      SortedDistinctUnique(a[1..], b[1..]);
    }
  }
}

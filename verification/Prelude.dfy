/** Small sequence vocabulary shared by every module. */
module Prelude {

  datatype Option<+T> = None | Some(value: T)

  /** Index of the first element satisfying `p`: the `position`/`find` of an iterator. */
  function Position<T>(s: seq<T>, p: T -> bool): (r: Option<nat>)
    ensures r.None? ==> forall k :: 0 <= k < |s| ==> !p(s[k])
    ensures r.Some? ==> r.value < |s| && p(s[r.value])
    ensures r.Some? ==> forall k :: 0 <= k < r.value ==> !p(s[k])
  {
    PositionFrom(s, p, 0)
  }

  function PositionFrom<T>(s: seq<T>, p: T -> bool, i: nat): (r: Option<nat>)
    requires i <= |s|
    ensures r.None? ==> forall k :: i <= k < |s| ==> !p(s[k])
    ensures r.Some? ==> i <= r.value < |s| && p(s[r.value])
    ensures r.Some? ==> forall k :: i <= k < r.value ==> !p(s[k])
    decreases |s| - i
  {
    if i == |s| then None else if p(s[i]) then Some(i) else PositionFrom(s, p, i + 1)
  }

  /** Apply `f` to every element. */
  function Map<T, U>(s: seq<T>, f: T -> U): (r: seq<U>)
    ensures |r| == |s|
    ensures forall k :: 0 <= k < |s| ==> r[k] == f(s[k])
  {
    seq(|s|, k requires 0 <= k < |s| => f(s[k]))
  }

  /** Keep the elements satisfying `p`, in order: the `filter`/`retain` of a vector. */
  function Filter<T>(s: seq<T>, p: T -> bool): (r: seq<T>)
    ensures |r| <= |s|
    ensures forall k :: 0 <= k < |r| ==> p(r[k]) && r[k] in s
    ensures forall k :: 0 <= k < |s| && p(s[k]) ==> s[k] in r
  {
    if s == [] then []
    else
      var rest := Filter(s[..|s| - 1], p);
      assert s == s[..|s| - 1] + [s[|s| - 1]];
      if p(s[|s| - 1]) then rest + [s[|s| - 1]] else rest
  }

  ghost predicate Distinct<T>(s: seq<T>) {
    forall i, j :: 0 <= i < j < |s| ==> s[i] != s[j]
  }

  function Without<T(==)>(s: seq<T>, x: T): (r: seq<T>) {
    Filter(s, y => y != x)
  }

  lemma {:induction false} FilterDistinct<T>(s: seq<T>, p: T -> bool)
    requires Distinct(s)
    ensures Distinct(Filter(s, p))
  {
    if s != [] {
      FilterDistinct(s[..|s| - 1], p);
    }
  }

  lemma {:induction false} FilterAppend<T>(a: seq<T>, b: seq<T>, p: T -> bool)
    ensures Filter(a + b, p) == Filter(a, p) + Filter(b, p)
  {
    if b == [] {
      assert a + b == a;
    } else {
      assert (a + b)[..|a + b| - 1] == a + b[..|b| - 1];
      FilterAppend(a, b[..|b| - 1], p);
    }
  }

  /** Filtering with two predicates that agree on the sequence gives the same result. */
  lemma {:induction false} FilterCongruent<T>(s: seq<T>, p: T -> bool, q: T -> bool)
    requires forall k :: 0 <= k < |s| ==> p(s[k]) == q(s[k])
    ensures Filter(s, p) == Filter(s, q)
  {
    if s != [] {
      FilterCongruent(s[..|s| - 1], p, q);
    }
  }

  /** Keeping everything changes nothing. */
  lemma {:induction false} FilterAll<T>(s: seq<T>, p: T -> bool)
    requires forall k :: 0 <= k < |s| ==> p(s[k])
    ensures Filter(s, p) == s
  {
    if s != [] {
      FilterAll(s[..|s| - 1], p);
    }
  }

  lemma {:induction false} FilterNone<T>(s: seq<T>, p: T -> bool)
    requires forall k :: 0 <= k < |s| ==> !p(s[k])
    ensures Filter(s, p) == []
  {
    if s != [] {
      FilterNone(s[..|s| - 1], p);
    }
  }

  lemma WithoutIs<T>(s: seq<T>, x: T, p: T -> bool)
    requires forall k :: 0 <= k < |s| ==> p(s[k]) == (s[k] != x)
    ensures Without(s, x) == Filter(s, p)
  {
    FilterCongruent(s, p, y => y != x);
  }

  lemma FilterAround<T>(a: seq<T>, x: T, b: seq<T>, p: T -> bool)
    requires (forall k :: 0 <= k < |a| ==> p(a[k])) && !p(x) && forall k :: 0 <= k < |b| ==> p(b[k])
    ensures Filter((a + [x]) + b, p) == a + b
  {
    FilterOfOne(x, p);
    hide *;
    FilterAppend(a + [x], b, p);
    FilterAppend(a, [x], p);
    FilterAll(a, p);
    FilterAll(b, p);
    assert a + [] == a;
  }

  lemma FilterOfOne<T>(x: T, p: T -> bool)
    ensures Filter([x], p) == if p(x) then [x] else []
  {
    assert [x][..0] == [];
  }

  lemma SplitAround<T>(s: seq<T>, i: nat)
    requires i < |s|
    ensures (s[..i] + [s[i]]) + s[i + 1..] == s
  {
  }

  lemma KeptAround<T>(s: seq<T>, p: T -> bool, i: nat, a: seq<T>, b: seq<T>)
    requires i < |s| && a == s[..i] && b == s[i + 1..]
    requires forall k :: 0 <= k < |s| ==> p(s[k]) == (k != i)
    ensures (forall k :: 0 <= k < |a| ==> p(a[k])) && !p(s[i]) && forall k :: 0 <= k < |b| ==> p(b[k])
  {
    forall k | 0 <= k < |b| ensures p(b[k]) {
      assert b[k] == s[i + 1 + k];
    }
  }

  /** Dropping only element `i` cuts the sequence there. */
  lemma FilterCuts<T>(s: seq<T>, p: T -> bool, i: nat)
    requires i < |s| && forall k :: 0 <= k < |s| ==> p(s[k]) == (k != i)
    ensures Filter(s, p) == s[..i] + s[i + 1..]
  {
    hide *;
    SplitAround(s, i);
    KeptAround(s, p, i, s[..i], s[i + 1..]);
    FilterAround(s[..i], s[i], s[i + 1..], p);
  }

  /** Removing the single occurrence of `s[i]` cuts the sequence at `i`. */
  lemma WithoutCuts<T>(s: seq<T>, i: nat)
    requires Distinct(s) && i < |s|
    ensures Without(s, s[i]) == s[..i] + s[i + 1..]
  {
    var p := y => y != s[i];
    WithoutIs(s, s[i], p);
    FilterCuts(s, p, i);
  }

  /** Two predicates that agree on the sequence find the same element. */
  lemma PositionCongruent<T>(s: seq<T>, p: T -> bool, q: T -> bool)
    requires forall k :: 0 <= k < |s| ==> p(s[k]) == q(s[k])
    ensures Position(s, p) == Position(s, q)
  {
    var a, b := Position(s, p), Position(s, q);
    assert a.Some? ==> q(s[a.value]);
    assert b.Some? ==> p(s[b.value]);
  }

  /** Where each kept element came from: strictly increasing positions that miss none. */
  ghost predicate KeptAt<T>(s: seq<T>, p: T -> bool, r: seq<T>, at: seq<nat>) {
    && |at| == |r|
    && (forall k :: 0 <= k < |r| ==> at[k] < |s| && r[k] == s[at[k]] && p(r[k]))
    && (forall j, k :: 0 <= j < k < |r| ==> at[j] < at[k])
    && (forall i :: 0 <= i < |s| && p(s[i]) ==> i in at)
  }

  /** Filtering keeps exactly the matching elements, in their original order. */
  lemma {:induction false} FilterKeepsOrder<T>(s: seq<T>, p: T -> bool) returns (at: seq<nat>)
    ensures KeptAt(s, p, Filter(s, p), at)
  {
    if s == [] {
      at := [];
    } else {
      var front := s[..|s| - 1];
      var before := FilterKeepsOrder(front, p);
      at := before + if p(s[|s| - 1]) then [|s| - 1] else [];
      KeptOneMore(s, p, Filter(front, p), before);
    }
  }

  lemma KeptOneMore<T>(s: seq<T>, p: T -> bool, r: seq<T>, at: seq<nat>)
    requires s != [] && KeptAt(s[..|s| - 1], p, r, at)
    ensures var last := s[|s| - 1];
      KeptAt(s, p, r + (if p(last) then [last] else []), at + (if p(last) then [|s| - 1] else []))
  {
    assert forall i :: 0 <= i < |s| - 1 ==> s[..|s| - 1][i] == s[i];
  }

  /** Filtering after a mapping is mapping what the mapping makes of a filter. */
  lemma {:induction false} FilterOfMap<T, U>(s: seq<T>, f: T -> U, p: U -> bool, q: T -> bool)
    requires forall x :: p(f(x)) == q(x)
    ensures Filter(Map(s, f), p) == Map(Filter(s, q), f)
  {
    if s != [] {
      var front, last := s[..|s| - 1], s[|s| - 1];
      FilterOfMap(front, f, p, q);
      assert s == front + [last];
      FilterOfOne(last, q);
      FilterOfOne(f(last), p);
      hide *;
      FilterAppend(front, [last], q);
      MapSnoc(front, last, f);
      FilterAppend(Map(front, f), [f(last)], p);
      MapSnoc(Filter(front, q), last, f);
    }
  }

  lemma MapSnoc<T, U>(s: seq<T>, x: T, f: T -> U)
    ensures Map(s + [x], f) == Map(s, f) + [f(x)]
  {
  }

  /** Filtering twice is filtering by both. */
  lemma {:induction false} FilterTwice<T>(s: seq<T>, p: T -> bool, q: T -> bool, both: T -> bool)
    requires forall k :: 0 <= k < |s| ==> both(s[k]) == (p(s[k]) && q(s[k]))
    ensures Filter(Filter(s, p), q) == Filter(s, both)
  {
    if s != [] {
      var front, last := s[..|s| - 1], s[|s| - 1];
      FilterTwice(front, p, q, both);
      FilterAppend(Filter(front, p), [last], q);
      assert [last][..0] == [];
    }
  }

  lemma MultisetSnoc<T>(s: seq<T>, x: T)
    ensures multiset(s + [x]) == multiset(s) + multiset{x}
  {
  }

  /** The elements matching `p` and those that do not make up the whole sequence. */
  lemma {:induction false} FilterSplits<T>(s: seq<T>, p: T -> bool, q: T -> bool)
    requires forall k :: 0 <= k < |s| ==> q(s[k]) == !p(s[k])
    ensures multiset(Filter(s, p)) + multiset(Filter(s, q)) == multiset(s)
  {
    if s != [] {
      var front, last := s[..|s| - 1], s[|s| - 1];
      FilterSplits(front, p, q);
      assert s == front + [last];
      MultisetSnoc(front, last);
      MultisetSnoc(Filter(front, p), last);
      MultisetSnoc(Filter(front, q), last);
    }
  }
}

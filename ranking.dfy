/**
 * Stable sorting and top-K selection, the two pandas operations the rankers use:
 * `sort_values` (stable on ties) and `nlargest(k, col)` with `keep='first'`, which
 * orders by the column descending and, among equal values, keeps the earlier row first.
 *
 * An order is given as `le(a, b)`, "a may stand before b"; it must be a total preorder.
 */
module Ranking {

  ghost predicate IsTotalPreorder<T(!new)>(le: (T, T) -> bool) {
    && (forall a, b :: le(a, b) || le(b, a))
    && (forall a, b, c :: le(a, b) && le(b, c) ==> le(a, c))
  }

  /** Every element may stand before every later one. */
  ghost predicate SortedBy<T(!new)>(s: seq<T>, le: (T, T) -> bool) {
    forall i, j :: 0 <= i < j < |s| ==> le(s[i], s[j])
  }

  /** The descending order on a real-valued column, as `nlargest` uses it. */
  function Descending<T(!new)>(key: T -> real): (le: (T, T) -> bool)
    ensures forall a, b :: le(a, b) <==> key(a) >= key(b)
  {
    (a, b) => key(a) >= key(b)
  }

  lemma DescendingIsTotalPreorder<T(!new)>(key: T -> real)
    ensures IsTotalPreorder(Descending(key))
  {
  }

  /** `[x for x in s if p(x)]` */
  function Filter<T(!new)>(s: seq<T>, p: T -> bool): (r: seq<T>)
    ensures |r| <= |s|
    ensures forall i :: 0 <= i < |r| ==> p(r[i])
  {
    if s == [] then []
    else
      assert s == [s[0]] + s[1..];
      (if p(s[0]) then [s[0]] else []) + Filter(s[1..], p)
  }

  /** An element the filter accepts survives it. */
  lemma {:induction false} FilterKeeps<T(!new)>(s: seq<T>, p: T -> bool, i: nat)
    requires i < |s| && p(s[i])
    ensures Filter(s, p) != []
    decreases |s|
  {
    if i > 0 {
      FilterKeeps(s[1..], p, i - 1);
    }
  }

  /** Puts `x` in front of the first element it may stand before. */
  function Insert<T(!new)>(x: T, s: seq<T>, le: (T, T) -> bool): (r: seq<T>)
    ensures multiset(r) == multiset(s) + multiset{x}
    decreases |s|
  {
    if s == [] || le(x, s[0]) then [x] + s
    else
      assert s == [s[0]] + s[1..];
      [s[0]] + Insert(x, s[1..], le)
  }

  /** A stable insertion sort: the first element goes in last, in front of its equals. */
  function SortBy<T(!new)>(xs: seq<T>, le: (T, T) -> bool): (r: seq<T>)
    ensures multiset(r) == multiset(xs)
    decreases |xs|
  {
    if xs == [] then []
    else
      assert xs == [xs[0]] + xs[1..];
      Insert(xs[0], SortBy(xs[1..], le), le)
  }

  lemma {:induction false} InsertSorted<T(!new)>(x: T, s: seq<T>, le: (T, T) -> bool)
    requires IsTotalPreorder(le)
    requires SortedBy(s, le)
    ensures SortedBy(Insert(x, s, le), le)
    decreases |s|
  {
    if s != [] && !le(x, s[0]) {
      InsertSorted(x, s[1..], le);
      var t := Insert(x, s[1..], le);
      assert multiset(t) == multiset(s[1..]) + multiset{x};
      forall j | 0 <= j < |t| ensures le(s[0], t[j]) {
        assert t[j] in multiset(t);
        if t[j] != x {
          assert t[j] in multiset(s[1..]);
          var k :| 0 <= k < |s[1..]| && s[1..][k] == t[j];
          assert s[k + 1] == t[j];
        }
      }
    }
  }

  /** The result of `SortBy` is in order. */
  lemma {:induction false} SortBySorted<T(!new)>(xs: seq<T>, le: (T, T) -> bool)
    requires IsTotalPreorder(le)
    ensures SortedBy(SortBy(xs, le), le)
    decreases |xs|
  {
    if xs != [] {
      SortBySorted(xs[1..], le);
      InsertSorted(xs[0], SortBy(xs[1..], le), le);
    }
  }

  /** The elements equivalent to `c` under `le`. */
  function EquivTo<T(!new)>(c: T, le: (T, T) -> bool): (p: T -> bool)
    ensures forall y :: p(y) <==> le(c, y) && le(y, c)
  {
    y => le(c, y) && le(y, c)
  }

  lemma {:induction false} FilterAppend<T(!new)>(a: seq<T>, b: seq<T>, p: T -> bool)
    ensures Filter(a + b, p) == Filter(a, p) + Filter(b, p)
    decreases |a|
  {
    if a != [] {
      FilterAppend(a[1..], b, p);
      var h := if p(a[0]) then [a[0]] else [];
      assert a + b == [a[0]] + (a[1..] + b);
      FilterCons(a[0], a[1..] + b, p);
      FilterCons(a[0], a[1..], p);
      assert a == [a[0]] + a[1..];
      assert h + (Filter(a[1..], p) + Filter(b, p)) == (h + Filter(a[1..], p)) + Filter(b, p);
    } else {
      assert a + b == b;
    }
  }

  /** When `x` does not stand before `y`, they are not both equivalent to `c`. */
  lemma EquivalentsNotPassed<T(!new)>(x: T, y: T, le: (T, T) -> bool, c: T)
    requires IsTotalPreorder(le)
    requires !le(x, y)
    ensures !(EquivTo(c, le)(x) && EquivTo(c, le)(y))
  {
  }

  lemma FilterCons<T(!new)>(y: T, t: seq<T>, p: T -> bool)
    ensures Filter([y] + t, p) == (if p(y) then [y] else []) + Filter(t, p)
  {
    assert ([y] + t)[1..] == t;
  }

  /**
   * Inserting `x` adds it to the filtered sequence in front, provided that no element that
   * `x` passes over is kept by the filter along with `x`.
   */
  lemma {:induction false} InsertFilter<T(!new)>(x: T, s: seq<T>, le: (T, T) -> bool, p: T -> bool)
    requires p(x) ==> Overtakes(x, s, le, p)
    ensures Filter(Insert(x, s, le), p) == (if p(x) then [x] else []) + Filter(s, p)
    decreases |s|
  {
    if s == [] || le(x, s[0]) {
      assert Insert(x, s, le) == [x] + s;
      FilterCons(x, s, p);
    } else {
      var rest := s[1..];
      assert s == [s[0]] + rest;
      if p(x) {
        OvertakesTail(x, s, le, p);
      }
      InsertFilter(x, rest, le, p);
      InsertPassed(x, s[0], rest, le);
      FilterPassed(x, s[0], Insert(x, rest, le), rest, p);
    }
  }

  /** Every element that `x` passes over when inserted into `s` is rejected by `p`. */
  predicate Overtakes<T>(x: T, s: seq<T>, le: (T, T) -> bool, p: T -> bool) {
    forall k :: 0 <= k < |s| && !le(x, s[k]) ==> !p(s[k])
  }

  lemma OvertakesTail<T>(x: T, s: seq<T>, le: (T, T) -> bool, p: T -> bool)
    requires s != [] && Overtakes(x, s, le, p)
    ensures !le(x, s[0]) ==> !p(s[0])
    ensures Overtakes(x, s[1..], le, p)
  {
    forall k | 0 <= k < |s[1..]| && !le(x, s[1..][k]) ensures !p(s[1..][k]) {
      assert s[1..][k] == s[k + 1];
    }
  }

  lemma InsertPassed<T(!new)>(x: T, y: T, rest: seq<T>, le: (T, T) -> bool)
    requires !le(x, y)
    ensures Insert(x, [y] + rest, le) == [y] + Insert(x, rest, le)
  {
    assert ([y] + rest)[1..] == rest;
  }

  /** The step of `InsertFilter` where `x` passes over the head `y`, with `t` the insertion into the tail. */
  lemma FilterPassed<T(!new)>(x: T, y: T, t: seq<T>, rest: seq<T>, p: T -> bool)
    requires p(x) ==> !p(y)
    requires Filter(t, p) == (if p(x) then [x] else []) + Filter(rest, p)
    ensures Filter([y] + t, p) == (if p(x) then [x] else []) + Filter([y] + rest, p)
  {
    FilterCons(y, t, p);
    FilterCons(y, rest, p);
    if p(x) {
      assert Filter([y] + t, p) == Filter(t, p);
      assert Filter([y] + rest, p) == Filter(rest, p);
    } else {
      assert [] + Filter(rest, p) == Filter(rest, p);
      assert [] + Filter([y] + rest, p) == Filter([y] + rest, p);
    }
  }

  /**
   * Stability: for each class of equal rank, `SortBy` keeps the input order of its members.
   */
  lemma {:induction false} SortByStable<T(!new)>(xs: seq<T>, le: (T, T) -> bool, c: T)
    requires IsTotalPreorder(le)
    ensures Filter(SortBy(xs, le), EquivTo(c, le)) == Filter(xs, EquivTo(c, le))
    decreases |xs|
  {
    if xs != [] {
      var p := EquivTo(c, le);
      var s := SortBy(xs[1..], le);
      SortByStable(xs[1..], le, c);
      forall k | 0 <= k < |s| && !le(xs[0], s[k]) ensures !(p(xs[0]) && p(s[k])) {
        EquivalentsNotPassed(xs[0], s[k], le, c);
      }
      assert p(xs[0]) ==> Overtakes(xs[0], s, le, p);
      InsertFilter(xs[0], s, le, p);
      FilterCons(xs[0], xs[1..], p);
      assert xs == [xs[0]] + xs[1..];
    }
  }

  /** `nlargest(k)` and friends: the first `k` elements of the stable sort. */
  function TopK<T(!new)>(xs: seq<T>, k: nat, le: (T, T) -> bool): (r: seq<T>)
    ensures |r| == if k < |xs| then k else |xs|
  {
    var sorted := SortBy(xs, le);
    assert |sorted| == |multiset(sorted)| == |xs|;
    sorted[..if k < |xs| then k else |xs|]
  }

  /**
   * What `TopK` selects: `min(k, n)` elements of the input, in order, and no element left
   * out may stand strictly before one that was kept.
   */
  lemma TopKSelects<T(!new)>(xs: seq<T>, k: nat, le: (T, T) -> bool)
    requires IsTotalPreorder(le)
    ensures var r := TopK(xs, k, le);
      && SortedBy(r, le)
      && multiset(r) <= multiset(xs)
      && forall y, i :: y in multiset(xs) - multiset(r) && 0 <= i < |r| ==> le(r[i], y)
  {
    SortBySorted(xs, le);
    PrefixOfSorted(SortBy(xs, le), if k < |xs| then k else |xs|, le);
  }

  /** A prefix of a sorted sequence is sorted, and stands before everything after it. */
  lemma PrefixOfSorted<T(!new)>(sorted: seq<T>, n: nat, le: (T, T) -> bool)
    requires n <= |sorted| && SortedBy(sorted, le)
    ensures var r := sorted[..n];
      && SortedBy(r, le)
      && multiset(r) <= multiset(sorted)
      && forall y, i :: y in multiset(sorted) - multiset(r) && 0 <= i < |r| ==> le(r[i], y)
  {
    var r, rest := sorted[..n], sorted[n..];
    assert sorted == r + rest;
    assert multiset(sorted) == multiset(r) + multiset(rest);
    forall y, i | y in multiset(sorted) - multiset(r) && 0 <= i < |r| ensures le(r[i], y) {
      assert y in multiset(rest);
      var j :| 0 <= j < |rest| && rest[j] == y;
      assert sorted[n + j] == y;
    }
  }

  /** The filter keeps exactly the elements of the input that pass. */
  lemma {:induction false} FilterSubset<T(!new)>(s: seq<T>, p: T -> bool)
    ensures forall x :: x in Filter(s, p) <==> x in s && p(x)
    decreases |s|
  {
    if s != [] {
      FilterSubset(s[1..], p);
      FilterCons(s[0], s[1..], p);
      assert s == [s[0]] + s[1..];
    }
  }

  /** Filtering keeps the order of a sorted sequence. */
  lemma {:induction false} FilterSorted<T(!new)>(s: seq<T>, p: T -> bool, le: (T, T) -> bool)
    requires SortedBy(s, le)
    ensures SortedBy(Filter(s, p), le)
    decreases |s|
  {
    if s != [] {
      assert s == [s[0]] + s[1..];
      FilterCons(s[0], s[1..], p);
      FilterSorted(s[1..], p, le);
      FilterSubset(s[1..], p);
      var t := Filter(s[1..], p);
      forall j | 0 <= j < |t| ensures le(s[0], t[j]) {
        assert t[j] in s[1..];
        var k :| 0 <= k < |s[1..]| && s[1..][k] == t[j];
        assert s[k + 1] == t[j];
      }
    }
  }

  /** Two complementary filters split the input: together they hold each element once. */
  lemma {:induction false} FilterPartition<T(!new)>(s: seq<T>, p: T -> bool, q: T -> bool)
    requires forall x :: q(x) <==> !p(x)
    ensures multiset(Filter(s, p)) + multiset(Filter(s, q)) == multiset(s)
    decreases |s|
  {
    if s != [] {
      assert s == [s[0]] + s[1..];
      FilterCons(s[0], s[1..], p);
      FilterCons(s[0], s[1..], q);
      FilterPartition(s[1..], p, q);
    }
  }

  /** Filtering by `p` first changes nothing when `q` already implies `p`. */
  lemma {:induction false} FilterImplied<T(!new)>(s: seq<T>, p: T -> bool, q: T -> bool)
    requires forall x :: q(x) ==> p(x)
    ensures Filter(Filter(s, p), q) == Filter(s, q)
    decreases |s|
  {
    if s != [] {
      assert s == [s[0]] + s[1..];
      FilterCons(s[0], s[1..], p);
      FilterCons(s[0], s[1..], q);
      FilterImplied(s[1..], p, q);
      if p(s[0]) {
        assert Filter(s, p) == [s[0]] + Filter(s[1..], p);
        FilterCons(s[0], Filter(s[1..], p), q);
      } else {
        assert Filter(s, p) == Filter(s[1..], p);
      }
    }
  }

  /** A filter that keeps nothing of what `p` keeps leaves nothing of `Filter(s, p)`. */
  lemma FilterDisjoint<T(!new)>(s: seq<T>, p: T -> bool, q: T -> bool)
    requires forall x :: q(x) ==> !p(x)
    ensures Filter(Filter(s, p), q) == []
  {
    FilterImplied(s, (x: T) => !p(x), q);
    FilterNone(Filter(s, p), q);
  }

  lemma {:induction false} FilterNone<T(!new)>(s: seq<T>, q: T -> bool)
    requires forall i :: 0 <= i < |s| ==> !q(s[i])
    ensures Filter(s, q) == []
    decreases |s|
  {
    if s != [] {
      FilterNone(s[1..], q);
    }
  }

  /** `[f(x) for x in s]` */
  function Map<A, B>(s: seq<A>, f: A -> B): (r: seq<B>)
    ensures |r| == |s| && forall i :: 0 <= i < |s| ==> r[i] == f(s[i])
  {
    seq(|s|, i requires 0 <= i < |s| => f(s[i]))
  }

  lemma MapAppend<A, B>(u: seq<A>, v: seq<A>, f: A -> B)
    ensures Map(u + v, f) == Map(u, f) + Map(v, f)
  {
    var l, r := Map(u + v, f), Map(u, f) + Map(v, f);
    assert |l| == |r|;
    forall i | 0 <= i < |l| ensures l[i] == r[i] {
      if i < |u| {
        assert (u + v)[i] == u[i];
      } else {
        assert (u + v)[i] == v[i - |u|];
      }
    }
  }

  /** Filtering a sequence grown at the back. */
  lemma FilterSnoc<T(!new)>(s: seq<T>, x: T, p: T -> bool)
    ensures Filter(s + [x], p) == Filter(s, p) + (if p(x) then [x] else [])
  {
    FilterAppend(s, [x], p);
    FilterCons(x, [], p);
    assert [x] + [] == [x];
  }

  /** Filtering one more element of a prefix. */
  lemma FilterPrefixStep<T(!new)>(s: seq<T>, i: nat, p: T -> bool)
    requires i < |s|
    ensures Filter(s[..i + 1], p) == Filter(s[..i], p) + (if p(s[i]) then [s[i]] else [])
  {
    assert s[..i + 1] == s[..i] + [s[i]];
    FilterSnoc(s[..i], s[i], p);
  }

  /** Mapping one more element of a prefix appends that element's image. */
  lemma MapPrefixStep<A, B>(s: seq<A>, i: nat, f: A -> B, y: B)
    requires i < |s| && y == f(s[i])
    ensures Map(s[..i + 1], f) == Map(s[..i], f) + [y]
  {
    assert s[..i + 1] == s[..i] + [s[i]];
    MapSnoc(s[..i], s[i], f);
  }

  /** Mapping a sequence grown at the back. */
  lemma MapSnoc<A, B>(s: seq<A>, x: A, f: A -> B)
    ensures Map(s + [x], f) == Map(s, f) + [f(x)]
  {
    MapAppend(s, [x], f);
  }

  /** Mapping two sequences that hold the same elements gives sequences that hold the same images. */
  lemma {:induction false} MapPermutation<A(!new), B>(a: seq<A>, b: seq<A>, f: A -> B)
    requires multiset(a) == multiset(b)
    ensures multiset(Map(a, f)) == multiset(Map(b, f))
    decreases |a|
  {
    if a == [] {
      assert |b| == |multiset(b)| == 0;
    } else {
      var x := a[0];
      assert x in multiset(b);
      var j :| 0 <= j < |b| && b[j] == x;
      var rest := RemovedAt(b, j);
      TailPermutation(a, b, j);
      MapPermutation(a[1..], rest, f);
      MapHead(a, f);
      MapRemovedAt(b, j, f);
    }
  }

  lemma TailPermutation<A>(a: seq<A>, b: seq<A>, j: nat)
    requires multiset(a) == multiset(b) && a != [] && j < |b| && b[j] == a[0]
    ensures multiset(a[1..]) == multiset(RemovedAt(b, j))
  {
    assert a == [a[0]] + a[1..];
    assert multiset(a) == multiset{a[0]} + multiset(a[1..]);
  }

  lemma MapHead<A, B>(a: seq<A>, f: A -> B)
    requires a != []
    ensures multiset(Map(a, f)) == multiset{f(a[0])} + multiset(Map(a[1..], f))
  {
    assert a == [a[0]] + a[1..];
    MapAppend([a[0]], a[1..], f);
    assert Map([a[0]], f) == [f(a[0])];
  }

  /** `s` without its element at `j`. */
  function RemovedAt<A>(s: seq<A>, j: nat): (r: seq<A>)
    requires j < |s|
    ensures multiset(r) == multiset(s) - multiset{s[j]}
  {
    assert s == s[..j] + [s[j]] + s[j + 1..];
    s[..j] + s[j + 1..]
  }

  /** The images of a sequence are the images without its element at `j`, plus that element's image. */
  lemma MapRemovedAt<A, B>(s: seq<A>, j: nat, f: A -> B)
    requires j < |s|
    ensures multiset(Map(s, f)) == multiset(Map(RemovedAt(s, j), f)) + multiset{f(s[j])}
  {
    var u, v := s[..j], s[j + 1..];
    assert s == u + [s[j]] + v;
    MapAppend(u + [s[j]], v, f);
    MapAppend(u, [s[j]], f);
    MapAppend(u, v, f);
  }
}

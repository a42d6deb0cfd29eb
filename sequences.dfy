/**
 * The array operations the homepage code is built from: `findIndex`,
 * `filter`, the stable `sort`, `splice` with one deleted element, and the
 * remove-then-insert move made of two `splice` calls.
 */
module Sequences {

  /** No element occurs twice. */
  ghost predicate Distinct<T>(s: seq<T>) {
    forall i, j :: 0 <= i < j < |s| ==> s[i] != s[j]
  }

  lemma {:induction false} DistinctCounts<T>(s: seq<T>)
    requires Distinct(s)
    ensures forall x :: multiset(s)[x] <= 1
  {
    if s != [] {
      assert Distinct(s[1..]) by {
        forall i, j | 0 <= i < j < |s[1..]| ensures s[1..][i] != s[1..][j] {
          assert s[1..][i] == s[i + 1] && s[1..][j] == s[j + 1];
        }
      }
      DistinctCounts(s[1..]);
      assert s[0] !in s[1..] by {
        forall j | 0 <= j < |s[1..]| ensures s[1..][j] != s[0] {
          assert s[1..][j] == s[j + 1];
        }
      }
      assert s == [s[0]] + s[1..];
    }
  }

  lemma RepeatCountsTwice<T>(s: seq<T>, i: nat, j: nat)
    requires i < j < |s|
    ensures s[i] == s[j] ==> multiset(s)[s[j]] >= 2
  {
    assert s == s[..j] + s[j..];
    assert s[i] == s[..j][i];
    assert s[j] == s[j..][0];
  }

  lemma CountsDistinct<T>(s: seq<T>)
    requires forall x :: multiset(s)[x] <= 1
    ensures Distinct(s)
  {
    forall i, j | 0 <= i < j < |s| ensures s[i] != s[j] {
      RepeatCountsTwice(s, i, j);
    }
  }

  /** Reordering keeps a sequence free of repeats. */
  lemma DistinctPermutation<T>(a: seq<T>, b: seq<T>)
    requires Distinct(a) && multiset(a) == multiset(b)
    ensures Distinct(b)
  {
    DistinctCounts(a);
    CountsDistinct(b);
  }

  /** `findIndex(e => e === x)`: the first position of `x`, or -1. */
  function IndexOf<T(==)>(s: seq<T>, x: T): (r: int)
    ensures -1 <= r < |s|
    ensures r == -1 <==> x !in s
    ensures 0 <= r ==> s[r] == x && x !in s[..r]
  {
    if s == [] then -1
    else if s[0] == x then 0
    else
      var k := IndexOf(s[1..], x);
      assert s[1..] == s[1..|s|];
      if k < 0 then -1 else k + 1
  }

  lemma IndexOfDistinct<T>(s: seq<T>, k: nat)
    requires Distinct(s) && k < |s|
    ensures IndexOf(s, s[k]) == k
  {
    var r := IndexOf(s, s[k]);
    PrefixHas(s, r, k);
  }

  lemma PrefixHas<T>(s: seq<T>, r: int, k: nat)
    requires r <= |s|
    ensures k < r ==> s[k] in s[..r]
  {
    if k < r {
      assert s[..r][k] == s[k];
    }
  }

  // ---------------------------------------------------------------------
  // splice
  // ---------------------------------------------------------------------

  /** The position `splice(start, …)` starts at: a negative start counts from the end. */
  function SpliceStart(len: nat, start: int): nat {
    if start >= 0 then start
    else if len + start < 0 then 0
    else len + start
  }

  /** `s.splice(start, 1)`: removes the element at the normalised start, if there is one. */
  function SpliceOut<T>(s: seq<T>, start: int): (r: seq<T>)
    ensures SpliceStart(|s|, start) >= |s| ==> r == s
    ensures SpliceStart(|s|, start) < |s| ==>
      var k := SpliceStart(|s|, start);
      |r| == |s| - 1 && multiset(r) + multiset{s[k]} == multiset(s) &&
      (forall i :: 0 <= i < k ==> r[i] == s[i]) &&
      (forall i :: k <= i < |r| ==> r[i] == s[i + 1])
  {
    var k := SpliceStart(|s|, start);
    if k < |s| then
      assert s == s[..k] + [s[k]] + s[k + 1..];
      s[..k] + s[k + 1..]
    else s
  }

  /**
   * `const [x] = s.splice(from, 1); s.splice(to, 0, x)`: the element at
   * `from` ends at `to`, and the others keep their relative order.
   */
  function Moved<T>(s: seq<T>, from: nat, to: nat): (r: seq<T>)
    requires from < |s| && to < |s|
    ensures |r| == |s| && r[to] == s[from]
    ensures r[..to] + r[to + 1..] == s[..from] + s[from + 1..]
    ensures multiset(r) == multiset(s)
  {
    var rest := s[..from] + s[from + 1..];
    var r := rest[..to] + [s[from]] + rest[to..];
    assert r[..to] == rest[..to];
    assert r[to + 1..] == rest[to..];
    assert rest[..to] + rest[to..] == rest;
    assert multiset(rest) == multiset(rest[..to]) + multiset(rest[to..]);
    assert s == s[..from] + [s[from]] + s[from + 1..];
    assert multiset(s) == multiset(rest) + multiset{s[from]};
    r
  }

  // ---------------------------------------------------------------------
  // filter
  // ---------------------------------------------------------------------

  /** `s.filter(p)`, or a `forEach` that pushes the elements satisfying `p`. */
  function Filter<T(!new)>(s: seq<T>, p: T -> bool): seq<T>
  {
    if s == [] then []
    else
      var init := s[..|s| - 1];
      assert s == init + [s[|s| - 1]];
      Filter(init, p) + (if p(s[|s| - 1]) then [s[|s| - 1]] else [])
  }

  /** `filter(p)` keeps some of the elements, no more often than they occur, and exactly those satisfying `p`. */
  lemma {:induction false} FilterSpec<T(!new)>(s: seq<T>, p: T -> bool)
    ensures |Filter(s, p)| <= |s| && multiset(Filter(s, p)) <= multiset(s)
    ensures forall x :: x in Filter(s, p) <==> x in s && p(x)
  {
    if s != [] {
      var init := s[..|s| - 1];
      FilterSpec(init, p);
      assert s == init + [s[|s| - 1]];
    }
  }

  lemma FilterSnoc<T(!new)>(s: seq<T>, x: T, p: T -> bool)
    ensures Filter(s + [x], p) == Filter(s, p) + (if p(x) then [x] else [])
  {
    assert (s + [x])[..|s + [x]| - 1] == s;
  }

  lemma LastMultiset<T>(s: seq<T>)
    requires s != []
    ensures multiset(s) == multiset(s[..|s| - 1]) + multiset{s[|s| - 1]}
  {
    assert s == s[..|s| - 1] + [s[|s| - 1]];
  }

  /** Filtering by a predicate and by its negation splits a sequence into two parts. */
  lemma {:induction false} FilterSplit<T(!new)>(s: seq<T>, p: T -> bool, q: T -> bool)
    requires forall i :: 0 <= i < |s| ==> q(s[i]) == !p(s[i])
    ensures multiset(Filter(s, p)) + multiset(Filter(s, q)) == multiset(s)
  {
    if s != [] {
      var init, x := s[..|s| - 1], s[|s| - 1];
      assert forall i :: 0 <= i < |init| ==> init[i] == s[i];
      FilterSplit(init, p, q);
      LastMultiset(s);
      var a, b := Filter(init, p), Filter(init, q);
      if p(x) {
        assert multiset(Filter(s, p)) == multiset(a) + multiset{x};
        assert Filter(s, q) == b;
      } else {
        assert Filter(s, p) == a;
        assert multiset(Filter(s, q)) == multiset(b) + multiset{x};
      }
    }
  }

  lemma FilterDistinct<T(!new)>(s: seq<T>, p: T -> bool)
    requires Distinct(s)
    ensures Distinct(Filter(s, p))
  {
    DistinctCounts(s);
    FilterSpec(s, p);
    CountsDistinct(Filter(s, p));
  }

  /** `findIndex(p)`: the first position whose element satisfies `p`, or -1. */
  function FindIndex<T>(s: seq<T>, p: T -> bool): (r: int)
    ensures -1 <= r < |s|
    ensures r == -1 <==> forall j :: 0 <= j < |s| ==> !p(s[j])
    ensures 0 <= r ==> p(s[r]) && forall j :: 0 <= j < r ==> !p(s[j])
  {
    if s == [] then -1
    else if p(s[0]) then 0
    else
      var k := FindIndex(s[1..], p);
      assert forall j :: 1 <= j < |s| ==> s[j] == s[1..][j - 1];
      if k < 0 then -1 else k + 1
  }

  /** `findIndex` only looks at whether each element satisfies the predicate. */
  lemma {:induction false} FindIndexAgrees<T>(s: seq<T>, t: seq<T>, p: T -> bool)
    requires |s| == |t| && forall i :: 0 <= i < |s| ==> p(s[i]) == p(t[i])
    ensures FindIndex(s, p) == FindIndex(t, p)
  {
    if s != [] && !p(s[0]) {
      assert forall i :: 0 <= i < |s| - 1 ==> s[1..][i] == s[i + 1] && t[1..][i] == t[i + 1];
      FindIndexAgrees(s[1..], t[1..], p);
    }
  }

  // ---------------------------------------------------------------------
  // Stable sort
  // ---------------------------------------------------------------------

  /** A comparator `le(a, b)` ("a may precede b") that is total and transitive. */
  ghost predicate TotalPreorder<T(!new)>(le: (T, T) -> bool) {
    (forall a, b :: le(a, b) || le(b, a)) &&
    (forall a, b, c :: le(a, b) && le(b, c) ==> le(a, c))
  }

  predicate Sorted<T>(s: seq<T>, le: (T, T) -> bool) {
    forall i, j :: 0 <= i < j < |s| ==> le(s[i], s[j])
  }

  /** Inserts `x` before the first element it may precede. */
  function Insert<T>(x: T, s: seq<T>, le: (T, T) -> bool): (r: seq<T>)
    ensures |r| == |s| + 1
    ensures multiset(r) == multiset(s) + multiset{x}
  {
    if s == [] || le(x, s[0]) then [x] + s
    else
      assert s == [s[0]] + s[1..];
      [s[0]] + Insert(x, s[1..], le)
  }

  /**
   * `Array.prototype.sort` with a comparator: stable, so an element is placed
   * after every element it may not precede and before the equal elements
   * that followed it.
   */
  function Sort<T>(s: seq<T>, le: (T, T) -> bool): (r: seq<T>)
    ensures |r| == |s|
    ensures multiset(r) == multiset(s)
  {
    if s == [] then []
    else
      assert s == [s[0]] + s[1..];
      Insert(s[0], Sort(s[1..], le), le)
  }

  lemma {:induction false} InsertSorted<T(!new)>(x: T, s: seq<T>, le: (T, T) -> bool)
    requires TotalPreorder(le) && Sorted(s, le)
    ensures Sorted(Insert(x, s, le), le)
  {
    if s == [] || le(x, s[0]) {
    } else {
      var tail := s[1..];
      assert Sorted(tail, le) by {
        forall i, j | 0 <= i < j < |tail| ensures le(tail[i], tail[j]) {
          assert tail[i] == s[i + 1] && tail[j] == s[j + 1];
        }
      }
      InsertSorted(x, tail, le);
      var ins := Insert(x, tail, le);
      forall k | 0 <= k < |ins| ensures le(s[0], ins[k]) {
        assert ins[k] in multiset(tail) + multiset{x};
        if ins[k] in tail {
          var j :| 0 <= j < |tail| && tail[j] == ins[k];
          assert s[j + 1] == ins[k];
        }
      }
      var r := [s[0]] + ins;
      forall i, j | 0 <= i < j < |r| ensures le(r[i], r[j]) {
        if i > 0 {
          assert r[i] == ins[i - 1] && r[j] == ins[j - 1];
        } else {
          assert r[j] == ins[j - 1];
        }
      }
    }
  }

  /** The result of `Sort` is ordered by the comparator. */
  lemma {:induction false} SortSorted<T(!new)>(s: seq<T>, le: (T, T) -> bool)
    requires TotalPreorder(le)
    ensures Sorted(Sort(s, le), le)
  {
    if s != [] {
      SortSorted(s[1..], le);
      InsertSorted(s[0], Sort(s[1..], le), le);
    }
  }
  // ---------------------------------------------------------------------
  // Comparing arrangements
  // ---------------------------------------------------------------------

  /** `s.map(g)` */
  function Map<T, U>(s: seq<T>, g: T -> U): (r: seq<U>)
    ensures |r| == |s| && forall i :: 0 <= i < |s| ==> r[i] == g(s[i])
  {
    seq(|s|, i requires 0 <= i < |s| => g(s[i]))
  }

  lemma MapAppend<T, U>(a: seq<T>, b: seq<T>, g: T -> U)
    ensures Map(a + b, g) == Map(a, g) + Map(b, g)
  {
  }

  /** Mapping two arrangements of the same elements gives two arrangements of the same images. */
  lemma {:induction false} MapPermutation<T, U>(a: seq<T>, b: seq<T>, g: T -> U)
    requires multiset(a) == multiset(b)
    ensures multiset(Map(a, g)) == multiset(Map(b, g))
    decreases |a|
  {
    if a != [] {
      var x := a[0];
      assert x in multiset(b);
      var j :| 0 <= j < |b| && b[j] == x;
      var rest := b[..j] + b[j + 1..];
      assert b == b[..j] + [x] + b[j + 1..];
      assert a == [x] + a[1..];
      assert multiset(b) == multiset(b[..j]) + multiset{x} + multiset(b[j + 1..]);
      assert multiset(rest) == multiset(b[..j]) + multiset(b[j + 1..]);
      assert multiset(a) == multiset{x} + multiset(a[1..]);
      assert multiset(a[1..]) == multiset(a) - multiset{x};
      assert multiset(rest) == multiset(b) - multiset{x};
      MapPermutation(a[1..], rest, g);
      MapAppend([x], a[1..], g);
      MapAppend(b[..j] + [x], b[j + 1..], g);
      MapAppend(b[..j], [x], g);
      MapAppend(b[..j], b[j + 1..], g);
    }
  }

  /** Two repeat-free sequences with the same elements hold each of them once. */
  lemma SameElements<T>(a: seq<T>, b: seq<T>)
    requires Distinct(a) && Distinct(b)
    requires forall x :: x in a <==> x in b
    ensures multiset(a) == multiset(b)
  {
    DistinctCounts(a);
    DistinctCounts(b);
    forall x ensures multiset(a)[x] == multiset(b)[x] {
      assert x in a <==> x in multiset(a);
      assert x in b <==> x in multiset(b);
    }
  }

  lemma SortedTail<T>(a: seq<T>, le: (T, T) -> bool)
    requires Sorted(a, le) && a != []
    ensures Sorted(a[1..], le)
  {
    forall p, q | 0 <= p < q < |a[1..]| ensures le(a[1..][p], a[1..][q]) {
      assert a[1..][p] == a[p + 1] && a[1..][q] == a[q + 1];
    }
  }

  lemma SameHeadSameTail<T>(a: seq<T>, b: seq<T>)
    requires a != [] && b != [] && a[0] == b[0] && multiset(a) == multiset(b)
    ensures multiset(a[1..]) == multiset(b[1..])
  {
    assert a == [a[0]] + a[1..] && b == [b[0]] + b[1..];
    assert multiset(a[1..]) == multiset(a) - multiset{a[0]};
    assert multiset(b[1..]) == multiset(b) - multiset{b[0]};
  }

  /** The first elements of two sorted arrangements of one multiset tie. */
  lemma SortedHeads<T>(a: seq<T>, b: seq<T>, le: (T, T) -> bool)
    requires Sorted(a, le) && Sorted(b, le) && multiset(a) == multiset(b) && a != []
    requires forall i, j :: 0 <= i < |a| && 0 <= j < |a| && le(a[i], a[j]) && le(a[j], a[i]) ==> a[i] == a[j]
    ensures b != [] && a[0] == b[0]
  {
    assert a[0] in multiset(b);
    assert b[0] in multiset(a);
    var i :| 0 <= i < |a| && a[i] == b[0];
    var j :| 0 <= j < |b| && b[j] == a[0];
    if i > 0 && j > 0 {
      assert le(a[0], a[i]);
      assert le(b[0], b[j]);
    }
  }

  /**
   * When the comparator ties no two different elements, there is only one
   * sorted arrangement of a multiset.
   */
  lemma {:induction false} SortedUnique<T>(a: seq<T>, b: seq<T>, le: (T, T) -> bool)
    requires Sorted(a, le) && Sorted(b, le) && multiset(a) == multiset(b)
    requires forall i, j :: 0 <= i < |a| && 0 <= j < |a| && le(a[i], a[j]) && le(a[j], a[i]) ==> a[i] == a[j]
    ensures a == b
    decreases |a|
  {
    if a == [] {
      assert |b| == |multiset(b)| == 0;
    } else {
      SortedHeads(a, b, le);
      SameHeadSameTail(a, b);
      SortedTail(a, le);
      SortedTail(b, le);
      var ta := a[1..];
      forall p, q | 0 <= p < |ta| && 0 <= q < |ta| && le(ta[p], ta[q]) && le(ta[q], ta[p])
        ensures ta[p] == ta[q]
      {
        assert ta[p] == a[p + 1] && ta[q] == a[q + 1];
      }
      SortedUnique(ta, b[1..], le);
      assert a == [a[0]] + ta && b == [b[0]] + b[1..];
    }
  }
}

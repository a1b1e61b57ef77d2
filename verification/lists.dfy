/**
 * The Python and pandas list operations the planner relies on:
 * `list.sort()` (a stable sort that only ever asks `<`),
 * `sort(); pop(0)` as the selection of the first minimal element,
 * `Series.unique()` (first occurrences, in order) and the ordering of
 * strings used by `groupby`.
 */
module Lists {
  import opened ExtReals

  // ---------------------------------------------------------------------
  // Stable sorting driven by a strict comparison
  // ---------------------------------------------------------------------

  /** `lt` is a strict weak order on the elements of `xs`, the condition under which Python's sort is well defined. */
  ghost predicate StrictWeakOrderOn<T>(xs: seq<T>, lt: (T, T) -> bool)
  {
    && (forall x | x in xs :: !lt(x, x))
    && (forall x, y, z | x in xs && y in xs && z in xs :: lt(x, y) && lt(y, z) ==> lt(x, z))
    && (forall x, y, z | x in xs && y in xs && z in xs :: lt(x, z) ==> lt(x, y) || lt(y, z))
  }

  /** No element is strictly below an element placed before it. */
  ghost predicate SortedBy<T>(xs: seq<T>, lt: (T, T) -> bool)
  {
    forall i, j | 0 <= i < j < |xs| :: !lt(xs[j], xs[i])
  }

  /** Places `x` in front of the first element that is not strictly below it. */
  function Insert<T>(x: T, ys: seq<T>, lt: (T, T) -> bool): (r: seq<T>)
    ensures multiset(r) == multiset(ys) + multiset{x}
    ensures |r| == |ys| + 1
  {
    if ys == [] then [x]
    else if lt(ys[0], x) then
      assert ys == [ys[0]] + ys[1..];
      [ys[0]] + Insert(x, ys[1..], lt)
    else [x] + ys
  }

  /**
   * Stable insertion sort.  For a strict weak order there is exactly one
   * stable sorted permutation, so this is the order `list.sort()` produces.
   */
  function Sort<T>(xs: seq<T>, lt: (T, T) -> bool): (r: seq<T>)
    ensures multiset(r) == multiset(xs)
    ensures |r| == |xs|
  {
    if xs == [] then []
    else
      assert xs == [xs[0]] + xs[1..];
      Insert(xs[0], Sort(xs[1..], lt), lt)
  }

  /** Index of the first element that no later element beats: a left-to-right scan keeping the current best. */
  function FirstMin<T>(xs: seq<T>, lt: (T, T) -> bool): (m: nat)
    requires |xs| > 0
    ensures m < |xs|
  {
    if |xs| == 1 then 0
    else
      var k := FirstMin(xs[1..], lt) + 1;
      if lt(xs[k], xs[0]) then k else 0
  }

  /** The scan finds a minimal element that is strictly below every element in front of it. */
  lemma {:induction false} FirstMinIsFirstMinimal<T>(xs: seq<T>, lt: (T, T) -> bool)
    requires |xs| > 0 && StrictWeakOrderOn(xs, lt)
    ensures forall j | 0 <= j < |xs| :: !lt(xs[j], xs[FirstMin(xs, lt)])
    ensures forall j | 0 <= j < FirstMin(xs, lt) :: lt(xs[FirstMin(xs, lt)], xs[j])
  {
    if |xs| > 1 {
      var tail := xs[1..];
      assert forall x | x in tail :: x in xs;
      FirstMinIsFirstMinimal(tail, lt);
      var k := FirstMin(tail, lt) + 1;
      assert xs[k] == tail[k - 1];
      forall j | 1 <= j < |xs|
        ensures !lt(xs[j], xs[k])
      {
        assert xs[j] == tail[j - 1];
      }
      if !lt(xs[k], xs[0]) {
        forall j | 1 <= j < |xs|
          ensures !lt(xs[j], xs[0])
        {
          assert !lt(xs[j], xs[k]) && xs[j] in xs && xs[k] in xs && xs[0] in xs;
        }
      } else {
        forall j | 1 <= j < k
          ensures lt(xs[k], xs[j])
        {
          assert xs[j] == tail[j - 1];
        }
      }
    }
  }

  /** `sort()` followed by `pop(0)` takes the element the scan finds, whatever `lt` is. */
  lemma {:induction false} SortHead<T>(xs: seq<T>, lt: (T, T) -> bool)
    requires |xs| > 0
    ensures Sort(xs, lt)[0] == xs[FirstMin(xs, lt)]
  {
    if |xs| > 1 {
      SortHead(xs[1..], lt);
    }
  }

  lemma {:induction false} InsertSorted<T>(x: T, ys: seq<T>, lt: (T, T) -> bool, dom: seq<T>)
    requires StrictWeakOrderOn(dom, lt) && x in dom && (forall y | y in ys :: y in dom)
    requires SortedBy(ys, lt)
    ensures SortedBy(Insert(x, ys, lt), lt)
  {
    if ys != [] {
      var r := Insert(x, ys, lt);
      if lt(ys[0], x) {
        var tail := ys[1..];
        assert SortedBy(tail, lt) by {
          forall i, j | 0 <= i < j < |tail| ensures !lt(tail[j], tail[i]) {
            assert tail[j] == ys[j + 1] && tail[i] == ys[i + 1];
          }
        }
        InsertSorted(x, tail, lt, dom);
        var rest := Insert(x, tail, lt);
        assert r == [ys[0]] + rest;
        forall j | 0 <= j < |rest|
          ensures !lt(rest[j], ys[0])
        {
          assert rest[j] in multiset(rest);
          if rest[j] == x {
            assert lt(ys[0], x) && !lt(x, x) && ys[0] in dom;
          } else {
            assert rest[j] in multiset(tail);
            var k :| 0 <= k < |tail| && tail[k] == rest[j];
            assert tail[k] == ys[k + 1];
          }
        }
      } else {
        assert r == [x] + ys;
        forall j | 0 <= j < |ys|
          ensures !lt(ys[j], x)
        {
          if j > 0 {
            assert !lt(ys[j], ys[0]) && !lt(ys[0], x) && ys[j] in dom && ys[0] in dom;
          }
        }
      }
    }
  }

  /** With a strict weak order the result of `Sort` is sorted. */
  lemma {:induction false} SortIsSorted<T>(xs: seq<T>, lt: (T, T) -> bool)
    requires StrictWeakOrderOn(xs, lt)
    ensures SortedBy(Sort(xs, lt), lt)
  {
    if xs != [] {
      var tail := xs[1..];
      assert forall y | y in tail :: y in xs;
      assert StrictWeakOrderOn(tail, lt);
      SortIsSorted(tail, lt);
      var s := Sort(tail, lt);
      forall y | y in s ensures y in xs {
        assert y in multiset(s);
      }
      InsertSorted(xs[0], s, lt, xs);
    }
  }

  // ---------------------------------------------------------------------
  // Ordering by a key computed once per sort
  // ---------------------------------------------------------------------

  /** The `<` a sort sees when every element's key has been evaluated in the same state. */
  function ByKey<T(==)>(keys: map<T, ExtReal>): (T, T) -> bool
  {
    (x, y) => x in keys && y in keys && Less(keys[x], keys[y])
  }

  lemma ByKeyIsStrictWeakOrder<T>(xs: seq<T>, keys: map<T, ExtReal>)
    requires forall x | x in xs :: x in keys
    ensures StrictWeakOrderOn(xs, ByKey(keys))
  {
    forall x, y, z | x in xs && y in xs && z in xs
      ensures ByKey(keys)(x, z) ==> ByKey(keys)(x, y) || ByKey(keys)(y, z)
    {
      LessIsStrictWeakOrder(keys[x], keys[y], keys[z]);
    }
  }

  /**
   * `xs.sort(); xs.pop(0)` with keys fixed during the sort: the popped
   * element has a minimal key, every element in front of it has a strictly
   * larger key, and what is left is the rest of the list.
   */
  lemma PopFirstMin<T>(xs: seq<T>, keys: map<T, ExtReal>)
    requires |xs| > 0 && forall x | x in xs :: x in keys
    ensures var s := Sort(xs, ByKey(keys)); var m := FirstMin(xs, ByKey(keys));
      && s[0] == xs[m]
      && (forall j | 0 <= j < |xs| :: !Less(keys[xs[j]], keys[xs[m]]))
      && (forall j | 0 <= j < m :: Less(keys[xs[m]], keys[xs[j]]))
      && multiset(s[1..]) + multiset{xs[m]} == multiset(xs)
  {
    var s := Sort(xs, ByKey(keys));
    SortHead(xs, ByKey(keys));
    assert s == [s[0]] + s[1..];
    FirstMinByKey(xs, keys);
  }

  /** The scan under `ByKey(keys)` finds an element of least key, strictly below every element in front of it. */
  lemma FirstMinByKey<T>(xs: seq<T>, keys: map<T, ExtReal>)
    requires |xs| > 0 && forall x | x in xs :: x in keys
    ensures var m := FirstMin(xs, ByKey(keys));
      && (forall j | 0 <= j < |xs| :: !Less(keys[xs[j]], keys[xs[m]]))
      && (forall j | 0 <= j < m :: Less(keys[xs[m]], keys[xs[j]]))
  {
    var lt := ByKey(keys);
    ByKeyIsStrictWeakOrder(xs, keys);
    FirstMinIsFirstMinimal(xs, lt);
    var m := FirstMin(xs, lt);
    forall j | 0 <= j < |xs| ensures !Less(keys[xs[j]], keys[xs[m]]) {
      assert !lt(xs[j], xs[m]);
    }
    forall j | 0 <= j < m ensures Less(keys[xs[m]], keys[xs[j]]) {
      assert lt(xs[m], xs[j]);
    }
  }

  // ---------------------------------------------------------------------
  // Series.unique() and the key order of groupby
  // ---------------------------------------------------------------------

  /** The position of the first occurrence of `x` in `xs`. */
  function IndexOf<T(==)>(xs: seq<T>, x: T): (k: nat)
    requires x in xs
    ensures k < |xs| && xs[k] == x
    ensures forall j | 0 <= j < k :: xs[j] != x
  {
    if xs[0] == x then 0 else 1 + IndexOf(xs[1..], x)
  }

  /** Appending an element does not move the first occurrence of an element already present. */
  lemma IndexOfSnoc<T>(xs: seq<T>, x: T, y: T)
    requires y in xs
    ensures IndexOf(xs + [x], y) == IndexOf(xs, y)
  {
    var k := IndexOf(xs, y);
    assert (xs + [x])[k] == y;
    var k1 := IndexOf(xs + [x], y);
    assert k1 <= k;
    assert xs[k1] == y;
  }

  /** An element appended to a list that lacks it first occurs at the end. */
  lemma IndexOfNew<T>(xs: seq<T>, x: T)
    requires x !in xs
    ensures IndexOf(xs + [x], x) == |xs|
  {
  }

  /** The distinct elements of `xs` in order of first appearance. */
  function Distinct<T(==)>(xs: seq<T>): (r: seq<T>)
    ensures forall x | x in xs :: x in r
    ensures forall x | x in r :: x in xs
    ensures forall i, j | 0 <= i < j < |r| :: r[i] != r[j]
  {
    if xs == [] then []
    else
      var d := Distinct(xs[..|xs| - 1]);
      assert xs == xs[..|xs| - 1] + [xs[|xs| - 1]];
      if xs[|xs| - 1] in d then d else d + [xs[|xs| - 1]]
  }

  /** `Distinct` keeps the order of first occurrence: an element placed before another first occurs earlier in `xs`. */
  lemma {:induction false} DistinctOrder<T>(xs: seq<T>)
    ensures forall i, j | 0 <= i < j < |Distinct(xs)| :: IndexOf(xs, Distinct(xs)[i]) < IndexOf(xs, Distinct(xs)[j])
  {
    if xs != [] {
      var front := xs[..|xs| - 1];
      var last := xs[|xs| - 1];
      DistinctOrder(front);
      assert xs == front + [last];
      FirstOccurrenceStep(front, last, Distinct(front), Distinct(xs));
    }
  }

  /**
   * Appending `last` to the input keeps a selection ordered by first
   * occurrence, whether the selection stays as it is or takes `last` as a
   * new element.
   */
  lemma FirstOccurrenceStep<T>(front: seq<T>, last: T, d: seq<T>, r: seq<T>)
    requires forall x | x in d :: x in front
    requires forall i, j | 0 <= i < j < |d| :: IndexOf(front, d[i]) < IndexOf(front, d[j])
    requires r == d || (last !in front && r == d + [last])
    ensures forall x | x in r :: x in front + [last]
    ensures forall i, j | 0 <= i < j < |r| :: IndexOf(front + [last], r[i]) < IndexOf(front + [last], r[j])
  {
    forall y | y in d ensures IndexOf(front + [last], y) == IndexOf(front, y) {
      IndexOfSnoc(front, last, y);
    }
    if r != d {
      IndexOfNew(front, last);
      forall i, j | 0 <= i < j < |r| ensures IndexOf(front + [last], r[i]) < IndexOf(front + [last], r[j]) {
        assert r[i] == d[i];
        if j < |d| {
          assert r[j] == d[j];
        }
      }
    }
  }

  /** A permutation of a list without repeats has no repeats. */
  lemma DistinctAfterSort<T>(d: seq<T>, r: seq<T>, i: int, j: int)
    requires forall a, b | 0 <= a < b < |d| :: d[a] != d[b]
    requires multiset(r) == multiset(d)
    requires 0 <= i < j < |r|
    ensures r[i] != r[j]
  {
    var x := r[i];
    NoRepeatsCount(d, x);
    assert r[..j] == r[..i] + [x] + r[i + 1..j];
    assert r == r[..j] + [r[j]] + r[j + 1..];
    assert multiset(r)[x] >= 1 + multiset([r[j]])[x];
  }

  lemma {:induction false} NoRepeatsCount<T>(d: seq<T>, x: T)
    requires forall a, b | 0 <= a < b < |d| :: d[a] != d[b]
    ensures multiset(d)[x] <= 1
  {
    if d != [] {
      assert d == [d[0]] + d[1..];
      NoRepeatsCount(d[1..], x);
      if d[0] == x {
        assert x !in d[1..];
      }
    }
  }

  /** `[m[k] for k in ks if k in m]` when every key is in the map. */
  function Lookup<K, V>(ks: seq<K>, m: map<K, V>): (r: seq<V>)
    requires forall x | x in ks :: x in m
    ensures |r| == |ks| && forall j | 0 <= j < |ks| :: r[j] == m[ks[j]]
  {
    if ks == [] then [] else [m[ks[0]]] + Lookup(ks[1..], m)
  }

  /** Python's `<` on strings: lexicographic by code point, a proper prefix comes first. */
  predicate LexLess(a: string, b: string)
  {
    if a == [] then b != []
    else if b == [] then false
    else a[0] < b[0] || (a[0] == b[0] && LexLess(a[1..], b[1..]))
  }

  lemma {:induction false} LexLessTotal(a: string, b: string)
    ensures !LexLess(a, a)
    ensures a == b || LexLess(a, b) || LexLess(b, a)
    ensures !(LexLess(a, b) && LexLess(b, a))
  {
    if a != [] && b != [] {
      LexLessTotal(a[1..], b[1..]);
      LexLessTotal(a[1..], a[1..]);
      if a[0] == b[0] && a[1..] == b[1..] {
        assert a == [a[0]] + a[1..] && b == [b[0]] + b[1..];
      }
    } else if a != [] {
      LexLessTotal(a[1..], a[1..]);
    }
  }

  lemma {:induction false} LexLessTransitive(a: string, b: string, c: string)
    requires LexLess(a, b) && LexLess(b, c)
    ensures LexLess(a, c)
  {
    if a != [] && a[0] == b[0] && b[0] == c[0] {
      LexLessTransitive(a[1..], b[1..], c[1..]);
    }
  }

  /** String order is a strict total order, hence a strict weak order: `groupby` keys sort unambiguously. */
  lemma LexLessIsStrictWeakOrder(xs: seq<string>)
    ensures StrictWeakOrderOn(xs, LexLess)
  {
    forall x | x in xs ensures !LexLess(x, x) {
      LexLessTotal(x, x);
    }
    forall x, y, z | x in xs && y in xs && z in xs && LexLess(x, y) && LexLess(y, z)
      ensures LexLess(x, z)
    {
      LexLessTransitive(x, y, z);
    }
    forall x, y, z | x in xs && y in xs && z in xs && LexLess(x, z)
      ensures LexLess(x, y) || LexLess(y, z)
    {
      LexLessTotal(x, y);
      if LexLess(y, x) {
        LexLessTransitive(y, x, z);
      }
    }
  }

  /** Two permutations of each other stay so once the last element of one is taken out of the other. */
  lemma RemoveOne<T>(a: seq<T>, b: seq<T>, k: int)
    requires |a| > 0 && multiset(a) == multiset(b)
    requires 0 <= k < |b| && b[k] == a[|a| - 1]
    ensures multiset(a[..|a| - 1]) == multiset(b[..k] + b[k + 1..])
  {
    var n := |a| - 1;
    var x := a[n];
    var b' := b[..k] + b[k + 1..];
    assert a == a[..n] + [x];
    assert b == b[..k] + [x] + b[k + 1..];
    assert multiset(b) == multiset(b[..k]) + multiset{x} + multiset(b[k + 1..]);
    assert multiset(b') == multiset(b[..k]) + multiset(b[k + 1..]);
    assert multiset(b') + multiset{x} == multiset(a[..n]) + multiset{x};
    forall y ensures multiset(b')[y] == multiset(a[..n])[y] {
      assert (multiset(b') + multiset{x})[y] == (multiset(a[..n]) + multiset{x})[y];
    }
  }
}

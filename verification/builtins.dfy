/**
 The Python built-ins the tutorial scripts compose: `map` over one or two
 lists, `filter`, `functools.reduce`, `sum`, and `sorted` with a `key`.
 Each is modelled on finite lists, which is what `list(...)` materialises.
 */
module Builtins {
  import opened Results

  // ---------------------------------------------------------------------------
  // map and filter

  /** `list(map(f, s))`: one result per element, in order. */
  function Map<A, B>(f: A -> B, s: seq<A>): (r: seq<B>)
    ensures |r| == |s|
    ensures forall i :: 0 <= i < |s| ==> r[i] == f(s[i])
  {
    if s == [] then [] else [f(s[0])] + Map(f, s[1..])
  }

  /** `list(map(f, a, b))`: pairs elements by position and stops at the end of the shorter list. */
  function Map2<A, B, C>(f: (A, B) -> C, a: seq<A>, b: seq<B>): (r: seq<C>)
    ensures |r| == if |a| <= |b| then |a| else |b|
    ensures forall i :: 0 <= i < |r| ==> r[i] == f(a[i], b[i])
  {
    if a == [] || b == [] then [] else [f(a[0], b[0])] + Map2(f, a[1..], b[1..])
  }

  /** `list(filter(p, s))`: the elements satisfying `p`, in their original order. */
  function Filter<A>(p: A -> bool, s: seq<A>): (r: seq<A>)
    ensures |r| <= |s|
    ensures forall i :: 0 <= i < |r| ==> p(r[i])
  {
    if s == [] then [] else (if p(s[0]) then [s[0]] else []) + Filter(p, s[1..])
  }

  /** The filter keeps exactly the elements of `s` that satisfy `p`. */
  lemma {:induction false} FilterMembers<A>(p: A -> bool, s: seq<A>)
    ensures forall x :: x in Filter(p, s) <==> x in s && p(x)
  {
    if s != [] {
      FilterMembers(p, s[1..]);
      assert s == [s[0]] + s[1..];
    }
  }

  /** Filtering distributes over concatenation, so the relative order of kept elements is the input's. */
  lemma {:induction false} FilterAppend<A>(p: A -> bool, a: seq<A>, b: seq<A>)
    ensures Filter(p, a + b) == Filter(p, a) + Filter(p, b)
  {
    if a != [] {
      var head := if p(a[0]) then [a[0]] else [];
      assert (a + b)[0] == a[0];
      assert (a + b)[1..] == a[1..] + b;
      FilterAppend(p, a[1..], b);
      calc {
        Filter(p, a + b);
        head + Filter(p, a[1..] + b);
        head + (Filter(p, a[1..]) + Filter(p, b));
        (head + Filter(p, a[1..])) + Filter(p, b);
        Filter(p, a) + Filter(p, b);
      }
    } else {
      assert a + b == b;
    }
  }

  // ---------------------------------------------------------------------------
  // reduce and sum

  /** The exception `functools.reduce` raises on an empty list when no initial value is given. */
  const EmptyReduce: Exception := Error(TypeError, "reduce() of empty iterable with no initial value")

  function FoldLeft<A>(f: (A, A) -> A, acc: A, s: seq<A>): A {
    if s == [] then acc else FoldLeft(f, f(acc, s[0]), s[1..])
  }

  /** `functools.reduce(f, s)`: folds from the left, starting from the first element. */
  function Reduce<A>(f: (A, A) -> A, s: seq<A>): (r: Result<A>)
    ensures r.Err? <==> s == []
    ensures r.Err? ==> r.error == EmptyReduce
    ensures |s| == 1 ==> r == Ok(s[0])
  {
    if s == [] then Err(EmptyReduce) else Ok(FoldLeft(f, s[0], s[1..]))
  }

  /** `lambda x, y: x + y`. */
  function Add(x: int, y: int): int {
    x + y
  }

  /** `lambda x, y: x * y`. */
  function Mul(x: int, y: int): int {
    x * y
  }

  /** `lambda x: x * x`, also written `x**2`. */
  function Square(x: int): int {
    x * x
  }

  /** `lambda x: x % 2 == 0`; Python's `%` and Dafny's agree on whether the remainder is zero. */
  predicate IsEven(x: int) {
    x % 2 == 0
  }

  /** `range(lo, hi)`: the integers from `lo` up to but excluding `hi`. */
  function Range(lo: int, hi: int): (r: seq<int>)
    ensures |r| == if hi <= lo then 0 else hi - lo
    ensures forall i :: 0 <= i < |r| ==> r[i] == lo + i
    decreases hi - lo
  {
    if hi <= lo then [] else [lo] + Range(lo + 1, hi)
  }

  /** The arithmetic sum of a list, `sum(s)`. */
  function Sum(s: seq<int>): int {
    if s == [] then 0 else s[0] + Sum(s[1..])
  }

  /** The arithmetic product of a list. */
  function Product(s: seq<int>): int {
    if s == [] then 1 else s[0] * Product(s[1..])
  }

  lemma {:induction false} FoldAddIsSum(acc: int, s: seq<int>)
    ensures FoldLeft(Add, acc, s) == acc + Sum(s)
    decreases |s|
  {
    if s != [] {
      FoldAddIsSum(acc + s[0], s[1..]);
    }
  }

  /** Reducing a non-empty list with `+` computes its sum. */
  lemma ReduceAddIsSum(s: seq<int>)
    requires s != []
    ensures Reduce(Add, s) == Ok(Sum(s))
  {
    FoldAddIsSum(s[0], s[1..]);
  }

  lemma {:induction false} FoldMulIsProduct(acc: int, s: seq<int>)
    ensures FoldLeft(Mul, acc, s) == acc * Product(s)
    decreases |s|
  {
    if s != [] {
      FoldMulIsProduct(acc * s[0], s[1..]);
      calc {
        (acc * s[0]) * Product(s[1..]);
        acc * (s[0] * Product(s[1..]));
      }
    }
  }

  /** Reducing a non-empty list with `*` computes its product. */
  lemma ReduceMulIsProduct(s: seq<int>)
    requires s != []
    ensures Reduce(Mul, s) == Ok(Product(s))
  {
    FoldMulIsProduct(s[0], s[1..]);
  }

  // ---------------------------------------------------------------------------
  // sorted(s, key=key)

  /** `less` is a strict total order on keys: irreflexive, transitive and total on distinct keys. */
  ghost predicate StrictTotalOrder<K(!new)>(less: (K, K) -> bool) {
    && (forall a :: !less(a, a))
    && (forall a, b, c :: less(a, b) && less(b, c) ==> less(a, c))
    && (forall a, b :: a != b ==> less(a, b) || less(b, a))
  }

  /** No element's key is smaller than the key of an element before it. */
  ghost predicate OrderedBy<T, K>(key: T -> K, less: (K, K) -> bool, s: seq<T>) {
    forall i, j :: 0 <= i < j < |s| ==> !less(key(s[j]), key(s[i]))
  }

  /** The elements of `s` whose key is `k`, in their order in `s`. */
  function WithKey<T, K(==)>(key: T -> K, k: K, s: seq<T>): seq<T> {
    if s == [] then [] else (if key(s[0]) == k then [s[0]] else []) + WithKey(key, k, s[1..])
  }

  /** Inserts `x` after every element whose key is not greater than `key(x)`. */
  function Insert<T, K>(key: T -> K, less: (K, K) -> bool, x: T, s: seq<T>): (r: seq<T>)
    ensures |r| == |s| + 1
  {
    if s == [] then [x]
    else if less(key(x), key(s[0])) then [x] + s
    else [s[0]] + Insert(key, less, x, s[1..])
  }

  /** `sorted(s, key=key)`, with `less` the `<` of the key type: insertion sort from the left. */
  function SortedBy<T, K>(key: T -> K, less: (K, K) -> bool, s: seq<T>): (r: seq<T>)
    ensures |r| == |s|
  {
    if s == [] then [] else Insert(key, less, s[|s| - 1], SortedBy(key, less, s[..|s| - 1]))
  }

  /** Inserting adds `x` and keeps every element that was there. */
  lemma {:induction false} InsertPermutes<T, K>(key: T -> K, less: (K, K) -> bool, x: T, s: seq<T>)
    ensures multiset(Insert(key, less, x, s)) == multiset(s) + multiset{x}
  {
    if s != [] && !less(key(x), key(s[0])) {
      InsertPermutes(key, less, x, s[1..]);
      assert s == [s[0]] + s[1..];
    }
  }

  /** Sorting rearranges the list: the same elements, each as often as before. */
  lemma {:induction false} SortedByPermutes<T, K>(key: T -> K, less: (K, K) -> bool, s: seq<T>)
    ensures multiset(SortedBy(key, less, s)) == multiset(s)
  {
    if s != [] {
      SortedByPermutes(key, less, s[..|s| - 1]);
      InsertPermutes(key, less, s[|s| - 1], SortedBy(key, less, s[..|s| - 1]));
      assert s == s[..|s| - 1] + [s[|s| - 1]];
    }
  }

  /** Sorting a list extended by one element inserts that element into the sorted list. */
  lemma SortedBySnoc<T, K>(key: T -> K, less: (K, K) -> bool, s: seq<T>, x: T)
    ensures SortedBy(key, less, s + [x]) == Insert(key, less, x, SortedBy(key, less, s))
  {
    assert (s + [x])[..|s|] == s;
  }

  /** A list is ordered when its tail is and no key in the tail is smaller than the head's. */
  lemma ConsOrdered<T, K>(key: T -> K, less: (K, K) -> bool, y: T, t: seq<T>)
    requires OrderedBy(key, less, t)
    requires forall j :: 0 <= j < |t| ==> !less(key(t[j]), key(y))
    ensures OrderedBy(key, less, [y] + t)
  {
    var r := [y] + t;
    forall i, j | 0 <= i < j < |r|
      ensures !less(key(r[j]), key(r[i]))
    {
      assert r[j] == t[j - 1];
      if i > 0 {
        assert r[i] == t[i - 1];
      }
    }
  }

  lemma {:induction false} InsertOrdered<T, K(!new)>(key: T -> K, less: (K, K) -> bool, x: T, s: seq<T>)
    requires StrictTotalOrder(less)
    requires OrderedBy(key, less, s)
    ensures OrderedBy(key, less, Insert(key, less, x, s))
  {
    if s == [] {
    } else if less(key(x), key(s[0])) {
      forall j | 0 <= j < |s|
        ensures !less(key(s[j]), key(x))
      {
        if j > 0 {
          assert !less(key(s[j]), key(s[0]));
        }
      }
      ConsOrdered(key, less, x, s);
    } else {
      var tail := Insert(key, less, x, s[1..]);
      OrderedTail(key, less, s);
      InsertOrdered(key, less, x, s[1..]);
      InsertPermutes(key, less, x, s[1..]);
      forall j | 0 <= j < |tail|
        ensures !less(key(tail[j]), key(s[0]))
      {
        var y := tail[j];
        assert y in multiset(tail);
        if y != x {
          assert y in multiset(s[1..]);
          var m :| 0 <= m < |s[1..]| && s[1..][m] == y;
          assert s[m + 1] == y;
        }
      }
      ConsOrdered(key, less, s[0], tail);
    }
  }

  lemma {:induction false} WithKeyAppend<T, K>(key: T -> K, k: K, a: seq<T>, b: seq<T>)
    ensures WithKey(key, k, a + b) == WithKey(key, k, a) + WithKey(key, k, b)
  {
    if a != [] {
      var head := if key(a[0]) == k then [a[0]] else [];
      assert (a + b)[0] == a[0];
      assert (a + b)[1..] == a[1..] + b;
      WithKeyAppend(key, k, a[1..], b);
      calc {
        WithKey(key, k, a + b);
        head + WithKey(key, k, a[1..] + b);
        head + (WithKey(key, k, a[1..]) + WithKey(key, k, b));
        (head + WithKey(key, k, a[1..])) + WithKey(key, k, b);
        WithKey(key, k, a) + WithKey(key, k, b);
      }
    } else {
      assert a + b == b;
    }
  }

  lemma {:induction false} WithKeyNone<T, K>(key: T -> K, k: K, s: seq<T>)
    requires forall i :: 0 <= i < |s| ==> key(s[i]) != k
    ensures WithKey(key, k, s) == []
  {
    if s != [] {
      WithKeyNone(key, k, s[1..]);
    }
  }

  /** In an ordered list, no element shares its key with something smaller than the first key. */
  lemma SmallerKeyAbsent<T, K(!new)>(key: T -> K, less: (K, K) -> bool, k: K, s: seq<T>)
    requires StrictTotalOrder(less)
    requires OrderedBy(key, less, s)
    requires s != [] && less(k, key(s[0]))
    ensures WithKey(key, k, s) == []
  {
    forall i | 0 <= i < |s|
      ensures key(s[i]) != k
    {
      if i > 0 {
        assert !less(key(s[i]), key(s[0]));
      }
    }
    WithKeyNone(key, k, s);
  }

  lemma WithKeyCons<T, K>(key: T -> K, k: K, y: T, t: seq<T>)
    ensures WithKey(key, k, [y] + t) == (if key(y) == k then [y] else []) + WithKey(key, k, t)
  {
    assert ([y] + t)[0] == y && ([y] + t)[1..] == t;
  }

  lemma OrderedTail<T, K>(key: T -> K, less: (K, K) -> bool, s: seq<T>)
    requires s != [] && OrderedBy(key, less, s)
    ensures OrderedBy(key, less, s[1..])
  {
    forall i, j | 0 <= i < j < |s| - 1
      ensures !less(key(s[1..][j]), key(s[1..][i]))
    {
      assert s[1..][i] == s[i + 1] && s[1..][j] == s[j + 1];
    }
  }

  /** Inserting `x` into an ordered list puts it after every element with an equal key. */
  lemma {:induction false} InsertWithKey<T, K(!new)>(key: T -> K, less: (K, K) -> bool, x: T, s: seq<T>, k: K)
    requires StrictTotalOrder(less)
    requires OrderedBy(key, less, s)
    ensures WithKey(key, k, Insert(key, less, x, s))
         == WithKey(key, k, s) + (if key(x) == k then [x] else [])
  {
    var mine := if key(x) == k then [x] else [];
    if s == [] {
      WithKeyCons(key, k, x, []);
      assert [x] + [] == [x];
    } else if less(key(x), key(s[0])) {
      WithKeyCons(key, k, x, s);
      if key(x) == k {
        SmallerKeyAbsent(key, less, k, s);
      }
    } else {
      var head := if key(s[0]) == k then [s[0]] else [];
      var tail := Insert(key, less, x, s[1..]);
      OrderedTail(key, less, s);
      InsertWithKey(key, less, x, s[1..], k);
      WithKeyCons(key, k, s[0], tail);
      WithKeyCons(key, k, s[0], s[1..]);
      assert s == [s[0]] + s[1..];
      assert head + (WithKey(key, k, s[1..]) + mine) == (head + WithKey(key, k, s[1..])) + mine;
    }
  }

  /** The result of `sorted` is in key order. */
  lemma {:induction false} SortedByOrdered<T, K(!new)>(key: T -> K, less: (K, K) -> bool, s: seq<T>)
    requires StrictTotalOrder(less)
    ensures OrderedBy(key, less, SortedBy(key, less, s))
  {
    if s != [] {
      SortedByOrdered(key, less, s[..|s| - 1]);
      InsertOrdered(key, less, s[|s| - 1], SortedBy(key, less, s[..|s| - 1]));
    }
  }

  /** `sorted` is stable: the elements with any one key keep their input order. */
  lemma {:induction false} SortedByStable<T, K(!new)>(key: T -> K, less: (K, K) -> bool, s: seq<T>, k: K)
    requires StrictTotalOrder(less)
    ensures WithKey(key, k, SortedBy(key, less, s)) == WithKey(key, k, s)
  {
    if s != [] {
      var init, last := s[..|s| - 1], s[|s| - 1];
      assert s == init + [last];
      SortedByStable(key, less, init, k);
      SortedByOrdered(key, less, init);
      InsertWithKey(key, less, last, SortedBy(key, less, init), k);
      WithKeyAppend(key, k, init, [last]);
    }
  }

  /**
   `sorted` rearranges its input into key order, and is stable: for every key,
   the elements carrying it appear in the result in the order they had in the input.
   */
  lemma SortedByCorrect<T, K(!new)>(key: T -> K, less: (K, K) -> bool, s: seq<T>)
    requires StrictTotalOrder(less)
    ensures multiset(SortedBy(key, less, s)) == multiset(s)
    ensures OrderedBy(key, less, SortedBy(key, less, s))
    ensures forall k :: WithKey(key, k, SortedBy(key, less, s)) == WithKey(key, k, s)
  {
    SortedByPermutes(key, less, s);
    SortedByOrdered(key, less, s);
    forall k
      ensures WithKey(key, k, SortedBy(key, less, s)) == WithKey(key, k, s)
    {
      SortedByStable(key, less, s, k);
    }
  }
}

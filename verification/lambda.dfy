/**
 The lambda examples of Beginner/Lambda_Function/lambda.py: `filter` and
 `reduce` with lambdas, `sorted` with a key function over strings, ints, dicts
 and tuples, and the closure `make_multiplier`.
 */
module Lambdas {
  import opened Results
  import Builtins

  // ---------------------------------------------------------------------------
  // The `<` of the key types

  /** `<` on ints. */
  predicate IntLess(a: int, b: int) {
    a < b
  }

  /** `<` on strs: the first differing character decides; a proper prefix is smaller. */
  predicate StrLess(a: string, b: string)
    decreases |a|
  {
    if a == [] then b != []
    else if b == [] then false
    else if a[0] != b[0] then a[0] < b[0]
    else StrLess(a[1..], b[1..])
  }

  lemma {:induction false} StrLessIrreflexive(a: string)
    ensures !StrLess(a, a)
    decreases |a|
  {
    if a != [] {
      StrLessIrreflexive(a[1..]);
    }
  }

  lemma {:induction false} StrLessTransitive(a: string, b: string, c: string)
    requires StrLess(a, b) && StrLess(b, c)
    ensures StrLess(a, c)
    decreases |a|
  {
    if a != [] && a[0] == b[0] && b[0] == c[0] {
      StrLessTransitive(a[1..], b[1..], c[1..]);
    }
  }

  lemma {:induction false} StrLessTotal(a: string, b: string)
    requires a != b
    ensures StrLess(a, b) || StrLess(b, a)
    decreases |a|
  {
    if a != [] && b != [] && a[0] == b[0] {
      assert a == [a[0]] + a[1..] && b == [b[0]] + b[1..];
      StrLessTotal(a[1..], b[1..]);
    }
  }

  /** String comparison is a strict total order, so `sorted` with a str key is well defined. */
  lemma StrLessIsStrictTotalOrder()
    ensures Builtins.StrictTotalOrder(StrLess)
  {
    forall a: string ensures !StrLess(a, a) {
      StrLessIrreflexive(a);
    }
    forall a: string, b: string, c: string | StrLess(a, b) && StrLess(b, c) ensures StrLess(a, c) {
      StrLessTransitive(a, b, c);
    }
    forall a: string, b: string | a != b ensures StrLess(a, b) || StrLess(b, a) {
      StrLessTotal(a, b);
    }
  }

  /** `<` on pairs of ints: the first components decide, and the second break ties. */
  predicate PairLess(a: (int, int), b: (int, int)) {
    a.0 < b.0 || (a.0 == b.0 && a.1 < b.1)
  }

  lemma PairLessIsStrictTotalOrder()
    ensures Builtins.StrictTotalOrder(PairLess)
  {
  }

  // ---------------------------------------------------------------------------
  // The `sorted` examples

  function Second(pair: (int, string)): string {
    pair.1
  }

  /** `sorted(pairs, key=lambda pair: pair[1])`. */
  lemma SortByNameExample()
    ensures Builtins.SortedBy(Second, StrLess, [(1, "one"), (2, "two"), (3, "three"), (4, "four")])
         == [(4, "four"), (1, "one"), (3, "three"), (2, "two")]
  {
    Builtins.SortedBySnoc(Second, StrLess, [(1, "one")], (2, "two"));
    assert [(1, "one")] + [(2, "two")] == [(1, "one"), (2, "two")];
    assert !StrLess("two", "one");
    Builtins.SortedBySnoc(Second, StrLess, [(1, "one"), (2, "two")], (3, "three"));
    assert [(1, "one"), (2, "two")] + [(3, "three")] == [(1, "one"), (2, "two"), (3, "three")];
    assert !StrLess("three", "one") && StrLess("three", "two");
    Builtins.SortedBySnoc(Second, StrLess, [(1, "one"), (2, "two"), (3, "three")], (4, "four"));
    assert [(1, "one"), (2, "two"), (3, "three")] + [(4, "four")] == [(1, "one"), (2, "two"), (3, "three"), (4, "four")];
    assert StrLess("four", "one");
  }

  function Len(w: string): int {
    |w|
  }

  /** `sorted(words, key=len)`: "banana" and "cherry" have the same length and keep their order. */
  lemma SortByLengthExample()
    ensures Builtins.SortedBy(Len, IntLess, ["apple", "banana", "cherry", "date"])
         == ["date", "apple", "banana", "cherry"]
  {
    Builtins.SortedBySnoc(Len, IntLess, ["apple"], "banana");
    assert ["apple"] + ["banana"] == ["apple", "banana"];
    Builtins.SortedBySnoc(Len, IntLess, ["apple", "banana"], "cherry");
    assert ["apple", "banana"] + ["cherry"] == ["apple", "banana", "cherry"];
    Builtins.SortedBySnoc(Len, IntLess, ["apple", "banana", "cherry"], "date");
    assert ["apple", "banana", "cherry"] + ["date"] == ["apple", "banana", "cherry", "date"];
  }

  /** The stability the example relies on holds for every list sorted by length. */
  lemma SortByLengthIsStable(words: seq<string>)
    ensures forall n :: Builtins.WithKey(Len, n, Builtins.SortedBy(Len, IntLess, words))
                     == Builtins.WithKey(Len, n, words)
  {
    Builtins.SortedByCorrect(Len, IntLess, words);
  }

  /** A dict `{'name': ..., 'grade': ...}`. */
  datatype Student = Student(name: string, grade: int)

  function Grade(s: Student): int {
    s.grade
  }

  /** `sorted(students, key=lambda student: student['grade'])`. */
  lemma SortByGradeExample()
    ensures Builtins.SortedBy(Grade, IntLess, [Student("John", 90), Student("Jane", 85)])
         == [Student("Jane", 85), Student("John", 90)]
  {
  }

  function BothComponents(x: (int, int)): (int, int) {
    (x.0, x.1)
  }

  /** `sorted(pairs, key=lambda x: (x[0], x[1]))`. */
  lemma SortByTupleExample()
    ensures Builtins.SortedBy(BothComponents, PairLess, [(1, 2), (3, 1), (1, 1), (2, 2)])
         == [(1, 1), (1, 2), (2, 2), (3, 1)]
  {
    Builtins.SortedBySnoc(BothComponents, PairLess, [(1, 2)], (3, 1));
    assert [(1, 2)] + [(3, 1)] == [(1, 2), (3, 1)];
    Builtins.SortedBySnoc(BothComponents, PairLess, [(1, 2), (3, 1)], (1, 1));
    assert [(1, 2), (3, 1)] + [(1, 1)] == [(1, 2), (3, 1), (1, 1)];
    Builtins.SortedBySnoc(BothComponents, PairLess, [(1, 2), (3, 1), (1, 1)], (2, 2));
    assert [(1, 2), (3, 1), (1, 1)] + [(2, 2)] == [(1, 2), (3, 1), (1, 1), (2, 2)];
  }

  /** Sorting by a tuple key orders by the first component, then by the second. */
  lemma SortByTupleIsLexicographic(pairs: seq<(int, int)>)
    ensures var r := Builtins.SortedBy(BothComponents, PairLess, pairs);
      forall i, j :: 0 <= i < j < |r| ==> r[i].0 < r[j].0 || (r[i].0 == r[j].0 && r[i].1 <= r[j].1)
  {
    PairLessIsStrictTotalOrder();
    Builtins.SortedByCorrect(BothComponents, PairLess, pairs);
  }

  // ---------------------------------------------------------------------------
  // filter, reduce and make_multiplier

  /** `1 + 2 + ... + n`, the sum `reduce(lambda x, y: x + y, range(1, n + 1))` computes. */
  lemma {:induction false} SumOfRange(n: nat)
    ensures Builtins.Sum(Builtins.Range(1, n + 1)) * 2 == n * (n + 1)
    decreases n
  {
    if n > 0 {
      SumOfRange(n - 1);
      SumAppend(Builtins.Range(1, n), n);
      assert Builtins.Range(1, n + 1) == Builtins.Range(1, n) + [n];
    }
  }

  lemma {:induction false} SumAppend(s: seq<int>, x: int)
    ensures Builtins.Sum(s + [x]) == Builtins.Sum(s) + x
    decreases |s|
  {
    if s != [] {
      assert (s + [x])[1..] == s[1..] + [x];
      SumAppend(s[1..], x);
    }
  }

  lemma FilterExample()
    ensures Builtins.Filter(Builtins.IsEven, [1, 2, 3, 4, 5, 6, 7, 8]) == [2, 4, 6, 8]
  {
    Builtins.FilterAppend(Builtins.IsEven, [1, 2, 3, 4], [5, 6, 7, 8]);
    assert [1, 2, 3, 4] + [5, 6, 7, 8] == [1, 2, 3, 4, 5, 6, 7, 8];
    FilterEvenFromOdd(1);
    FilterEvenFromOdd(5);
  }

  /** The even filter over four consecutive ints starting at an odd one keeps the second and fourth. */
  lemma FilterEvenFromOdd(n: int)
    requires n % 2 == 1
    ensures Builtins.Filter(Builtins.IsEven, [n, n + 1, n + 2, n + 3]) == [n + 1, n + 3]
  {
    var s := [n, n + 1, n + 2, n + 3];
    assert !Builtins.IsEven(n) && Builtins.IsEven(n + 1) && !Builtins.IsEven(n + 2) && Builtins.IsEven(n + 3);
    assert s[1..] == [n + 1, n + 2, n + 3] && s[1..][1..] == [n + 2, n + 3] && s[1..][1..][1..] == [n + 3];
    assert Builtins.Filter(Builtins.IsEven, [n + 3]) == [n + 3];
    assert Builtins.Filter(Builtins.IsEven, [n + 2, n + 3]) == [n + 3];
    assert Builtins.Filter(Builtins.IsEven, [n + 1, n + 2, n + 3]) == [n + 1, n + 3];
  }

  lemma ReduceExample()
    ensures Builtins.Reduce(Builtins.Add, [1, 2, 3, 4, 5, 6, 7]) == Ok(28)
  {
    var s := [1, 2, 3, 4, 5, 6, 7];
    assert Builtins.Range(1, 8) == s by {
      forall i | 0 <= i < 7 ensures Builtins.Range(1, 8)[i] == s[i] { }
    }
    Builtins.ReduceAddIsSum(s);
    SumOfRange(7);
  }

  /** `make_multiplier(n)`: a closure that multiplies its argument by the captured `n`. */
  function MakeMultiplier(n: int): (f: int -> int)
    ensures forall x :: f(x) == x * n
  {
    x => x * n
  }

  /** Applying two multipliers one after the other is one multiplier by the product. */
  lemma MultipliersCompose(a: int, b: int, x: int)
    ensures MakeMultiplier(a)(MakeMultiplier(b)(x)) == MakeMultiplier(a * b)(x)
  {
    assert x * b * a == x * (a * b);
  }

  lemma MakeMultiplierExample()
    ensures MakeMultiplier(3)(2) == 6
  {
  }
}

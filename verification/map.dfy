/**
 The `map` examples of Beginner/Map/map.py: element-wise maps over one list and
 over two lists, a map over tuples, and the filter, map and reduce pipeline that
 sums the squares of the even numbers.
 */
module MapExamples {
  import opened Results
  import Builtins

  /** `list(map(lambda x: x**2, [1, 2, 3, 4, 5, 6]))` and the named `square` over `[2, 4, 6, 8]`. */
  lemma SquareExamples()
    ensures Builtins.Map(Builtins.Square, [1, 2, 3, 4, 5, 6]) == [1, 4, 9, 16, 25, 36]
    ensures Builtins.Map(Builtins.Square, [2, 4, 6, 8]) == [4, 16, 36, 64]
  {
  }

  /** `list(map(lambda x, y: x + y, list1, list2))`. */
  lemma TwoListExample()
    ensures Builtins.Map2(Builtins.Add, [1, 2, 3, 4], [10, 20, 30, 40]) == [11, 22, 33, 44]
  {
  }

  /** `lambda x: x[0] + x[1]`. */
  function PairSum(p: (int, int)): int {
    p.0 + p.1
  }

  lemma PairExample()
    ensures Builtins.Map(PairSum, [(1, 2), (3, 4), (5, 6)]) == [3, 7, 11]
  {
  }

  /**
   `reduce(lambda x, y: x + y, map(lambda x: x**2, filter(lambda x: x % 2 == 0, s)))`:
   the sum of the squares of the even elements. With no even element the
   reduce has nothing to start from and raises `TypeError`.
   */
  function SumOfEvenSquares(s: seq<int>): (r: Result<int>)
    ensures r.Err? <==> forall i :: 0 <= i < |s| ==> !Builtins.IsEven(s[i])
    ensures r.Err? ==> r.error == Builtins.EmptyReduce
    ensures r.Ok? ==> r.value >= 0
  {
    var evens := Builtins.Filter(Builtins.IsEven, s);
    var squares := Builtins.Map(Builtins.Square, evens);
    NoEvensIffEmpty(s);
    if evens == [] then Builtins.Reduce(Builtins.Add, squares)
    else
      Builtins.ReduceAddIsSum(squares);
      SumOfSquaresNonNegative(squares);
      Builtins.Reduce(Builtins.Add, squares)
  }

  /** The even filter comes back empty exactly when no element is even. */
  lemma NoEvensIffEmpty(s: seq<int>)
    ensures Builtins.Filter(Builtins.IsEven, s) == [] <==> forall i :: 0 <= i < |s| ==> !Builtins.IsEven(s[i])
  {
    if exists i :: 0 <= i < |s| && Builtins.IsEven(s[i]) {
      var i :| 0 <= i < |s| && Builtins.IsEven(s[i]);
      Builtins.FilterMembers(Builtins.IsEven, s);
      assert s[i] in Builtins.Filter(Builtins.IsEven, s);
    }
  }

  /** A sum of squares is never negative. */
  lemma {:induction false} SumOfSquaresNonNegative(s: seq<int>)
    requires forall i :: 0 <= i < |s| ==> s[i] >= 0
    ensures Builtins.Sum(s) >= 0
  {
    if s != [] {
      SumOfSquaresNonNegative(s[1..]);
    }
  }

  /** When some element is even, the pipeline computes the sum of the squared evens. */
  lemma SumOfEvenSquaresIsSum(s: seq<int>)
    requires exists i :: 0 <= i < |s| && Builtins.IsEven(s[i])
    ensures SumOfEvenSquares(s)
         == Ok(Builtins.Sum(Builtins.Map(Builtins.Square, Builtins.Filter(Builtins.IsEven, s))))
  {
    var evens := Builtins.Filter(Builtins.IsEven, s);
    NoEvensIffEmpty(s);
    Builtins.ReduceAddIsSum(Builtins.Map(Builtins.Square, evens));
  }

  /** Over 1..6 the evens 2, 4, 6 square to 4, 16, 36, which sum to 56. */
  lemma PipelineExample()
    ensures SumOfEvenSquares([1, 2, 3, 4, 5, 6]) == Ok(56)
  {
    var s := [1, 2, 3, 4, 5, 6];
    EvensUpToSix();
    assert Builtins.IsEven(s[1]);
    SumOfEvenSquaresIsSum(s);
    assert Builtins.Map(Builtins.Square, [2, 4, 6]) == [4, 16, 36];
    assert Builtins.Sum([4, 16, 36]) == 56;
  }

  lemma EvensUpToSix()
    ensures Builtins.Filter(Builtins.IsEven, [1, 2, 3, 4, 5, 6]) == [2, 4, 6]
  {
    assert [5, 6][1..] == [6];
    assert Builtins.Filter(Builtins.IsEven, [5, 6]) == [6];
    assert [4, 5, 6][1..] == [5, 6];
    assert Builtins.Filter(Builtins.IsEven, [4, 5, 6]) == [4, 6];
    assert [3, 4, 5, 6][1..] == [4, 5, 6];
    assert [2, 3, 4, 5, 6][1..] == [3, 4, 5, 6];
    assert [1, 2, 3, 4, 5, 6][1..] == [2, 3, 4, 5, 6];
  }
}

/**
 `ComplexMatrix` of Advanced/OOP/special_method.py: a fixed 2x2 matrix whose
 dunder methods give it indexing, addition, scalar multiplication, equality,
 a determinant (`m()`), row-major iteration and `len`.

 The entries are Gaussian integers (complex numbers with integer parts), so
 every operation is exact. Operands of `+`, `*` and `==` are modelled by
 `Operand`: another matrix, a number, a sequence (`str`, `list`, `tuple`), or
 an object of some other type that defines no arithmetic with matrices.
 */
module SpecialMethods {
  import opened Results

  // ---------------------------------------------------------------------------
  // Gaussian integers

  /** The complex number `re + im*1j` with integer parts. */
  datatype Gaussian = Gaussian(re: int, im: int)

  /** `complex(n)` for an int `n`. */
  function Real(n: int): (z: Gaussian)
    ensures z.re == n && z.im == 0
  {
    Gaussian(n, 0)
  }

  function GAdd(x: Gaussian, y: Gaussian): Gaussian {
    Gaussian(x.re + y.re, x.im + y.im)
  }

  function GSub(x: Gaussian, y: Gaussian): Gaussian {
    Gaussian(x.re - y.re, x.im - y.im)
  }

  function GMul(x: Gaussian, y: Gaussian): Gaussian {
    Gaussian(x.re * y.re - x.im * y.im, x.re * y.im + x.im * y.re)
  }

  /** Complex multiplication is commutative and associative. */
  lemma GMulCommAssoc(x: Gaussian, y: Gaussian, z: Gaussian)
    ensures GMul(x, y) == GMul(y, x)
    ensures GMul(GMul(x, y), z) == GMul(x, GMul(y, z))
  {
    assert (x.re * y.re - x.im * y.im) * z.re - (x.re * y.im + x.im * y.re) * z.im
        == x.re * (y.re * z.re - y.im * z.im) - x.im * (y.re * z.im + y.im * z.re);
    assert (x.re * y.re - x.im * y.im) * z.im + (x.re * y.im + x.im * y.re) * z.re
        == x.re * (y.re * z.im + y.im * z.re) + x.im * (y.re * z.re - y.im * z.im);
  }

  /** Multiplication distributes over subtraction. */
  lemma GMulDistributes(k: Gaussian, x: Gaussian, y: Gaussian)
    ensures GMul(k, GSub(x, y)) == GSub(GMul(k, x), GMul(k, y))
  {
    MulSub(k.re, x.re, y.re);
    MulSub(k.im, x.im, y.im);
    MulSub(k.re, x.im, y.im);
    MulSub(k.im, x.re, y.re);
  }

  lemma MulSub(a: int, b: int, c: int)
    ensures a * (b - c) == a * b - a * c
  {
  }

  /** Multiplying by a real number scales both parts. */
  lemma GMulReal(x: Gaussian, n: int)
    ensures GMul(x, Real(n)) == Gaussian(x.re * n, x.im * n)
  {
  }

  // ---------------------------------------------------------------------------
  // The matrix and its operands

  /** `ComplexMatrix(a, b, c, d)`: the rows are `[a, b]` and `[c, d]`. */
  datatype Matrix = Matrix(m00: Gaussian, m01: Gaussian, m10: Gaussian, m11: Gaussian)

  /** The right-hand operand of `+`, `*` or `==`, as far as the dunder methods can tell. */
  datatype Operand =
    | MatrixArg(matrix: Matrix)
    | NumberArg(number: Gaussian, typeName: string)
    | SequenceArg(typeName: string)
    | OtherArg(typeName: string)

  function TypeName(o: Operand): string {
    if o.MatrixArg? then "ComplexMatrix" else o.typeName
  }

  /** What a binary dunder method returns: a value or the `NotImplemented` singleton. */
  datatype Returned<+T> = Value(value: T) | NotImplemented

  /** Entry `(r, c)` of the row lists, for indices already in range. */
  function Entry(m: Matrix, r: nat, c: nat): Gaussian
    requires r < 2 && c < 2
  {
    if r == 0 then (if c == 0 then m.m00 else m.m01)
    else (if c == 0 then m.m10 else m.m11)
  }

  /** The matrix with entry `(r, c)` replaced. */
  function WithEntry(m: Matrix, r: nat, c: nat, v: Gaussian): (m': Matrix)
    requires r < 2 && c < 2
    ensures Entry(m', r, c) == v
    ensures forall i: nat, j: nat :: i < 2 && j < 2 && (i, j) != (r, c) ==> Entry(m', i, j) == Entry(m, i, j)
  {
    if r == 0 then (if c == 0 then m.(m00 := v) else m.(m01 := v))
    else (if c == 0 then m.(m10 := v) else m.(m11 := v))
  }

  /** Two matrices with the same four entries are the same matrix. */
  lemma EntriesDetermine(m: Matrix, n: Matrix)
    requires forall i: nat, j: nat :: i < 2 && j < 2 ==> Entry(m, i, j) == Entry(n, i, j)
    ensures m == n
  {
    assert Entry(m, 0, 0) == Entry(n, 0, 0) && Entry(m, 0, 1) == Entry(n, 0, 1);
    assert Entry(m, 1, 0) == Entry(n, 1, 0) && Entry(m, 1, 1) == Entry(n, 1, 1);
  }

  // ---------------------------------------------------------------------------
  // __len__, __getitem__, __setitem__

  /** `len(m)` is 4 whatever the matrix holds. */
  function Len(m: Matrix): (n: nat)
    ensures n == |Iter(m)|
  {
    4
  }

  /** A position in a two-element list: `-2` and `-1` count from the end, `0` and `1` from the start. */
  function Position(i: int): (r: Option<nat>)
    ensures r.Some? <==> -2 <= i < 2
    ensures r.Some? ==> r.value < 2 && (r.value == i || r.value == i + 2)
  {
    if 0 <= i < 2 then Some(i) else if -2 <= i < 0 then Some(i + 2) else None
  }

  const IndexOutOfRange: Exception := Error(IndexError, "list index out of range")
  const AssignmentOutOfRange: Exception := Error(IndexError, "list assignment index out of range")

  /** `m[row, col]`: the row list is indexed first, then the entry within it. */
  function GetItem(m: Matrix, row: int, col: int): (r: Result<Gaussian>)
    ensures r.Ok? <==> Position(row).Some? && Position(col).Some?
    ensures r.Err? ==> r.error == IndexOutOfRange
    ensures r.Ok? ==> r.value == Iter(m)[2 * Position(row).value + Position(col).value]
  {
    match (Position(row), Position(col))
    case (Some(r), Some(c)) => Ok(Entry(m, r, c))
    case _ => Err(IndexOutOfRange)
  }

  /**
   `m[row, col] = v`: reading the row list fails like any list read; storing into
   it fails with the message of a list assignment. A failed store changes nothing.
   */
  function SetItem(m: Matrix, row: int, col: int, v: Gaussian): (r: Assignment<Matrix>)
    ensures r.Rejected? <==> Position(row).None? || Position(col).None?
    ensures r.Rejected? ==> r.state == m
    ensures r.Rejected? ==> r.error == (if Position(row).None? then IndexOutOfRange else AssignmentOutOfRange)
  {
    match (Position(row), Position(col))
    case (None, _) => Rejected(m, IndexOutOfRange)
    case (_, None) => Rejected(m, AssignmentOutOfRange)
    case (Some(r), Some(c)) => Assigned(WithEntry(m, r, c, v))
  }

  /** After `m[row, col] = v`, reading the same index gives `v`. */
  lemma GetAfterSet(m: Matrix, row: int, col: int, v: Gaussian)
    requires SetItem(m, row, col, v).Assigned?
    ensures GetItem(SetItem(m, row, col, v).state, row, col) == Ok(v)
  {
  }

  /** `m[row, col] = v` leaves every entry at another position as it was. */
  lemma SetLeavesOthers(m: Matrix, row: int, col: int, v: Gaussian, row': int, col': int)
    requires SetItem(m, row, col, v).Assigned?
    requires Position(row) != Position(row') || Position(col) != Position(col')
    ensures GetItem(SetItem(m, row, col, v).state, row', col') == GetItem(m, row', col')
  {
  }

  /** Storing the value already at an index gives back the same matrix. */
  lemma SetWhatIsThere(m: Matrix, row: int, col: int)
    requires GetItem(m, row, col).Ok?
    ensures SetItem(m, row, col, GetItem(m, row, col).value) == Assigned(m)
  {
    var r, c := Position(row).value, Position(col).value;
    EntriesDetermine(WithEntry(m, r, c, Entry(m, r, c)), m);
  }

  // ---------------------------------------------------------------------------
  // __add__, __radd__, __iadd__

  /** The entry-wise sum the `__add__` body builds. */
  function Sum(m: Matrix, n: Matrix): (s: Matrix)
    ensures forall i: nat, j: nat :: i < 2 && j < 2 ==> Entry(s, i, j) == GAdd(Entry(m, i, j), Entry(n, i, j))
  {
    Matrix(GAdd(m.m00, n.m00), GAdd(m.m01, n.m01), GAdd(m.m10, n.m10), GAdd(m.m11, n.m11))
  }

  /** `m.__add__(other)`: a sum for a matrix operand, `NotImplemented` for anything else. */
  function AddMethod(m: Matrix, other: Operand): (r: Returned<Matrix>)
    ensures r.Value? <==> other.MatrixArg?
    ensures r.Value? ==> r.value == Sum(m, other.matrix)
  {
    match other
    case MatrixArg(n) => Value(Sum(m, n))
    case _ => NotImplemented
  }

  /** The `TypeError` Python raises when neither operand's method handles a binary operator. */
  function Unsupported(op: string, left: string, right: string): Exception {
    Error(TypeError, "unsupported operand type(s) for " + op + ": '" + left + "' and '" + right + "'")
  }

  /**
   The expression `m + other`. When `__add__` declines, the reflected method of a
   non-matrix operand declines as well, so the operator raises `TypeError`.
   */
  function Plus(m: Matrix, other: Operand): (r: Result<Matrix>)
    ensures r.Ok? <==> AddMethod(m, other).Value?
    ensures r.Ok? ==> r.value == AddMethod(m, other).value
    ensures r.Err? ==> r.error == Unsupported("+", "ComplexMatrix", TypeName(other))
  {
    match AddMethod(m, other)
    case Value(s) => Ok(s)
    case NotImplemented => Err(Unsupported("+", "ComplexMatrix", TypeName(other)))
  }

  /**
   `m.__radd__(other)`, reached from `other + m` once `other` has declined; it
   evaluates `m + other`, so its error names the matrix first.
   */
  function RAddMethod(m: Matrix, other: Operand): (r: Result<Matrix>)
    ensures r.Ok? <==> other.MatrixArg?
    ensures r.Ok? ==> r.value == Sum(m, other.matrix)
    ensures r.Err? ==> r.error.kind == TypeError
  {
    Plus(m, other)
  }

  /**
   `m += other`: `__iadd__` evaluates `m + other` and then stores the result's rows
   in `m`; when the addition raises, the store never happens.
   */
  function IAdd(m: Matrix, other: Operand): (r: Assignment<Matrix>)
    ensures r.Assigned? <==> other.MatrixArg?
    ensures r.Assigned? ==> r.state == Sum(m, other.matrix)
    ensures r.Rejected? ==> r.state == m && r.error == Unsupported("+", "ComplexMatrix", TypeName(other))
  {
    match Plus(m, other)
    case Ok(s) => Assigned(s)
    case Err(e) => Rejected(m, e)
  }

  /** Addition of matrices does not depend on the order of the operands. */
  lemma PlusCommutes(m: Matrix, n: Matrix)
    ensures Plus(m, MatrixArg(n)) == Plus(n, MatrixArg(m))
  {
  }

  // ---------------------------------------------------------------------------
  // __mul__, __rmul__

  /** Every entry multiplied by the scalar, as the `__mul__` body computes it. */
  function Scale(m: Matrix, k: Gaussian): (s: Matrix)
    ensures forall i: nat, j: nat :: i < 2 && j < 2 ==> Entry(s, i, j) == GMul(Entry(m, i, j), k)
  {
    Matrix(GMul(m.m00, k), GMul(m.m01, k), GMul(m.m10, k), GMul(m.m11, k))
  }

  /** `m.__mul__(scalar)`: scaling for an int or complex operand, `NotImplemented` otherwise. */
  function MulMethod(m: Matrix, scalar: Operand): (r: Returned<Matrix>)
    ensures r.Value? <==> scalar.NumberArg?
    ensures r.Value? ==> r.value == Scale(m, scalar.number)
  {
    match scalar
    case NumberArg(k, _) => Value(Scale(m, k))
    case _ => NotImplemented
  }

  /**
   What `m * seq` raises for a sequence operand: once both `__mul__` methods have
   declined, Python falls back to repeating the sequence, which needs an int count.
   */
  const SequenceRepeat: Exception := Error(TypeError, "can't multiply sequence by non-int of type 'ComplexMatrix'")

  /**
   The expression `m * scalar`. Two matrices are of the same class, so Python does
   not try `__rmul__`; a sequence operand leads to the repetition fallback; other
   types decline as with `+`.
   */
  function Times(m: Matrix, scalar: Operand): (r: Result<Matrix>)
    ensures r.Ok? <==> scalar.NumberArg?
    ensures r.Ok? ==> r.value == MulMethod(m, scalar).value
    ensures r.Err? && scalar.SequenceArg? ==> r.error == SequenceRepeat
    ensures r.Err? && !scalar.SequenceArg? ==> r.error == Unsupported("*", "ComplexMatrix", TypeName(scalar))
  {
    match MulMethod(m, scalar)
    case Value(s) => Ok(s)
    case NotImplemented =>
      if scalar.SequenceArg? then Err(SequenceRepeat)
      else Err(Unsupported("*", "ComplexMatrix", TypeName(scalar)))
  }

  /**
   The expression `k * m` for a number `k`: `int.__mul__` and `complex.__mul__`
   decline, and `m.__rmul__(k)` evaluates `m * k`.
   */
  function RTimes(k: Gaussian, typeName: string, m: Matrix): (r: Result<Matrix>)
    ensures r.Ok?
  {
    Times(m, NumberArg(k, typeName))
  }

  /** Scaling gives the same matrix from either side, since complex multiplication commutes. */
  lemma ScaleBothSides(m: Matrix, k: Gaussian, typeName: string)
    ensures RTimes(k, typeName, m) == Times(m, NumberArg(k, typeName))
    ensures forall i: nat, j: nat :: i < 2 && j < 2 ==>
      Entry(RTimes(k, typeName, m).value, i, j) == GMul(k, Entry(m, i, j))
  {
    forall i: nat, j: nat | i < 2 && j < 2
      ensures Entry(RTimes(k, typeName, m).value, i, j) == GMul(k, Entry(m, i, j))
    {
      GMulCommAssoc(Entry(m, i, j), k, k);
    }
  }

  // ---------------------------------------------------------------------------
  // __eq__, __call__, __iter__

  /**
   `m == other`: the row lists are compared, which needs `other.matrix`; any
   operand without that attribute makes `__eq__` raise `AttributeError`.
   */
  function Equals(m: Matrix, other: Operand): (r: Result<bool>)
    ensures r.Ok? <==> other.MatrixArg?
    ensures r.Ok? ==> (r.value <==> forall i: nat, j: nat :: i < 2 && j < 2 ==> Entry(m, i, j) == Entry(other.matrix, i, j))
    ensures r.Err? ==> r.error == Error(AttributeError, "'" + TypeName(other) + "' object has no attribute 'matrix'")
  {
    match other
    case MatrixArg(n) =>
      if m == n then Ok(true)
      else
        assert Entry(m, 0, 0) != Entry(n, 0, 0) || Entry(m, 0, 1) != Entry(n, 0, 1)
            || Entry(m, 1, 0) != Entry(n, 1, 0) || Entry(m, 1, 1) != Entry(n, 1, 1);
        Ok(false)
    case _ => Err(Error(AttributeError, "'" + TypeName(other) + "' object has no attribute 'matrix'"))
  }

  const Zero: Gaussian := Real(0)

  /**
   `m()`: the determinant, first diagonal product minus the second. A triangular
   matrix has the product of its diagonal, and a zero row gives zero.
   */
  function Determinant(m: Matrix): (d: Gaussian)
    ensures Entry(m, 0, 1) == Zero || Entry(m, 1, 0) == Zero ==> d == GMul(Entry(m, 0, 0), Entry(m, 1, 1))
    ensures (Entry(m, 0, 0) == Zero && Entry(m, 0, 1) == Zero) || (Entry(m, 1, 0) == Zero && Entry(m, 1, 1) == Zero) ==> d == Zero
  {
    GSub(GMul(Entry(m, 0, 0), Entry(m, 1, 1)), GMul(Entry(m, 0, 1), Entry(m, 1, 0)))
  }

  /** Exchanging the two rows negates the determinant. */
  lemma DeterminantSwapRows(m: Matrix)
    ensures Determinant(Matrix(m.m10, m.m11, m.m00, m.m01)) == GSub(Zero, Determinant(m))
  {
    GMulCommAssoc(m.m10, m.m01, m.m01);
    GMulCommAssoc(m.m11, m.m00, m.m00);
  }

  /** Scaling every entry by `k` scales the determinant by `k * k`. */
  lemma DeterminantOfScale(m: Matrix, k: Gaussian)
    ensures Determinant(Scale(m, k)) == GMul(GMul(k, k), Determinant(m))
  {
    var a, b, c, d := m.m00, m.m01, m.m10, m.m11;
    var kk := GMul(k, k);
    calc {
      GMul(GMul(a, k), GMul(d, k));
      { GMulCommAssoc(a, k, GMul(d, k)); GMulCommAssoc(d, k, k); }
      GMul(a, GMul(d, kk));
      { GMulCommAssoc(d, kk, a); GMulCommAssoc(kk, d, a); GMulCommAssoc(a, d, kk); }
      GMul(kk, GMul(a, d));
    }
    calc {
      GMul(GMul(b, k), GMul(c, k));
      { GMulCommAssoc(b, k, GMul(c, k)); GMulCommAssoc(c, k, k); }
      GMul(b, GMul(c, kk));
      { GMulCommAssoc(c, kk, b); GMulCommAssoc(kk, c, b); GMulCommAssoc(b, c, kk); }
      GMul(kk, GMul(b, c));
    }
    GMulDistributes(kk, GMul(a, d), GMul(b, c));
  }

  /** `iter(m)`: the four entries in row-major order. */
  function Iter(m: Matrix): (s: seq<Gaussian>)
    ensures |s| == 4
    ensures forall i: nat, j: nat :: i < 2 && j < 2 ==> s[2 * i + j] == Entry(m, i, j)
  {
    [m.m00, m.m01, m.m10, m.m11]
  }

  /** Rebuilding a matrix from the four values iteration yields gives the matrix back. */
  lemma IterRoundTrip(m: Matrix)
    ensures var s := Iter(m); Matrix(s[0], s[1], s[2], s[3]) == m
  {
  }

  /** Iteration determines the matrix: equal iterations mean equal matrices. */
  lemma IterInjective(m: Matrix, n: Matrix)
    ensures Iter(m) == Iter(n) <==> m == n
  {
    if Iter(m) == Iter(n) {
      assert m.m00 == Iter(m)[0] && m.m01 == Iter(m)[1] && m.m10 == Iter(m)[2] && m.m11 == Iter(m)[3];
    }
  }

  // ---------------------------------------------------------------------------
  // The demonstration in the `with` block

  /** `ComplexMatrix(1+2j, 2+3j, 4+5j, 6+7j)`. */
  const DemoMatrix: Matrix := Matrix(Gaussian(1, 2), Gaussian(2, 3), Gaussian(4, 5), Gaussian(6, 7))

  /** `ComplexMatrix(1, 1, 1, 1)`. */
  const Ones: Matrix := Matrix(Real(1), Real(1), Real(1), Real(1))

  /** `ComplexMatrix(1+2j, 10+10j, 4+5j, 6+7j)`, the demonstration matrix after `matrix[0, 1] = 10 + 10j`. */
  const UpdatedMatrix: Matrix := Matrix(Gaussian(1, 2), Gaussian(10, 10), Gaussian(4, 5), Gaussian(6, 7))

  lemma InspectionExample()
    ensures Determinant(DemoMatrix) == Gaussian(-1, -3)
    ensures Len(DemoMatrix) == 4
    ensures GetItem(DemoMatrix, 0, 1) == Ok(Gaussian(2, 3))
    ensures SetItem(DemoMatrix, 0, 1, Gaussian(10, 10)) == Assigned(UpdatedMatrix)
  {
  }

  /** `matrix + ComplexMatrix(1, 1, 1, 1)` adds one to every real part. */
  lemma AdditionExample()
    ensures Plus(UpdatedMatrix, MatrixArg(Ones))
         == Ok(Matrix(Gaussian(2, 2), Gaussian(11, 10), Gaussian(5, 5), Gaussian(7, 7)))
  {
    assert Plus(UpdatedMatrix, MatrixArg(Ones)) == Ok(Sum(UpdatedMatrix, Ones));
  }

  /** `2 * matrix` doubles every entry. */
  lemma ScalingExample()
    ensures RTimes(Real(2), "int", UpdatedMatrix)
         == Ok(Matrix(Gaussian(2, 4), Gaussian(20, 20), Gaussian(8, 10), Gaussian(12, 14)))
  {
    DoubleUpdated();
  }

  lemma DoubleUpdated()
    ensures Scale(UpdatedMatrix, Real(2))
         == Matrix(Gaussian(2, 4), Gaussian(20, 20), Gaussian(8, 10), Gaussian(12, 14))
  {
    var m := UpdatedMatrix;
    GMulReal(m.m00, 2);
    GMulReal(m.m01, 2);
    GMulReal(m.m10, 2);
    GMulReal(m.m11, 2);
  }

  lemma IterationExample()
    ensures Iter(UpdatedMatrix) == [Gaussian(1, 2), Gaussian(10, 10), Gaussian(4, 5), Gaussian(6, 7)]
    ensures Equals(UpdatedMatrix, MatrixArg(Ones)) == Ok(false)
  {
  }
}

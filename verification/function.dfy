/**
 The function examples of Beginner/Functions/function.py: the recursive
 `factorial` with its call announcements, the map/filter/reduce examples, the
 `log_decorator` wrapper and the generic `invoke_function`.
 */
module Functions {
  import opened Results
  import opened Text
  import Builtins

  // ---------------------------------------------------------------------------
  // factorial(n)

  /** `factorial(n)` for `n >= 0`: at least 1 and at least `n`. */
  function Factorial(n: nat): (r: nat)
    ensures r >= 1 && r >= n
  {
    if n == 0 then 1 else n * Factorial(n - 1)
  }

  /**
   A negative argument never meets the base case `n == 0`: the recursion goes on
   until the interpreter's recursion limit raises `RecursionError`.
   */
  const RecursionLimit: Exception := Error(RecursionError, "maximum recursion depth exceeded")

  /** A call `factorial(n)` for any int: a value for `n >= 0`, `RecursionError` below. */
  function FactorialCall(n: int): (r: Result<int>)
    ensures r.Ok? <==> n >= 0
    ensures r.Ok? ==> r.value >= 1 && r.value == Factorial(n)
    ensures r.Err? ==> r.error.kind == RecursionError
  {
    if n < 0 then Err(RecursionLimit) else Ok(Factorial(n))
  }

  /** The line `factorial(k)` prints on entry. */
  function Announcement(k: int): string {
    "called for " + IntToString(k)
  }

  /**
   `factorial(n)` with its printed trace: the calls for n, n-1, ..., 0 announce
   themselves in that order before any of them returns, and the product is built
   on the way back.
   */
  method TracedFactorial(n: nat) returns (r: nat, announced: seq<string>)
    ensures r == Factorial(n)
    ensures |announced| == n + 1
    ensures forall i :: 0 <= i <= n ==> announced[i] == Announcement(n - i)
  {
    r := 1;
    announced := [];
    var k: int := n;
    while k >= 0
      invariant -1 <= k <= n
      invariant |announced| == n - k
      invariant forall i :: 0 <= i < |announced| ==> announced[i] == Announcement(n - i)
      invariant r * Factorial(if k < 0 then 0 else k) == Factorial(n)
      decreases k + 1
    {
      announced := announced + [Announcement(k)];
      if k > 0 {
        Regroup(r, k, Factorial(k - 1));
        r := r * k;
      }
      k := k - 1;
    }
  }

  /** Moving a factor of a three-way product from one end to the other. */
  lemma Regroup(a: int, b: int, c: int)
    ensures a * (b * c) == (a * b) * c
  {
  }

  /** `factorial(n) == reduce(lambda x, y: x * y, range(1, n + 1))` for `n >= 1`: the product of 1..n. */
  lemma {:induction false} FactorialIsProduct(n: nat)
    ensures Builtins.Product(Builtins.Range(1, n + 1)) == Factorial(n)
    ensures n >= 1 ==> Builtins.Reduce(Builtins.Mul, Builtins.Range(1, n + 1)) == Ok(Factorial(n))
  {
    ProductOfTail(0, n);
    if n >= 1 {
      Builtins.ReduceMulIsProduct(Builtins.Range(1, n + 1));
    }
  }

  /** The product of k+1..n times `factorial(k)` is `factorial(n)`. */
  lemma {:induction false} ProductOfTail(k: nat, n: nat)
    requires k <= n
    ensures Builtins.Product(Builtins.Range(k + 1, n + 1)) * Factorial(k) == Factorial(n)
    decreases n - k
  {
    if k < n {
      ProductOfTail(k + 1, n);
      var tail := Builtins.Range(k + 2, n + 1);
      var rest, f := Builtins.Product(tail), Factorial(k);
      assert Builtins.Range(k + 1, n + 1) == [k + 1] + tail;
      assert ([k + 1] + tail)[1..] == tail;
      assert Builtins.Product(Builtins.Range(k + 1, n + 1)) == (k + 1) * rest;
      assert Factorial(k + 1) == (k + 1) * f;
      Regroup(rest, k + 1, f);
      assert (k + 1) * rest == rest * (k + 1);
    } else {
      assert Builtins.Range(k + 1, n + 1) == [];
    }
  }

  lemma FactorialExample()
    ensures FactorialCall(5) == Ok(120)
  {
  }

  method TracedFactorialExample() returns (r: nat, announced: seq<string>)
    ensures r == 120 && |announced| == 6
    ensures announced[0] == "called for 5" && announced[5] == "called for 0"
  {
    r, announced := TracedFactorial(5);
    assert announced[0] == Announcement(5);
    assert announced[5] == Announcement(0);
  }

  // ---------------------------------------------------------------------------
  // map, filter and reduce over [1, 2, 3, 4]

  lemma MapFilterReduceExample()
    ensures Builtins.Map(Builtins.Square, [1, 2, 3, 4]) == [1, 4, 9, 16]
    ensures Builtins.Filter(Builtins.IsEven, [1, 2, 3, 4]) == [2, 4]
    ensures Builtins.Reduce(Builtins.Mul, [1, 2, 3, 4]) == Ok(24)
  {
    var s := [1, 2, 3, 4];
    assert s[1..] == [2, 3, 4] && s[1..][1..] == [3, 4] && s[1..][1..][1..] == [4];
  }

  // ---------------------------------------------------------------------------
  // log_decorator

  /** `repr` of a tuple of two ints, as `{args}` prints it. */
  function PairRepr(a: int, b: int): string {
    "(" + IntToString(a) + ", " + IntToString(b) + ")"
  }

  /** One `'name': value` entry of a dict repr; the key is a str, the value shown by `vrepr`. */
  function DictEntry<V>(vrepr: V -> string, item: (string, V)): (e: string)
    ensures |e| >= 2
  {
    Repr(item.0) + ": " + vrepr(item.1)
  }

  /** The entries of a dict repr in insertion order, separated by `, `. */
  function DictEntries<V>(vrepr: V -> string, items: seq<(string, V)>): (r: string)
    ensures items != [] ==> |r| >= 2
  {
    if items == [] then ""
    else if |items| == 1 then DictEntry(vrepr, items[0])
    else DictEntry(vrepr, items[0]) + ", " + DictEntries(vrepr, items[1..])
  }

  /** `repr(kwargs)`: `{}` exactly when no keyword argument was passed, otherwise the entries in braces. */
  function DictRepr<V>(vrepr: V -> string, items: seq<(string, V)>): (r: string)
    ensures r == "{}" <==> items == []
    ensures |r| >= 2 && r[0] == '{' && r[|r| - 1] == '}'
  {
    "{" + DictEntries(vrepr, items) + "}"
  }

  /** Each keyword argument has its entry somewhere in the entries of the dict repr. */
  lemma {:induction false} EntriesShowEach<V>(vrepr: V -> string, items: seq<(string, V)>, i: nat)
    requires i < |items|
    ensures Occurs(DictEntry(vrepr, items[i]), DictEntries(vrepr, items))
    decreases i
  {
    var first := DictEntry(vrepr, items[0]);
    if i == 0 {
      if |items| == 1 {
        assert OccursAt(first, DictEntries(vrepr, items), 0);
      } else {
        assert DictEntries(vrepr, items)[..|first|] == first;
        assert OccursAt(first, DictEntries(vrepr, items), 0);
      }
    } else {
      var rest := DictEntries(vrepr, items[1..]);
      EntriesShowEach(vrepr, items[1..], i - 1);
      assert items[1..][i - 1] == items[i];
      OccursInside(DictEntry(vrepr, items[i]), first + ", ", rest, "");
      assert DictEntries(vrepr, items) == first + ", " + rest + "";
    }
  }

  /** The text the log line shows before the keyword arguments. */
  function LogHead(name: string, argsRepr: string): string {
    "Calling " + name + " with " + argsRepr + " and "
  }

  /** The line the wrapper prints before it calls the function it wraps: `Calling {name} with {args} and {kwargs}`. */
  function LogLine<V>(name: string, argsRepr: string, vrepr: V -> string, kwargs: seq<(string, V)>): string {
    LogHead(name, argsRepr) + DictRepr(vrepr, kwargs)
  }

  /**
   The `wrapper` that `log_decorator(func)` returns, called with positional
   arguments `args` and keyword arguments `kwargs` (names and values in call
   order): it prints one line, then forwards both to `func` and returns whatever
   `func` returns (an exception `func` raises, carried in `R`, passes through alike).
   */
  function Logged<A, V, R>(name: string, func: (A, seq<(string, V)>) -> R, repr: A -> string, vrepr: V -> string,
                           args: A, kwargs: seq<(string, V)>): (r: (string, R))
    ensures r.1 == func(args, kwargs)
    ensures r.0 == LogLine(name, repr(args), vrepr, kwargs)
  {
    (LogLine(name, repr(args), vrepr, kwargs), func(args, kwargs))
  }

  /** Each keyword argument has its entry in the dict repr. */
  lemma DictReprShowsEntry<V>(vrepr: V -> string, items: seq<(string, V)>, i: nat)
    requires i < |items|
    ensures Occurs(DictEntry(vrepr, items[i]), DictRepr(vrepr, items))
  {
    EntriesShowEach(vrepr, items, i);
    OccursInside(DictEntry(vrepr, items[i]), "{", DictEntries(vrepr, items), "}");
  }

  /** Every keyword argument of the call shows up in the log line as `'name': value`. */
  lemma LoggedShowsKeywords<A, V, R>(name: string, func: (A, seq<(string, V)>) -> R, repr: A -> string,
                                     vrepr: V -> string, args: A, kwargs: seq<(string, V)>, i: nat)
    requires i < |kwargs|
    ensures Occurs(DictEntry(vrepr, kwargs[i]), Logged(name, func, repr, vrepr, args, kwargs).0)
  {
    var head := LogHead(name, repr(args));
    var dict := DictRepr(vrepr, kwargs);
    DictReprShowsEntry(vrepr, kwargs, i);
    OccursInside(DictEntry(vrepr, kwargs[i]), head, dict, "");
    assert head + dict + "" == head + dict;
  }

  /** The `TypeError` for a keyword that names a parameter already bound by position. */
  function MultipleValues(name: string): Exception {
    Error(TypeError, "multiply() got multiple values for argument '" + name + "'")
  }

  /** The `TypeError` for a keyword that names no parameter of `multiply`. */
  function UnexpectedKeyword(name: string): Exception {
    Error(TypeError, "multiply() got an unexpected keyword argument '" + name + "'")
  }

  /** The parameter names of `multiply(a, b)`. */
  predicate IsParameter(name: string) {
    name == "a" || name == "b"
  }

  /**
   `multiply(a, b)` called with both parameters already bound by position: a
   keyword argument either binds one of them a second time or names none, and
   the first keyword decides the error.
   */
  function Multiply(args: (int, int), kwargs: seq<(string, int)>): (r: Result<int>)
    ensures r.Ok? <==> kwargs == []
    ensures r.Ok? ==> r.value == args.0 * args.1
    ensures r.Err? ==> r.error.kind == TypeError
    ensures kwargs != [] && IsParameter(kwargs[0].0) ==> r == Err(MultipleValues(kwargs[0].0))
    ensures kwargs != [] && !IsParameter(kwargs[0].0) ==> r == Err(UnexpectedKeyword(kwargs[0].0))
  {
    if kwargs == [] then Ok(args.0 * args.1)
    else if IsParameter(kwargs[0].0) then Err(MultipleValues(kwargs[0].0))
    else Err(UnexpectedKeyword(kwargs[0].0))
  }

  /**
   Through the decorator, a keyword argument to `multiply` is still printed in
   the log line before the call raises the `TypeError` for it.
   */
  lemma LoggedMultiplyKeyword(args: (int, int), kwargs: seq<(string, int)>)
    requires kwargs != []
    ensures var r := Logged("multiply", Multiply, (p: (int, int)) => PairRepr(p.0, p.1), IntToString, args, kwargs);
      && Occurs(DictEntry(IntToString, kwargs[0]), r.0)
      && r.1.Err? && r.1.error.kind == TypeError
  {
    LoggedShowsKeywords("multiply", Multiply, (p: (int, int)) => PairRepr(p.0, p.1), IntToString, args, kwargs, 0);
  }

  /** `multiply(3, 4)` prints `Calling multiply with (3, 4) and {}` and returns 12. */
  lemma LogDecoratorExample()
    ensures var r := Logged("multiply", Multiply, (args: (int, int)) => PairRepr(args.0, args.1), IntToString, (3, 4), []);
      r.0 == "Calling multiply with (3, 4) and " + "{}" && r.1 == Ok(12)
  {
    MultiplyLogLine();
  }

  lemma MultiplyLogLine()
    ensures LogLine("multiply", PairRepr(3, 4), IntToString, []) == "Calling multiply with (3, 4) and " + "{}"
  {
    assert PairRepr(3, 4) == "(3, 4)";
    assert DictRepr(IntToString, []) == "{}";
    assert LogHead("multiply", "(3, 4)") == "Calling multiply with (3, 4) and ";
  }

  // ---------------------------------------------------------------------------
  // invoke_function

  /** The results the example functions return: ints and strs. */
  datatype Value = IntValue(i: int) | StrValue(s: string)

  /** `str(v)`, as an f-string field formats it. */
  function Str(v: Value): string {
    match v
    case IntValue(i) => IntToString(i)
    case StrValue(s) => s
  }

  const ResultPrefix := "function result: "

  /**
   `invoke_function(func, *args)`: calls `func` with the arguments and prints its
   result; an exception from `func` propagates before anything is printed.
   */
  function InvokeFunction<A>(func: A -> Result<Value>, args: A): (r: Result<string>)
    ensures r.Ok? <==> func(args).Ok?
    ensures r.Err? ==> r.error == func(args).error
    ensures r.Ok? ==> r.value == ResultPrefix + Str(func(args).value)
  {
    var result :- func(args);
    Ok(ResultPrefix + Str(result))
  }

  /** The printed line holds an int result in a form `int()` reads back as that result. */
  lemma InvokeReportsInt<A>(func: A -> Result<Value>, args: A)
    requires func(args).Ok? && func(args).value.IntValue?
    ensures var line := InvokeFunction(func, args).value;
      && line[..|ResultPrefix|] == ResultPrefix
      && ParseInt(line[|ResultPrefix|..]) == Ok(func(args).value.i)
  {
    var line := InvokeFunction(func, args).value;
    assert line[|ResultPrefix|..] == IntToString(func(args).value.i);
    ParseIntToString(func(args).value.i);
  }

  /** `sum_func(a, b)`: `a + b`, which Python defines for two ints and for two strs. */
  function SumFunc(args: (Value, Value)): (r: Result<Value>)
    ensures r.Ok? <==> args.0.IntValue? == args.1.IntValue?
  {
    match args
    case (IntValue(a), IntValue(b)) => Ok(IntValue(a + b))
    case (StrValue(a), StrValue(b)) => Ok(StrValue(a + b))
    case (IntValue(_), StrValue(_)) => Err(Error(TypeError, "unsupported operand type(s) for +: 'int' and 'str'"))
    case (StrValue(_), IntValue(_)) => Err(Error(TypeError, "can only concatenate str (not \"int\") to str"))
  }

  /** `concat_func(string, num)`: `f"{string} {num}"`. */
  function ConcatFunc(args: (Value, Value)): Result<Value> {
    Ok(StrValue(Str(args.0) + " " + Str(args.1)))
  }

  /** `greet_func()`. */
  function GreetFunc(args: ()): Result<Value> {
    Ok(StrValue("Hello, World!"))
  }

  lemma InvokeFunctionExample()
    ensures InvokeFunction(SumFunc, (IntValue(5), IntValue(4))) == Ok("function result: 9")
    ensures InvokeFunction(ConcatFunc, (StrValue("python"), IntValue(3))) == Ok("function result: python 3")
    ensures InvokeFunction(GreetFunc, ()) == Ok("function result: Hello, World!")
    ensures InvokeFunction((ab: (int, int)) => Ok(IntValue(ab.0 + ab.1)), (5, 6)) == Ok("function result: 11")
  {
    assert Str(IntValue(9)) == "9" && ResultPrefix + "9" == "function result: 9";
    assert Str(IntValue(3)) == "3" && Str(StrValue("python")) + " " + "3" == "python 3";
    assert ResultPrefix + "python 3" == "function result: python 3";
    assert ResultPrefix + "Hello, World!" == "function result: Hello, World!";
    assert Str(IntValue(11)) == "11" && ResultPrefix + "11" == "function result: 11";
  }
}

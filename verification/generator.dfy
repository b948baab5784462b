/**
 The generators of Advanced/Generator/generator.py.

 A generator is modelled by its suspended frame: a state `S` and a step
 function that, resumed in that state, either yields a value and the state to
 resume from next time, or runs off its end. `next(gen)` on a finished
 generator raises `StopIteration` and leaves it finished.
 The `grep` coroutine is modelled by the lines it prints for the lines sent to it.
 */
module Generators {
  import opened Results
  import opened Text
  import Decorators

  /** What resuming a generator frame does: yield a value and suspend again, or finish. */
  datatype Step<S, T> = Yield(value: T, resume: S) | Finished

  const Exhausted: Exception := Error(StopIteration, "")

  /** `next(gen)`: the yielded value and the frame afterwards; a finished frame stays as it is. */
  function Next<S, T>(step: S -> Step<S, T>, s: S): (r: (Result<T>, S))
    ensures r.0.Err? <==> step(s).Finished?
    ensures r.0.Err? ==> r.0.error == Exhausted && r.1 == s
    ensures r.0.Ok? ==> r.0.value == step(s).value && r.1 == step(s).resume
  {
    match step(s)
    case Yield(v, s') => (Ok(v), s')
    case Finished => (Err(Exhausted), s)
  }

  /** `k` successive calls of `next(gen)`, with the frame they leave behind. */
  function NextN<S, T>(step: S -> Step<S, T>, s: S, k: nat): (r: (seq<Result<T>>, S))
    ensures |r.0| == k
    ensures k > 0 ==> r.0[0] == Next(step, s).0
    decreases k
  {
    if k == 0 then ([], s)
    else
      var (first, s') := Next(step, s);
      var (rest, s'') := NextN(step, s', k - 1);
      ([first] + rest, s'')
  }

  // ---------------------------------------------------------------------------
  // count_up_to(n)

  /** The body of `count_up_to(n)` resumed with `count` holding `count`. */
  function CountUpToStep(n: int, count: int): Step<int, int> {
    if count <= n then Yield(count, count + 1) else Finished
  }

  /** The frame of a fresh `count_up_to(n)`. */
  const CountUpToStart := 1

  /** From `count` on, call `i` yields `count + i` while that is at most `n` and raises after. */
  lemma {:induction false} CountUpToFrom(n: int, count: int, k: nat, i: nat)
    requires i < k
    ensures NextN(c => CountUpToStep(n, c), count, k).0[i]
         == if count + i <= n then Ok(count + i) else Err(Exhausted)
    decreases k
  {
    var step := c => CountUpToStep(n, c);
    if i > 0 {
      CountUpToFrom(n, Next(step, count).1, k - 1, i - 1);
    }
  }

  /** `count_up_to(n)` yields exactly 1, 2, ..., n and then raises `StopIteration`. */
  lemma CountUpToYields(n: int, k: nat, i: nat)
    requires i < k
    ensures NextN(c => CountUpToStep(n, c), CountUpToStart, k).0[i]
         == if i < n then Ok(i + 1) else Err(Exhausted)
  {
    CountUpToFrom(n, CountUpToStart, k, i);
  }

  /** `for count in count_up_to(n)`: the values the loop sees, resuming the frame until it finishes. */
  method CountUpTo(n: int) returns (out: seq<int>)
    ensures |out| == if n < 1 then 0 else n
    ensures forall i :: 0 <= i < |out| ==> out[i] == i + 1
  {
    out := [];
    var count := CountUpToStart;
    while CountUpToStep(n, count).Yield?
      invariant count == |out| + 1
      invariant count <= if n < 1 then 1 else n + 1
      invariant forall i :: 0 <= i < |out| ==> out[i] == i + 1
      decreases n - count
    {
      var step := CountUpToStep(n, count);
      out := out + [step.value];
      count := step.resume;
    }
  }

  lemma CountUpToExample()
    ensures NextN(c => CountUpToStep(3, c), CountUpToStart, 4).0
         == [Ok(1), Ok(2), Ok(3), Err(Exhausted)]
  {
    CountUpToYields(3, 4, 0);
    CountUpToYields(3, 4, 1);
    CountUpToYields(3, 4, 2);
    CountUpToYields(3, 4, 3);
  }

  method CountUpToFive() returns (out: seq<int>)
    ensures out == [1, 2, 3, 4, 5]
  {
    out := CountUpTo(5);
  }

  // ---------------------------------------------------------------------------
  // even_numbers()

  /** The body of `even_numbers()` resumed with `num` holding `num`; it never finishes. */
  function EvenStep(num: int): Step<int, int> {
    Yield(num, num + 2)
  }

  /** From `num` on, call `i` yields `num + 2 * i`. */
  lemma {:induction false} EvenFrom(num: int, k: nat, i: nat)
    requires i < k
    ensures NextN(EvenStep, num, k).0[i] == Ok(num + 2 * i)
    decreases k
  {
    if i > 0 {
      EvenFrom(num + 2, k - 1, i - 1);
    }
  }

  /** The k-th value of `even_numbers()` is `2k`, and every call returns. */
  lemma EvenNumbersYield(k: nat, i: nat)
    requires i < k
    ensures NextN(EvenStep, 0, k).0[i] == Ok(2 * i)
  {
    EvenFrom(0, k, i);
  }

  /** `[next(gen_even) for x in range(5)]`. */
  lemma EvenNumbersExample()
    ensures NextN(EvenStep, 0, 5).0 == [Ok(0), Ok(2), Ok(4), Ok(6), Ok(8)]
  {
    EvenNumbersYield(5, 0);
    EvenNumbersYield(5, 1);
    EvenNumbersYield(5, 2);
    EvenNumbersYield(5, 3);
    EvenNumbersYield(5, 4);
  }

  // ---------------------------------------------------------------------------
  // numbers() and squares(gen)

  /** The body of `numbers()`: `for i in range(5): yield i`. */
  function NumbersStep(i: int): Step<int, int> {
    if i < 5 then Yield(i, i + 1) else Finished
  }

  /** `squares(gen)` wrapped around the frame of `gen`: each value `gen` yields is yielded squared. */
  function SquaresStep<S>(inner: S -> Step<S, int>, s: S): Step<S, int> {
    match inner(s)
    case Yield(v, s') => Yield(v * v, s')
    case Finished => Finished
  }

  /** `squares` makes the same number of calls succeed as its source, each value squared, in order. */
  lemma {:induction false} SquaresPreserves<S>(inner: S -> Step<S, int>, s: S, k: nat, i: nat)
    requires i < k
    ensures var sq := NextN(t => SquaresStep(inner, t), s, k).0[i];
            var src := NextN(inner, s, k).0[i];
            sq.Ok? == src.Ok? && (src.Ok? ==> sq.value == src.value * src.value)
            && (src.Err? ==> sq.error == src.error)
    decreases k
  {
    if i > 0 {
      var outer := t => SquaresStep(inner, t);
      assert Next(outer, s).1 == Next(inner, s).1;
      SquaresPreserves(inner, Next(inner, s).1, k - 1, i - 1);
    }
  }

  /** `for result in squares(numbers())`: 0, 1, 4, 9, 16, and then the loop ends. */
  lemma SquaresExample()
    ensures NextN(t => SquaresStep(NumbersStep, t), 0, 6).0
         == [Ok(0), Ok(1), Ok(4), Ok(9), Ok(16), Err(Exhausted)]
  {
  }

  // ---------------------------------------------------------------------------
  // infinite_fibonacci()

  /** The body of `infinite_fibonacci()` resumed with `a, b` holding the pair; it never finishes. */
  function FibonacciStep(ab: (int, int)): Step<(int, int), int> {
    Yield(ab.0, (ab.1, ab.0 + ab.1))
  }

  /** From the pair `(fibonacci(j), fibonacci(j + 1))`, call `i` yields `fibonacci(j + i)`. */
  lemma {:induction false} FibonacciFrom(j: nat, k: nat, i: nat)
    requires i < k
    ensures NextN(FibonacciStep, (Decorators.Fibonacci(j), Decorators.Fibonacci(j + 1)), k).0[i]
         == Ok(Decorators.Fibonacci(j + i))
    decreases k
  {
    if i > 0 {
      var ab := (Decorators.Fibonacci(j), Decorators.Fibonacci(j + 1));
      assert Next(FibonacciStep, ab).1 == (Decorators.Fibonacci(j + 1), Decorators.Fibonacci(j + 2));
      assert NextN(FibonacciStep, ab, k).0[i] == NextN(FibonacciStep, Next(FibonacciStep, ab).1, k - 1).0[i - 1];
      FibonacciFrom(j + 1, k - 1, i - 1);
    }
  }

  /** `infinite_fibonacci()` yields the same numbers as the recurrence of the decorators example. */
  lemma InfiniteFibonacciYields(k: nat, i: nat)
    requires i < k
    ensures NextN(FibonacciStep, (0, 1), k).0[i] == Ok(Decorators.Fibonacci(i))
  {
    FibonacciFrom(0, k, i);
  }

  /** `[next(gen) for i in range(4)]`. */
  lemma InfiniteFibonacciExample()
    ensures NextN(FibonacciStep, (0, 1), 4).0 == [Ok(0), Ok(1), Ok(1), Ok(2)]
  {
  }

  // ---------------------------------------------------------------------------
  // grep(pattern)

  /** What `next(search)` prints when it primes the coroutine. */
  function GrepHeader(pattern: string): string {
    "Searching for '" + pattern + "'"
  }

  /** The sent lines `grep(pattern)` prints: those holding `pattern`, in the order they were sent. */
  function Matching(pattern: string, lines: seq<string>): (r: seq<string>)
    ensures |r| <= |lines|
    ensures forall i :: 0 <= i < |r| ==> r[i] in lines && Occurs(pattern, r[i])
    ensures forall i :: 0 <= i < |lines| && Occurs(pattern, lines[i]) ==> lines[i] in r
  {
    if lines == [] then []
    else
      ContainsIffOccurs(lines[0], pattern);
      (if Contains(lines[0], pattern) then [lines[0]] else []) + Matching(pattern, lines[1..])
  }

  /** Lines sent later are printed later. */
  lemma {:induction false} MatchingAppend(pattern: string, a: seq<string>, b: seq<string>)
    ensures Matching(pattern, a + b) == Matching(pattern, a) + Matching(pattern, b)
  {
    if a == [] {
      assert a + b == b;
    } else {
      assert (a + b)[1..] == a[1..] + b;
      MatchingAppend(pattern, a[1..], b);
    }
  }

  /** Priming `grep(pattern)` and sending it `sent` one line at a time: the lines it prints. */
  method Grep(pattern: string, sent: seq<string>) returns (printed: seq<string>)
    ensures |printed| >= 1 && printed[0] == GrepHeader(pattern)
    ensures printed[1..] == Matching(pattern, sent)
  {
    printed := [GrepHeader(pattern)];
    var i := 0;
    while i < |sent|
      invariant 0 <= i <= |sent|
      invariant |printed| >= 1 && printed[0] == GrepHeader(pattern)
      invariant printed[1..] == Matching(pattern, sent[..i])
    {
      var line := sent[i];
      MatchingAppend(pattern, sent[..i], [line]);
      assert sent[..i + 1] == sent[..i] + [line];
      ContainsIffOccurs(line, pattern);
      if Contains(line, pattern) {
        printed := printed + [line];
      }
      i := i + 1;
    }
    assert sent[..|sent|] == sent;
  }

  /** `grep("python")` sent two lines prints the header and the first line only. */
  lemma GrepExample()
    ensures Matching("python", ["this is python file", "this is c example"]) == ["this is python file"]
  {
    var hit, miss := "this is python file", "this is c example";
    assert OccursAt("python", hit, 8);
    assert !Occurs("python", miss) by {
      var head := miss[..12];
      assert head == "this is c ex";
      assert 'p' !in head;
      forall i: nat | i + 6 <= |miss|
        ensures !OccursAt("python", miss, i)
      {
        assert miss[i] == head[i];
        assert miss[i..i + 6][0] == miss[i];
      }
    }
    ContainsIffOccurs(hit, "python");
    ContainsIffOccurs(miss, "python");
  }
}

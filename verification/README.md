# Python tutorial examples, modelled in Dafny

This project models the parts of a Python tutorial collection that have their own logic, and proves what the tutorial promises about them. The parts are:

- the validated properties, `fibonacci`, `singleton` and `total_ordering` examples in Advanced/Decorators;
- composition (a car report, delegation, and an order state machine) in Advanced/OOP/composition.py;
- the 2x2 `ComplexMatrix` with its dunder methods;
- the generators: `count_up_to`, `even_numbers`, `numbers`/`squares`, `infinite_fibonacci` and `grep`;
- the recursive, higher-order and decorator functions;
- `BankAccount`;
- the exception-handling examples;
- the `sorted`/`filter`/`reduce`/`map` examples with lambdas;
- the abstract `Shape`.

Each Python source file gets one module:

| module | source file |
|---|---|
| `Decorators` | decorators.py |
| `Composition` | composition.py |
| `SpecialMethods` | special_method.py |
| `Generators` | generator.py |
| `Functions` | function.py |
| `BankAccounts` | class_object.py |
| `ExceptionHandling` | exception_handling.py |
| `Lambdas` | lambda.py |
| `MapExamples` | map.py |
| `Abstraction` | abstraction.py |

Three shared modules model the Python built-ins the examples rely on:

- `Results` models exceptions as values:
  - `Result` is a value or a raised exception. An exception has a class, a message, and an optional `__cause__`.
  - `Assignment` is the outcome of a property setter: either assigned, or rejected with the unchanged object.
- `Text` models string functions:
  - `str(int)`, and `int(str)` with its `ValueError` message;
  - `repr(str)`;
  - `sep.join`/`split`;
  - the substring test `in`.
- `Builtins` models `map`, `filter`, `functools.reduce`, `range` and `sorted(key=...)`.

How Python features are modelled:

- Objects are immutable datatypes. A method that mutates returns the new object.
- A `print` is modelled by the text it prints.
- A generator is a step function from its suspended state to "yield a value and a new state" or "finished". `next` is `Generators.Next`.
- Python ints are unbounded, so they are Dafny `int` and nothing wraps around.
- Complex matrix entries are Gaussian integers (complex numbers with integer parts), so every matrix operation is exact.

The code and one of its comments disagree in one place, and the model follows the code. At Advanced/OOP/composition.py:203 the comment gives the fourth message as "Order is completed", without a full stop. The code at line 188 returns "Order is completed.".

## Model

| member | source | states |
|---|---|---|
| Decorators.SetAge | Advanced/Decorators/decorators.py:16-21 | a negative age is rejected with ValueError "Age can not be negative" and leaves the person unchanged; every age >= 0, including 0, is stored exactly |
| Decorators.SetAgeValidity | Advanced/Decorators/decorators.py:8-21 | after a setter call the age is valid iff the new age was non-negative or the old one already was: only the setter guards the invariant, the constructor does not |
| Decorators.SetWidth | Advanced/Decorators/decorators.py:47-51 | width <= 0 is rejected with "Width must be positive." and changes nothing; otherwise only the width changes and the height is kept |
| Decorators.SetHeight | Advanced/Decorators/decorators.py:57-61 | height <= 0 is rejected with "Height must be positive." and changes nothing; otherwise only the height changes |
| Decorators.Area | Advanced/Decorators/decorators.py:63-66 | for positive sides the area is at least each side |
| Decorators.Perimeter | Advanced/Decorators/decorators.py:68-71 | for positive sides the perimeter is at least 4 |
| Decorators.SettersPreserveValidity | Advanced/Decorators/decorators.py:47-61 | both setters keep a rectangle with positive sides valid, whatever value they are given |
| Decorators.AreaAfterSetWidth | Advanced/Decorators/decorators.py:47-71 | after a width assignment, area and perimeter are recomputed from the accepted width, or from the old width if it was rejected |
| Decorators.RectangleExample | Advanced/Decorators/decorators.py:73-79 | 5 x 10 has area 50 and perimeter 30; setting width 7 gives Rectangle(7, 10) with area 70 |
| Decorators.ValueAfterSetValue | Advanced/Decorators/decorators.py:84-100 | the class property reads back what `set_value` stored, and reading it through an instance or the class gives the same value |
| Decorators.ClassPropertyExample | Advanced/Decorators/decorators.py:102-104 | `MyClass.value` is 42, then 80 after `set_value(80)` |
| Decorators.Fibonacci | Advanced/Decorators/decorators.py:113-116 | the recurrence never yields a negative value for n >= 0 |
| Decorators.FibonacciMonotone | Advanced/Decorators/decorators.py:113-116 | from 0 on the sequence is non-negative and never decreases |
| Decorators.CachedFibonacci | Advanced/Decorators/decorators.py:112-116 | the memoised computation returns the recurrence's value, and every cache entry holds the recurrence's value for its key |
| Decorators.FibonacciFifty | Advanced/Decorators/decorators.py:118-119 | fibonacci(50) == 12586269025 |
| Decorators.GetInstance | Advanced/Decorators/decorators.py:285-291 | the first call constructs from its arguments and records the instance; once an instance exists the call returns it and changes nothing |
| Decorators.GetInstances | Advanced/Decorators/decorators.py:285-291 | a run of calls yields one object per call and keeps the constructor |
| Decorators.GetInstancesAfterFirst | Advanced/Decorators/decorators.py:287-290 | once an instance exists, every later call returns it, whatever its arguments |
| Decorators.SingletonReturnsFirst | Advanced/Decorators/decorators.py:293-300 | from a fresh decorator, every call returns the object built from the first call's arguments, so `obj1 is obj2` |
| Decorators.DerivedComparisons | Advanced/Decorators/decorators.py:322-333 | the `<=`, `>` and `>=` that `total_ordering` derives from `__lt__`/`__eq__` agree with comparing the values, and `a > b` iff `b < a` |
| Decorators.Eq | Advanced/Decorators/decorators.py:329-330 | the hand-written `__eq__` holds exactly between numbers wrapping the same value |
| Decorators.Lt | Advanced/Decorators/decorators.py:332-333 | the hand-written `__lt__` never holds between equal numbers |
| Decorators.Le | Advanced/Decorators/decorators.py:322-333 | the derived `a <= b` (`a < b or a == b`) holds exactly when `b < a` does not |
| Decorators.Gt | Advanced/Decorators/decorators.py:322-333 | the derived `a > b` (`not a < b and a != b`) holds exactly when `b < a` |
| Decorators.Ge | Advanced/Decorators/decorators.py:322-333 | the derived `a >= b` (`not a < b`) holds exactly when `b <= a` |
| Decorators.NumberLtIsStrictTotalOrder | Advanced/Decorators/decorators.py:332-333 | `__lt__` on `Number` is irreflexive, transitive and total on distinct numbers |
| Decorators.NumberExample | Advanced/Decorators/decorators.py:335-339 | Number(5) < Number(10), <= holds, > does not |
| Composition.PartLinesSingle | Advanced/OOP/composition.py:8-22 | the header, the engine lines and the wheel lines hold no line break when the make, model and engine kind hold none |
| Composition.ReportLines | Advanced/OOP/composition.py:33-41 | a report split at line breaks is the header, the engine line, then the wheel lines; with no wheels the last line is empty |
| Composition.CarStartLines | Advanced/OOP/composition.py:33-36 | `start()` reads as "make model:", the engine's start line, then each wheel's rotate line in list order |
| Composition.CarStopLines | Advanced/OOP/composition.py:38-41 | `stop()` reads as "make model:", the engine's stop line, then each wheel's stop line in list order |
| Composition.PayReportsAmount | Advanced/OOP/composition.py:112-126 | the payment confirmation starts with "Processed $", ends with " with <processor>.", and the text between reads back as the amount paid |
| Composition.CheckoutExample | Advanced/OOP/composition.py:128-133 | paying 100 by PayPal and 200 by credit card give the two documented confirmations |
| Composition.NotifyCarriesMessage | Advanced/OOP/composition.py:139-152 | `notify` returns the notifier's prefix followed by the message, so different messages give different notifications |
| Composition.NextState | Advanced/OOP/composition.py:166-196 | the abstract base raises NotImplementedError and leaves the order alone; each concrete state advances one stage; Complete stays put and answers "Order is completed." |
| Composition.Run | Advanced/OOP/composition.py:195-196 | k calls of `next_state` give k replies |
| Composition.CompleteIsAbsorbing | Advanced/OOP/composition.py:186-188 | from Complete, any number of calls leave the state and answer "Order is completed." each time |
| Composition.NewOrderLifecycle | Advanced/OOP/composition.py:171-196 | a new order (Paid) ships, delivers and completes on its first three calls, then only answers "Order is completed."; nothing raises |
| Composition.OrderExample | Advanced/OOP/composition.py:198-203 | the four documented calls return the four documented messages in order |
| SpecialMethods.Len | Advanced/OOP/special_method.py:14-15 | `len` equals the number of elements iteration yields |
| SpecialMethods.Position | Advanced/OOP/special_method.py:18-20 | an index into a 2-element list is accepted iff it lies in -2..1, and a negative one counts from the end |
| SpecialMethods.GetItem | Advanced/OOP/special_method.py:18-20 | `m[r, c]` is the row-major element (r, c) for valid indices, and otherwise IndexError "list index out of range" |
| SpecialMethods.SetItem | Advanced/OOP/special_method.py:22-24 | an invalid index raises (a bad row as on reading, a bad column "list assignment index out of range") and leaves the matrix unchanged |
| SpecialMethods.WithEntry | Advanced/OOP/special_method.py:22-24 | replacing one entry sets it and keeps the other three |
| SpecialMethods.GetAfterSet | Advanced/OOP/special_method.py:18-24 | after `m[r, c] = v`, `m[r, c]` returns v |
| SpecialMethods.SetLeavesOthers | Advanced/OOP/special_method.py:22-24 | `m[r, c] = v` leaves every other position's value unchanged |
| SpecialMethods.SetWhatIsThere | Advanced/OOP/special_method.py:18-24 | storing the value already at a position changes nothing |
| SpecialMethods.Sum | Advanced/OOP/special_method.py:29-32 | each entry of the sum is the sum of the corresponding entries |
| SpecialMethods.AddMethod | Advanced/OOP/special_method.py:27-33 | `__add__` gives the element-wise sum for a matrix operand and NotImplemented for any other |
| SpecialMethods.Plus | Advanced/OOP/special_method.py:27-33 | `m + x` succeeds iff `__add__` does; otherwise TypeError "unsupported operand type(s) for +" naming both types |
| SpecialMethods.RAddMethod | Advanced/OOP/special_method.py:35-36 | `__radd__` succeeds only for a matrix operand, with the element-wise sum, and raises TypeError otherwise |
| SpecialMethods.IAdd | Advanced/OOP/special_method.py:38-41 | `m += x` stores the element-wise sum for a matrix, and otherwise raises TypeError and leaves m unchanged |
| SpecialMethods.PlusCommutes | Advanced/OOP/special_method.py:27-33 | matrix addition commutes |
| SpecialMethods.Scale | Advanced/OOP/special_method.py:46-49 | each entry of the scaled matrix is the entry times the scalar |
| SpecialMethods.MulMethod | Advanced/OOP/special_method.py:44-50 | `__mul__` scales for a number operand and gives NotImplemented otherwise |
| SpecialMethods.Times | Advanced/OOP/special_method.py:44-50 | `m * x` succeeds iff x is a number; a str, list or tuple operand raises TypeError "can't multiply sequence by non-int of type 'ComplexMatrix'" through the sequence-repetition fallback; any other type raises TypeError "unsupported operand type(s) for *" |
| SpecialMethods.RTimes | Advanced/OOP/special_method.py:52-53 | `k * m` for a number k never raises |
| SpecialMethods.ScaleBothSides | Advanced/OOP/special_method.py:44-53 | `k * m` equals `m * k`, and each of its entries is k times the entry |
| SpecialMethods.Equals | Advanced/OOP/special_method.py:56-57 | for a matrix operand, `==` holds iff all four entries are equal; any other operand raises AttributeError "... object has no attribute 'matrix'" |
| SpecialMethods.Determinant | Advanced/OOP/special_method.py:60-61 | a triangular matrix's determinant is the product of its diagonal, and a matrix with a zero row has determinant 0 |
| SpecialMethods.DeterminantSwapRows | Advanced/OOP/special_method.py:60-61 | exchanging the two rows negates the determinant |
| SpecialMethods.DeterminantOfScale | Advanced/OOP/special_method.py:60-61 | the determinant of k·m is k² times the determinant of m |
| SpecialMethods.Iter | Advanced/OOP/special_method.py:64-65 | iteration yields four entries in row-major order |
| SpecialMethods.IterRoundTrip | Advanced/OOP/special_method.py:64-65 | rebuilding a matrix from its iteration gives it back |
| SpecialMethods.IterInjective | Advanced/OOP/special_method.py:64-65 | two matrices iterate alike iff they are equal |
| SpecialMethods.InspectionExample | Advanced/OOP/special_method.py:80-92 | the demo matrix has determinant -1-3j, length 4 and (0, 1) entry 2+3j; setting (0, 1) to 10+10j gives the updated matrix |
| SpecialMethods.AdditionExample | Advanced/OOP/special_method.py:94-97 | adding ComplexMatrix(1, 1, 1, 1) gives (2+2j, 11+10j, 5+5j, 7+7j) |
| SpecialMethods.ScalingExample | Advanced/OOP/special_method.py:99-101 | `2 * matrix` doubles every entry |
| SpecialMethods.IterationExample | Advanced/OOP/special_method.py:103-109 | iteration yields the four updated entries, and the matrix is not equal to the ones matrix |
| Generators.Next | Advanced/Generator/generator.py:9-13 | `next` returns the yielded value and the resumed state, or raises StopIteration and leaves a finished generator as it was |
| Generators.NextN | Advanced/Generator/generator.py:32-33 | k calls of `next` give k outcomes, the first being that of one `next` |
| Generators.CountUpToYields | Advanced/Generator/generator.py:3-7 | the i-th `next` on `count_up_to(n)` yields i+1 while i < n, and raises StopIteration after that |
| Generators.CountUpTo | Advanced/Generator/generator.py:15-23 | the for loop over `count_up_to(n)` sees exactly 1..n in increasing order, and nothing when n < 1 |
| Generators.CountUpToExample | Advanced/Generator/generator.py:9-13 | `count_up_to(3)` yields 1, 2, 3, then raises StopIteration |
| Generators.CountUpToFive | Advanced/Generator/generator.py:16-23 | the loop over `count_up_to(5)` sees 1, 2, 3, 4, 5 |
| Generators.EvenNumbersYield | Advanced/Generator/generator.py:26-30 | the i-th value of `even_numbers` is 2i, and it never finishes |
| Generators.EvenNumbersExample | Advanced/Generator/generator.py:32-35 | the first five values are 0, 2, 4, 6, 8 |
| Generators.SquaresPreserves | Advanced/Generator/generator.py:102-104 | `squares(g)` yields the square of each value g yields, in order, and finishes exactly when g does |
| Generators.SquaresExample | Advanced/Generator/generator.py:106-108 | `squares(numbers())` yields 0, 1, 4, 9, 16 and then finishes |
| Generators.InfiniteFibonacciYields | Advanced/Generator/generator.py:113-117 | the i-th value of `infinite_fibonacci` is fibonacci(i) as defined by the recurrence in decorators.py |
| Generators.InfiniteFibonacciExample | Advanced/Generator/generator.py:119-122 | the first four values are 0, 1, 1, 2 |
| Generators.Matching | Advanced/Generator/generator.py:67-70 | every line printed was sent and contains the pattern; every sent line that contains the pattern is printed |
| Generators.MatchingAppend | Advanced/Generator/generator.py:65-70 | what a batch of sends prints is what its first part prints followed by what the rest prints, so output keeps send order |
| Generators.Grep | Advanced/Generator/generator.py:65-70 | `grep` prints the header, then exactly the matching sent lines in send order |
| Generators.GrepExample | Advanced/Generator/generator.py:72-77 | of the two documented lines only "this is python file" is printed |
| Functions.Factorial | Beginner/Functions/function.py:26-30 | factorial(n) is at least 1 and at least n |
| Functions.FactorialCall | Beginner/Functions/function.py:26-30 | the call returns the factorial iff n >= 0; a negative argument never reaches the base case and ends in RecursionError |
| Functions.TracedFactorial | Beginner/Functions/function.py:26-30 | the loop computes the factorial and announces n+1 calls "called for k", k = n down to 0 |
| Functions.FactorialIsProduct | Beginner/Functions/function.py:26-30 | factorial(n) is the product of 1..n, and reducing 1..n with `*` gives it |
| Functions.FactorialExample | Beginner/Functions/function.py:32 | factorial(5) == 120 |
| Functions.TracedFactorialExample | Beginner/Functions/function.py:27-32 | factorial(5) prints six lines, "called for 5" first and "called for 0" last, and returns 120 |
| Functions.MapFilterReduceExample | Beginner/Functions/function.py:48-60 | squares of [1, 2, 3, 4] are [1, 4, 9, 16]; the evens are [2, 4]; the product is 24 |
| Functions.Logged | Beginner/Functions/function.py:109-113 | the wrapper forwards the positional and keyword arguments and returns exactly what the wrapped function returns; it logs "Calling {name} with {args} and {kwargs}" |
| Functions.LoggedShowsKeywords | Beginner/Functions/function.py:110-111 | every keyword argument of a call appears in its log line as `'name': value` |
| Functions.DictRepr | Beginner/Functions/function.py:111 | `{kwargs}` prints `{}` exactly when no keyword argument was passed, and is always a text in braces |
| Functions.Multiply | Beginner/Functions/function.py:115-117 | with both parameters bound by position, `multiply` returns a·b iff no keyword argument is passed; otherwise it raises TypeError, "got multiple values for argument" when the first keyword names `a` or `b` and "got an unexpected keyword argument" otherwise |
| Functions.LoggedMultiplyKeyword | Beginner/Functions/function.py:109-117 | through the decorator, a keyword argument to `multiply` appears in the log line and the call then raises TypeError |
| Functions.LogDecoratorExample | Beginner/Functions/function.py:115-121 | `multiply(3, 4)` logs "Calling multiply with (3, 4) and {}" and returns 12 |
| Functions.InvokeFunction | Beginner/Functions/function.py:126-128 | `invoke_function` prints "function result: " and the result iff the call succeeds, and propagates the call's exception unchanged otherwise |
| Functions.InvokeReportsInt | Beginner/Functions/function.py:126-128 | for an int result, the printed text after the prefix reads back as that int |
| Functions.SumFunc | Beginner/Functions/function.py:130-131 | `a + b` succeeds iff both are ints or both are strs |
| Functions.InvokeFunctionExample | Beginner/Functions/function.py:139-148 | the four documented calls print "function result: " with 9, "python 3", "Hello, World!" and 11 |
| BankAccounts.Deposit | Advanced/OOP/class_object.py:43-44 | a deposit adds exactly the amount, of any sign, and keeps the name |
| BankAccounts.GetBalance | Advanced/OOP/class_object.py:46-51 | returns the balance and prints the holder's name, leaving the account as it was |
| BankAccounts.DepositAllAddsSum | Advanced/OOP/class_object.py:43-44 | a run of deposits adds their sum and leaves the name alone |
| BankAccounts.DepositsCommute | Advanced/OOP/class_object.py:43-44 | the order of two deposits does not matter |
| BankAccounts.BankAccountExample | Advanced/OOP/class_object.py:55-58 | opening at 1000 and depositing 500 gives balance 1500 for "Dilip" |
| ExceptionHandling.CheckAge | Beginner/Exception_Handling/exception_handling.py:43-46 | `check_age` raises ValueError "You must be 18 or older." iff age < 18, and otherwise returns the age unchanged, 18 included |
| ExceptionHandling.ReportCheckAge | Beginner/Exception_Handling/exception_handling.py:48-51 | the handler prints nothing iff the check passes, and otherwise prints "Error:" and the exception's text |
| ExceptionHandling.CheckAgeExample | Beginner/Exception_Handling/exception_handling.py:48-51 | `check_age(16)` is reported as "Error:You must be 18 or older."; 18 passes |
| ExceptionHandling.ParseOrReport | Beginner/Exception_Handling/exception_handling.py:69-72 | the (ValueError, TypeError) handler prints iff `int(s)` raises |
| ExceptionHandling.ParseWord | Beginner/Exception_Handling/exception_handling.py:70 | a printable-ASCII word of at most 198 characters that starts with a letter is not an int literal, and the message quotes all of it |
| ExceptionHandling.ParseAbc | Beginner/Exception_Handling/exception_handling.py:137 | `int("abc")` raises ValueError "invalid literal for int() with base 10: 'abc'" |
| ExceptionHandling.ParseOrReportExample | Beginner/Exception_Handling/exception_handling.py:68-72 | `int("abc")` is reported as "A ValueError or TypeError occurred." |
| ExceptionHandling.PrintedLineReports | Beginner/Exception_Handling/exception_handling.py:127-130 | a parsed item prints as its number, and that text reads back as the same int; an unparsable one prints "Skipping invalid value: " and the item |
| ExceptionHandling.PrintInts | Beginner/Exception_Handling/exception_handling.py:126-130 | the loop prints one line per item, in order, each as described in the row above, so a bad item never stops the loop |
| ExceptionHandling.PrintIntsExample | Beginner/Exception_Handling/exception_handling.py:124-130 | over ["10", "abc", "30"] the lines are "10", "Skipping invalid value: abc", "30" |
| ExceptionHandling.RaiseFrom | Beginner/Exception_Handling/exception_handling.py:81 | `raise X(msg) from e` gives an X with that message whose `__cause__` is e |
| ExceptionHandling.ExampleChainedExceptions | Beginner/Exception_Handling/exception_handling.py:77-81 | the function raises a RuntimeError whose cause is the ValueError "Initial error." |
| ExceptionHandling.PrintWithCause | Beginner/Exception_Handling/exception_handling.py:85-87 | the handler prints the exception's text, then its cause's text |
| ExceptionHandling.ChainedExample | Beginner/Exception_Handling/exception_handling.py:83-91 | the handler prints "Secondary error occurred." then "Initial error." |
| ExceptionHandling.Reraise | Beginner/Exception_Handling/exception_handling.py:136-140 | a bare `raise` propagates the same exception, unchanged; "Caught an exception." is printed iff a ValueError was caught |
| ExceptionHandling.ReraiseExample | Beginner/Exception_Handling/exception_handling.py:135-149 | `reraise_exception()` prints "Caught an exception.", and the caller prints "invalid literal for int() with base 10: 'abc'" |
| Lambdas.StrLessIsStrictTotalOrder | Beginner/Lambda_Function/lambda.py:50 | str comparison is a strict total order, so sorting by a str key is well defined |
| Lambdas.PairLessIsStrictTotalOrder | Beginner/Lambda_Function/lambda.py:68 | tuple comparison of int pairs is a strict total order |
| Lambdas.SortByNameExample | Beginner/Lambda_Function/lambda.py:47-52 | sorting by name gives (4, 'four'), (1, 'one'), (3, 'three'), (2, 'two') |
| Lambdas.SortByLengthExample | Beginner/Lambda_Function/lambda.py:55-57 | sorting by length gives date, apple, banana, cherry |
| Lambdas.SortByLengthIsStable | Beginner/Lambda_Function/lambda.py:55-57 | for every length, the words of that length keep their input order |
| Lambdas.SortByGradeExample | Beginner/Lambda_Function/lambda.py:59-63 | sorting by grade puts Jane (85) before John (90) |
| Lambdas.SortByTupleExample | Beginner/Lambda_Function/lambda.py:67-70 | sorting by (x[0], x[1]) gives (1, 1), (1, 2), (2, 2), (3, 1) |
| Lambdas.SortByTupleIsLexicographic | Beginner/Lambda_Function/lambda.py:67-70 | every list sorted by a tuple key is ordered by first component, then by second |
| Lambdas.SumOfRange | Beginner/Lambda_Function/lambda.py:41-43 | twice the sum of 1..n is n(n+1) |
| Lambdas.FilterExample | Beginner/Lambda_Function/lambda.py:34-37 | the evens of 1..8 are [2, 4, 6, 8] |
| Lambdas.FilterEvenFromOdd | Beginner/Lambda_Function/lambda.py:36 | of four consecutive ints starting at an odd one, the even filter keeps the second and the fourth |
| Lambdas.ReduceExample | Beginner/Lambda_Function/lambda.py:41-43 | reducing [1..7] with `+` gives 28 |
| Lambdas.MakeMultiplier | Beginner/Lambda_Function/lambda.py:73-74 | the closure multiplies any argument by the captured n |
| Lambdas.MultipliersCompose | Beginner/Lambda_Function/lambda.py:73-74 | applying multipliers by a and then by b is the same as multiplying by a·b |
| Lambdas.MakeMultiplierExample | Beginner/Lambda_Function/lambda.py:76-77 | `make_multiplier(3)(2)` is 6 |
| MapExamples.SquareExamples | Beginner/Map/map.py:5-27 | the squares of 1..6 and of [2, 4, 6, 8] are as documented |
| MapExamples.TwoListExample | Beginner/Map/map.py:30-36 | the two-list map adds position-wise: [11, 22, 33, 44] |
| MapExamples.PairExample | Beginner/Map/map.py:50-53 | the pair sums are [3, 7, 11] |
| MapExamples.SumOfEvenSquares | Beginner/Map/map.py:61-69 | the pipeline raises the empty-reduce TypeError iff no element is even, and otherwise gives a non-negative total |
| MapExamples.NoEvensIffEmpty | Beginner/Map/map.py:65 | the even filter is empty iff no element is even |
| MapExamples.SumOfEvenSquaresIsSum | Beginner/Map/map.py:61-69 | when some element is even, the pipeline gives the sum of the squares of the even elements |
| MapExamples.PipelineExample | Beginner/Map/map.py:61-71 | over 1..6 the result is 56 |
| Abstraction.Instantiate | Advanced/OOP/abstraction.py:8-25 | a call succeeds iff the class has no abstract method and gets as many positional arguments as its `__init__` takes; arguments to `Shape`, which has no `__init__`, are refused with "Shape() takes no arguments" before the abstract-class check; `Shape()` raises the TypeError documented at line 24; every failure is a TypeError; `Rectangle(w, h)` stores both sides |
| Abstraction.Area | Advanced/OOP/abstraction.py:20-21 | the area is 0 exactly when a side is 0, and for positive sides it is at least each side |
| Abstraction.AreaOfConstructed | Advanced/OOP/abstraction.py:14-21 | a rectangle built from w and h has area w·h; no method changes the sides |
| Abstraction.AbstractionExample | Advanced/OOP/abstraction.py:24-26 | `Shape()` raises the abstract-class TypeError, `Shape(10, 20)` raises "Shape() takes no arguments", and `Rectangle(10, 20).area()` is 200 |
| Builtins.Map | Beginner/Map/map.py:8 | `map` keeps the length and applies the function at every position |
| Builtins.Map2 | Beginner/Map/map.py:33 | the two-list `map` applies the function position-wise and stops with the shorter list |
| Builtins.Filter | Beginner/Functions/function.py:54 | `filter` returns no more elements than it was given, all satisfying the predicate |
| Builtins.FilterMembers | Beginner/Functions/function.py:54 | an element is in the filtered list iff it is in the input and satisfies the predicate |
| Builtins.FilterAppend | Beginner/Functions/function.py:54 | filtering a concatenation concatenates the filtered parts, so order is kept |
| Builtins.Reduce | Beginner/Functions/function.py:58-59 | `reduce` without an initial value raises TypeError iff the list is empty |
| Builtins.ReduceAddIsSum | Beginner/Map/map.py:69 | reducing a non-empty list with `+` gives its sum |
| Builtins.ReduceMulIsProduct | Beginner/Functions/function.py:59 | reducing a non-empty list with `*` gives its product |
| Builtins.Range | Advanced/Generator/generator.py:98 | `range(lo, hi)` has max(hi - lo, 0) elements, counting up from lo |
| Builtins.SortedBy | Beginner/Lambda_Function/lambda.py:50 | `sorted` returns as many elements as it is given; its contents, order and stability are stated by Builtins.SortedByCorrect |
| Builtins.SortedBySnoc | Beginner/Lambda_Function/lambda.py:50 | sorting a list with one more element inserts that element into the sorted list |
| Builtins.SortedByPermutes | Beginner/Lambda_Function/lambda.py:50 | `sorted` keeps every element as often as it occurs |
| Builtins.SortedByOrdered | Beginner/Lambda_Function/lambda.py:50 | the result of `sorted` is in key order |
| Builtins.SortedByStable | Beginner/Lambda_Function/lambda.py:56 | the elements with any one key keep their input order |
| Builtins.SortedByCorrect | Beginner/Lambda_Function/lambda.py:50 | `sorted` returns a permutation of its input, in key order, stable |
| Text.NatToString | Advanced/OOP/composition.py:9 | `str(n)` for n >= 0 is a non-empty run of digits with no leading zero |
| Text.DigitsValueOfNatToString | Advanced/OOP/composition.py:9 | reading back the digits of `str(n)` gives n |
| Text.IntToString | Advanced/OOP/composition.py:9 | `str(i)` starts with '-' iff i < 0, followed by digits only |
| Text.ParseInt | Beginner/Exception_Handling/exception_handling.py:128 | `int(s)` succeeds iff s, without the whitespace `int()` skips (ASCII 9-13 and space, and the Unicode spaces), is an optional sign followed by digits; otherwise ValueError with the message of Text.InvalidLiteral |
| Text.InvalidLiteral | Beginner/Exception_Handling/exception_handling.py:137 | the message is "invalid literal for int() with base 10: " followed by the first at most 200 characters of repr(s), all of it when it fits |
| Text.IntSkipsNoBreakSpace | Beginner/Exception_Handling/exception_handling.py:128 | `int()` skips a no-break space before a digit and returns the digit's value |
| Text.IntKeepsSeparator | Beginner/Exception_Handling/exception_handling.py:128 | `int()` does not skip the separators U+001C to U+001F before a digit and raises ValueError |
| Text.ParseIntToString | Beginner/Exception_Handling/exception_handling.py:128 | `int(str(i)) == i` for every int |
| Text.Repr | Beginner/Exception_Handling/exception_handling.py:137 | `repr(s)` is at least two characters longer than s and starts and ends with the same quote character |
| Text.ReprPlain | Beginner/Exception_Handling/exception_handling.py:149 | printable ASCII text without quotes or backslashes is shown by `repr` between single quotes, unchanged |
| Text.SplitJoin | Advanced/OOP/composition.py:36 | splitting a join of separator-free pieces gives the pieces back |
| Text.JoinSplit | Advanced/OOP/composition.py:36 | joining the pieces of a split gives the text back |
| Text.ContainsIffOccurs | Advanced/Generator/generator.py:69 | `pattern in line` holds iff some window of the line spells the pattern |

## Left out

- File I/O is not modelled. This covers `read_large_file`, `FileManager`, `open_file`, the file examples in exception_handling.py, and the cleanup prints of `__enter__`, `__exit__` and `__del__`.
- `input()` and the reciprocal example are not modelled, because they depend on console input and floating point.
- Floating point is not modelled. This covers `Item.total_value`, `Point.distance_from_origin`, and the `float` type hint on `process_payment`; amounts are ints, which is what the examples pass.
- The `complex()` coercion of real-valued arguments is not modelled. Matrix entries are exact Gaussian integers, and a `float` scalar is a number with integer parts.
- pandas, `logging`, `contextlib.suppress`, assertions and the custom exception class are not modelled, because they are library behaviour or have no logic of their own.
- `str(e)` is modelled as the exception's message. That is Python's behaviour for the one-argument exceptions used here.
- The `lru_cache` details are not modelled: `maxsize` eviction, `cache_info` and `cache_clear`. `Decorators.CachedFibonacci` keeps every computed value, which does not change any result.
- The dataclass examples are not modelled: the `frozen`, `order`, `init`, `field` and `metadata` flags and the generated reprs. Neither are `runtime_checkable`, `MethodType`, `partialmethod`, `cached_property`, `wraps`, metaclasses or class decorators. They are Python object machinery with no logic of the tutorial's own.
- The `Student` comparison at decorators.py:162 is not modelled. Its comment claims `True`, but field-order comparison of ("Alice", 90) with ("Bob", 80) gives `False`.
- The `str`/`repr` of matrices is not modelled, because it depends on Python's float formatting of complex numbers.
- Operand types whose reflected operator accepts a matrix are not modelled. Every non-matrix operand of `+`, `*` and `==` is treated as a type with no arithmetic on matrices.
- `echo`, `str.capitalize`, the print-only decorator in function.py, `greet`/`add`/`my_function`, `global`/`nonlocal`, and the `Car` of class_object.py are not modelled. They print or return their input with no logic of their own, and `capitalize` would need Unicode case mapping.
- The lambdas `add`/`greet` and the single-list square `map` in lambda.py are not modelled separately. The same operations are modelled for function.py and map.py.
- Sending to an unprimed generator is not modelled. Every `grep` run starts with `next`, as in the example.
- Functions.FactorialCall: the interpreter's recursion limit is not modelled. With CPython's default limit of 1000 frames, `factorial(n)` for n near 1000 or above raises RecursionError, but the model returns the factorial for every n >= 0. For a negative n only the class of the RecursionError is stated, because its text depends on the interpreter.
- Functions.TracedFactorial: the recursion limit is not modelled. For n near 1000 or above, CPython prints about a thousand announcements and then raises RecursionError; the model announces all n + 1 calls and returns the factorial.
- Decorators.CachedFibonacci: the recursion limit is not modelled. On a fresh cache, `fibonacci(n)` recurses n frames deep, so for n near 1000 or above CPython raises RecursionError; the model returns the value for every n.
- Text.ParseInt: the limit on int/str conversions that Python 3.11 and later apply by default (literals of more than 4300 digits raise ValueError) is not modelled; the model behaves as with the limit switched off (`sys.set_int_max_str_digits(0)`). Underscores between digits and non-ASCII decimal digits, which `int()` accepts, are not accepted by the model.
- Text.IntToString: the 4300-digit limit of Python 3.11 and later on `str(i)` is not modelled, as for Text.ParseInt.
- Text.ParseIntToString: holds for every int only with the 4300-digit conversion limit switched off, as for Text.ParseInt.
- Abstraction.Instantiate: keyword arguments to the constructors are not modelled, and the sides are ints, where Python accepts any object. The messages are those of Python 3.12 and later, whose abstract-class message the source quotes.
- Text.Repr: characters above U+00FF are copied unchanged. CPython escapes those that Unicode does not class as printable, such as U+200B, as `\uhhhh` or `\Uhhhhhhhh`, which needs the Unicode character database. Latin-1 characters are escaped as CPython does.
- `Generators.Matching` states membership in both directions but not counts. Its order and multiplicity are given by `Generators.MatchingAppend`.

/**
 The exception examples of Beginner/Exception_Handling/exception_handling.py
 that carry logic: the `check_age` validator and its handler, a handler
 catching either of two classes, the loop that skips unparsable items,
 chaining with `raise ... from e`, and re-raising with a bare `raise`.
 The `print` calls are modelled by the lines they print.
 */
module ExceptionHandling {
  import opened Results
  import opened Text

  /** `str(e)` for an exception built from a single message. */
  function Str(e: Exception): string {
    e.message
  }

  // ---------------------------------------------------------------------------
  // check_age

  const Underage: Exception := Error(ValueError, "You must be 18 or older.")

  /** `check_age(age)`: raises below 18 and hands back the age otherwise; 18 passes. */
  function CheckAge(age: int): (r: Result<int>)
    ensures r.Err? <==> age < 18
    ensures r.Err? ==> r.error == Underage
    ensures r.Ok? ==> r.value == age
  {
    if age < 18 then Err(Underage) else Ok(age)
  }

  /** `try: check_age(age) except ValueError as e: print(f"Error:{e}")`. */
  function ReportCheckAge(age: int): (printed: seq<string>)
    ensures printed == [] <==> CheckAge(age).Ok?
    ensures printed != [] ==> printed == ["Error:" + Str(CheckAge(age).error)]
  {
    match CheckAge(age)
    case Ok(_) => []
    case Err(e) => ["Error:" + Str(e)]
  }

  /** `check_age(16)` is reported as `Error:You must be 18 or older.`; `check_age(18)` passes. */
  lemma CheckAgeExample()
    ensures ReportCheckAge(16) == ["Error:" + "You must be 18 or older."]
    ensures CheckAge(18) == Ok(18)
  {
  }

  // ---------------------------------------------------------------------------
  // except (ValueError, TypeError)

  /** `try: int(s) except (ValueError, TypeError): print(...)`. */
  function ParseOrReport(s: string): (printed: seq<string>)
    ensures printed != [] <==> ParseInt(s).Err?
  {
    match ParseInt(s)
    case Ok(_) => []
    case Err(e) =>
      if e.kind == ValueError || e.kind == TypeError then ["A ValueError or TypeError occurred."] else []
  }

  /**
   A word of printable ASCII that starts with a letter rather than a sign, digit
   or space is not an int literal; when it is short enough for the message to
   keep all of its repr, the message quotes it as given.
   */
  lemma ParseWord(s: string)
    requires 0 < |s| <= 198 && !IsSpace(s[0]) && !IsSpace(s[|s| - 1])
    requires !IsDigit(s[0]) && s[0] != '+' && s[0] != '-'
    requires forall k :: 0 <= k < |s| ==> IsPlain(s[k])
    ensures ParseInt(s) == Err(Error(ValueError, LiteralPrefix + ("'" + s + "'")))
  {
    StripUnpadded(s);
    ReprPlain(s);
    assert |Repr(s)| <= 200;
    assert !AllDigits(s);
  }

  /** `int("abc")` raises `ValueError`. */
  lemma ParseAbc()
    ensures ParseInt("abc") == Err(Error(ValueError, "invalid literal for int() with base 10: " + "'abc'"))
  {
    var s := "abc";
    assert s[0] == 'a' && s[|s| - 1] == 'c';
    assert forall k :: 0 <= k < |s| ==> IsPlain(s[k]);
    ParseWord(s);
    assert "'" + s + "'" == "'abc'";
  }

  lemma ParseOrReportExample()
    ensures ParseOrReport("abc") == ["A ValueError or TypeError occurred."]
  {
    ParseAbc();
  }

  // ---------------------------------------------------------------------------
  // The loop that skips invalid values

  const SkipPrefix := "Skipping invalid value: "

  /** The line one pass of the loop prints for `item`. */
  function PrintedLine(item: string): string {
    match ParseInt(item)
    case Ok(v) => IntToString(v)
    case Err(_) => SkipPrefix + item
  }

  /**
   What the loop promises about the line it prints for `item`: a parsed item is
   printed as its number, which reads back as the same int; a bad one is named
   in the skip notice.
   */
  predicate Reports(item: string, line: string) {
    && (ParseInt(item).Ok? ==> line == IntToString(ParseInt(item).value) && ParseInt(line) == ParseInt(item))
    && (ParseInt(item).Err? ==> line == SkipPrefix + item)
  }

  lemma PrintedLineReports(item: string)
    ensures Reports(item, PrintedLine(item))
  {
    if ParseInt(item).Ok? {
      ParseIntToString(ParseInt(item).value);
    }
  }

  /**
   `for item in data: try: print(int(item)) except ValueError: print(...)`: one
   line per item, in order, so a bad item never ends the loop.
   */
  function PrintInts(data: seq<string>): (printed: seq<string>)
    ensures |printed| == |data|
    ensures forall i :: 0 <= i < |data| ==> Reports(data[i], printed[i])
  {
    if data == [] then []
    else
      PrintedLineReports(data[0]);
      [PrintedLine(data[0])] + PrintInts(data[1..])
  }

  /** The loop over `["10", "abc", "30"]` prints `10`, the skip notice for `abc`, then `30`. */
  lemma PrintIntsExample()
    ensures PrintedLine("10") == "10"
    ensures PrintedLine("abc") == "Skipping invalid value: abc"
    ensures PrintedLine("30") == "30"
  {
    ParseTen();
    ParseAbc();
    SkipAbc();
    ParseThirty();
  }

  /** `str(n)` of a two-digit number is its tens digit followed by its units digit. */
  lemma TwoDigits(tens: nat, units: nat)
    requires 1 <= tens < 10 && units < 10
    ensures NatToString(10 * tens + units) == [DigitChar(tens), DigitChar(units)]
  {
    var n := 10 * tens + units;
    assert n / 10 == tens && n % 10 == units;
  }

  lemma ParseTen()
    ensures ParseInt("10") == Ok(10) && IntToString(10) == "10"
  {
    TwoDigits(1, 0);
    assert DigitChar(1) == '1' && DigitChar(0) == '0';
    ParseIntToString(10);
  }

  lemma ParseThirty()
    ensures ParseInt("30") == Ok(30) && IntToString(30) == "30"
  {
    TwoDigits(3, 0);
    assert DigitChar(3) == '3' && DigitChar(0) == '0';
    ParseIntToString(30);
  }

  lemma SkipAbc()
    ensures SkipPrefix + "abc" == "Skipping invalid value: abc"
  {
  }

  // ---------------------------------------------------------------------------
  // raise ... from e

  /** `raise kind(message) from original`: the new exception records the one it replaces. */
  function RaiseFrom(kind: ErrorKind, message: string, original: Exception): (e: Exception)
    ensures e.kind == kind && e.message == message
    ensures e.cause.CausedBy? && e.cause.original == original
  {
    Exception(kind, message, CausedBy(original))
  }

  const InitialError: Exception := Error(ValueError, "Initial error.")

  /** `example_chained_exceptions()`: the `ValueError` it raises is caught and replaced. */
  function ExampleChainedExceptions(): (r: Result<()>)
    ensures r.Err? && r.error.kind == RuntimeError && r.error.cause == CausedBy(InitialError)
  {
    var caught := InitialError;
    Err(RaiseFrom(RuntimeError, "Secondary error occurred.", caught))
  }

  /** `print(re)` and `print(re.__cause__)`: `None` prints when there is no cause. */
  function PrintWithCause(e: Exception): (printed: seq<string>)
    ensures |printed| == 2 && printed[0] == Str(e)
    ensures e.cause.CausedBy? ==> printed[1] == Str(e.cause.original)
  {
    [Str(e), if e.cause.CausedBy? then Str(e.cause.original) else "None"]
  }

  lemma ChainedExample()
    ensures PrintWithCause(ExampleChainedExceptions().error) == ["Secondary error occurred.", "Initial error."]
  {
  }

  // ---------------------------------------------------------------------------
  // Bare raise

  /**
   `try: body except ValueError: print("Caught an exception."); raise`: a
   `ValueError` is reported and then propagates as the very same exception;
   other outcomes pass through without a line.
   */
  function Reraise<T>(body: Result<T>): (r: (seq<string>, Result<T>))
    ensures r.1 == body
    ensures r.0 != [] <==> body.Err? && body.error.kind == ValueError
  {
    if body.Err? && body.error.kind == ValueError then (["Caught an exception."], body) else ([], body)
  }

  /** `reraise_exception()` and the outer handler's `print(e)`. */
  lemma ReraiseExample()
    ensures var (printed, r) := Reraise(ParseInt("abc"));
      printed == ["Caught an exception."] && r.Err?
      && Str(r.error) == "invalid literal for int() with base 10: " + "'abc'"
  {
    ParseAbc();
  }
}

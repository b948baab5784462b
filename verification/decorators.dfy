/**
 The decorator examples of Advanced/Decorators/decorators.py that carry logic:
 validating property setters (`Person.age`, `Rectangle.width/height`), derived
 properties (`area`, `perimeter`), a class-level property descriptor, the
 memoised Fibonacci recurrence, the `singleton` factory and the comparison
 operators `functools.total_ordering` derives for `Number`.
 */
module Decorators {
  import opened Results
  import Builtins

  // ---------------------------------------------------------------------------
  // Person.age: a setter that rejects negative ages

  /** A `Person` holds its age in a private attribute that the constructor sets unchecked. */
  datatype Person = Person(age: int)

  /** The invariant the `age` setter guards. `Person(-10)` does not have it: only the setter checks. */
  predicate ValidAge(p: Person) {
    p.age >= 0
  }

  const NegativeAge: Exception := Error(ValueError, "Age can not be negative")

  /** `person.age = newAge`: negative ages raise and leave the person as it was; 0 is accepted. */
  function SetAge(p: Person, newAge: int): (r: Assignment<Person>)
    ensures r.Rejected? <==> newAge < 0
    ensures r.Rejected? ==> r.state == p && r.error == NegativeAge
    ensures r.Assigned? ==> r.state.age == newAge
  {
    if newAge < 0 then Rejected(p, NegativeAge) else Assigned(p.(age := newAge))
  }

  /** After an assignment attempt the age is valid exactly when the new age was, or the old one already was. */
  lemma SetAgeValidity(p: Person, newAge: int)
    ensures ValidAge(SetAge(p, newAge).state) <==> newAge >= 0 || ValidAge(p)
  {
  }

  // ---------------------------------------------------------------------------
  // Rectangle: positive sides enforced by setters, derived area and perimeter

  /** The constructor stores both sides unchecked. */
  datatype Rectangle = Rectangle(width: int, height: int)

  /** The invariant the two setters guard. */
  predicate ValidRectangle(r: Rectangle) {
    r.width > 0 && r.height > 0
  }

  const WidthNotPositive: Exception := Error(ValueError, "Width must be positive.")
  const HeightNotPositive: Exception := Error(ValueError, "Height must be positive.")

  /** `rect.width = value`: values <= 0 raise and change nothing; otherwise only the width changes. */
  function SetWidth(r: Rectangle, value: int): (res: Assignment<Rectangle>)
    ensures res.Rejected? <==> value <= 0
    ensures res.Rejected? ==> res.state == r && res.error == WidthNotPositive
    ensures res.Assigned? ==> res.state.width == value && res.state.height == r.height
  {
    if value <= 0 then Rejected(r, WidthNotPositive) else Assigned(r.(width := value))
  }

  /** `rect.height = value`: values <= 0 raise and change nothing; otherwise only the height changes. */
  function SetHeight(r: Rectangle, value: int): (res: Assignment<Rectangle>)
    ensures res.Rejected? <==> value <= 0
    ensures res.Rejected? ==> res.state == r && res.error == HeightNotPositive
    ensures res.Assigned? ==> res.state.height == value && res.state.width == r.width
  {
    if value <= 0 then Rejected(r, HeightNotPositive) else Assigned(r.(height := value))
  }

  /** The computed `area` property; positive whenever both sides are. */
  function Area(r: Rectangle): (a: int)
    ensures ValidRectangle(r) ==> a >= r.width && a >= r.height
  {
    r.width * r.height
  }

  /** The computed `perimeter` property; at least 4 whenever both sides are positive. */
  function Perimeter(r: Rectangle): (p: int)
    ensures ValidRectangle(r) ==> p >= 4
  {
    2 * (r.width + r.height)
  }

  /** The setters keep a valid rectangle valid, whatever value they are given. */
  lemma SettersPreserveValidity(r: Rectangle, value: int)
    requires ValidRectangle(r)
    ensures ValidRectangle(SetWidth(r, value).state)
    ensures ValidRectangle(SetHeight(r, value).state)
  {
  }

  /** Derived properties are recomputed from the current sides after a width assignment. */
  lemma AreaAfterSetWidth(r: Rectangle, value: int)
    ensures Area(SetWidth(r, value).state) == (if value > 0 then value else r.width) * r.height
    ensures Perimeter(SetWidth(r, value).state) == 2 * ((if value > 0 then value else r.width) + r.height)
  {
  }

  /** The documented run: 5 x 10 has area 50 and perimeter 30; width 7 gives area 70. */
  lemma RectangleExample()
    ensures Area(Rectangle(5, 10)) == 50 && Perimeter(Rectangle(5, 10)) == 30
    ensures SetWidth(Rectangle(5, 10), 7) == Assigned(Rectangle(7, 10))
    ensures Area(SetWidth(Rectangle(5, 10), 7).state) == 70
  {
  }

  // ---------------------------------------------------------------------------
  // ClassProperty: a descriptor read on the class

  /** `ClassProperty(fget)`: reading the attribute calls `fget` with the owning class. */
  datatype ClassProperty<!C, V> = ClassProperty(fget: C -> V)

  /** `ClassProperty.__get__(obj, cls)`: the instance `obj` (or `None`) plays no part. */
  function Get<C, V, O>(d: ClassProperty<C, V>, obj: Option<O>, cls: C): V {
    d.fget(cls)
  }

  /** The class attributes of `MyClass`: `_value`, initially 42. */
  datatype MyClass = MyClass(value: int)

  const InitialMyClass := MyClass(42)

  /** An instance of `MyClass`; it holds no attributes of its own. */
  datatype MyClassInstance = MyClassInstance

  /** Reading through the class, `MyClass.value`, passes no instance. */
  const OnClass: Option<MyClassInstance> := None

  /** `MyClass.value`, a `ClassProperty` whose getter returns `cls._value`. */
  const ValueProperty: ClassProperty<MyClass, int> := ClassProperty((cls: MyClass) => cls.value)

  /** `MyClass.set_value(newValue)`: replaces the class attribute `_value`. */
  function SetValue(cls: MyClass, newValue: int): MyClass {
    cls.(value := newValue)
  }

  /** The property reads back what `set_value` stored, through the class or any instance. */
  lemma ValueAfterSetValue(cls: MyClass, newValue: int, obj: Option<MyClassInstance>)
    ensures Get(ValueProperty, obj, SetValue(cls, newValue)) == newValue
    ensures Get(ValueProperty, obj, cls) == Get(ValueProperty, OnClass, cls)
  {
  }

  /** The documented run: 42, then 80 after `set_value(80)`. */
  lemma ClassPropertyExample()
    ensures Get(ValueProperty, OnClass, InitialMyClass) == 42
    ensures Get(ValueProperty, OnClass, SetValue(InitialMyClass, 80)) == 80
  {
  }

  // ---------------------------------------------------------------------------
  // fibonacci, memoised by lru_cache

  /** `fibonacci(n)`: arguments below 2, negative ones included, are returned as they are. */
  function Fibonacci(n: int): (r: int)
    ensures n >= 0 ==> r >= 0
    decreases if n < 0 then 0 else n
  {
    if n < 2 then n else Fibonacci(n - 1) + Fibonacci(n - 2)
  }

  /** The sequence never decreases from 0 on. */
  lemma {:induction false} FibonacciMonotone(n: nat)
    ensures 0 <= Fibonacci(n) <= Fibonacci(n + 1)
  {
    if n >= 1 {
      FibonacciMonotone(n - 1);
    }
  }

  /**
   `fibonacci(n)` behind `lru_cache`: the cached value of every argument is the
   recurrence's value, so caching never changes a result, and `n` ends up cached.
   */
  method CachedFibonacci(n: int) returns (r: int, cache: map<int, int>)
    ensures r == Fibonacci(n)
    ensures n in cache && cache[n] == r
    ensures forall k :: k in cache ==> cache[k] == Fibonacci(k)
  {
    if n < 2 {
      return n, map[n := n];
    }
    cache := map[0 := 0, 1 := 1];
    var i := 1;
    while i < n
      invariant 1 <= i <= n
      invariant i in cache && i - 1 in cache
      invariant forall k :: k in cache ==> cache[k] == Fibonacci(k)
    {
      cache := cache[i + 1 := cache[i] + cache[i - 1]];
      i := i + 1;
    }
    r := cache[n];
  }

  /** The documented value `fibonacci(50) == 12586269025`. */
  lemma FibonacciFifty()
    ensures Fibonacci(50) == 12586269025
  {
    assert Fibonacci(10) == 55 && Fibonacci(11) == 89;
    assert Fibonacci(20) == 6765 && Fibonacci(21) == 10946;
    assert Fibonacci(30) == 832040 && Fibonacci(31) == 1346269;
    assert Fibonacci(40) == 102334155 && Fibonacci(41) == 165580141;
  }

  // ---------------------------------------------------------------------------
  // singleton

  /**
   The closure `singleton(cls)` returns: the constructor it wraps and the
   `instances` dictionary, which only ever holds an entry for `cls`.
   */
  datatype Singleton<!A, I> = Singleton(make: A -> I, instance: Option<I>)

  /** `get_instance(*args)`: constructs on the first call only; later arguments are ignored. */
  function GetInstance<A, I>(s: Singleton<A, I>, args: A): (r: (Singleton<A, I>, I))
    ensures s.instance.Some? ==> r == (s, s.instance.value)
    ensures s.instance.None? ==> r.1 == s.make(args) && r.0 == s.(instance := Some(r.1))
  {
    match s.instance
    case Some(obj) => (s, obj)
    case None =>
      var obj := s.make(args);
      (s.(instance := Some(obj)), obj)
  }

  /** A run of calls to the decorated class, returning the objects the calls produce. */
  function GetInstances<A, I>(s: Singleton<A, I>, calls: seq<A>): (r: (Singleton<A, I>, seq<I>))
    ensures |r.1| == |calls|
    ensures r.0.make == s.make
    decreases |calls|
  {
    if calls == [] then (s, [])
    else
      var (s1, obj) := GetInstance(s, calls[0]);
      var (s2, objs) := GetInstances(s1, calls[1..]);
      (s2, [obj] + objs)
  }

  /** Once an instance exists, every call returns it and nothing is constructed. */
  lemma {:induction false} GetInstancesAfterFirst<A, I>(s: Singleton<A, I>, calls: seq<A>)
    requires s.instance.Some?
    ensures GetInstances(s, calls).0 == s
    ensures |GetInstances(s, calls).1| == |calls|
    ensures forall i :: 0 <= i < |calls| ==> GetInstances(s, calls).1[i] == s.instance.value
  {
    if calls != [] {
      GetInstancesAfterFirst(s, calls[1..]);
    }
  }

  /** From a fresh decorator, every call returns the object built from the first call's arguments. */
  lemma SingletonReturnsFirst<A, I>(make: A -> I, calls: seq<A>)
    requires calls != []
    ensures GetInstances(Singleton(make, None), calls).0.instance == Some(make(calls[0]))
    ensures forall i :: 0 <= i < |calls| ==> GetInstances(Singleton(make, None), calls).1[i] == make(calls[0])
  {
    var s1 := Singleton(make, Some(make(calls[0])));
    GetInstancesAfterFirst(s1, calls[1..]);
  }

  // ---------------------------------------------------------------------------
  // Number under functools.total_ordering

  datatype Number = Number(value: int)

  /** `__eq__`, written by hand: two numbers are equal exactly when they are the same value. */
  predicate Eq(a: Number, b: Number)
    ensures Eq(a, b) <==> a == b
  {
    a.value == b.value
  }

  /** `__lt__`, written by hand: never holds between equal numbers. */
  predicate Lt(a: Number, b: Number)
    ensures Lt(a, b) ==> !Eq(a, b)
  {
    a.value < b.value
  }

  /** `__le__` as `total_ordering` derives it from `__lt__`: `a < b or a == b`, which is `not b < a`. */
  predicate Le(a: Number, b: Number)
    ensures Le(a, b) <==> !Lt(b, a)
  {
    Lt(a, b) || Eq(a, b)
  }

  /** `__gt__` as `total_ordering` derives it from `__lt__`: `not a < b and a != b`, which is `b < a`. */
  predicate Gt(a: Number, b: Number)
    ensures Gt(a, b) <==> Lt(b, a)
  {
    !Lt(a, b) && !Eq(a, b)
  }

  /** `__ge__` as `total_ordering` derives it from `__lt__`: `not a < b`, which is `b <= a`. */
  predicate Ge(a: Number, b: Number)
    ensures Ge(a, b) <==> Le(b, a)
  {
    !Lt(a, b)
  }

  /** Every derived comparison agrees with comparing the wrapped values. */
  lemma DerivedComparisons(a: Number, b: Number)
    ensures Le(a, b) <==> a.value <= b.value
    ensures Gt(a, b) <==> a.value > b.value
    ensures Ge(a, b) <==> a.value >= b.value
    ensures Gt(a, b) <==> Lt(b, a)
  {
  }

  /** `__lt__` is a strict total order, so lists of `Number` sort by value. */
  lemma NumberLtIsStrictTotalOrder()
    ensures Builtins.StrictTotalOrder(Lt)
  {
  }

  /** The documented run: `Number(5) < Number(10)`, `<=` holds and `>` does not. */
  lemma NumberExample()
    ensures Lt(Number(5), Number(10)) && Le(Number(5), Number(10)) && !Gt(Number(5), Number(10))
  {
  }
}

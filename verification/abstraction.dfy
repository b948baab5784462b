/**
 The abstract base class `Shape` and its concrete subclass `Rectangle` of
 Advanced/OOP/abstraction.py. Instantiation is refused for a class that still
 has an abstract method, and for a call with the wrong number of arguments;
 `Rectangle` overrides `area`, so it can be created from its two sides.
 */
module Abstraction {
  import opened Results
  import opened Text

  /** The two classes of the example. */
  datatype ShapeClass = ShapeBase | RectangleClass

  /** The class name Python reports. */
  function ClassName(c: ShapeClass): string {
    if c.ShapeBase? then "Shape" else "Rectangle"
  }

  /** `cls.__abstractmethods__`: `area` is abstract in `Shape` and overridden in `Rectangle`. */
  function AbstractMethods(c: ShapeClass): set<string> {
    if c.ShapeBase? then {"area"} else {}
  }

  /** An instance: only `Rectangle` objects exist, holding the two private sides. */
  datatype Shape = Rectangle(width: int, height: int)

  /** The `TypeError` `ABC` raises when a class with abstract methods is instantiated. */
  const AbstractShape: Exception :=
    Error(TypeError, "Can't instantiate abstract class Shape without an implementation for abstract method 'area'")

  /** The parameters of `cls.__init__` after `self`: `Shape` inherits `object.__init__`, which takes none. */
  function InitParameters(c: ShapeClass): seq<string> {
    if c.ShapeBase? then [] else ["width", "height"]
  }

  const NoArguments := "Shape() takes no arguments"
  const MissingBoth := "Rectangle.__init__() missing 2 required positional arguments: 'width' and 'height'"
  const MissingHeight := "Rectangle.__init__() missing 1 required positional argument: 'height'"

  /** The `TypeError` for a call of `cls` with `n` positional arguments where `__init__` expects another number. */
  function ArityError(c: ShapeClass, n: nat): (e: Exception)
    ensures e.kind == TypeError
  {
    var message :=
      if c.ShapeBase? then NoArguments
      else if n == 0 then MissingBoth
      else if n == 1 then MissingHeight
      else "Rectangle.__init__() takes 3 positional arguments but " + IntToString(n + 1) + " were given";
    Error(TypeError, message)
  }

  /**
   `cls(*args)`. `object.__new__` first refuses arguments for a class that does
   not override `__init__`, then refuses a class that still has an abstract
   method; only then does `Rectangle.__init__` bind its two sides, unchecked.
   */
  function Instantiate(c: ShapeClass, args: seq<int>): (r: Result<Shape>)
    ensures r.Ok? <==> AbstractMethods(c) == {} && |args| == |InitParameters(c)|
    ensures |args| != |InitParameters(c)| ==> r == Err(ArityError(c, |args|))
    ensures |args| == |InitParameters(c)| && AbstractMethods(c) != {} ==> r == Err(AbstractShape)
    ensures r.Ok? ==> r.value.width == args[0] && r.value.height == args[1]
    ensures r.Err? ==> r.error.kind == TypeError
  {
    if c.ShapeBase? && args != [] then Err(ArityError(c, |args|))
    else if AbstractMethods(c) != {} then Err(AbstractShape)
    else if |args| != 2 then Err(ArityError(c, |args|))
    else Ok(Rectangle(args[0], args[1]))
  }

  /** `Rectangle.area()`. */
  function Area(s: Shape): (a: int)
    ensures a == 0 <==> s.width == 0 || s.height == 0
    ensures s.width > 0 && s.height > 0 ==> a >= s.width && a >= s.height
  {
    s.width * s.height
  }

  /**
   The area of a rectangle made from `width` and `height` is their product, and
   since no method changes the sides, every later call returns the same.
   */
  lemma AreaOfConstructed(width: int, height: int)
    ensures Instantiate(RectangleClass, [width, height]).Ok?
    ensures Area(Instantiate(RectangleClass, [width, height]).value) == width * height
  {
  }

  /**
   `Shape()` raises the abstract-class error, `Shape(10, 20)` is refused for its
   arguments first, and `Rectangle(10, 20).area()` is 200.
   */
  lemma AbstractionExample()
    ensures Instantiate(ShapeBase, []) == Err(AbstractShape)
    ensures Instantiate(ShapeBase, [10, 20]) == Err(Error(TypeError, NoArguments))
    ensures Area(Instantiate(RectangleClass, [10, 20]).value) == 200
  {
  }
}

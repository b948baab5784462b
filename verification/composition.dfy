/**
 The composition examples of Advanced/OOP/composition.py: a `Car` built from an
 `Engine` and `Wheel`s that reports on start and stop, a `Checkout` and a
 `NotificationService` that delegate to an injected component, and an `Order`
 whose behaviour is held in a state object (Paid, Shipped, Delivered, Complete).
 */
module Composition {
  import opened Results
  import opened Text
  import Builtins

  // ---------------------------------------------------------------------------
  // Engine, Wheel and Car

  datatype Engine = Engine(horsepower: int, kind: string)

  datatype Wheel = Wheel(size: int)

  /** A car owns its engine and its list of wheels. */
  datatype Car = Car(make: string, model: string, engine: Engine, wheels: seq<Wheel>)

  function EngineStart(e: Engine): string {
    "Engine with " + IntToString(e.horsepower) + " HP (" + e.kind + ") starts."
  }

  function EngineStop(e: Engine): string {
    "Engine with " + IntToString(e.horsepower) + " HP (" + e.kind + ") stops."
  }

  function Rotate(w: Wheel): string {
    "Wheel of size " + IntToString(w.size) + " inches rotates."
  }

  function StopRotation(w: Wheel): string {
    "Wheel of size " + IntToString(w.size) + " inches stops rotating."
  }

  /** The text both `Car.start` and `Car.stop` build: header, engine line, then the wheel lines. */
  function Report(header: string, engineLine: string, wheelLines: seq<string>): string {
    header + "\n" + engineLine + "\n" + Join('\n', wheelLines)
  }

  function Header(c: Car): string {
    c.make + " " + c.model + ":"
  }

  /** `Car.start()`. */
  function CarStart(c: Car): string {
    Report(Header(c), EngineStart(c.engine), Builtins.Map(Rotate, c.wheels))
  }

  /** `Car.stop()`. */
  function CarStop(c: Car): string {
    Report(Header(c), EngineStop(c.engine), Builtins.Map(StopRotation, c.wheels))
  }

  predicate SingleLine(s: string) {
    '\n' !in s
  }

  lemma IntToStringSingleLine(i: int)
    ensures SingleLine(IntToString(i))
  {
    var s := IntToString(i);
    if i < 0 {
      assert s == [s[0]] + s[1..];
    }
  }

  /** A text built from single lines with no line break between them is a single line. */
  lemma SingleLineConcat(a: string, b: string)
    requires SingleLine(a) && SingleLine(b)
    ensures SingleLine(a + b)
  {
    assert forall k :: 0 <= k < |a + b| ==> (a + b)[k] == if k < |a| then a[k] else b[k - |a|];
  }

  /** Every engine and wheel line of a car with a one-line engine kind is one line. */
  lemma PartLinesSingle(c: Car)
    requires SingleLine(c.make) && SingleLine(c.model) && SingleLine(c.engine.kind)
    ensures SingleLine(Header(c))
    ensures SingleLine(EngineStart(c.engine)) && SingleLine(EngineStop(c.engine))
    ensures forall k :: 0 <= k < |c.wheels| ==> SingleLine(Rotate(c.wheels[k])) && SingleLine(StopRotation(c.wheels[k]))
  {
    SingleLineConcat(c.make, " ");
    SingleLineConcat(c.make + " ", c.model);
    SingleLineConcat(c.make + " " + c.model, ":");
    var hp := IntToString(c.engine.horsepower);
    IntToStringSingleLine(c.engine.horsepower);
    SingleLineConcat("Engine with ", hp);
    SingleLineConcat("Engine with " + hp, " HP (");
    SingleLineConcat("Engine with " + hp + " HP (", c.engine.kind);
    SingleLineConcat("Engine with " + hp + " HP (" + c.engine.kind, ") starts.");
    SingleLineConcat("Engine with " + hp + " HP (" + c.engine.kind, ") stops.");
    forall k | 0 <= k < |c.wheels|
      ensures SingleLine(Rotate(c.wheels[k])) && SingleLine(StopRotation(c.wheels[k]))
    {
      var size := IntToString(c.wheels[k].size);
      IntToStringSingleLine(c.wheels[k].size);
      SingleLineConcat("Wheel of size ", size);
      SingleLineConcat("Wheel of size " + size, " inches rotates.");
      SingleLineConcat("Wheel of size " + size, " inches stops rotating.");
    }
  }

  /**
   Read line by line, a report is its header, its engine line, and then one line
   per wheel; with no wheels the text ends in a line break, so the last line is empty.
   */
  lemma {:induction false} ReportLines(header: string, engineLine: string, wheelLines: seq<string>)
    requires SingleLine(header) && SingleLine(engineLine)
    requires forall k :: 0 <= k < |wheelLines| ==> SingleLine(wheelLines[k])
    ensures Split('\n', Report(header, engineLine, wheelLines))
         == [header, engineLine] + (if wheelLines == [] then [""] else wheelLines)
  {
    var tail := if wheelLines == [] then [""] else wheelLines;
    var lines := [header, engineLine] + tail;
    assert Join('\n', tail) == Join('\n', wheelLines);
    assert lines[1..] == [engineLine] + tail;
    assert ([engineLine] + tail)[1..] == tail;
    assert Join('\n', lines) == Report(header, engineLine, wheelLines);
    SplitJoin('\n', lines);
  }

  /** `Car.start` reports "make model:", the engine's start line, then each wheel's rotate line in list order. */
  lemma CarStartLines(c: Car)
    requires SingleLine(c.make) && SingleLine(c.model) && SingleLine(c.engine.kind)
    ensures Split('\n', CarStart(c))
         == [c.make + " " + c.model + ":", EngineStart(c.engine)]
            + (if c.wheels == [] then [""] else Builtins.Map(Rotate, c.wheels))
  {
    PartLinesSingle(c);
    ReportLines(Header(c), EngineStart(c.engine), Builtins.Map(Rotate, c.wheels));
  }

  /** `Car.stop` reports "make model:", the engine's stop line, then each wheel's stop line in list order. */
  lemma CarStopLines(c: Car)
    requires SingleLine(c.make) && SingleLine(c.model) && SingleLine(c.engine.kind)
    ensures Split('\n', CarStop(c))
         == [c.make + " " + c.model + ":", EngineStop(c.engine)]
            + (if c.wheels == [] then [""] else Builtins.Map(StopRotation, c.wheels))
  {
    PartLinesSingle(c);
    ReportLines(Header(c), EngineStop(c.engine), Builtins.Map(StopRotation, c.wheels));
  }

  // ---------------------------------------------------------------------------
  // Checkout and NotificationService: delegation to an injected component

  /** The two concrete `PaymentProcessor`s; the abstract base has no instances. */
  datatype PaymentProcessor = PayPalProcessor | CreditCardProcessor

  function ProcessorName(p: PaymentProcessor): string {
    match p
    case PayPalProcessor => "PayPal"
    case CreditCardProcessor => "Credit Card"
  }

  const PaymentPrefix := "Processed $"

  /** What follows the amount in a confirmation: the processor's name and a full stop. */
  function PaymentSuffix(p: PaymentProcessor): string {
    " with " + ProcessorName(p) + "."
  }

  /** `process_payment(amount)`. */
  function ProcessPayment(p: PaymentProcessor, amount: int): string {
    PaymentPrefix + IntToString(amount) + PaymentSuffix(p)
  }

  datatype Checkout = Checkout(processor: PaymentProcessor)

  /** `Checkout.pay(amount)`: whatever the processor answers, unchanged. */
  function Pay(c: Checkout, amount: int): string {
    ProcessPayment(c.processor, amount)
  }

  lemma Delimited(prefix: string, middle: string, suffix: string)
    ensures var r := prefix + middle + suffix;
      && r[..|prefix|] == prefix
      && r[|r| - |suffix|..] == suffix
      && r[|prefix|..|r| - |suffix|] == middle
  {
  }

  /**
   The confirmation names the processor at its end, and the text between
   "Processed $" and " with " reads back as the amount paid.
   */
  lemma PayReportsAmount(c: Checkout, amount: int)
    ensures var r := Pay(c, amount);
      var suffix := PaymentSuffix(c.processor);
      && |PaymentPrefix| + |suffix| <= |r|
      && r[..|PaymentPrefix|] == PaymentPrefix
      && r[|r| - |suffix|..] == suffix
      && ParseInt(r[|PaymentPrefix|..|r| - |suffix|]) == Ok(amount)
  {
    Delimited(PaymentPrefix, IntToString(amount), PaymentSuffix(c.processor));
    ParseIntToString(amount);
  }

  /** The documented run: paying 100 through PayPal. */
  lemma CheckoutExample()
    ensures Pay(Checkout(PayPalProcessor), 100) == "Processed $100 with PayPal."
    ensures Pay(Checkout(CreditCardProcessor), 200) == "Processed $200 with Credit Card."
  {
    Hundreds();
    PayPalLine();
    CreditCardLine();
  }

  lemma Hundreds()
    ensures IntToString(100) == "100" && IntToString(200) == "200"
  {
    assert NatToString(10) == NatToString(1) + [DigitChar(0)];
    assert NatToString(20) == NatToString(2) + [DigitChar(0)];
    assert NatToString(100) == NatToString(10) + [DigitChar(0)];
    assert NatToString(200) == NatToString(20) + [DigitChar(0)];
  }

  lemma PayPalLine()
    ensures PaymentPrefix + "100" + PaymentSuffix(PayPalProcessor) == "Processed $100 with PayPal."
  {
  }

  lemma CreditCardLine()
    ensures PaymentPrefix + "200" + PaymentSuffix(CreditCardProcessor) == "Processed $200 with Credit Card."
  {
  }

  datatype Notifier = SmsNotifier | EmailNotifier

  function SendPrefix(n: Notifier): string {
    match n
    case SmsNotifier => "Sending SMS: "
    case EmailNotifier => "Sending Email: "
  }

  /** `send(message)`. */
  function Send(n: Notifier, message: string): string {
    SendPrefix(n) + message
  }

  datatype NotificationService = NotificationService(notifier: Notifier)

  /** `NotificationService.notify(message)`: what the notifier's `send` returns. */
  function Notify(s: NotificationService, message: string): string {
    Send(s.notifier, message)
  }

  /** The notification carries the message verbatim after the channel's prefix, so distinct messages stay distinct. */
  lemma NotifyCarriesMessage(s: NotificationService, m1: string, m2: string)
    ensures Notify(s, m1)[..|SendPrefix(s.notifier)|] == SendPrefix(s.notifier)
    ensures Notify(s, m1)[|SendPrefix(s.notifier)|..] == m1
    ensures Notify(s, m1) == Notify(s, m2) ==> m1 == m2
  {
    assert Notify(s, m2)[|SendPrefix(s.notifier)|..] == m2;
  }

  // ---------------------------------------------------------------------------
  // Order and its states

  /** The state objects; `BaseState` is the bare `OrderState`, whose `next_state` is abstract. */
  datatype OrderState = BaseState | PaidState | ShippedState | DeliveredState | OrderCompleteState

  datatype Order = Order(state: OrderState)

  /** `Order()` starts in the Paid state. */
  const NewOrder := Order(PaidState)

  const ShippedMessage := "Order is now shipped."
  const DeliveredMessage := "Order is now delivered."
  const AlreadyDeliveredMessage := "Order is already delivered."
  const CompletedMessage := "Order is completed."

  /** How far along a concrete state is: Paid 0, Shipped 1, Delivered 2, Complete 3. */
  function Stage(s: OrderState): nat {
    match s
    case BaseState => 0
    case PaidState => 0
    case ShippedState => 1
    case DeliveredState => 2
    case OrderCompleteState => 3
  }

  /**
   `Order.next_state()`: the current state moves the order one stage on and
   returns its message; Complete stays put; the abstract base raises.
   */
  function NextState(o: Order): (r: (Order, Result<string>))
    ensures r.1.Err? <==> o.state == BaseState
    ensures r.1.Err? ==> r.0 == o && r.1.error.kind == NotImplementedError
    ensures r.1.Ok? ==> r.0.state != BaseState && Stage(r.0.state) == if Stage(o.state) < 3 then Stage(o.state) + 1 else 3
    ensures o.state == OrderCompleteState ==> r == (o, Ok(CompletedMessage))
  {
    match o.state
    case BaseState => (o, Err(Error(NotImplementedError, "")))
    case PaidState => (o.(state := ShippedState), Ok(ShippedMessage))
    case ShippedState => (o.(state := DeliveredState), Ok(DeliveredMessage))
    case DeliveredState => (o.(state := OrderCompleteState), Ok(AlreadyDeliveredMessage))
    case OrderCompleteState => (o, Ok(CompletedMessage))
  }

  /** `k` successive calls of `next_state`, with what each returned or raised. */
  function Run(o: Order, k: nat): (r: (Order, seq<Result<string>>))
    ensures |r.1| == k
    decreases k
  {
    if k == 0 then (o, [])
    else
      var (o1, reply) := NextState(o);
      var (o2, replies) := Run(o1, k - 1);
      (o2, [reply] + replies)
  }

  function Repeat<T>(x: T, k: nat): (r: seq<T>)
    ensures |r| == k && forall i :: 0 <= i < k ==> r[i] == x
  {
    if k == 0 then [] else [x] + Repeat(x, k - 1)
  }

  /** Complete is absorbing: any number of further calls leave it and answer "Order is completed.". */
  lemma {:induction false} CompleteIsAbsorbing(k: nat)
    ensures Run(Order(OrderCompleteState), k) == (Order(OrderCompleteState), Repeat(Ok(CompletedMessage), k))
  {
    if k > 0 {
      CompleteIsAbsorbing(k - 1);
    }
  }

  /**
   From a new order, the first three calls ship, deliver and complete it; every
   later call answers "Order is completed." and nothing ever raises.
   */
  lemma NewOrderLifecycle(k: nat)
    requires k >= 3
    ensures Run(NewOrder, k) == (Order(OrderCompleteState),
      [Ok(ShippedMessage), Ok(DeliveredMessage), Ok(AlreadyDeliveredMessage)]
      + Repeat(Ok(CompletedMessage), k - 3))
  {
    var rest := Repeat(Ok(CompletedMessage), k - 3);
    CompleteIsAbsorbing(k - 3);
    assert Run(Order(DeliveredState), k - 2) == (Order(OrderCompleteState), [Ok(AlreadyDeliveredMessage)] + rest);
    assert Run(Order(ShippedState), k - 1)
        == (Order(OrderCompleteState), [Ok(DeliveredMessage)] + ([Ok(AlreadyDeliveredMessage)] + rest));
    assert [Ok(ShippedMessage)] + ([Ok(DeliveredMessage)] + ([Ok(AlreadyDeliveredMessage)] + rest))
        == [Ok(ShippedMessage), Ok(DeliveredMessage), Ok(AlreadyDeliveredMessage)] + rest;
  }

  /** The documented run: four calls print the four messages in order. */
  lemma OrderExample()
    ensures Run(NewOrder, 4).1
         == [Ok("Order is now shipped."), Ok("Order is now delivered."),
             Ok("Order is already delivered."), Ok("Order is completed.")]
  {
    NewOrderLifecycle(4);
  }
}

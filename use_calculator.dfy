/**
 * The calculator's input/state engine (hooks/useCalculator.ts): one state
 * record and a pure updater per handler, and `Reduce` over input events.
 */
module UseCalculator {
  import opened Wrappers
  import opened JsRuntime
  import opened CalculatorTypes

  datatype ErrorType = MathError | SystemError

  datatype CalculatorError = CalculatorError(message: string, kind: ErrorType)

  /** `CalculatorState` */
  datatype State = State(
    display: string,
    equation: string,
    isNewNumber: bool,
    lastOperator: Option<Op>,
    lastNumber: string,
    memory: Memory,
    angleMode: AngleMode,
    error: Option<CalculatorError>,
    isSecondMode: bool)

  function InitialState(): State {
    State("0", "", true, None, "", CreateCalculatorMemory(), Deg, None, false)
  }

  // ---------------------------------------------------------------------------
  // The updaters

  /** `handleNumber(num)` */
  function HandleNumber(s: State, num: string): State {
    if s.error.Some? then s.(display := num, isNewNumber := false, error := None, equation := "")
    else if s.isNewNumber then s.(display := num, isNewNumber := false)
    else s.(display := if s.display == "0" then num else s.display + num)
  }

  /** `handleDecimalPoint()` */
  function HandleDecimalPoint(s: State): State {
    if s.error.Some? then s.(display := "0.", isNewNumber := false, error := None, equation := "")
    else if s.isNewNumber then s.(display := "0.", isNewNumber := false)
    else if '.' !in s.display then s.(display := s.display + ".")
    else s
  }

  /** `toggleSecondMode()`, and the "2nd" operator */
  function ToggleSecondMode(s: State): State {
    s.(isSecondMode := !s.isSecondMode)
  }

  /** "C": everything but the memory and the angle mode goes back to the start. */
  function ClearAll(s: State): State {
    s.(display := "0", equation := "", isNewNumber := true, lastOperator := None,
       lastNumber := "", error := None, isSecondMode := false)
  }

  /** "DEL" */
  function DeleteLast(s: State): State {
    if s.isNewNumber || |s.display| == 1 then s.(display := "0", isNewNumber := true)
    else s.(display := if s.display == "" then "" else s.display[..|s.display| - 1])
  }

  /** The second-mode binding of a unary operator. */
  function SecondBinding(op: Op): Op {
    match op
    case Sin => Arcsin
    case Cos => Arccos
    case Tan => Arctan
    case Sqrt => Cbrt
    case Square => Cube
    case _ => op
  }

  /** A memory operator against the display's value and the slot. */
  function ApplyMemory(p: Platform, s: State, op: Op): State {
    var o := Calculate(p, op, ParseFloat(p, s.display), CalculateOptions(None, Some(s.memory), Some(s.angleMode)));
    s.(display := FormatResult(p, o.result), isNewNumber := true, memory := o.memory.GetOr(s.memory))
  }

  /** The operator a unary key applies: its second-mode binding while second mode is on. */
  function ActualUnary(s: State, op: Op): Op {
    if s.isSecondMode then SecondBinding(op) else op
  }

  /** A unary operator, after the second-mode substitution. */
  function ApplyUnary(p: Platform, s: State, op: Op): State {
    var actual := ActualUnary(s, op);
    var current := ParseFloat(p, s.display);
    var o := Calculate(p, actual, current, CalculateOptions(None, None, Some(s.angleMode)));
    var call := Tag(actual) + "(" + ToString(p, current) + ") = ";
    if o.error.Some? then
      s.(display := ErrorMarker, equation := call + ErrorMarker,
         error := Some(CalculatorError(o.error.value, MathError)),
         isNewNumber := true, lastOperator := None, lastNumber := "", isSecondMode := false)
    else
      var shown := FormatResult(p, o.result);
      s.(display := shown, equation := call + shown,
         isNewNumber := true, lastOperator := None, lastNumber := "", isSecondMode := false)
  }

  /**
   * The text a binary operator keeps as its first operand: the display itself
   * right after a result, otherwise `String(parseFloat(display))`.
   */
  function OperandText(p: Platform, s: State): string {
    if s.isNewNumber then s.display else ToString(p, ParseFloat(p, s.display))
  }

  /** A binary operator becomes pending; a pending one is overwritten. */
  function ChooseBinary(p: Platform, s: State, op: Op): State {
    var numberToUse := OperandText(p, s);
    s.(lastOperator := Some(op), lastNumber := numberToUse,
       equation := numberToUse + " " + Tag(op) + " ", isNewNumber := true, isSecondMode := false)
  }

  /** "pi" and "e" */
  function ShowConstant(p: Platform, s: State, op: Op): State {
    var o := Calculate(p, op, ParseFloat(p, s.display), NoOptions);
    s.(display := FormatResult(p, o.result), isNewNumber := true, isSecondMode := false)
  }

  /** Whether "=" has something to evaluate (`!lastOperator || !lastNumber` fails). */
  predicate HasPending(s: State) {
    s.lastOperator.Some? && s.lastNumber != ""
  }

  /** "=" inside `handleOperator`: an error shows only through the NaN result. */
  function EvaluatePending(p: Platform, s: State): State {
    if !HasPending(s) then s
    else
      var current := ParseFloat(p, s.display);
      var o := Calculate(p, s.lastOperator.value, ParseFloat(p, s.lastNumber),
                         CalculateOptions(Some(current), None, Some(s.angleMode)));
      var shown := FormatResult(p, o.result);
      s.(display := shown, equation := s.equation + ToString(p, current) + " = " + shown,
         isNewNumber := true, lastOperator := None, lastNumber := "", isSecondMode := false)
  }

  /** `handleOperator(operator)` */
  function HandleOperator(p: Platform, s: State, op: Op): State {
    if op == SecondMode then ToggleSecondMode(s)
    else if op == Clear then ClearAll(s)
    else if op == Delete then DeleteLast(s)
    else if IsMemoryOperator(op) then ApplyMemory(p, s, op)
    else if IsUnaryOperator(op) then ApplyUnary(p, s, op)
    else if IsBinaryOperator(op) then ChooseBinary(p, s, op)
    else if IsConstant(op) then ShowConstant(p, s, op)
    else if op == Equals then EvaluatePending(p, s)
    else s
  }

  /** `calculateResult()`: like "=", but a failure sets `error` and keeps the pending operator. */
  function CalculateResult(p: Platform, s: State): State {
    if !HasPending(s) then s
    else
      var current := ParseFloat(p, s.display);
      var o := Calculate(p, s.lastOperator.value, ParseFloat(p, s.lastNumber),
                         CalculateOptions(Some(current), Some(s.memory), Some(s.angleMode)));
      if o.error.Some? then
        s.(display := ErrorMarker, equation := "", error := Some(CalculatorError(o.error.value, MathError)))
      else
        var shown := FormatResult(p, o.result);
        s.(display := shown, equation := s.equation + ToString(p, current) + " = " + shown,
           isNewNumber := true, lastOperator := None, lastNumber := "", memory := o.memory.GetOr(s.memory))
  }

  function SetAngleMode(s: State, mode: AngleMode): State {
    s.(angleMode := mode)
  }

  function ClearMemory(s: State): State {
    s.(memory := CreateCalculatorMemory())
  }

  function ClearError(s: State): State {
    s.(error := None)
  }

  // ---------------------------------------------------------------------------
  // Events

  /** One call into the hook. */
  datatype Event =
    | NumberPressed(num: string)
    | DecimalPressed
    | SecondToggled
    | OperatorPressed(op: Op)
    | ResultRequested
    | AngleModeChosen(mode: AngleMode)
    | MemoryCleared
    | ErrorCleared

  function Reduce(p: Platform, s: State, e: Event): State {
    match e
    case NumberPressed(num) => HandleNumber(s, num)
    case DecimalPressed => HandleDecimalPoint(s)
    case SecondToggled => ToggleSecondMode(s)
    case OperatorPressed(op) => HandleOperator(p, s, op)
    case ResultRequested => CalculateResult(p, s)
    case AngleModeChosen(mode) => SetAngleMode(s, mode)
    case MemoryCleared => ClearMemory(s)
    case ErrorCleared => ClearError(s)
  }

  /** The state after a run of events, applied left to right. */
  function ReduceAll(p: Platform, s: State, events: seq<Event>): State
    decreases |events|
  {
    if events == [] then s else Reduce(p, ReduceAll(p, s, events[..|events| - 1]), events[|events| - 1])
  }

  /**
   * The state invariant: the display is never empty, and a pending binary
   * operator and a non-empty first operand come and go together.
   */
  predicate Valid(s: State) {
    && s.display != ""
    && (s.lastOperator.None? <==> s.lastNumber == "")
    && (s.lastOperator.Some? ==> IsBinaryOperator(s.lastOperator.value))
  }

  // ---------------------------------------------------------------------------
  // `lastNumber` as written: a string after a result, a number otherwise

  /** What the source actually stores in `lastNumber`. */
  datatype StoredOperand = Text(text: string) | Number(n: Num)

  /** JavaScript truthiness: "", 0 and NaN are falsy. */
  predicate Truthy(v: StoredOperand) {
    match v
    case Text(t) => t != ""
    case Number(n) => n != Finite(0.0) && n != NaN
  }

  /** `prev.isNewNumber ? prev.display : currentNumber`, untyped as written. */
  function StoredOperandAsWritten(p: Platform, s: State): StoredOperand {
    if s.isNewNumber then Text(s.display) else Number(ParseFloat(p, s.display))
  }

  /** The guard of "=" as written: `!prev.lastOperator || !prev.lastNumber` is false. */
  predicate EqualsProceedsAsWritten(lastOperator: Option<Op>, lastNumber: StoredOperand) {
    lastOperator.Some? && Truthy(lastNumber)
  }
}

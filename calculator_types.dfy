/**
 * The operator tag set, the single memory slot, the operator evaluation table
 * `calculate` and the display formatter `formatResult` of the calculator
 * (types/calculatorTypes.ts).
 */
module CalculatorTypes {
  import opened Wrappers
  import opened JsRuntime

  /** The closed set of operator tags (`OperatorType`). */
  datatype Op =
    | Plus | Minus | Times | Divide | Equals | Clear | Delete
    | Sin | Cos | Tan | Arcsin | Arccos | Arctan
    | Sqrt | Cbrt | Power | Square | Cube | Reciprocal | Absolute
    | Pi | EulerE | Exp
    | MemoryClear | MemoryRecall | MemoryAdd | MemorySubtract | MemoryStore
    | SecondMode

  /** The tag's string, as the source writes it and as equations show it. */
  function Tag(op: Op): string {
    match op
    case Plus => "+"
    case Minus => "-"
    case Times => "*"
    case Divide => "/"
    case Equals => "="
    case Clear => "C"
    case Delete => "DEL"
    case Sin => "sin"
    case Cos => "cos"
    case Tan => "tan"
    case Arcsin => "arcsin"
    case Arccos => "arccos"
    case Arctan => "arctan"
    case Sqrt => "sqrt"
    case Cbrt => "cbrt"
    case Power => "^"
    case Square => "x²"
    case Cube => "x³"
    case Reciprocal => "1/x"
    case Absolute => "|x|"
    case Pi => "pi"
    case EulerE => "e"
    case Exp => "exp"
    case MemoryClear => "mc"
    case MemoryRecall => "mr"
    case MemoryAdd => "m+"
    case MemorySubtract => "m-"
    case MemoryStore => "ms"
    case SecondMode => "2nd"
  }

  datatype AngleMode = Deg | Rad

  /** The memory slot; `hasValue` tells "holds 0" from "never set". */
  datatype Memory = Memory(value: Num, hasValue: bool)

  function CreateCalculatorMemory(): Memory {
    Memory(Finite(0.0), false)
  }

  // ---------------------------------------------------------------------------
  // Classifiers: membership in the source's literal lists

  predicate IsUnaryOperator(op: Op) {
    match op
    case Sin | Cos | Tan | Arcsin | Arccos | Arctan | Sqrt | Cbrt | Square | Cube | Reciprocal | Absolute | Exp => true
    case _ => false
  }

  predicate IsBinaryOperator(op: Op) {
    match op
    case Plus | Minus | Times | Divide | Power => true
    case _ => false
  }

  predicate IsMemoryOperator(op: Op) {
    match op
    case MemoryClear | MemoryRecall | MemoryAdd | MemorySubtract | MemoryStore => true
    case _ => false
  }

  predicate IsConstant(op: Op) {
    match op
    case Pi | EulerE => true
    case _ => false
  }

  // ---------------------------------------------------------------------------
  // calculate

  const DivisionByZero := "Division by zero"
  const ArcsinOutOfRange := "Invalid input: arcsin requires value between -1 and 1"
  const ArccosOutOfRange := "Invalid input: arccos requires value between -1 and 1"
  const SqrtOfNegative := "Invalid input for square root"
  const UnknownOperator := "Unknown operator"

  /** The optional second argument of `calculate`. */
  datatype CalculateOptions = CalculateOptions(
    secondValue: Option<Num>, memory: Option<Memory>, angleMode: Option<AngleMode>)

  const NoOptions := CalculateOptions(None, None, None)

  /** What `calculate` returns: a result, maybe a new memory, maybe an error. */
  datatype Outcome = Outcome(result: Num, memory: Option<Memory>, error: Option<string>)

  /** A thrown error, as the source's `catch` folds it into a result. */
  function Failed(message: string): Outcome {
    Outcome(NaN, None, Some(message))
  }

  function Computed(r: Num): Outcome {
    Outcome(r, None, None)
  }

  /** Forward trigonometry takes degrees to radians in "deg" mode. */
  function TrigArgument(p: Platform, mode: AngleMode, value: Num): Num {
    if mode == Deg then Div(Mul(value, Finite(p.pi)), Finite(180.0)) else value
  }

  /** Inverse trigonometry takes radians back to degrees in "deg" mode. */
  function TrigResult(p: Platform, mode: AngleMode, radians: Num): Num {
    if mode == Deg then Div(Mul(radians, Finite(180.0)), Finite(p.pi)) else radians
  }

  /** `memory?.value ?? 0` */
  function MemoryValueOrZero(memory: Option<Memory>): Num {
    if memory.Some? then memory.value.value else Finite(0.0)
  }

  predicate OutsideUnitInterval(value: Num) {
    LessThan(value, -1.0) || GreaterThan(value, 1.0)
  }

  /** `calculate(operator, value, options)`: never throws; every error yields NaN. */
  function Calculate(p: Platform, op: Op, value: Num, options: CalculateOptions): (o: Outcome)
    ensures o.error.Some? ==> o.result == NaN && o.memory == None
  {
    var second := options.secondValue;
    var memory := options.memory;
    var mode := options.angleMode.GetOr(Deg);
    match op
    case Plus => Computed(Add(value, second.GetOr(Finite(0.0))))
    case Minus => Computed(Sub(value, second.GetOr(Finite(0.0))))
    case Times => Computed(Mul(value, second.GetOr(Finite(1.0))))
    case Divide =>
      if second == Some(Finite(0.0)) then Failed(DivisionByZero)
      else Computed(Div(value, second.GetOr(Finite(1.0))))
    case Power => Computed(p.pow(value, second.GetOr(Finite(2.0))))
    case Sin => Computed(p.sin(TrigArgument(p, mode, value)))
    case Cos => Computed(p.cos(TrigArgument(p, mode, value)))
    case Tan => Computed(p.tan(TrigArgument(p, mode, value)))
    case Arcsin =>
      if OutsideUnitInterval(value) then Failed(ArcsinOutOfRange)
      else Computed(TrigResult(p, mode, p.asin(value)))
    case Arccos =>
      if OutsideUnitInterval(value) then Failed(ArccosOutOfRange)
      else Computed(TrigResult(p, mode, p.acos(value)))
    case Arctan => Computed(TrigResult(p, mode, p.atan(value)))
    case Sqrt => if LessThan(value, 0.0) then Failed(SqrtOfNegative) else Computed(p.sqrt(value))
    case Cbrt => Computed(p.cbrt(value))
    case Square => Computed(Mul(value, value))
    case Cube => Computed(p.pow(value, Finite(3.0)))
    case Reciprocal =>
      if value == Finite(0.0) then Failed(DivisionByZero) else Computed(Div(Finite(1.0), value))
    case Absolute => Computed(Abs(value))
    case Exp => Computed(p.exp(value))
    case Pi => Computed(Finite(p.pi))
    case EulerE => Computed(Finite(p.e))
    case MemoryClear => Outcome(value, Some(CreateCalculatorMemory()), None)
    case MemoryRecall =>
      Computed(if memory.Some? && memory.value.hasValue then memory.value.value else value)
    case MemoryAdd => Outcome(value, Some(Memory(Add(MemoryValueOrZero(memory), value), true)), None)
    case MemorySubtract => Outcome(value, Some(Memory(Sub(MemoryValueOrZero(memory), value), true)), None)
    case MemoryStore => Outcome(value, Some(Memory(value, true)), None)
    case Equals => Failed(UnknownOperator)
    case Clear => Failed(UnknownOperator)
    case Delete => Failed(UnknownOperator)
    case SecondMode => Failed(UnknownOperator)
  }

  // ---------------------------------------------------------------------------
  // formatResult

  const ErrorMarker := "Error"

  /** 10^10: integers below it in magnitude have at most ten significant digits. */
  const TenTo10: real := 10000000000.0

  /** `Number(r.toPrecision(10))`, exact on integers with at most ten digits. */
  function Precision(p: Platform, r: real): real {
    if IsInteger(r) && -TenTo10 < r < TenTo10 then r else p.round10(r)
  }

  /** The length of the longest run of '0' at the end of `s`. */
  function TrailingZeros(s: string): (k: nat)
    ensures k <= |s|
    ensures forall i :: |s| - k <= i < |s| ==> s[i] == '0'
    ensures k < |s| ==> s[|s| - k - 1] != '0'
  {
    if |s| > 0 && s[|s| - 1] == '0' then 1 + TrailingZeros(s[..|s| - 1]) else 0
  }

  /** `s.replace(/\.?0+$/, "")`: the trailing zeros, and a '.' just before them. */
  function StripZerosAsWritten(s: string): string {
    var k := TrailingZeros(s);
    var cut := if 0 < k < |s| && s[|s| - k - 1] == '.' then k + 1 else k;
    s[..|s| - cut]
  }

  /** The intended clean-up: only the fraction of a plain literal loses its zeros. */
  function StripFractionZeros(s: string): string {
    if IsPlainLiteral(s) && '.' in s then StripZerosAsWritten(s) else s
  }

  /** `formatResult(num)` exactly as written. */
  function FormatResultAsWritten(p: Platform, n: Num): string {
    if n.NaN? || n.Infinity? then ErrorMarker
    else
      var r := Precision(p, n.r);
      if IsInteger(r) then NumberToString(p, r) else StripZerosAsWritten(NumberToString(p, r))
  }

  /** `formatResult(num)` with the trailing-zero clean-up kept off exponents. */
  function FormatResult(p: Platform, n: Num): string {
    if n.NaN? || n.Infinity? then ErrorMarker
    else
      var r := Precision(p, n.r);
      if IsInteger(r) then NumberToString(p, r) else StripFractionZeros(NumberToString(p, r))
  }

  /** The host renders every finite number as a non-empty string that is not the marker. */
  ghost predicate RendersNumerals(p: Platform) {
    forall r :: p.show(r) != "" && p.show(r) != ErrorMarker
  }
}

/** What `calculate` and the operator classifiers promise (types/calculatorTypes.ts). */
module CalculateProperties {
  import opened Wrappers
  import opened JsRuntime
  import opened CalculatorTypes

  /** The four tags no classifier claims: "=", "C", "DEL" and "2nd". */
  predicate IsControl(op: Op) {
    op == Equals || op == Clear || op == Delete || op == SecondMode
  }

  /** The classifiers split the tag set into five disjoint parts. */
  lemma ClassifiersPartition(op: Op)
    ensures !(IsUnaryOperator(op) && IsBinaryOperator(op))
    ensures !(IsUnaryOperator(op) && IsMemoryOperator(op))
    ensures !(IsUnaryOperator(op) && IsConstant(op))
    ensures !(IsBinaryOperator(op) && IsMemoryOperator(op))
    ensures !(IsBinaryOperator(op) && IsConstant(op))
    ensures !(IsMemoryOperator(op) && IsConstant(op))
    ensures IsControl(op) <==>
      !IsUnaryOperator(op) && !IsBinaryOperator(op) && !IsMemoryOperator(op) && !IsConstant(op)
  {
  }

  /**
   * Reference definition of when `calculate` fails: a zero divisor, the
   * reciprocal of zero, the square root of a negative number, an inverse sine or
   * cosine outside [-1, 1], or a tag that is not a calculation.
   */
  predicate FailsOn(op: Op, value: Num, options: CalculateOptions) {
    || (op == Divide && options.secondValue == Some(Finite(0.0)))
    || (op == Reciprocal && value == Finite(0.0))
    || (op == Sqrt && LessThan(value, 0.0))
    || ((op == Arcsin || op == Arccos) && OutsideUnitInterval(value))
    || IsControl(op)
  }

  lemma CalculateFailsExactly(p: Platform, op: Op, value: Num, options: CalculateOptions)
    ensures Calculate(p, op, value, options).error.Some? <==> FailsOn(op, value, options)
  {
    match op
    case Divide =>
    case Reciprocal =>
    case Sqrt =>
    case Arcsin =>
    case Arccos =>
    case _ =>
  }

  /** A division by zero, through "/" or "1/x", reports it and yields NaN. */
  lemma DivisionByZeroFails(p: Platform, value: Num, options: CalculateOptions)
    ensures options.secondValue == Some(Finite(0.0)) ==>
      Calculate(p, Divide, value, options) == Outcome(NaN, None, Some(DivisionByZero))
    ensures options.secondValue != Some(Finite(0.0)) ==>
      Calculate(p, Divide, value, options) == Outcome(Div(value, options.secondValue.GetOr(Finite(1.0))), None, None)
    ensures Calculate(p, Reciprocal, Finite(0.0), options) == Outcome(NaN, None, Some(DivisionByZero))
    ensures value != Finite(0.0) ==>
      Calculate(p, Reciprocal, value, options) == Outcome(Div(Finite(1.0), value), None, None)
  {
  }

  /** The square root rejects exactly the values below zero (NaN is not below zero). */
  lemma SqrtDomain(p: Platform, value: Num, options: CalculateOptions)
    ensures Calculate(p, Sqrt, value, options).error.Some? <==> LessThan(value, 0.0)
    ensures LessThan(value, 0.0) ==>
      Calculate(p, Sqrt, value, options) == Outcome(NaN, None, Some(SqrtOfNegative))
    ensures !LessThan(value, 0.0) ==> Calculate(p, Sqrt, value, options) == Outcome(p.sqrt(value), None, None)
    ensures Calculate(p, Sqrt, NaN, options).error == None
  {
  }

  /** Inverse sine and cosine fail exactly outside [-1, 1]. */
  lemma InverseTrigDomain(p: Platform, x: real, options: CalculateOptions)
    ensures Calculate(p, Arcsin, Finite(x), options).error.Some? <==> x < -1.0 || x > 1.0
    ensures Calculate(p, Arccos, Finite(x), options).error.Some? <==> x < -1.0 || x > 1.0
    ensures x < -1.0 || x > 1.0 ==>
      && Calculate(p, Arcsin, Finite(x), options) == Outcome(NaN, None, Some(ArcsinOutOfRange))
      && Calculate(p, Arccos, Finite(x), options) == Outcome(NaN, None, Some(ArccosOutOfRange))
    ensures -1.0 <= x <= 1.0 ==>
      && Calculate(p, Arcsin, Finite(x), options).result
         == TrigResult(p, options.angleMode.GetOr(Deg), p.asin(Finite(x)))
      && Calculate(p, Arccos, Finite(x), options).result
         == TrigResult(p, options.angleMode.GetOr(Deg), p.acos(Finite(x)))
  {
  }

  /** "mc" empties the slot whatever it held and returns its input. */
  lemma MemoryClearResets(p: Platform, value: Num, options: CalculateOptions)
    ensures Calculate(p, MemoryClear, value, options) == Outcome(value, Some(Memory(Finite(0.0), false)), None)
  {
  }

  /** "mr" returns the stored value if there is one, else its input, and no new memory. */
  lemma MemoryRecallReads(p: Platform, value: Num, options: CalculateOptions)
    ensures var o := Calculate(p, MemoryRecall, value, options);
      && o.memory == None && o.error == None
      && (options.memory.Some? && options.memory.value.hasValue ==> o.result == options.memory.value.value)
      && (options.memory.None? || !options.memory.value.hasValue ==> o.result == value)
  {
  }

  /** "m+", "m-" and "ms" return their input and fill the slot; no memory counts as 0. */
  lemma MemoryAccumulates(p: Platform, value: Num, options: CalculateOptions)
    ensures var stored := if options.memory.Some? then options.memory.value.value else Finite(0.0);
      && Calculate(p, MemoryAdd, value, options) == Outcome(value, Some(Memory(Add(stored, value), true)), None)
      && Calculate(p, MemorySubtract, value, options) == Outcome(value, Some(Memory(Sub(stored, value), true)), None)
      && Calculate(p, MemoryStore, value, options) == Outcome(value, Some(Memory(value, true)), None)
  {
  }

  /** On finite numbers the slot holds exactly old + v, old - v or v. */
  lemma MemoryArithmeticOnFinite(p: Platform, x: real, m: real, options: CalculateOptions)
    requires options.memory == Some(Memory(Finite(m), true))
    ensures Calculate(p, MemoryAdd, Finite(x), options).memory == Some(Memory(Finite(m + x), true))
    ensures Calculate(p, MemorySubtract, Finite(x), options).memory == Some(Memory(Finite(m - x), true))
    ensures Calculate(p, MemoryStore, Finite(x), options).memory == Some(Memory(Finite(x), true))
  {
  }

  /** Only "mc", "m+", "m-" and "ms" hand back a memory slot. */
  lemma MemoryReturnedExactly(p: Platform, op: Op, value: Num, options: CalculateOptions)
    ensures Calculate(p, op, value, options).memory.Some? <==>
      op == MemoryClear || op == MemoryAdd || op == MemorySubtract || op == MemoryStore
  {
  }

  /** Without a second operand "+"/"-" use 0, "*"/"/" use 1 and "^" uses 2. */
  lemma SecondOperandDefaults(p: Platform, value: Num, options: CalculateOptions)
    requires options.secondValue == None
    ensures Calculate(p, Plus, value, options) == Outcome(Add(value, Finite(0.0)), None, None)
    ensures Calculate(p, Minus, value, options) == Outcome(Sub(value, Finite(0.0)), None, None)
    ensures Calculate(p, Times, value, options) == Outcome(Mul(value, Finite(1.0)), None, None)
    ensures Calculate(p, Divide, value, options) == Outcome(Div(value, Finite(1.0)), None, None)
    ensures Calculate(p, Power, value, options) == Outcome(p.pow(value, Finite(2.0)), None, None)
  {
  }

  /** With a second operand the binary operators apply JavaScript arithmetic to it. */
  lemma BinaryArithmetic(p: Platform, value: Num, b: Num, options: CalculateOptions)
    requires options.secondValue == Some(b)
    ensures Calculate(p, Plus, value, options) == Outcome(Add(value, b), None, None)
    ensures Calculate(p, Minus, value, options) == Outcome(Sub(value, b), None, None)
    ensures Calculate(p, Times, value, options) == Outcome(Mul(value, b), None, None)
    ensures b != Finite(0.0) ==> Calculate(p, Divide, value, options) == Outcome(Div(value, b), None, None)
    ensures Calculate(p, Power, value, options) == Outcome(p.pow(value, b), None, None)
  {
  }

  /** Without an angle mode `calculate` works in degrees. */
  lemma AngleModeDefaultsToDegrees(p: Platform, op: Op, value: Num, options: CalculateOptions)
    requires options.angleMode == None
    ensures Calculate(p, op, value, options) == Calculate(p, op, value, options.(angleMode := Some(Deg)))
  {
  }

  /** "Unknown operator" is reported exactly for the tags no classifier claims. */
  lemma UnknownOperatorExactly(p: Platform, op: Op, value: Num, options: CalculateOptions)
    ensures Calculate(p, op, value, options).error == Some(UnknownOperator) <==>
      !IsUnaryOperator(op) && !IsBinaryOperator(op) && !IsMemoryOperator(op) && !IsConstant(op)
  {
    ClassifiersPartition(op);
  }

  /** Whenever `calculate` fails, the formatted result is the error marker. */
  lemma FailureShowsMarker(p: Platform, op: Op, value: Num, options: CalculateOptions)
    requires Calculate(p, op, value, options).error.Some?
    ensures FormatResult(p, Calculate(p, op, value, options).result) == ErrorMarker
  {
  }
}

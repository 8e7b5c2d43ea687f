/** What the updaters of hooks/useCalculator.ts promise, one event at a time and over runs. */
module ReducerProperties {
  import opened Wrappers
  import opened JsRuntime
  import opened CalculatorTypes
  import opened CalculateProperties
  import opened FormatProperties
  import opened UseCalculator

  // ---------------------------------------------------------------------------
  // Dispatch

  /**
   * `handleOperator` routes each tag to exactly one handler: since the
   * classifiers are disjoint, the order of its tests does not matter.
   */
  lemma OperatorDispatch(p: Platform, s: State, op: Op)
    ensures var t := Reduce(p, s, OperatorPressed(op));
      && (op == SecondMode ==> t == ToggleSecondMode(s))
      && (op == Clear ==> t == ClearAll(s))
      && (op == Delete ==> t == DeleteLast(s))
      && (IsMemoryOperator(op) ==> t == ApplyMemory(p, s, op))
      && (IsUnaryOperator(op) ==> t == ApplyUnary(p, s, op))
      && (IsBinaryOperator(op) ==> t == ChooseBinary(p, s, op))
      && (IsConstant(op) ==> t == ShowConstant(p, s, op))
      && (op == Equals ==> t == EvaluatePending(p, s))
  {
    ClassifiersPartition(op);
  }

  // ---------------------------------------------------------------------------
  // Digits

  /** A digit key starts afresh after an error or a result, replaces a lone "0", else appends. */
  lemma NumberPressedOutcome(p: Platform, s: State, num: string)
    ensures var t := Reduce(p, s, NumberPressed(num));
      && t.error == None && !t.isNewNumber
      && t.lastOperator == s.lastOperator && t.lastNumber == s.lastNumber
      && t.memory == s.memory && t.angleMode == s.angleMode && t.isSecondMode == s.isSecondMode
      && (s.error.Some? || s.isNewNumber || s.display == "0" ==> t.display == num)
      && (s.error.None? && !s.isNewNumber && s.display != "0" ==> t.display == s.display + num)
      && t.equation == (if s.error.Some? then "" else s.equation)
  {
  }

  /** The key events for a digit string, one key per digit. */
  function DigitEvents(ds: string): (events: seq<Event>)
    ensures |events| == |ds|
  {
    if ds == [] then [] else DigitEvents(ds[..|ds| - 1]) + [NumberPressed([ds[|ds| - 1]])]
  }

  /** A digit string without its redundant leading zeros ("05" is "5", "00" is "0"). */
  function WithoutLeadingZeros(ds: string): (r: string)
    ensures |ds| > 0 ==> |r| > 0
    ensures |r| > 1 ==> r[0] != '0'
  {
    if |ds| > 1 && ds[0] == '0' then WithoutLeadingZeros(ds[1..]) else ds
  }

  lemma {:induction false} WithoutLeadingZerosSnoc(ds: string, d: char)
    requires |ds| > 0
    ensures WithoutLeadingZeros(ds + [d]) ==
      if WithoutLeadingZeros(ds) == "0" then [d] else WithoutLeadingZeros(ds) + [d]
    decreases |ds|
  {
    if |ds| > 1 && ds[0] == '0' {
      assert (ds + [d])[1..] == ds[1..] + [d];
      WithoutLeadingZerosSnoc(ds[1..], d);
    }
  }

  /** A run ending in `e` is the run without it, then `e`. */
  lemma ReduceAllSnoc(p: Platform, s: State, events: seq<Event>, e: Event)
    ensures ReduceAll(p, s, events + [e]) == Reduce(p, ReduceAll(p, s, events), e)
  {
    assert (events + [e])[..|events|] == events;
  }

  /**
   * Typing a digit string after a result, a clear or an error shows it without
   * redundant leading zeros; the pending operator and memory are untouched.
   */
  lemma {:induction false} TypingDigits(p: Platform, s: State, ds: string)
    requires s.error.Some? || s.isNewNumber
    requires |ds| > 0
    ensures var t := ReduceAll(p, s, DigitEvents(ds));
      && t.display == WithoutLeadingZeros(ds)
      && t.error == None && !t.isNewNumber
      && t.lastOperator == s.lastOperator && t.lastNumber == s.lastNumber
      && t.memory == s.memory && t.angleMode == s.angleMode
    decreases |ds|
  {
    var front := ds[..|ds| - 1];
    var last := ds[|ds| - 1];
    var before := ReduceAll(p, s, DigitEvents(front));
    assert ReduceAll(p, s, DigitEvents(ds)) == Reduce(p, before, NumberPressed([last])) by {
      assert DigitEvents(ds) == DigitEvents(front) + [NumberPressed([last])];
      ReduceAllSnoc(p, s, DigitEvents(front), NumberPressed([last]));
    }
    NumberPressedOutcome(p, before, [last]);
    if |front| > 0 {
      assert && before.display == WithoutLeadingZeros(front)
        && before.error == None && !before.isNewNumber
        && before.lastOperator == s.lastOperator && before.lastNumber == s.lastNumber
        && before.memory == s.memory && before.angleMode == s.angleMode by {
        TypingDigits(p, s, front);
      }
      assert WithoutLeadingZeros(ds) ==
        if WithoutLeadingZeros(front) == "0" then [last] else WithoutLeadingZeros(front) + [last] by {
        WithoutLeadingZerosSnoc(front, last);
        assert front + [last] == ds;
      }
    } else {
      assert before == s;
      assert [last] == ds;
    }
  }

  // ---------------------------------------------------------------------------
  // The decimal point

  /** The number of '.' in a string. */
  function Dots(s: string): nat {
    if s == [] then 0 else Dots(s[..|s| - 1]) + (if s[|s| - 1] == '.' then 1 else 0)
  }

  lemma {:induction false} NoDotsWithoutDot(s: string)
    requires '.' !in s
    ensures Dots(s) == 0
    decreases |s|
  {
    if s != [] {
      assert s[|s| - 1] in s;
      assert forall c :: c in s[..|s| - 1] ==> c in s;
      NoDotsWithoutDot(s[..|s| - 1]);
    }
  }

  lemma {:induction false} DotsOfAppend(s: string, t: string)
    ensures Dots(s + t) == Dots(s) + Dots(t)
    decreases |t|
  {
    if t == [] {
      assert s + t == s;
    } else {
      assert (s + t)[..|s + t| - 1] == s + t[..|t| - 1];
      DotsOfAppend(s, t[..|t| - 1]);
    }
  }

  /** The decimal point starts "0." afresh, is ignored when there already is one, else is appended. */
  lemma DecimalPressedOutcome(p: Platform, s: State)
    ensures var t := Reduce(p, s, DecimalPressed);
      && (s.error.Some? || s.isNewNumber ==>
            t == s.(display := "0.", isNewNumber := false, error := None,
                    equation := if s.error.Some? then "" else s.equation))
      && (s.error.None? && !s.isNewNumber && '.' in s.display ==> t == s)
      && (s.error.None? && !s.isNewNumber && '.' !in s.display ==> t == s.(display := s.display + "."))
  {
  }

  lemma DotsOfShortStrings()
    ensures Dots("0.") == 1 && Dots("0") == 0 && Dots(".") == 1
  {
    assert "0."[..1] == "0";
    assert "0"[..0] == "";
    assert "."[..0] == "";
  }

  /** A digit key never adds a '.'. */
  lemma {:induction false} DigitKeepsDots(s: State, d: char)
    requires IsDigit(d)
    ensures Dots(HandleNumber(s, [d]).display) <= Dots(s.display)
  {
    var t := HandleNumber(s, [d]);
    assert Dots([d]) == 0 by {
      assert [d][..0] == "";
    }
    if t.display == s.display + [d] {
      DotsOfAppend(s.display, [d]);
    }
  }

  /** The decimal point never makes a second '.'; starting afresh makes exactly one. */
  lemma {:induction false} DecimalKeepsOneDot(s: State)
    requires Dots(s.display) <= 1 || s.error.Some? || s.isNewNumber
    ensures Dots(HandleDecimalPoint(s).display) <= 1
    ensures s.error.Some? || s.isNewNumber ==> Dots(HandleDecimalPoint(s).display) == 1
  {
    var t := HandleDecimalPoint(s);
    DotsOfShortStrings();
    if t.display == s.display + "." {
      NoDotsWithoutDot(s.display);
      DotsOfAppend(s.display, ".");
    }
  }

  /** "DEL" never adds a '.'. */
  lemma {:induction false} DeleteKeepsDots(s: State)
    ensures Dots(DeleteLast(s).display) <= Dots(s.display) || DeleteLast(s).display == "0"
  {
    if !s.isNewNumber && |s.display| != 1 && s.display != "" {
      var d := s.display;
      assert d[..|d| - 1] + [d[|d| - 1]] == d;
      DotsOfAppend(d[..|d| - 1], [d[|d| - 1]]);
    }
  }

  /** Digit keys, the decimal point and "DEL" never make a second '.'. */
  lemma EditingKeepsOneDot(p: Platform, s: State, e: Event)
    requires e == DecimalPressed || e == OperatorPressed(Delete) ||
             (e.NumberPressed? && |e.num| == 1 && IsDigit(e.num[0]))
    requires Dots(s.display) <= 1 || (e == DecimalPressed && (s.error.Some? || s.isNewNumber))
    ensures Dots(Reduce(p, s, e).display) <= 1
  {
    DotsOfShortStrings();
    match e
    case NumberPressed(num) =>
      assert num == [num[0]];
      DigitKeepsDots(s, num[0]);
    case DecimalPressed =>
      DecimalKeepsOneDot(s);
    case OperatorPressed(_) =>
      assert Reduce(p, s, e) == DeleteLast(s);
      DeleteKeepsDots(s);
  }

  // ---------------------------------------------------------------------------
  // C, DEL and 2nd

  /** "C" gives back the initial state, except that memory and angle mode stay. */
  lemma ClearKeepsMemoryAndAngle(p: Platform, s: State)
    ensures Reduce(p, s, OperatorPressed(Clear)) ==
      InitialState().(memory := s.memory, angleMode := s.angleMode)
  {
    OperatorDispatch(p, s, Clear);
  }

  /** "DEL" on a fresh number or a single character shows "0"; otherwise it drops the last character. */
  lemma DeleteOutcome(p: Platform, s: State)
    ensures var t := Reduce(p, s, OperatorPressed(Delete));
      && (s.isNewNumber || |s.display| == 1 ==> t == s.(display := "0", isNewNumber := true))
      && (!s.isNewNumber && |s.display| > 1 ==>
            && t == s.(display := t.display)
            && t.display + [s.display[|s.display| - 1]] == s.display)
  {
    OperatorDispatch(p, s, Delete);
  }

  /** "DEL" on the fresh "0" changes nothing. */
  lemma DeleteOnFreshZero(p: Platform, s: State)
    requires s.isNewNumber && s.display == "0"
    ensures Reduce(p, s, OperatorPressed(Delete)) == s
  {
    OperatorDispatch(p, s, Delete);
  }

  /** "2nd", as a key or as an operator, flips the second mode and nothing else. */
  lemma ToggleFlipsOnlySecondMode(p: Platform, s: State)
    ensures Reduce(p, s, SecondToggled) == s.(isSecondMode := !s.isSecondMode)
    ensures Reduce(p, s, OperatorPressed(SecondMode)) == s.(isSecondMode := !s.isSecondMode)
    ensures Reduce(p, Reduce(p, s, SecondToggled), SecondToggled) == s
  {
    OperatorDispatch(p, s, SecondMode);
  }

  // ---------------------------------------------------------------------------
  // Unary operators

  /** Second mode swaps in the inverse or higher binding of five operators and keeps the rest. */
  lemma SecondBindingTable(op: Op)
    ensures SecondBinding(Sin) == Arcsin && SecondBinding(Cos) == Arccos && SecondBinding(Tan) == Arctan
    ensures SecondBinding(Sqrt) == Cbrt && SecondBinding(Square) == Cube
    ensures SecondBinding(op) != op <==> op in {Sin, Cos, Tan, Sqrt, Square}
    ensures IsUnaryOperator(op) ==> IsUnaryOperator(SecondBinding(op))
  {
  }

  /**
   * Every unary outcome ends pending work and second mode; a failure shows
   * "Error", records a math error and the equation "op(x) = Error".
   */
  lemma UnaryOutcome(p: Platform, s: State, op: Op)
    requires IsUnaryOperator(op)
    ensures var t := Reduce(p, s, OperatorPressed(op));
      var actual := ActualUnary(s, op);
      var x := ParseFloat(p, s.display);
      var options := CalculateOptions(None, None, Some(s.angleMode));
      var call := Tag(actual) + "(" + ToString(p, x) + ") = ";
      var o := Calculate(p, actual, x, options);
      && t.isNewNumber && t.lastOperator == None && t.lastNumber == "" && !t.isSecondMode
      && t.memory == s.memory && t.angleMode == s.angleMode
      && (o.error.Some? <==> FailsOn(actual, x, options))
      && (o.error.Some? ==>
            && t.display == ErrorMarker && t.equation == call + ErrorMarker
            && t.error == Some(CalculatorError(o.error.value, MathError)))
      && (o.error.None? ==>
            && t.display == FormatResult(p, o.result)
            && t.equation == call + t.display && t.error == s.error)
  {
    OperatorDispatch(p, s, op);
    ClassifiersPartition(op);
    CalculateFailsExactly(p, ActualUnary(s, op), ParseFloat(p, s.display), CalculateOptions(None, None, Some(s.angleMode)));
  }

  // ---------------------------------------------------------------------------
  // Binary operators and "="

  /** A binary operator becomes pending with the display's number as first operand. */
  lemma BinaryOutcome(p: Platform, s: State, op: Op)
    requires IsBinaryOperator(op)
    ensures var t := Reduce(p, s, OperatorPressed(op));
      && t.lastOperator == Some(op)
      && t.lastNumber == (if s.isNewNumber then s.display else ToString(p, ParseFloat(p, s.display)))
      && t.equation == t.lastNumber + " " + Tag(op) + " "
      && t.isNewNumber && !t.isSecondMode
      && t == s.(lastOperator := t.lastOperator, lastNumber := t.lastNumber, equation := t.equation,
                 isNewNumber := true, isSecondMode := false)
  {
    OperatorDispatch(p, s, op);
    ClassifiersPartition(op);
  }

  /**
   * A second binary operator straight after the first only overwrites the
   * operator; its first operand is the unchanged display. The value is the
   * same wherever the host's `String` of the displayed number reads back as
   * that number, which holds for every integer below 10^21.
   */
  lemma RepeatedBinaryOverwrites(p: Platform, s: State, first: Op, second: Op)
    requires IsBinaryOperator(first) && IsBinaryOperator(second)
    ensures var t := Reduce(p, s, OperatorPressed(first));
      var u := Reduce(p, t, OperatorPressed(second));
      && u == t.(lastOperator := Some(second), lastNumber := s.display,
                 equation := s.display + " " + Tag(second) + " ")
      && (s.isNewNumber ==> u.lastNumber == t.lastNumber)
      && (var x := ParseFloat(p, s.display);
          ParseFloat(p, ToString(p, x)) == x ==>
            ParseFloat(p, u.lastNumber) == ParseFloat(p, t.lastNumber))
      && (var x := ParseFloat(p, s.display);
          x.Finite? && IsInteger(x.r) && -TenTo21 < x.r < TenTo21 ==>
            ParseFloat(p, u.lastNumber) == ParseFloat(p, t.lastNumber))
  {
    OperatorDispatch(p, s, first);
    OperatorDispatch(p, Reduce(p, s, OperatorPressed(first)), second);
    ClassifiersPartition(first);
    ClassifiersPartition(second);
    var x := ParseFloat(p, s.display);
    if x.Finite? && IsInteger(x.r) && -TenTo21 < x.r < TenTo21 {
      NumberToStringRoundTrip(p, x.r);
    }
  }

  /** A binary operator always leaves something for "=" to evaluate. */
  lemma BinaryLeavesPending(p: Platform, s: State, op: Op)
    requires RendersNumerals(p) && s.display != "" && IsBinaryOperator(op)
    ensures HasPending(Reduce(p, s, OperatorPressed(op)))
  {
    OperatorDispatch(p, s, op);
    ClassifiersPartition(op);
    ToStringNonEmpty(p, ParseFloat(p, s.display));
  }

  lemma ToStringNonEmpty(p: Platform, n: Num)
    requires RendersNumerals(p)
    ensures ToString(p, n) != ""
  {
    if n.Finite? && IsInteger(n.r) && -TenTo21 < n.r < TenTo21 {
      NumberToStringRoundTrip(p, n.r);
    }
  }

  /** "=" with nothing pending returns the state unchanged (second mode included). */
  lemma EqualsWithoutPending(p: Platform, s: State)
    requires s.lastOperator == None || s.lastNumber == ""
    ensures Reduce(p, s, OperatorPressed(Equals)) == s
  {
    OperatorDispatch(p, s, Equals);
  }

  /**
   * "=" with a pending operator applies it to the stored operand and the
   * display, ends pending work and second mode, and never sets `error`.
   */
  lemma EqualsEvaluates(p: Platform, s: State)
    requires HasPending(s)
    ensures var t := Reduce(p, s, OperatorPressed(Equals));
      var x := ParseFloat(p, s.display);
      var o := Calculate(p, s.lastOperator.value, ParseFloat(p, s.lastNumber),
                         CalculateOptions(Some(x), None, Some(s.angleMode)));
      var shown := FormatResult(p, o.result);
      t == s.(display := shown, equation := s.equation + ToString(p, x) + " = " + shown,
              isNewNumber := true, lastOperator := None, lastNumber := "", isSecondMode := false)
  {
    OperatorDispatch(p, s, Equals);
  }

  /** Dividing by zero with "=" shows "Error" through NaN alone: `error` is left as it was. */
  lemma EqualsDivisionByZero(p: Platform, s: State)
    requires s.lastOperator == Some(Divide) && s.lastNumber != ""
    requires ParseFloat(p, s.display) == Finite(0.0)
    ensures var t := Reduce(p, s, OperatorPressed(Equals));
      t.display == ErrorMarker && t.error == s.error && t.lastOperator == None
  {
    OperatorDispatch(p, s, Equals);
  }

  /**
   * `calculateResult` reports a failure in `error` and keeps the pending
   * operator; on success it ends pending work but keeps second mode.
   */
  lemma CalculateResultOutcome(p: Platform, s: State)
    ensures !HasPending(s) ==> Reduce(p, s, ResultRequested) == s
    ensures HasPending(s) ==>
      var t := Reduce(p, s, ResultRequested);
      var x := ParseFloat(p, s.display);
      var options := CalculateOptions(Some(x), Some(s.memory), Some(s.angleMode));
      var o := Calculate(p, s.lastOperator.value, ParseFloat(p, s.lastNumber), options);
      && (o.error.Some? <==> FailsOn(s.lastOperator.value, ParseFloat(p, s.lastNumber), options))
      && (o.error.Some? ==>
            t == s.(display := ErrorMarker, equation := "",
                    error := Some(CalculatorError(o.error.value, MathError))))
      && (o.error.None? ==>
            t == s.(display := FormatResult(p, o.result),
                    equation := s.equation + ToString(p, x) + " = " + FormatResult(p, o.result),
                    isNewNumber := true, lastOperator := None, lastNumber := "",
                    memory := o.memory.GetOr(s.memory)))
  {
    if HasPending(s) {
      CalculateFailsExactly(p, s.lastOperator.value, ParseFloat(p, s.lastNumber),
        CalculateOptions(Some(ParseFloat(p, s.display)), Some(s.memory), Some(s.angleMode)));
    }
  }

  /** `calculateResult` on a zero divisor sets the "Division by zero" math error. */
  lemma CalculateResultDivisionByZero(p: Platform, s: State)
    requires s.lastOperator == Some(Divide) && s.lastNumber != ""
    requires ParseFloat(p, s.display) == Finite(0.0)
    ensures var t := Reduce(p, s, ResultRequested);
      && t.display == ErrorMarker && t.equation == ""
      && t.error == Some(CalculatorError(DivisionByZero, MathError))
      && t.lastOperator == s.lastOperator && t.lastNumber == s.lastNumber
  {
  }

  // ---------------------------------------------------------------------------
  // Memory and constants

  /**
   * A memory key shows the operation's result, starts a fresh number, replaces
   * the slot only when `calculate` hands one back, and keeps second mode.
   */
  lemma MemoryOutcome(p: Platform, s: State, op: Op)
    requires IsMemoryOperator(op)
    ensures var t := Reduce(p, s, OperatorPressed(op));
      var x := ParseFloat(p, s.display);
      var o := Calculate(p, op, x, CalculateOptions(None, Some(s.memory), Some(s.angleMode)));
      && t == s.(display := FormatResult(p, o.result), isNewNumber := true, memory := t.memory)
      && (op == MemoryRecall ==> t.memory == s.memory)
      && (op == MemoryRecall ==> t.display == FormatResult(p, if s.memory.hasValue then s.memory.value else x))
      && (op == MemoryClear ==> t.memory == Memory(Finite(0.0), false))
      && (op == MemoryStore ==> t.memory == Memory(x, true))
      && (op == MemoryAdd ==> t.memory == Memory(Add(s.memory.value, x), true))
      && (op == MemorySubtract ==> t.memory == Memory(Sub(s.memory.value, x), true))
  {
    OperatorDispatch(p, s, op);
    ClassifiersPartition(op);
  }

  /** "m+" on the "Error" display stores NaN: the memory slot can hold a non-finite value. */
  lemma MemoryAddOnErrorStoresNaN(p: Platform, s: State)
    requires s.display == ErrorMarker
    ensures Reduce(p, s, OperatorPressed(MemoryAdd)).memory == Memory(NaN, true)
  {
    ParseErrorMarker(p);
    MemoryOutcome(p, s, MemoryAdd);
  }

  /** "pi" and "e" show their constant and start a fresh number; the equation stays. */
  lemma ConstantOutcome(p: Platform, s: State)
    ensures Reduce(p, s, OperatorPressed(Pi)) ==
      s.(display := FormatResult(p, Finite(p.pi)), isNewNumber := true, isSecondMode := false)
    ensures Reduce(p, s, OperatorPressed(EulerE)) ==
      s.(display := FormatResult(p, Finite(p.e)), isNewNumber := true, isSecondMode := false)
  {
    OperatorDispatch(p, s, Pi);
    OperatorDispatch(p, s, EulerE);
  }

  /** Second mode lasts until the next unary, binary, constant or evaluating "="; memory keys keep it. */
  lemma SecondModeIsSingleUse(p: Platform, s: State, op: Op)
    ensures (IsUnaryOperator(op) || IsBinaryOperator(op) || IsConstant(op) ||
             (op == Equals && HasPending(s))) ==> !Reduce(p, s, OperatorPressed(op)).isSecondMode
    ensures (IsMemoryOperator(op) || (op == Equals && !HasPending(s)) || op == Delete) ==>
      Reduce(p, s, OperatorPressed(op)).isSecondMode == s.isSecondMode
  {
    OperatorDispatch(p, s, op);
    ClassifiersPartition(op);
  }

  /** The settings setters each change their one field. */
  lemma SettersChangeOneField(p: Platform, s: State, mode: AngleMode)
    ensures Reduce(p, s, AngleModeChosen(mode)) == s.(angleMode := mode)
    ensures Reduce(p, s, MemoryCleared) == s.(memory := Memory(Finite(0.0), false))
    ensures Reduce(p, s, ErrorCleared) == s.(error := None)
  {
  }

  // ---------------------------------------------------------------------------
  // The state invariant

  /** Every event a caller sends (a number key carries a non-empty string) keeps `Valid`. */
  lemma ApplyMemoryPreservesValid(p: Platform, s: State, op: Op)
    requires RendersNumerals(p) && Valid(s)
    ensures Valid(ApplyMemory(p, s, op))
  {
    FormatResultMarksNonFinite(p, Calculate(p, op, ParseFloat(p, s.display),
      CalculateOptions(None, Some(s.memory), Some(s.angleMode))).result);
  }

  lemma ApplyUnaryPreservesValid(p: Platform, s: State, op: Op)
    requires RendersNumerals(p) && Valid(s)
    ensures Valid(ApplyUnary(p, s, op))
  {
    FormatResultMarksNonFinite(p, Calculate(p, ActualUnary(s, op), ParseFloat(p, s.display),
      CalculateOptions(None, None, Some(s.angleMode))).result);
  }

  lemma ChooseBinaryPreservesValid(p: Platform, s: State, op: Op)
    requires RendersNumerals(p) && Valid(s) && IsBinaryOperator(op)
    ensures Valid(ChooseBinary(p, s, op))
  {
    ToStringNonEmpty(p, ParseFloat(p, s.display));
  }

  lemma ShowConstantPreservesValid(p: Platform, s: State, op: Op)
    requires RendersNumerals(p) && Valid(s)
    ensures Valid(ShowConstant(p, s, op))
  {
    FormatResultMarksNonFinite(p, Calculate(p, op, ParseFloat(p, s.display), NoOptions).result);
  }

  lemma EvaluatePendingPreservesValid(p: Platform, s: State)
    requires RendersNumerals(p) && Valid(s)
    ensures Valid(EvaluatePending(p, s))
  {
    if HasPending(s) {
      FormatResultMarksNonFinite(p, Calculate(p, s.lastOperator.value, ParseFloat(p, s.lastNumber),
        CalculateOptions(Some(ParseFloat(p, s.display)), None, Some(s.angleMode))).result);
    }
  }

  /** Every operator key keeps the invariant. */
  lemma HandleOperatorPreservesValid(p: Platform, s: State, op: Op)
    requires RendersNumerals(p) && Valid(s)
    ensures Valid(HandleOperator(p, s, op))
  {
    OperatorDispatch(p, s, op);
    if IsMemoryOperator(op) {
      ApplyMemoryPreservesValid(p, s, op);
    } else if IsUnaryOperator(op) {
      ApplyUnaryPreservesValid(p, s, op);
    } else if IsBinaryOperator(op) {
      ChooseBinaryPreservesValid(p, s, op);
    } else if IsConstant(op) {
      ShowConstantPreservesValid(p, s, op);
    } else if op == Equals {
      EvaluatePendingPreservesValid(p, s);
    }
  }

  /** `calculateResult` keeps the invariant, whether it fails or not. */
  lemma CalculateResultPreservesValid(p: Platform, s: State)
    requires RendersNumerals(p) && Valid(s)
    ensures Valid(CalculateResult(p, s))
  {
    if HasPending(s) {
      FormatResultMarksNonFinite(p, Calculate(p, s.lastOperator.value, ParseFloat(p, s.lastNumber),
        CalculateOptions(Some(ParseFloat(p, s.display)), Some(s.memory), Some(s.angleMode))).result);
    }
  }

  lemma ReducePreservesValid(p: Platform, s: State, e: Event)
    requires RendersNumerals(p) && Valid(s)
    requires e.NumberPressed? ==> e.num != ""
    ensures Valid(Reduce(p, s, e))
  {
    match e
    case OperatorPressed(op) => HandleOperatorPreservesValid(p, s, op);
    case ResultRequested => CalculateResultPreservesValid(p, s);
    case _ =>
  }

  /** Hence `Valid` holds along any run of such events from a valid state. */
  lemma {:induction false} ReduceAllPreservesValid(p: Platform, s: State, events: seq<Event>)
    requires RendersNumerals(p) && Valid(s)
    requires forall i :: 0 <= i < |events| && events[i].NumberPressed? ==> events[i].num != ""
    ensures Valid(ReduceAll(p, s, events))
    decreases |events|
  {
    if events != [] {
      var front := events[..|events| - 1];
      ReduceAllPreservesValid(p, s, front);
      ReducePreservesValid(p, ReduceAll(p, s, front), events[|events| - 1]);
    }
  }

  /** Under the invariant, "=" has something to evaluate exactly when a binary operator is pending. */
  lemma ValidPendingExactly(s: State)
    requires Valid(s)
    ensures HasPending(s) <==> s.lastOperator.Some?
    ensures HasPending(s) ==> IsBinaryOperator(s.lastOperator.value)
  {
  }

  lemma InitialStateValid()
    ensures Valid(InitialState())
    ensures InitialState().memory == Memory(Finite(0.0), false) && InitialState().angleMode == Deg
  {
  }
}

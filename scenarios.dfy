/** Worked key sequences through the reducer. */
module Scenarios {
  import opened Wrappers
  import opened JsRuntime
  import opened CalculatorTypes
  import opened UseCalculator
  import ReducerProperties
  import CalculateProperties

  /** A one-digit display reads back as its number and renders as itself. */
  lemma SmallIntegerText(p: Platform, n: nat, text: string)
    requires n < 10 && text == [DigitChar(n)]
    ensures ParseFloat(p, text) == Finite(n as real)
    ensures ToString(p, Finite(n as real)) == text
    ensures FormatResult(p, Finite(n as real)) == text
  {
    IntToStringRoundTrip(p, n);
    assert (n as real).Floor == n;
  }

  /** A one-digit key on a fresh calculator. */
  lemma FirstDigit(p: Platform, d: string)
    ensures Reduce(p, InitialState(), NumberPressed(d)) == InitialState().(display := d, isNewNumber := false)
  {
  }

  /** "0" then "5" shows "5", not "05". */
  lemma LeadingZeroCollapses(p: Platform)
    ensures Reduce(p, Reduce(p, InitialState(), NumberPressed("0")), NumberPressed("5")).display == "5"
  {
    FirstDigit(p, "0");
  }

  /**
   * `a op b` from a fresh calculator, for one-digit operands typed as the keys
   * `x` and `y`: op is pending with first operand a, and b is on the display.
   */
  lemma TwoDigitCalculation(p: Platform, a: nat, x: string, op: Op, b: nat, y: string) returns (t: State)
    requires a < 10 && b < 10 && x == [DigitChar(a)] && y == [DigitChar(b)] && IsBinaryOperator(op)
    ensures var s1 := Reduce(p, InitialState(), NumberPressed(x));
      var s2 := Reduce(p, s1, OperatorPressed(op));
      && s2.lastNumber == x
      && t == Reduce(p, s2, NumberPressed(y))
      && t.lastOperator == Some(op) && t.lastNumber == x
      && t.equation == x + " " + Tag(op) + " "
      && t.display == y && !t.isNewNumber && t.error == None && t.angleMode == Deg
  {
    var s1 := Reduce(p, InitialState(), NumberPressed(x));
    FirstDigit(p, x);
    var s2 := Reduce(p, s1, OperatorPressed(op));
    ReducerProperties.BinaryOutcome(p, s1, op);
    t := Reduce(p, s2, NumberPressed(y));
    ReducerProperties.NumberPressedOutcome(p, s2, y);
  }

  /**
   * `a op b =` from a fresh calculator, when `calculate(op, a, {secondValue: b})`
   * is the one-digit number c, shows the key `z` for c.
   */
  lemma TwoDigitResult(p: Platform, a: nat, x: string, op: Op, b: nat, y: string, c: nat, z: string)
    returns (t: State)
    requires a < 10 && b < 10 && x == [DigitChar(a)] && y == [DigitChar(b)] && IsBinaryOperator(op)
    requires c < 10 && z == [DigitChar(c)]
    requires Calculate(p, op, Finite(a as real), CalculateOptions(Some(Finite(b as real)), None, Some(Deg))).result
      == Finite(c as real)
    ensures var s1 := Reduce(p, InitialState(), NumberPressed(x));
      var s2 := Reduce(p, s1, OperatorPressed(op));
      var s3 := Reduce(p, s2, NumberPressed(y));
      && t == Reduce(p, s3, OperatorPressed(Equals))
      && t.display == z
      && t.equation == x + " " + Tag(op) + " " + y + " = " + z
      && t.lastOperator == None && t.lastNumber == ""
  {
    var s3 := TwoDigitCalculation(p, a, x, op, b, y);
    SmallIntegerText(p, b, y);
    SmallIntegerText(p, a, x);
    SmallIntegerText(p, c, z);
    ReducerProperties.EqualsEvaluates(p, s3);
    t := Reduce(p, s3, OperatorPressed(Equals));
  }

  /**
   * 5 / 0 shows "Error". Through "=" the error shows only in the display;
   * through `calculateResult` the "Division by zero" error is recorded.
   */
  lemma DivideFiveByZero(p: Platform)
    ensures var s1 := Reduce(p, InitialState(), NumberPressed("5"));
      var s2 := Reduce(p, s1, OperatorPressed(Divide));
      var s3 := Reduce(p, s2, NumberPressed("0"));
      var viaEquals := Reduce(p, s3, OperatorPressed(Equals));
      var viaResult := Reduce(p, s3, ResultRequested);
      && viaEquals.display == ErrorMarker && viaEquals.error == None
      && viaResult.display == ErrorMarker
      && viaResult.error == Some(CalculatorError(DivisionByZero, MathError))
  {
    var s3 := TwoDigitCalculation(p, 5, "5", Divide, 0, "0");
    SmallIntegerText(p, 5, "5");
    SmallIntegerText(p, 0, "0");
    ReducerProperties.EqualsDivisionByZero(p, s3);
    ReducerProperties.CalculateResultDivisionByZero(p, s3);
  }

  /** 3 * 2 = shows "6" with the equation "3 * 2 = 6". */
  lemma ThreeTimesTwo(p: Platform)
    ensures var s1 := Reduce(p, InitialState(), NumberPressed("3"));
      var s2 := Reduce(p, s1, OperatorPressed(Times));
      var s3 := Reduce(p, s2, NumberPressed("2"));
      var s4 := Reduce(p, s3, OperatorPressed(Equals));
      s4.display == "6" && s4.equation == "3 * 2 = 6" && s4.lastOperator == None
  {
    var options := CalculateOptions(Some(Finite(2.0)), None, Some(Deg));
    assert Calculate(p, Times, Finite(3.0), options).result == Finite(6.0) by {
      CalculateProperties.BinaryArithmetic(p, Finite(3.0), Finite(2.0), options);
    }
    assert "3" + " " + Tag(Times) + " " + "2" + " = " + "6" == "3 * 2 = 6";
    var t := TwoDigitResult(p, 3, "3", Times, 2, "2", 6, "6");
  }

  /** 2 + then * keeps 2 as the first operand and makes "*" the pending operator. */
  lemma OperatorReplacesOperator(p: Platform)
    ensures var s1 := Reduce(p, InitialState(), NumberPressed("2"));
      var s3 := Reduce(p, Reduce(p, s1, OperatorPressed(Plus)), OperatorPressed(Times));
      s3.lastOperator == Some(Times) && s3.lastNumber == "2" && s3.equation == "2 * "
  {
    var s1 := Reduce(p, InitialState(), NumberPressed("2"));
    FirstDigit(p, "2");
    SmallIntegerText(p, 2, "2");
    ReducerProperties.BinaryOutcome(p, s1, Plus);
    ReducerProperties.BinaryOutcome(p, Reduce(p, s1, OperatorPressed(Plus)), Times);
  }

  /** 9 sqrt shows "3", given that the host's square root of 9 is 3. */
  lemma SquareRootOfNine(p: Platform)
    requires p.sqrt(Finite(9.0)) == Finite(3.0)
    ensures var t := Reduce(p, Reduce(p, InitialState(), NumberPressed("9")), OperatorPressed(Sqrt));
      t.display == "3" && t.equation == "sqrt(9) = 3"
  {
    assert Tag(Sqrt) + "(" + "9" + ") = " + "3" == "sqrt(9) = 3";
    var options := CalculateOptions(None, None, Some(Deg));
    assert !CalculateProperties.FailsOn(Sqrt, Finite(9.0), options);
    assert FormatResult(p, Calculate(p, Sqrt, Finite(9.0), options).result) == "3" by {
      CalculateProperties.SqrtDomain(p, Finite(9.0), options);
      SmallIntegerText(p, 3, "3");
    }
    var s1 := Reduce(p, InitialState(), NumberPressed("9"));
    FirstDigit(p, "9");
    SmallIntegerText(p, 9, "9");
    ReducerProperties.UnaryOutcome(p, s1, Sqrt);
  }

  /** Typing 9 then 0 shows "90". */
  lemma NinetyTyped(p: Platform)
    ensures Reduce(p, Reduce(p, InitialState(), NumberPressed("9")), NumberPressed("0"))
      == InitialState().(display := "90", isNewNumber := false)
  {
    FirstDigit(p, "9");
    ReducerProperties.NumberPressedOutcome(p, InitialState().(display := "9", isNewNumber := false), "0");
  }

  /** A display of "90" reads back as 90. */
  lemma NinetyText(p: Platform)
    ensures ParseFloat(p, "90") == Finite(90.0)
  {
    IntToStringRoundTrip(p, 90);
    assert IntToString(90) == NatToDigits(9) + [DigitChar(0)] == "90";
  }

  /** A unary key outside second mode whose calculation succeeds shows its formatted result. */
  lemma UnaryShows(p: Platform, s: State, op: Op, x: Num, r: Num)
    requires IsUnaryOperator(op) && !s.isSecondMode && ParseFloat(p, s.display) == x
    requires Calculate(p, op, x, CalculateOptions(None, None, Some(s.angleMode))) == Outcome(r, None, None)
    ensures Reduce(p, s, OperatorPressed(op)).display == FormatResult(p, r)
  {
    ReducerProperties.UnaryOutcome(p, s, op);
  }

  /** sin on a display of 90 takes the sine of pi/2 in degrees mode and of 90 in radians mode. */
  lemma SineOfNinety(p: Platform, s: State)
    requires s.display == "90" && !s.isSecondMode
    ensures Reduce(p, s, OperatorPressed(Sin)).display
      == FormatResult(p, p.sin(if s.angleMode == Deg then Finite(p.pi / 2.0) else Finite(90.0)))
  {
    var r := p.sin(if s.angleMode == Deg then Finite(p.pi / 2.0) else Finite(90.0));
    assert Calculate(p, Sin, Finite(90.0), CalculateOptions(None, None, Some(s.angleMode)))
      == Outcome(r, None, None) by {
      assert 90.0 * p.pi / 180.0 == p.pi / 2.0;
    }
    NinetyText(p);
    UnaryShows(p, s, Sin, Finite(90.0), r);
  }

  /** In degree mode, sin on 90 shows "1", given that the host's sine of pi/2 is 1. */
  lemma SineOfNinetyIsOne(p: Platform, s: State)
    requires s.display == "90" && !s.isSecondMode && s.angleMode == Deg
    requires p.sin(Finite(p.pi / 2.0)) == Finite(1.0)
    ensures Reduce(p, s, OperatorPressed(Sin)).display == "1"
  {
    SineOfNinety(p, s);
    SmallIntegerText(p, 1, "1");
  }

  /** A unary key whose calculation fails shows the marker and records the math error. */
  lemma UnaryFails(p: Platform, s: State, op: Op, x: Num, message: string)
    requires IsUnaryOperator(op) && ParseFloat(p, s.display) == x
    requires Calculate(p, ActualUnary(s, op), x, CalculateOptions(None, None, Some(s.angleMode))).error
      == Some(message)
    ensures var t := Reduce(p, s, OperatorPressed(op));
      && t.display == ErrorMarker && !t.isSecondMode
      && t.error == Some(CalculatorError(message, MathError))
      && t.equation == Tag(ActualUnary(s, op)) + "(" + ToString(p, x) + ") = " + ErrorMarker
  {
    ReducerProperties.UnaryOutcome(p, s, op);
  }

  /** With second mode on, sin applies arcsin, and second mode is over afterwards. */
  lemma SecondModeSine(p: Platform, s: State)
    requires s.isSecondMode && s.display == "2"
    ensures var t := Reduce(p, s, OperatorPressed(Sin));
      && t.display == ErrorMarker && !t.isSecondMode
      && t.error == Some(CalculatorError(ArcsinOutOfRange, MathError))
      && t.equation == "arcsin(2) = Error"
  {
    assert ParseFloat(p, s.display) == Finite(2.0) && ToString(p, Finite(2.0)) == "2" by {
      SmallIntegerText(p, 2, "2");
    }
    assert Tag(Arcsin) + "(" + ToString(p, Finite(2.0)) + ") = " + ErrorMarker == "arcsin(2) = Error";
    assert Calculate(p, Arcsin, Finite(2.0), CalculateOptions(None, None, Some(s.angleMode))).error
      == Some(ArcsinOutOfRange);
    UnaryFails(p, s, Sin, Finite(2.0), ArcsinOutOfRange);
  }

  // ---------------------------------------------------------------------------
  // A first operand of 0 as written

  /**
   * As written, 0 + 5 = does nothing: after typing "0" the operand stored is
   * the number 0, which the "=" guard reads as missing.
   */
  lemma ZeroOperandBlocksEqualsAsWritten(p: Platform)
    ensures var s1 := Reduce(p, InitialState(), NumberPressed("0"));
      && StoredOperandAsWritten(p, s1) == Number(Finite(0.0))
      && !EqualsProceedsAsWritten(Some(Plus), StoredOperandAsWritten(p, s1))
  {
    FirstDigit(p, "0");
    SmallIntegerText(p, 0, "0");
  }

  /** With the operand kept as text, 0 + 5 = shows "5". */
  lemma ZeroOperandEvaluates(p: Platform)
    ensures var s1 := Reduce(p, InitialState(), NumberPressed("0"));
      var s2 := Reduce(p, s1, OperatorPressed(Plus));
      var s3 := Reduce(p, s2, NumberPressed("5"));
      var s4 := Reduce(p, s3, OperatorPressed(Equals));
      && s2.lastNumber == "0"
      && s4.display == "5" && s4.equation == "0 + 5 = 5" && s4.lastOperator == None
  {
    var options := CalculateOptions(Some(Finite(5.0)), None, Some(Deg));
    assert Calculate(p, Plus, Finite(0.0), options).result == Finite(5.0) by {
      CalculateProperties.BinaryArithmetic(p, Finite(0.0), Finite(5.0), options);
    }
    var s3 := TwoDigitCalculation(p, 0, "0", Plus, 5, "5");
    assert "0" + " " + Tag(Plus) + " " + "5" + " = " + "5" == "0 + 5 = 5";
    var t := TwoDigitResult(p, 0, "0", Plus, 5, "5", 5, "5");
  }
}

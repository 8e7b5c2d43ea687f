/**
 * The hook of hooks/useCalculator.ts as an object: one mutable state cell that
 * every handler replaces with its updater's result, keeping the state invariant.
 */
module CalculatorHook {
  import opened Wrappers
  import opened JsRuntime
  import opened CalculatorTypes
  import UseCalculator
  import ReducerProperties

  class Calculator {
    const platform: Platform
    var state: UseCalculator.State

    ghost predicate Valid()
      reads this
    {
      RendersNumerals(platform) && UseCalculator.Valid(state)
    }

    constructor (p: Platform)
      requires RendersNumerals(p)
      ensures Valid() && state == UseCalculator.InitialState()
    {
      platform := p;
      state := UseCalculator.InitialState();
    }

    method HandleNumber(num: string)
      requires Valid() && num != ""
      modifies this
      ensures Valid() && state == UseCalculator.HandleNumber(old(state), num)
    {
      ReducerProperties.ReducePreservesValid(platform, state, UseCalculator.NumberPressed(num));
      state := UseCalculator.HandleNumber(state, num);
    }

    method HandleDecimalPoint()
      requires Valid()
      modifies this
      ensures Valid() && state == UseCalculator.HandleDecimalPoint(old(state))
    {
      ReducerProperties.ReducePreservesValid(platform, state, UseCalculator.DecimalPressed);
      state := UseCalculator.HandleDecimalPoint(state);
    }

    method ToggleSecondMode()
      requires Valid()
      modifies this
      ensures Valid() && state == old(state).(isSecondMode := !old(state).isSecondMode)
    {
      state := UseCalculator.ToggleSecondMode(state);
    }

    method HandleOperator(op: Op)
      requires Valid()
      modifies this
      ensures Valid() && state == UseCalculator.HandleOperator(platform, old(state), op)
    {
      ReducerProperties.HandleOperatorPreservesValid(platform, state, op);
      state := UseCalculator.HandleOperator(platform, state, op);
    }

    method CalculateResult()
      requires Valid()
      modifies this
      ensures Valid() && state == UseCalculator.CalculateResult(platform, old(state))
    {
      ReducerProperties.CalculateResultPreservesValid(platform, state);
      state := UseCalculator.CalculateResult(platform, state);
    }

    method SetAngleMode(mode: AngleMode)
      requires Valid()
      modifies this
      ensures Valid() && state == old(state).(angleMode := mode)
    {
      state := UseCalculator.SetAngleMode(state, mode);
    }

    method ClearMemory()
      requires Valid()
      modifies this
      ensures Valid() && state == old(state).(memory := Memory(Finite(0.0), false))
    {
      state := UseCalculator.ClearMemory(state);
    }

    method ClearError()
      requires Valid()
      modifies this
      ensures Valid() && state == old(state).(error := None)
    {
      state := UseCalculator.ClearError(state);
    }
  }
}

/**
 * What `formatResult` promises (types/calculatorTypes.ts): the error marker
 * exactly for non-finite numbers, and a display that parses back to the
 * number it shows. Also the defect of the trailing-zero clean-up as written.
 */
module FormatProperties {
  import opened Wrappers
  import opened JsRuntime
  import opened CalculatorTypes

  // ---------------------------------------------------------------------------
  // The trailing-zero clean-up as written eats the zeros of an exponent

  /** "1e-10" (what Number::toString gives for 10^-10) loses its last digit. */
  lemma StripZerosAsWrittenTruncatesExponent()
    ensures StripZerosAsWritten("1e-10") == "1e-1"
    ensures StripZerosAsWritten("1e-20") == "1e-2"
  {
    assert TrailingZeros("1e-10") == 1 by {
      assert "1e-10"[..4] == "1e-1";
    }
    assert TrailingZeros("1e-20") == 1 by {
      assert "1e-20"[..4] == "1e-2";
    }
  }

  /** So `formatResult(1e-10)` as written shows "1e-1", a value 10^9 times larger. */
  lemma FormatResultAsWrittenMisrendersTinyNumber(p: Platform, x: real)
    requires x == 1.0 / TenTo10
    requires p.round10(x) == x && p.show(x) == "1e-10"
    ensures FormatResultAsWritten(p, Finite(x)) == "1e-1"
    ensures FormatResult(p, Finite(x)) == "1e-10"
  {
    StripZerosAsWrittenTruncatesExponent();
    assert !IsInteger(x) by {
      assert 0.0 < x < 1.0;
    }
    assert !IsPlainLiteral("1e-10") by {
      assert Unsigned("1e-10") == "1e-10";
      assert !IsDigit("1e-10"[1]);
    }
  }

  // ---------------------------------------------------------------------------
  // The intended clean-up keeps the value of a plain literal

  lemma {:induction false} DotIndexOfPrefix(b: string, n: nat)
    requires DotIndex(b) < n <= |b|
    ensures DotIndex(b[..n]) == DotIndex(b)
    decreases |b|
  {
    if b[0] != '.' {
      assert b[..n][1..] == b[1..][..n - 1];
      DotIndexOfPrefix(b[1..], n - 1);
    }
  }

  /** A '.' somewhere in a plain literal is the one DotIndex finds in its digits. */
  lemma DotInLiteral(s: string)
    requires IsPlainLiteral(s) && '.' in s
    ensures DotIndex(Unsigned(s)) < |Unsigned(s)|
  {
    var b := Unsigned(s);
    var j :| 0 <= j < |s| && s[j] == '.';
    if |s| > 0 && s[0] == '-' {
      assert b[j - 1] == '.';
    } else {
      assert b[j] == '.';
    }
  }

  lemma {:induction false} FractionDropZero(f: string)
    requires AllDigits(f) && |f| > 0 && f[|f| - 1] == '0'
    ensures FractionValue(f[..|f| - 1]) == FractionValue(f)
    decreases |f|
  {
    if |f| > 1 {
      var g := f[1..];
      assert g[..|g| - 1] == f[..|f| - 1][1..];
      FractionDropZero(g);
    }
  }

  /** Dropping the last character of a signed string drops it from the digits. */
  lemma UnsignedDropLast(s: string)
    requires |Unsigned(s)| > 0
    ensures Unsigned(s[..|s| - 1]) == Unsigned(s)[..|Unsigned(s)| - 1]
    ensures (|s| > 1 && s[..|s| - 1][0] == '-') == (|s| > 0 && s[0] == '-')
  {
    if s[0] == '-' {
      assert s[..|s| - 1][1..] == s[1..][..|s| - 2];
    }
  }

  /** In the digits of a literal, a final fraction '0' can go. */
  lemma DigitsDropZero(b: string)
    requires 0 < DotIndex(b) < |b| && b[|b| - 1] == '0'
    requires AllDigits(b[..DotIndex(b)]) && AllDigits(b[DotIndex(b) + 1..])
    ensures var b' := b[..|b| - 1];
      && DotIndex(b') == DotIndex(b) < |b'|
      && b'[..DotIndex(b)] == b[..DotIndex(b)]
      && AllDigits(b'[DotIndex(b) + 1..])
      && FractionValue(b'[DotIndex(b) + 1..]) == FractionValue(b[DotIndex(b) + 1..])
  {
    var k := DotIndex(b);
    DotIndexOfPrefix(b, |b| - 1);
    var f := b[k + 1..];
    assert b[..|b| - 1][k + 1..] == f[..|f| - 1];
    FractionDropZero(f);
  }

  /** Dropping a final fraction '0' keeps a plain literal and its value. */
  lemma DropFractionZero(s: string)
    requires IsPlainLiteral(s) && '.' in s && s[|s| - 1] == '0'
    ensures IsPlainLiteral(s[..|s| - 1]) && '.' in s[..|s| - 1]
    ensures LiteralValue(s[..|s| - 1]) == LiteralValue(s)
  {
    var t := s[..|s| - 1];
    var b := Unsigned(s);
    var k := DotIndex(b);
    assert k < |b| && b[|b| - 1] == '0' by {
      DotInLiteral(s);
    }
    var b' := Unsigned(t);
    assert b' == b[..|b| - 1] && (|t| > 0 && t[0] == '-') == (|s| > 0 && s[0] == '-') by {
      UnsignedDropLast(s);
    }
    assert DotIndex(b') == k < |b'| && b'[..k] == b[..k] && AllDigits(b'[k + 1..])
      && FractionValue(b'[k + 1..]) == FractionValue(b[k + 1..]) by {
      DigitsDropZero(b);
    }
    assert IsPlainLiteral(t);
    if s[0] == '-' {
      assert t[k + 1] == '.';
    } else {
      assert t[k] == '.';
    }
  }

  /** Dropping a final '.' keeps a plain literal and its value. */
  lemma DropFinalDot(s: string)
    requires IsPlainLiteral(s) && |s| > 0 && s[|s| - 1] == '.'
    ensures IsPlainLiteral(s[..|s| - 1])
    ensures LiteralValue(s[..|s| - 1]) == LiteralValue(s)
  {
    var t := s[..|s| - 1];
    var b := Unsigned(s);
    var k := DotIndex(b);
    assert b[|b| - 1] == '.';
    assert k == |b| - 1;
    var b' := b[..k];
    assert Unsigned(t) == b' by {
      if s[0] == '-' {
        assert t[0] == '-';
      } else {
        assert t[0] == s[0];
      }
    }
    NoDotIndex(b');
    assert b'[..|b'|] == b';
  }

  /** Below a final "00", the regex strips the same as one '0' shorter. */
  lemma StripBeforeZero(s: string)
    requires |s| > 1 && s[|s| - 1] == '0' && s[|s| - 2] == '0'
    ensures StripZerosAsWritten(s) == StripZerosAsWritten(s[..|s| - 1])
  {
    var t := s[..|s| - 1];
    assert TrailingZeros(s) == 1 + TrailingZeros(t);
    var k := TrailingZeros(s);
    if k < |s| {
      assert s[|s| - k - 1] == t[|t| - (k - 1) - 1];
    }
  }

  /** A final ".0" goes entirely. */
  lemma StripBeforeDot(s: string)
    requires |s| > 1 && s[|s| - 1] == '0' && s[|s| - 2] == '.'
    ensures StripZerosAsWritten(s) == s[..|s| - 2]
  {
    assert TrailingZeros(s) == 1 + TrailingZeros(s[..|s| - 1]);
  }

  /** A final '0' after another digit goes alone. */
  lemma StripBeforeDigit(s: string)
    requires |s| > 1 && s[|s| - 1] == '0' && s[|s| - 2] != '0' && s[|s| - 2] != '.'
    ensures StripZerosAsWritten(s) == s[..|s| - 1]
  {
    assert TrailingZeros(s) == 1 + TrailingZeros(s[..|s| - 1]);
  }

  /** The intended clean-up: a plain literal stays one with the same value. */
  lemma {:induction false} StripFractionZerosKeepsValue(s: string)
    requires IsPlainLiteral(s)
    ensures IsPlainLiteral(StripFractionZeros(s))
    ensures LiteralValue(StripFractionZeros(s)) == LiteralValue(s)
    decreases |s|
  {
    if '.' in s && s[|s| - 1] == '0' {
      var t := s[..|s| - 1];
      DropFractionZero(s);
      assert |t| > 0;
      if t[|t| - 1] == '0' {
        StripBeforeZero(s);
        StripFractionZerosKeepsValue(t);
      } else if t[|t| - 1] == '.' {
        StripBeforeDot(s);
        assert t[..|t| - 1] == s[..|s| - 2];
        DropFinalDot(t);
      } else {
        StripBeforeDigit(s);
      }
    } else if '.' in s {
      assert StripZerosAsWritten(s) == s[..|s|] == s;
    }
  }

  /** The clean-up shortens its argument and leaves anything else untouched. */
  lemma StripFractionZerosShape(s: string)
    ensures StripFractionZeros(s) <= s
    ensures !(IsPlainLiteral(s) && '.' in s) ==> StripFractionZeros(s) == s
  {
  }

  // ---------------------------------------------------------------------------
  // formatResult

  lemma PlainLiteralIsNotMarker(s: string)
    requires IsPlainLiteral(s)
    ensures s != "" && s != ErrorMarker
  {
  }

  /** `parseFloat("Error")` is NaN. */
  lemma ParseErrorMarker(p: Platform)
    ensures ParseFloat(p, ErrorMarker) == NaN
  {
    assert !IsPlainLiteral(ErrorMarker) by {
      assert Unsigned(ErrorMarker) == ErrorMarker;
      assert !IsDigit(ErrorMarker[0]);
    }
  }

  /** The display is the error marker exactly when the number is NaN or infinite. */
  lemma FormatResultMarksNonFinite(p: Platform, n: Num)
    requires RendersNumerals(p)
    ensures FormatResult(p, n) != ""
    ensures FormatResult(p, n) == ErrorMarker <==> !n.Finite?
  {
    if n.Finite? {
      var r := Precision(p, n.r);
      var s := NumberToString(p, r);
      if IsInteger(r) && -TenTo21 < r < TenTo21 {
        NumberToStringRoundTrip(p, r);
        PlainLiteralIsNotMarker(s);
      }
      if IsPlainLiteral(s) {
        StripFractionZerosKeepsValue(s);
        PlainLiteralIsNotMarker(StripFractionZeros(s));
      }
    }
  }

  /** Both versions agree unless the rendering has trailing zeros and is not a plain fraction. */
  lemma FormatResultAgreesAwayFromExponents(p: Platform, x: real)
    requires var s := NumberToString(p, Precision(p, x));
      (IsPlainLiteral(s) && '.' in s) || s == "" || s[|s| - 1] != '0'
    ensures FormatResult(p, Finite(x)) == FormatResultAsWritten(p, Finite(x))
  {
    var s := NumberToString(p, Precision(p, x));
    if !(IsPlainLiteral(s) && '.' in s) && s != "" {
      assert TrailingZeros(s) == 0;
      assert s[..|s|] == s;
    }
  }

  /**
   * Re-reading a display and formatting it again shows the same text, when the
   * rounding is idempotent at x and the host's rendering of the rounded value
   * reads back as that value: a plain decimal literal of it, or an exponent
   * form that the host's parseFloat maps back to it.
   */
  lemma FormatParseFormat(p: Platform, x: real)
    requires p.round10(p.round10(x)) == p.round10(x)
    requires var y := Precision(p, x);
      || (IsInteger(y) && -TenTo21 < y < TenTo21)
      || (IsPlainLiteral(p.show(y)) && LiteralValue(p.show(y)) == y)
      || (!IsPlainLiteral(p.show(y)) && p.show(y) != ErrorMarker && p.parseOther(p.show(y)) == Finite(y))
    ensures FormatResult(p, ParseFloat(p, FormatResult(p, Finite(x)))) == FormatResult(p, Finite(x))
  {
    var y := Precision(p, x);
    var s := FormatResult(p, Finite(x));
    if IsInteger(y) && -TenTo21 < y < TenTo21 {
      NumberToStringRoundTrip(p, y);
    } else if IsPlainLiteral(p.show(y)) && LiteralValue(p.show(y)) == y {
      StripFractionZerosKeepsValue(p.show(y));
      if IsInteger(y) {
        assert s == p.show(y);
      }
    } else {
      assert s == p.show(y);
    }
    assert ParseFloat(p, s) == Finite(y);
    assert Precision(p, y) == y;
  }
}

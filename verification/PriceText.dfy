/** The text `unscalePrice` writes: the one trimmed decimal that scales back to the number. */
module PriceText {
  import opened Protocol
  import opened Amounts

  /** Digits before the point without a needless zero, two to six after it, no zero last beyond the second. */
  predicate TrimmedParts(i: string, f: string) {
    && AllDigits(i) && i != "" && (|i| > 1 ==> i[0] != '0')
    && AllDigits(f) && 2 <= |f| <= 6 && (|f| > 2 ==> f[|f| - 1] != '0')
  }

  ghost predicate Trimmed(s: string) {
    exists i, f :: TrimmedParts(i, f) && s == i + "." + f
  }

  lemma {:induction false} DigitsHaveNoZeroFirst(n: nat)
    ensures |ToDigits(n)| > 1 ==> ToDigits(n)[0] != '0'
    ensures n < 10 <==> |ToDigits(n)| == 1
    ensures n > 0 ==> ToDigits(n)[0] != '0'
  {
    if n >= 10 { DigitsHaveNoZeroFirst(n / 10); }
  }

  lemma {:induction false} StrippedEnds(s: string)
    ensures StripZeros(s) != "" ==> StripZeros(s)[|StripZeros(s)| - 1] != '0'
  {
    if s != "" && s[|s| - 1] == '0' { StrippedEnds(s[..|s| - 1]); }
  }

  /** Padding only reaches seven digits, so it never puts a zero before a digit other than the single one. */
  lemma {:induction false} PaddedHead(n: nat)
    ensures var str := PadStart(ToDigits(n), USDC_DECIMALS + 1);
            |str| > USDC_DECIMALS && AllDigits(str) && (|str| - USDC_DECIMALS > 1 ==> str[0] != '0')
  {
    DigitsHaveNoZeroFirst(n);
    PadIsDigits(ToDigits(n), USDC_DECIMALS + 1);
  }

  lemma {:induction false} PartsOfPoint(str: string)
    requires |str| > USDC_DECIMALS && AllDigits(str) && (|str| - USDC_DECIMALS > 1 ==> str[0] != '0')
    ensures Trimmed(WithPoint(str))
  {
    hide StripZeros, IntVal;
    var cut := |str| - USDC_DECIMALS;
    var i, head, tail := str[..cut], str[cut..cut + MIN_DECIMAL_PLACES], str[cut + MIN_DECIMAL_PLACES..];
    CutTwice(str, cut, cut + MIN_DECIMAL_PLACES);
    StripIsDigits(tail);
    StrippedEnds(tail);
    var f := head + StripZeros(tail);
    assert |f| > 2 ==> f[|f| - 1] == StripZeros(tail)[|StripZeros(tail)| - 1];
    assert TrimmedParts(i, f);
  }

  /** Digit strings of one length and one value are the same. */
  lemma {:induction false} SameDigits(a: string, b: string)
    requires AllDigits(a) && AllDigits(b) && |a| == |b| && IntVal(a) == IntVal(b)
    ensures a == b
  {
    if a != "" {
      var n := |a| - 1;
      var x, y := a[..n], b[..n];
      LastDigit(IntVal(x), DigitVal(a[n]), IntVal(y), DigitVal(b[n]));
      DigitsDiffer(a[n], b[n]);
      hide IntVal, DigitVal;
      SameDigits(x, y);
      assert a == x + [a[n]] && b == y + [b[n]];
    }
  }

  lemma {:induction false} DigitsDiffer(c: char, d: char)
    requires '0' <= c <= '9' && '0' <= d <= '9' && DigitVal(c) == DigitVal(d)
    ensures c == d
  {
  }

  lemma {:induction false} LastDigit(m: int, d: int, n: int, e: int)
    requires 10 * m + d == 10 * n + e && 0 <= d < 10 && 0 <= e < 10
    ensures m == n && d == e
  {
  }

  lemma {:induction false} ValueRange(s: string)
    requires AllDigits(s) && s != ""
    ensures IntVal(s) < Pow10(|s|) && (s[0] != '0' ==> IntVal(s) >= Pow10(|s| - 1))
  {
    var n := |s| - 1;
    if n > 0 {
      ValueRange(s[..n]);
    } else {
      assert s[..0] == "" && Pow10(1) == 10 * Pow10(0);
    }
  }

  lemma {:induction false} Pow10Grows(m: nat, n: nat)
    requires m <= n
    ensures Pow10(m) <= Pow10(n)
  {
    if m < n { Pow10Grows(m, n - 1); }
  }

  /** A longer digit string without a zero in front is a larger number. */
  lemma {:induction false} LongerIsLarger(a: string, b: string)
    requires AllDigits(a) && AllDigits(b) && b != "" && |a| > |b| && a[0] != '0'
    ensures IntVal(a) > IntVal(b)
  {
    ValueRange(a);
    ValueRange(b);
    Pow10Grows(|b|, |a| - 1);
  }

  /** Two trimmed fractions that agree once padded to six places are the same. */
  lemma {:induction false} FitInjective(f: string, g: string)
    requires 2 <= |f| <= |g| <= 6 && (|g| > 2 ==> g[|g| - 1] != '0')
    requires Fit(f, 6) == Fit(g, 6)
    ensures f == g
  {
    assert Fit(f, 6)[..|f|] == f && Fit(g, 6)[..|g|] == g;
    if |f| < |g| {
      ZeroAt(6 - |f|, |g| - 1 - |f|);
      assert false;
    }
  }

  lemma {:induction false} ZeroAt(n: nat, k: nat)
    requires k < n
    ensures Zeros(n)[k] == '0'
  {
    if k < n - 1 { ZeroAt(n - 1, k); }
  }

  lemma {:induction false} SameParts(i: string, f: string, j: string, g: string)
    requires TrimmedParts(i, f) && TrimmedParts(j, g) && |i| >= |j|
    requires IntVal(i + Fit(f, 6)) == IntVal(j + Fit(g, 6))
    ensures i == j && f == g
  {
    var a, b := i + Fit(f, 6), j + Fit(g, 6);
    FitIsDigits(f);
    FitIsDigits(g);
    if |i| > |j| {
      LongerIsLarger(a, b);
      assert false;
    } else {
      SameDigits(a, b);
      assert a[..|i|] == i && b[..|j|] == j && a[|i|..] == Fit(f, 6) && b[|j|..] == Fit(g, 6);
      if |f| <= |g| { FitInjective(f, g); } else { FitInjective(g, f); }
    }
  }

  lemma {:induction false} FitIsDigits(f: string)
    requires AllDigits(f)
    ensures AllDigits(Fit(f, 6))
  {
    ZerosAreDigits(if |f| < 6 then 6 - |f| else 0);
  }

  lemma {:induction false} TrimmedIsUnique(s: string, t: string)
    requires Trimmed(s) && Trimmed(t) && ScalePrice(s) == ScalePrice(t)
    ensures s == t
  {
    var i, f :| TrimmedParts(i, f) && s == i + "." + f;
    var j, g :| TrimmedParts(j, g) && t == j + "." + g;
    ScaleSplit(i, f);
    ScaleSplit(j, g);
    if |i| >= |j| { SameParts(i, f, j, g); } else { SameParts(j, g, i, f); }
  }

  /** What is written for a number is the one trimmed decimal that scales to it. */
  lemma {:induction false} UnscaledText(s: string, n: nat)
    ensures s == UnscalePrice(n) <==> Trimmed(s) && ScalePrice(s) == Some(n)
  {
    ScaleUnscale(n);
    PaddedHead(n);
    PartsOfPoint(PadStart(ToDigits(n), USDC_DECIMALS + 1));
    if Trimmed(s) && ScalePrice(s) == Some(n) { TrimmedIsUnique(s, UnscalePrice(n)); }
  }
}

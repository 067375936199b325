/**
 Decimal strings and integer micro-units: `normalizeWithDecimals`, `scalePrice`, `unscalePrice`, and
 the buyer's sanitizer. The meaning of a decimal string is the rational number it denotes.
 */
module Amounts {
  import opened Protocol

  const USDC_DECIMALS: nat := 6
  const MIN_DECIMAL_PLACES: nat := 2

  predicate AllDigits(s: string) {
    forall i :: 0 <= i < |s| ==> '0' <= s[i] <= '9'
  }

  function Pow10(n: nat): (p: nat)
    ensures p > 0
  {
    if n == 0 then 1 else 10 * Pow10(n - 1)
  }

  function DigitVal(c: char): nat
    ensures DigitVal(c) < 10
  {
    if '0' <= c <= '9' then c as int - '0' as int else 0
  }

  /** `BigInt` of a digit string. */
  function IntVal(s: string): nat {
    if s == "" then 0 else 10 * IntVal(s[..|s| - 1]) + DigitVal(s[|s| - 1])
  }

  function Zeros(n: nat): (z: string)
    ensures |z| == n
  {
    if n == 0 then "" else Zeros(n - 1) + "0"
  }

  /** The text before the first point and the text after it, if there is a point. */
  function Split(s: string): (string, Option<string>) {
    if s == "" then ("", None)
    else if s[0] == '.' then ("", Some(s[1..]))
    else var (i, f) := Split(s[1..]); ([s[0]] + i, f)
  }

  /** `/^\d+(\.\d+)?$/` */
  predicate WellFormed(s: string) {
    var (i, f) := Split(s);
    i != "" && AllDigits(i) && (f.Some? ==> f.value != "" && AllDigits(f.value))
  }

  function IntPart(s: string): string { Split(s).0 }

  function FracPart(s: string): string {
    match Split(s).1 case None => "" case Some(f) => f
  }

  /** Pads or truncates the fraction to exactly `decimals` digits. */
  function Fit(frac: string, decimals: nat): (f: string)
    ensures |f| == decimals
  {
    if |frac| < decimals then frac + Zeros(decimals - |frac|) else frac[..decimals]
  }

  /** `normalizeWithDecimals`; None stands for the thrown error. */
  function Normalize(s: string, decimals: nat): Option<nat> {
    if WellFormed(s) then Some(IntVal(IntPart(s) + Fit(FracPart(s), decimals))) else None
  }

  /** A decimal number, num / 10^scale: what a decimal string denotes and decimal.js computes with. */
  datatype Decimal = Decimal(num: int, scale: nat)

  predicate AtMost(a: Decimal, b: Decimal) {
    a.num * Pow10(b.scale) <= b.num * Pow10(a.scale)
  }

  /** The same number, however it is written: "10" and "10.00". */
  predicate SameValue(a: Decimal, b: Decimal) {
    AtMost(a, b) && AtMost(b, a)
  }

  /** n is the floor of v * p / q. */
  predicate IsFloor(n: int, v: int, p: int, q: int) {
    n * q <= v * p < (n + 1) * q
  }

  function Denote(s: string): Decimal {
    Decimal(IntVal(IntPart(s) + FracPart(s)), |FracPart(s)|)
  }

  lemma {:induction false} MulShift(a: int, b: int, c: int)
    ensures a * (b * c) == (a * b) * c == (a * c) * b
  {
  }

  lemma {:induction false} ShiftDigit(a: int, p: int, c: int, d: int)
    requires c < p && d <= 9
    ensures 10 * (a * p + c) + d == a * (10 * p) + (10 * c + d) && 10 * c + d < 10 * p
  {
    MulShift(a, 10, p);
  }

  lemma {:induction false} PadBracket(v: int, p: int, q: int)
    requires q > 0
    ensures IsFloor(v * p, v, p * q, q)
  {
    MulShift(v, p, q);
    assert (v * p + 1) * q == (v * p) * q + q;
  }

  lemma {:induction false} IntValConcat(a: string, b: string)
    ensures IntVal(a + b) == IntVal(a) * Pow10(|b|) + IntVal(b)
    ensures IntVal(b) < Pow10(|b|)
  {
    if b == "" {
      assert a + b == a;
    } else {
      var c := b[..|b| - 1];
      IntValConcat(a, c);
      assert (a + b)[..|a + b| - 1] == a + c;
      ShiftDigit(IntVal(a), Pow10(|c|), IntVal(c), IntVal(b) - 10 * IntVal(c));
    }
  }

  lemma {:induction false} ZerosAreZero(n: nat)
    ensures IntVal(Zeros(n)) == 0
  {
    if n > 0 {
      assert Zeros(n)[..n - 1] == Zeros(n - 1);
      ZerosAreZero(n - 1);
    }
  }

  lemma {:induction false} ZerosAreDigits(n: nat)
    ensures AllDigits(Zeros(n))
  {
    if n > 0 { ZerosAreDigits(n - 1); }
  }

  lemma {:induction false} Pow10Adds(m: nat, n: nat)
    ensures Pow10(m + n) == Pow10(m) * Pow10(n)
  {
    if m > 0 {
      Pow10Adds(m - 1, n);
      assert Pow10(m + n) == 10 * (Pow10(m - 1) * Pow10(n));
    }
  }

  lemma {:induction false} PaddedIsFloor(i: string, frac: string, d: nat)
    requires |frac| < d
    ensures IsFloor(IntVal(i + Fit(frac, d)), IntVal(i + frac), Pow10(d), Pow10(|frac|))
  {
    var f, k := |frac|, d - |frac|;
    ZerosAreZero(k);
    IntValConcat(i + frac, Zeros(k));
    assert i + Fit(frac, d) == (i + frac) + Zeros(k);
    Pow10Adds(k, f);
    PadBracket(IntVal(i + frac), Pow10(k), Pow10(f));
  }

  lemma {:induction false} CutBracket(n: int, q: int, r: int, p: int)
    requires 0 <= r < q && p > 0
    ensures IsFloor(n, n * q + r, p, p * q)
  {
    assert (n * q + r) * p == n * (p * q) + r * p;
    assert (n + 1) * (p * q) == n * (p * q) + q * p;
    assert 0 <= r * p < q * p;
  }

  lemma {:induction false} CutIsFloor(i: string, frac: string, d: nat)
    requires d <= |frac|
    ensures IsFloor(IntVal(i + Fit(frac, d)), IntVal(i + frac), Pow10(d), Pow10(|frac|))
  {
    var kept, rest := frac[..d], frac[d..];
    assert i + frac == (i + kept) + rest;
    IntValConcat(i + kept, rest);
    Pow10Adds(d, |rest|);
    CutBracket(IntVal(i + kept), Pow10(|rest|), IntVal(rest), Pow10(d));
  }

  /** Normalizing gives the floor of the denoted value times 10^decimals; every other string is refused. */
  lemma {:induction false} NormalizeIsFloor(s: string, decimals: nat)
    ensures Normalize(s, decimals).Some? <==> WellFormed(s)
    ensures WellFormed(s) ==>
              IsFloor(Normalize(s, decimals).value, Denote(s).num, Pow10(decimals), Pow10(Denote(s).scale))
  {
    if |FracPart(s)| < decimals {
      PaddedIsFloor(IntPart(s), FracPart(s), decimals);
    } else {
      CutIsFloor(IntPart(s), FracPart(s), decimals);
    }
  }

  lemma {:induction false} MulOrder(a: int, b: int, c: int)
    requires a <= b && c > 0
    ensures a * c <= b * c
    ensures a < b ==> a * c < b * c
  {
  }

  lemma {:induction false} FloorOrder(m: int, n: int, va: int, qa: int, vb: int, qb: int, p: int)
    requires qa > 0 && qb > 0 && p > 0 && IsFloor(m, va, p, qa) && IsFloor(n, vb, p, qb) && va * qb <= vb * qa
    ensures m <= n
  {
    if n + 1 <= m {
      MulOrder(m * qa, va * p, qb);
      MulOrder(va * qb, vb * qa, p);
      MulOrder(vb * p, (n + 1) * qb, qa);
      MulOrder(n + 1, m, qa * qb);
      MulShift(m, qa, qb);
      MulShift(va, p, qb);
      MulShift(vb, qa, p);
      MulShift(n + 1, qa, qb);
      assert false;
    }
  }

  /** Scaling never reorders prices. */
  lemma {:induction false} NormalizeMonotone(a: string, b: string, decimals: nat)
    requires WellFormed(a) && WellFormed(b) && AtMost(Denote(a), Denote(b))
    ensures Normalize(a, decimals).value <= Normalize(b, decimals).value
  {
    NormalizeIsFloor(a, decimals);
    NormalizeIsFloor(b, decimals);
    FloorOrder(Normalize(a, decimals).value, Normalize(b, decimals).value, Denote(a).num, Pow10(Denote(a).scale),
               Denote(b).num, Pow10(Denote(b).scale), Pow10(decimals));
  }

  /** `scalePrice` with the default six-decimal mint. */
  function ScalePrice(s: string): Option<nat> {
    Normalize(s, USDC_DECIMALS)
  }

  function ToDigits(n: nat): (s: string)
    ensures s != "" && AllDigits(s) && IntVal(s) == n
  {
    var digit := [('0' as int + n % 10) as char];
    if n < 10 then
      assert digit[..0] == "";
      digit
    else
      var s := ToDigits(n / 10) + digit;
      assert s[..|s| - 1] == ToDigits(n / 10);
      s
  }

  function PadStart(s: string, width: nat): (r: string)
    ensures |r| >= width && |r| >= |s|
  {
    if |s| < width then Zeros(width - |s|) + s else s
  }

  /** `replace(/0+$/, "")` */
  function StripZeros(s: string): (r: string)
    ensures |r| <= |s| && s == r + Zeros(|s| - |r|)
  {
    if s != "" && s[|s| - 1] == '0' then
      var r := StripZeros(s[..|s| - 1]);
      assert s == s[..|s| - 1] + "0" && Zeros(|s| - |r|) == Zeros(|s| - 1 - |r|) + "0";
      r
    else s
  }

  /** A digit string with the point six places from the right, trailing zeros cut down to two places. */
  function WithPoint(str: string): string
    requires |str| > USDC_DECIMALS
  {
    var cut := |str| - USDC_DECIMALS;
    str[..cut] + "." + (str[cut..cut + MIN_DECIMAL_PLACES] + StripZeros(str[cut + MIN_DECIMAL_PLACES..]))
  }

  /** `unscalePrice` */
  function UnscalePrice(scaled: nat): string {
    WithPoint(PadStart(ToDigits(scaled), USDC_DECIMALS + 1))
  }

  lemma {:induction false} SplitAtPoint(i: string, f: string)
    requires AllDigits(i)
    ensures Split(i + "." + f) == (i, Some(f))
  {
    var s := i + "." + f;
    if i == "" {
      assert s[1..] == f;
    } else {
      assert s[1..] == i[1..] + "." + f;
      SplitAtPoint(i[1..], f);
      assert [i[0]] + i[1..] == i;
    }
  }

  lemma {:induction false} ZeroHead(a: int, p: int, b: int)
    requires a == 0
    ensures a * p + b == b
  {
  }

  lemma {:induction false} PadKeepsValue(s: string, width: nat)
    ensures IntVal(PadStart(s, width)) == IntVal(s)
  {
    if |s| < width {
      var z := Zeros(width - |s|);
      ZerosAreZero(width - |s|);
      IntValConcat(z, s);
      ZeroHead(IntVal(z), Pow10(|s|), IntVal(s));
    }
  }

  lemma {:induction false} FitRestores(head: string, tail: string)
    ensures Fit(head + StripZeros(tail), |head| + |tail|) == head + tail
  {
    var kept := StripZeros(tail);
    assert tail == kept + Zeros(|tail| - |kept|);
  }

  lemma {:induction false} PadIsDigits(s: string, width: nat)
    requires AllDigits(s)
    ensures AllDigits(PadStart(s, width))
  {
    if |s| < width { ZerosAreDigits(width - |s|); }
  }

  lemma {:induction false} StripIsDigits(s: string)
    requires AllDigits(s)
    ensures AllDigits(StripZeros(s))
  {
    assert StripZeros(s) == s[..|StripZeros(s)|];
  }

  lemma {:induction false} ScaleWithPoint(str: string)
    requires |str| > USDC_DECIMALS && AllDigits(str)
    ensures ScalePrice(WithPoint(str)) == Some(IntVal(str))
  {
    var cut := |str| - USDC_DECIMALS;
    var i, head, tail := str[..cut], str[cut..cut + MIN_DECIMAL_PLACES], str[cut + MIN_DECIMAL_PLACES..];
    CutTwice(str, cut, cut + MIN_DECIMAL_PLACES);
    ScaleParts(i, head, tail);
  }

  lemma {:induction false} CutTwice(str: string, a: nat, b: nat)
    requires a <= b <= |str| && AllDigits(str)
    ensures str[..a] + (str[a..b] + str[b..]) == str
    ensures AllDigits(str[..a]) && AllDigits(str[a..b]) && AllDigits(str[b..])
  {
    assert str[a..b] + str[b..] == str[a..];
  }

  lemma {:induction false} ScaleParts(i: string, head: string, tail: string)
    requires AllDigits(i) && AllDigits(head) && AllDigits(tail) && i != "" && head != "" &&
             |head| + |tail| == USDC_DECIMALS
    ensures ScalePrice(i + "." + (head + StripZeros(tail))) == Some(IntVal(i + (head + tail)))
  {
    StripIsDigits(tail);
    FitRestores(head, tail);
    ScaleSplit(i, head + StripZeros(tail));
  }

  lemma {:induction false} ScaleSplit(i: string, f: string)
    requires AllDigits(i) && AllDigits(f) && i != "" && f != ""
    ensures ScalePrice(i + "." + f) == Some(IntVal(i + Fit(f, USDC_DECIMALS)))
  {
    SplitAtPoint(i, f);
  }

  /** Scaling undoes unscaling on every natural number. */
  lemma {:induction false} ScaleUnscale(scaled: nat)
    ensures ScalePrice(UnscalePrice(scaled)) == Some(scaled)
  {
    PadKeepsValue(ToDigits(scaled), USDC_DECIMALS + 1);
    PadIsDigits(ToDigits(scaled), USDC_DECIMALS + 1);
    ScaleWithPoint(PadStart(ToDigits(scaled), USDC_DECIMALS + 1));
  }

  // The buyer's sanitizer.

  datatype BuyerAction = Counter(price: Decimal) | OtherAction

  /** 0.000001 */
  const MIN_PRICE := Decimal(1, 6)

  function Min(x: Decimal, y: Decimal): Decimal { if AtMost(y, x) then y else x }

  function Max(x: Decimal, y: Decimal): Decimal { if AtMost(x, y) then y else x }

  function SanitizeBuyerAction(a: BuyerAction, budgetHard: Decimal): BuyerAction {
    if a.Counter? then Counter(Max(Min(a.price, budgetHard), MIN_PRICE)) else a
  }

  lemma {:induction false} MinIsAtMost(x: Decimal, y: Decimal)
    ensures AtMost(Min(x, y), y)
  {
  }

  lemma {:induction false} AtMostTransitive(a: Decimal, b: Decimal, c: Decimal)
    requires AtMost(a, b) && AtMost(b, c)
    ensures AtMost(a, c)
  {
    Chain(a.num, Pow10(a.scale), b.num, Pow10(b.scale), c.num, Pow10(c.scale));
  }

  lemma {:induction false} Chain(a: int, p: int, b: int, q: int, c: int, r: int)
    requires p > 0 && q > 0 && r > 0 && a * q <= b * p && b * r <= c * q
    ensures a * r <= c * p
  {
    MulOrder(a * q, b * p, r);
    MulOrder(b * r, c * q, p);
    MulShift(a, q, r);
    MulShift(b, p, r);
    MulShift(c, q, p);
    if a * r > c * p { MulOrder(c * p, a * r, q); assert false; }
  }

  lemma {:induction false} AtMostTotal(a: Decimal, b: Decimal)
    requires !AtMost(a, b)
    ensures AtMost(b, a)
  {
  }

  /**
   The sanitizer clamps: a price between the minimum and the budget stays as it is, one above becomes the budget, one
   below becomes the minimum, and so does every price when the budget is below the minimum. Other actions pass.
   */
  lemma {:induction false} SanitizerClamps(a: BuyerAction, budget: Decimal)
    ensures a.OtherAction? ==> SanitizeBuyerAction(a, budget) == a
    ensures a.Counter? ==>
              var r := SanitizeBuyerAction(a, budget);
              && r.Counter?
              && (AtMost(MIN_PRICE, a.price) && AtMost(a.price, budget) ==> SameValue(r.price, a.price))
              && (AtMost(MIN_PRICE, budget) && AtMost(budget, a.price) ==> SameValue(r.price, budget))
              && (AtMost(a.price, MIN_PRICE) || AtMost(budget, MIN_PRICE) ==> SameValue(r.price, MIN_PRICE))
  {
    if a.Counter? {
      var low := Min(a.price, budget);
      MinIsSmaller(a.price, budget);
      MaxIsLarger(low, MIN_PRICE);
      ClampedBetween(a.price, budget, low);
    }
  }

  lemma {:induction false} MinIsSmaller(x: Decimal, y: Decimal)
    ensures AtMost(x, y) ==> SameValue(Min(x, y), x)
    ensures AtMost(y, x) ==> SameValue(Min(x, y), y)
    ensures AtMost(Min(x, y), x) && AtMost(Min(x, y), y)
  {
  }

  lemma {:induction false} MaxIsLarger(x: Decimal, y: Decimal)
    ensures AtMost(x, y) ==> SameValue(Max(x, y), y)
    ensures AtMost(y, x) ==> SameValue(Max(x, y), x)
  {
  }

  lemma {:induction false} SameTransitive(a: Decimal, b: Decimal, c: Decimal)
    requires SameValue(a, b) && SameValue(b, c)
    ensures SameValue(a, c)
  {
    AtMostTransitive(a, b, c);
    AtMostTransitive(c, b, a);
  }

  lemma {:induction false} ClampedBetween(x: Decimal, y: Decimal, low: Decimal)
    requires low == Min(x, y)
    ensures AtMost(MIN_PRICE, x) && AtMost(x, y) ==> SameValue(Max(low, MIN_PRICE), x)
    ensures AtMost(MIN_PRICE, y) && AtMost(y, x) ==> SameValue(Max(low, MIN_PRICE), y)
    ensures AtMost(x, MIN_PRICE) || AtMost(y, MIN_PRICE) ==> SameValue(Max(low, MIN_PRICE), MIN_PRICE)
  {
    MinIsSmaller(x, y);
    MaxIsLarger(low, MIN_PRICE);
    hide AtMost, Min, Max;
    if AtMost(MIN_PRICE, x) && AtMost(x, y) {
      AtMostTransitive(MIN_PRICE, x, low);
      SameTransitive(Max(low, MIN_PRICE), low, x);
    }
    if AtMost(MIN_PRICE, y) && AtMost(y, x) {
      AtMostTransitive(MIN_PRICE, y, low);
      SameTransitive(Max(low, MIN_PRICE), low, y);
    }
    if AtMost(x, MIN_PRICE) { AtMostTransitive(low, x, MIN_PRICE); }
    if AtMost(y, MIN_PRICE) { AtMostTransitive(low, y, MIN_PRICE); }
  }

  /** The sanitized price is the minimum price, or it is at most the budget. */
  lemma {:induction false} SanitizedPrice(a: BuyerAction, budget: Decimal)
    requires a.Counter?
    ensures var p := SanitizeBuyerAction(a, budget).price;
            if AtMost(MIN_PRICE, budget) then AtMost(p, budget) else p == MIN_PRICE
  {
    MinIsAtMost(a.price, budget);
    if !AtMost(MIN_PRICE, budget) {
      AtMostTotal(MIN_PRICE, budget);
      AtMostTransitive(Min(a.price, budget), budget, MIN_PRICE);
    }
  }

  /**
   However the sanitized price is written, it is at most the budget, and scales to at most the scaled budget,
   exactly when the budget is at least the minimum price; below it the floor at the minimum price lifts the
   counter above the budget.
   */
  lemma {:induction false} SanitizedStaysInBudget(a: BuyerAction, price: string, budget: string)
    requires a.Counter? && WellFormed(price) && WellFormed(budget)
    requires SameValue(Denote(price), SanitizeBuyerAction(a, Denote(budget)).price)
    ensures AtMost(Denote(price), Denote(budget)) <==> AtMost(MIN_PRICE, Denote(budget))
    ensures ScalePrice(price).value <= ScalePrice(budget).value <==> AtMost(MIN_PRICE, Denote(budget))
  {
    var p, b := Denote(price), Denote(budget);
    SanitizedPrice(a, b);
    if AtMost(MIN_PRICE, b) {
      AtMostTransitive(p, SanitizeBuyerAction(a, b).price, b);
      NormalizeMonotone(price, budget, USDC_DECIMALS);
    } else {
      BelowMinimum(price, budget);
      if AtMost(p, b) { NormalizeMonotone(price, budget, USDC_DECIMALS); }
    }
  }

  /** A price worth the minimum scales above any budget below the minimum. */
  lemma {:induction false} BelowMinimum(price: string, budget: string)
    requires WellFormed(price) && WellFormed(budget)
    requires SameValue(Denote(price), MIN_PRICE) && !AtMost(MIN_PRICE, Denote(budget))
    ensures ScalePrice(price).value > ScalePrice(budget).value
  {
    NormalizeIsFloor(price, USDC_DECIMALS);
    NormalizeIsFloor(budget, USDC_DECIMALS);
    var p := Pow10(6);
    AtLeastOne(ScalePrice(price).value, Denote(price).num, p, Pow10(Denote(price).scale));
    AtMostZero(ScalePrice(budget).value, Denote(budget).num, p, Pow10(Denote(budget).scale));
  }

  lemma {:induction false} AtLeastOne(n: int, v: int, p: int, q: int)
    requires q > 0 && IsFloor(n, v, p, q) && v * p >= q
    ensures n >= 1
  {
    if n <= 0 { MulOrder(n + 1, 1, q); assert false; }
  }

  lemma {:induction false} AtMostZero(n: int, v: int, p: int, q: int)
    requires q > 0 && IsFloor(n, v, p, q) && v * p < q
    ensures n <= 0
  {
    if n >= 1 { MulOrder(1, n, q); assert false; }
  }

  const DUST := "0.0000005"
  const LEAST := "0.000001"

  lemma {:induction false} SixZeros()
    ensures Zeros(5) == "00000" && Zeros(6) == "000000"
  {
    assert Zeros(1) == "0" && Zeros(2) == "00" && Zeros(3) == "000";
    assert Zeros(4) == "0000";
  }

  /** "0." followed by zeros and one last digit. */
  lemma {:induction false} Tiny(s: string, zeros: string, digit: char)
    requires zeros == Zeros(|zeros|) && '0' <= digit <= '9' && s == "0" + "." + (zeros + [digit])
    ensures WellFormed(s) && Denote(s) == Decimal(DigitVal(digit), |zeros| + 1)
  {
    var f := zeros + [digit];
    ZerosAreDigits(|zeros|);
    SplitAtPoint("0", f);
    hide Zeros, IntVal, Split;
    TinyValue(zeros, digit);
  }

  lemma {:induction false} ZerosFront(n: nat)
    ensures "0" + Zeros(n) == Zeros(n + 1)
  {
    if n > 0 {
      ZerosFront(n - 1);
      assert "0" + (Zeros(n - 1) + "0") == ("0" + Zeros(n - 1)) + "0";
    }
  }

  lemma {:induction false} TinyValue(zeros: string, digit: char)
    requires zeros == Zeros(|zeros|) && '0' <= digit <= '9'
    ensures AllDigits(zeros + [digit]) && IntVal("0" + (zeros + [digit])) == DigitVal(digit)
  {
    var z := Zeros(|zeros| + 1);
    ZerosAreDigits(|zeros| + 1);
    ZerosAreZero(|zeros| + 1);
    ZerosFront(|zeros|);
    assert "0" + (zeros + [digit]) == ("0" + zeros) + [digit];
    assert (z + [digit])[..|z|] == z;
  }

  lemma {:induction false} WitnessStrings()
    ensures WellFormed(DUST) && Denote(DUST) == Decimal(5, 7)
    ensures WellFormed(LEAST) && Denote(LEAST) == MIN_PRICE
  {
    SixZeros();
    Tiny(DUST, "000000", '5');
    Tiny(LEAST, "00000", '1');
  }

  /** The promise fails below the minimum: a budget of 0.0000005 lets a counter of 0.000001 through. */
  lemma {:induction false} SanitizedCanExceedBudget(a: BuyerAction)
    requires a.Counter?
    ensures WellFormed(DUST) && SanitizeBuyerAction(a, Denote(DUST)) == Counter(Denote(LEAST))
    ensures !AtMost(Denote(LEAST), Denote(DUST)) && ScalePrice(LEAST).value > ScalePrice(DUST).value
  {
    WitnessStrings();
    assert Pow10(6) == 1_000_000 && Pow10(7) == 10_000_000;
    assert !AtMost(MIN_PRICE, Denote(DUST));
    SanitizedPrice(a, Denote(DUST));
    BelowMinimum(LEAST, DUST);
  }
}

/**
  Exact money arithmetic on decimal strings (packages/ai/src/budget.ts): every amount is an integer
  number of millionths.
 */
module Decimals {
  import opened Stock
  import opened Digits

  const SCALE: nat := 6
  const SCALE_FACTOR: nat := 1_000_000
  const PER_MILLION: nat := 1_000_000

  // ---------------------------------------------------------------------------------------
  // Strings
  // ---------------------------------------------------------------------------------------

  /** The white space JavaScript's `trim` removes. */
  predicate IsSpace(c: char) {
    var u := c as int;
    9 <= u <= 13 || u == 32 || u == 0xA0 || u == 0x1680 || 0x2000 <= u <= 0x200A || u == 0x2028 || u == 0x2029
    || u == 0x202F || u == 0x205F || u == 0x3000 || u == 0xFEFF
  }

  function TrimStart(s: string): string {
    if s != [] && IsSpace(s[0]) then TrimStart(s[1..]) else s
  }

  function TrimEnd(s: string): string {
    if s != [] && IsSpace(s[|s| - 1]) then TrimEnd(s[..|s| - 1]) else s
  }

  function Trim(s: string): string {
    TrimEnd(TrimStart(s))
  }

  /** The part of a string before its first dot. */
  function BeforeDot(s: string): (r: string)
    ensures r <= s
  {
    if s == [] || s[0] == '.' then [] else [s[0]] + BeforeDot(s[1..])
  }

  /** The first two pieces of splitting at dots; the second is empty when there is no dot. */
  function SplitDot(s: string): (string, string) {
    var whole := BeforeDot(s);
    (whole, if |whole| == |s| then "" else BeforeDot(s[|whole| + 1..]))
  }

  function Negative(s: string): bool {
    s != [] && s[0] == '-'
  }

  function ToScaled(value: string): int {
    var trimmed := Trim(value);
    var unsigned := if Negative(trimmed) then trimmed[1..] else trimmed;
    var (whole, fraction) := SplitDot(unsigned);
    if !AllDigits(whole) || !AllDigits(fraction) then 0
    else
      var scaled: int := ScaledParts(whole, fraction);
      if Negative(trimmed) then -scaled else scaled
  }

  /** Six digits after the dot: padded with zeros, or cut off. */
  function Six(fraction: string): (r: string)
    requires AllDigits(fraction)
    ensures AllDigits(r) && |r| == SCALE
  {
    (fraction + Zeros(SCALE))[..SCALE]
  }

  function ScaledParts(whole: string, fraction: string): nat
    requires AllDigits(whole) && AllDigits(fraction)
  {
    Value(whole) * SCALE_FACTOR + Value(Six(fraction))
  }

  function PadStart(s: string, k: nat): string {
    if |s| >= k then s else Zeros(k - |s|) + s
  }

  function FromScaled(value: nat): string {
    Decimal(value / SCALE_FACTOR) + "." + PadStart(Decimal(value % SCALE_FACTOR), SCALE)
  }

  /** BigInt division truncates; both arguments are non-negative wherever this is called. */
  function DivideRoundingUp(numerator: nat, denominator: nat): nat
    requires denominator > 0
  {
    (numerator + denominator - 1) / denominator
  }

  function CompareDecimal(left: string, right: string): int {
    var a, b := ToScaled(left), ToScaled(right);
    if a < b then -1 else if a > b then 1 else 0
  }

  function SubtractDecimal(left: string, right: string): string {
    FromScaled(Max(0, ToScaled(left) - ToScaled(right)))
  }

  /** The rates are columns that are never negative. */
  function EstimateCost(inputRate: Option<string>, outputRate: Option<string>, prompt: Option<nat>, completion: Option<nat>): Option<string>
    requires inputRate.Some? ==> ToScaled(inputRate.value) >= 0
    requires outputRate.Some? ==> ToScaled(outputRate.value) >= 0
  {
    if inputRate.None? || outputRate.None? then None
    else Some(FromScaled(DivideRoundingUp(Charge(inputRate.value, outputRate.value, prompt, completion), PER_MILLION)))
  }

  function Count(tokens: Option<nat>): nat {
    if tokens.Some? then tokens.value else 0
  }

  function Price(rate: nat, tokens: Option<nat>): nat {
    Count(tokens) * rate
  }

  /** The price of one answer, in millionths of a millionth. */
  function Charge(inputRate: string, outputRate: string, prompt: Option<nat>, completion: Option<nat>): nat
    requires ToScaled(inputRate) >= 0 && ToScaled(outputRate) >= 0
  {
    Price(ToScaled(inputRate), prompt) + Price(ToScaled(outputRate), completion)
  }

  // ---------------------------------------------------------------------------------------
  // Round trip
  // ---------------------------------------------------------------------------------------

  lemma {:induction false} BeforeDotIs(digits: string, rest: string)
    requires AllDigits(digits)
    ensures BeforeDot(digits + "." + rest) == digits && BeforeDot(digits) == digits
  {
    var s := digits + "." + rest;
    if digits != [] {
      BeforeDotIs(digits[1..], rest);
      assert s[1..] == digits[1..] + "." + rest;
      assert s[0] == digits[0] && IsDigit(digits[0]);
      assert digits == [digits[0]] + digits[1..];
    }
  }

  /** How a plain number written with a dot is read. */
  lemma PlainParts(whole: string, fraction: string)
    requires AllDigits(whole) && AllDigits(fraction)
    requires whole != [] || fraction != []
    ensures ToScaled(whole + "." + fraction) == ScaledParts(whole, fraction)
  {
    var s := whole + "." + fraction;
    if whole != [] {
      assert s[0] == whole[0] && IsDigit(s[0]);
    } else {
      assert s[0] == '.';
    }
    if fraction != [] {
      assert s[|s| - 1] == fraction[|fraction| - 1] && IsDigit(s[|s| - 1]);
    } else {
      assert s[|s| - 1] == '.';
    }
    assert Trim(s) == s && !Negative(s);
    BeforeDotIs(whole, fraction);
    BeforeDotIs(fraction, "");
    assert s[|whole| + 1..] == fraction;
  }

  ghost predicate AllSpace(s: string) {
    forall i :: 0 <= i < |s| ==> IsSpace(s[i])
  }

  lemma {:induction false} TrimStartSkips(before: string, s: string)
    requires AllSpace(before) && s != [] && !IsSpace(s[0])
    ensures TrimStart(before + s) == s
  {
    if before == [] {
      assert before + s == s;
    } else {
      TrimStartSkips(before[1..], s);
      assert (before + s)[1..] == before[1..] + s;
    }
  }

  lemma {:induction false} TrimEndSkips(s: string, after: string)
    requires AllSpace(after) && s != [] && !IsSpace(s[|s| - 1])
    ensures TrimEnd(s + after) == s
  {
    if after == [] {
      assert s + after == s;
    } else {
      var n := |after| - 1;
      TrimEndSkips(s, after[..n]);
      assert (s + after)[..|s + after| - 1] == s + after[..n];
    }
  }

  lemma Trims(before: string, s: string, after: string)
    requires AllSpace(before) && AllSpace(after) && s != [] && !IsSpace(s[0]) && !IsSpace(s[|s| - 1])
    ensures Trim(before + s + after) == s
  {
    assert before + s + after == before + (s + after);
    TrimStartSkips(before, s + after);
    TrimEndSkips(s, after);
  }

  /** A number may stand between white space and behind a minus sign: the white space does not count, and
      the sign turns it round. */
  lemma SignedParts(before: string, negative: bool, whole: string, fraction: string, after: string)
    requires AllSpace(before) && AllSpace(after) && AllDigits(whole) && AllDigits(fraction)
    requires whole != [] || fraction != []
    ensures var number := (if negative then "-" else "") + (whole + "." + fraction);
            var size: int := ScaledParts(whole, fraction);
            ToScaled(before + number + after) == if negative then -size else size
  {
    var plain := whole + "." + fraction;
    var number := (if negative then "-" else "") + plain;
    PlainEnds(whole, fraction);
    Trims(before, number, after);
    assert negative ==> number[1..] == plain;
    assert !negative ==> number == plain;
    BeforeDotIs(whole, fraction);
    BeforeDotIs(fraction, "");
    assert plain[|whole| + 1..] == fraction;
  }

  lemma PlainEnds(whole: string, fraction: string)
    requires AllDigits(whole) && AllDigits(fraction)
    ensures var s := whole + "." + fraction;
            s != [] && !IsSpace(s[0]) && !Negative(s) && !IsSpace(s[|s| - 1])
  {
    var s := whole + "." + fraction;
    assert s[0] == if whole != [] then whole[0] else '.';
    assert s[|s| - 1] == if fraction != [] then fraction[|fraction| - 1] else '.';
  }

  lemma PaddedValue(n: nat)
    requires n < SCALE_FACTOR
    ensures var p := PadStart(Decimal(n), SCALE); AllDigits(p) && |p| == SCALE && Value(p) == n
  {
    SixZeros();
    DecimalLength(n, 6);
    ValueOfDecimal(n);
    if |Decimal(n)| < SCALE {
      var zeros := Zeros(SCALE - |Decimal(n)|);
      ValueAppend(zeros, Decimal(n));
      ZerosAreZero(SCALE - |Decimal(n)|);
    }
  }

  lemma RoundTrip(n: nat)
    ensures ToScaled(FromScaled(n)) == n
  {
    var whole, fraction := Decimal(n / SCALE_FACTOR), PadStart(Decimal(n % SCALE_FACTOR), SCALE);
    PaddedValue(n % SCALE_FACTOR);
    PlainParts(whole, fraction);
    assert (fraction + Zeros(SCALE))[..SCALE] == fraction;
    ValueOfDecimal(n / SCALE_FACTOR);
  }

  /** What is left of a budget: reading it back gives the difference, or nothing when overspent, and
      it compares as it should with what it came from. */
  lemma SubtractThenCompare(left: string, right: string)
    ensures ToScaled(SubtractDecimal(left, right)) == Max(0, ToScaled(left) - ToScaled(right))
    ensures ToScaled(SubtractDecimal(left, right)) > 0 <==> CompareDecimal(left, right) > 0
    ensures CompareDecimal(left, right) == -CompareDecimal(right, left)
    ensures CompareDecimal(left, right) >= 0 ==>
              ToScaled(SubtractDecimal(left, right)) + ToScaled(right) == ToScaled(left)
  {
    RoundTrip(Max(0, ToScaled(left) - ToScaled(right)));
  }

  // ---------------------------------------------------------------------------------------
  // Precision
  // ---------------------------------------------------------------------------------------

  /** Six decimals or fewer are kept exactly. */
  lemma KeptExactly(whole: string, fraction: string)
    requires AllDigits(whole) && AllDigits(fraction) && |fraction| <= SCALE
    ensures ScaledParts(whole, fraction) * Pow10(|fraction|) == Value(whole + fraction) * SCALE_FACTOR
  {
    var zeros := Zeros(SCALE - |fraction|);
    assert Six(fraction) == fraction + zeros;
    SixZeros();
    ValueAppend(whole, fraction);
    ValueAppend(fraction, zeros);
    ZerosAreZero(|zeros|);
    PowersMultiply(|fraction|, |zeros|);
    Rearrange(Value(whole), Value(fraction), Pow10(|fraction|), Pow10(|zeros|),
              ScaledParts(whole, fraction), Value(whole + fraction));
  }

  /** Digits past the sixth are cut off, never rounded. */
  lemma CutOff(whole: string, fraction: string)
    requires AllDigits(whole) && AllDigits(fraction) && |fraction| > SCALE
    ensures var rest := fraction[SCALE..];
            Value(whole + fraction) == ScaledParts(whole, fraction) * Pow10(|rest|) + Value(rest)
  {
    var six, rest := fraction[..SCALE], fraction[SCALE..];
    assert Six(fraction) == six;
    assert whole + fraction == (whole + six) + rest;
    SixZeros();
    ValueAppend(whole, six);
    assert Value(whole + six) == ScaledParts(whole, fraction);
    ValueAppend(whole + six, rest);
  }

  lemma SixZeros()
    ensures Pow10(6) == SCALE_FACTOR
  {
    assert Pow10(6) == 10 * Pow10(5) && Pow10(5) == 10 * Pow10(4) && Pow10(4) == 10 * Pow10(3);
    assert Pow10(3) == 10 * Pow10(2) && Pow10(2) == 10 * Pow10(1) && Pow10(1) == 10 * Pow10(0);
  }

  lemma {:induction false} PowersMultiply(a: nat, b: nat)
    ensures Pow10(a + b) == Pow10(a) * Pow10(b)
  {
    if a > 0 {
      PowersMultiply(a - 1, b);
      Associate(Pow10(a - 1), Pow10(b));
    }
  }

  lemma Associate(x: nat, y: nat)
    ensures 10 * (x * y) == (10 * x) * y
  {
  }

  lemma Rearrange(w: nat, f: nat, p: nat, q: nat, s: nat, v: nat)
    requires p * q == SCALE_FACTOR && s == w * SCALE_FACTOR + f * q && v == w * p + f
    ensures s * p == v * SCALE_FACTOR
  {
    assert f * q * p == f * (p * q);
    assert w * SCALE_FACTOR * p == w * p * SCALE_FACTOR;
    assert (w * SCALE_FACTOR + f * q) * p == w * SCALE_FACTOR * p + f * q * p;
  }

  lemma ReadAsLess(whole: string, fraction: string)
    requires AllDigits(whole) && AllDigits(fraction) && |fraction| > SCALE
    ensures ScaledParts(whole, fraction) * Pow10(|fraction|) <= Value(whole + fraction) * SCALE_FACTOR
    ensures ScaledParts(whole, fraction) * Pow10(|fraction|) == Value(whole + fraction) * SCALE_FACTOR
            <==> fraction[SCALE..] == Zeros(|fraction| - SCALE)
  {
    var rest := fraction[SCALE..];
    CutOff(whole, fraction);
    SixZeros();
    PowersMultiply(SCALE, |rest|);
    WorthNothing(rest);
    Truncation(ScaledParts(whole, fraction), Pow10(|rest|), Value(rest), Value(whole + fraction), Pow10(|fraction|));
  }

  /** A rate means what it says exactly when every digit past the sixth is zero; otherwise it is read
      as less than it is. */
  lemma ExactlySixDecimals(whole: string, fraction: string)
    requires AllDigits(whole) && AllDigits(fraction) && (whole != [] || fraction != [])
    ensures var read := ToScaled(whole + "." + fraction) * Pow10(|fraction|);
            var meant := Value(whole + fraction) * SCALE_FACTOR;
            && read <= meant
            && (read == meant <==> |fraction| <= SCALE || fraction[SCALE..] == Zeros(|fraction| - SCALE))
  {
    PlainParts(whole, fraction);
    if |fraction| <= SCALE {
      KeptExactly(whole, fraction);
    } else {
      ReadAsLess(whole, fraction);
    }
  }

  lemma Truncation(s: nat, p: nat, r: nat, v: nat, q: nat)
    requires v == s * p + r && q == SCALE_FACTOR * p
    ensures s * q <= v * SCALE_FACTOR
    ensures s * q == v * SCALE_FACTOR <==> r == 0
  {
    assert s * (SCALE_FACTOR * p) == s * p * SCALE_FACTOR;
  }

  // ---------------------------------------------------------------------------------------
  // A month of answers
  // ---------------------------------------------------------------------------------------

  datatype Answer = Answer(prompt: Option<nat>, completion: Option<nat>)

  function TrueCharge(inputRate: string, outputRate: string, answers: seq<Answer>): nat
    requires ToScaled(inputRate) >= 0 && ToScaled(outputRate) >= 0
  {
    if answers == [] then 0
    else Charge(inputRate, outputRate, answers[0].prompt, answers[0].completion) + TrueCharge(inputRate, outputRate, answers[1..])
  }

  /** The recorded estimates, read back from their strings and added. */
  function Estimated(inputRate: string, outputRate: string, answers: seq<Answer>): int
    requires ToScaled(inputRate) >= 0 && ToScaled(outputRate) >= 0
  {
    if answers == [] then 0
    else
      ToScaled(EstimateCost(Some(inputRate), Some(outputRate), answers[0].prompt, answers[0].completion).value)
      + Estimated(inputRate, outputRate, answers[1..])
  }

  lemma RoundedUp(n: nat)
    ensures n <= DivideRoundingUp(n, PER_MILLION) * PER_MILLION < n + PER_MILLION
  {
  }

  /** The estimates of any number of answers never fall short of the true cost, and exceed it by less
      than a millionth an answer. */
  lemma {:induction false} EstimatesCover(inputRate: string, outputRate: string, answers: seq<Answer>)
    requires ToScaled(inputRate) >= 0 && ToScaled(outputRate) >= 0
    ensures TrueCharge(inputRate, outputRate, answers) <= Estimated(inputRate, outputRate, answers) * PER_MILLION
    ensures answers != [] ==>
              Estimated(inputRate, outputRate, answers) * PER_MILLION
              < TrueCharge(inputRate, outputRate, answers) + |answers| * PER_MILLION
  {
    if answers != [] {
      EstimatesCover(inputRate, outputRate, answers[1..]);
      var charge := Charge(inputRate, outputRate, answers[0].prompt, answers[0].completion);
      RoundedUp(charge);
      RoundTrip(DivideRoundingUp(charge, PER_MILLION));
    }
  }

  /** A rate as it is written: digits before and after the dot, six after it at most. */
  datatype Rate = Rate(whole: string, fraction: string)

  ghost predicate Written(r: Rate) {
    AllDigits(r.whole) && AllDigits(r.fraction) && (r.whole != [] || r.fraction != []) && |r.fraction| <= SCALE
  }

  function Text(r: Rate): string {
    r.whole + "." + r.fraction
  }

  /** The number the digits stand for, in millionths. */
  function Millionths(r: Rate): nat
    requires Written(r)
  {
    Value(r.whole + r.fraction) * Pow10(SCALE - |r.fraction|)
  }

  lemma ReadAsWritten(r: Rate)
    requires Written(r)
    ensures ToScaled(Text(r)) == Millionths(r)
  {
    PlainParts(r.whole, r.fraction);
    PartsAsWritten(r);
  }

  lemma PartsAsWritten(r: Rate)
    requires Written(r)
    ensures ScaledParts(r.whole, r.fraction) == Millionths(r)
  {
    KeptExactly(r.whole, r.fraction);
    SixZeros();
    PowersMultiply(|r.fraction|, SCALE - |r.fraction|);
    Cancel(ScaledParts(r.whole, r.fraction), Pow10(|r.fraction|), Value(r.whole + r.fraction), Pow10(SCALE - |r.fraction|));
  }

  lemma Cancel(s: nat, p: nat, v: nat, q: nat)
    requires p > 0 && p * q == SCALE_FACTOR && s * p == v * SCALE_FACTOR
    ensures s == v * q
  {
    assert v * (p * q) == v * q * p;
    if s < v * q {
      Larger(s, v * q, p);
    } else if s > v * q {
      Larger(v * q, s, p);
    }
  }

  lemma Larger(x: nat, y: nat, p: nat)
    requires x < y && p > 0
    ensures x * p < y * p
  {
  }

  /** What the answers cost by the digits of the rates, in millionths of a millionth. */
  function WrittenCharge(input: Rate, output: Rate, answers: seq<Answer>): nat
    requires Written(input) && Written(output)
  {
    if answers == [] then 0
    else Price(Millionths(input), answers[0].prompt) + Price(Millionths(output), answers[0].completion)
         + WrittenCharge(input, output, answers[1..])
  }

  lemma {:induction false} ChargedAsWritten(input: Rate, output: Rate, answers: seq<Answer>)
    requires Written(input) && Written(output)
    ensures ToScaled(Text(input)) >= 0 && ToScaled(Text(output)) >= 0
    ensures TrueCharge(Text(input), Text(output), answers) == WrittenCharge(input, output, answers)
  {
    ReadAsWritten(input);
    ReadAsWritten(output);
    if answers != [] {
      ChargedAsWritten(input, output, answers[1..]);
    }
  }

  /** For rates of at most six decimals, by their digits: the estimates of any number of answers, read
      back from their strings, never fall short of the cost and exceed it by less than a millionth an
      answer. */
  lemma EstimatesCoverWrittenRates(input: Rate, output: Rate, answers: seq<Answer>)
    requires Written(input) && Written(output)
    ensures ToScaled(Text(input)) >= 0 && ToScaled(Text(output)) >= 0
    ensures var estimated := Estimated(Text(input), Text(output), answers) * 1_000_000;
            && WrittenCharge(input, output, answers) <= estimated
            && (answers != [] ==> estimated < WrittenCharge(input, output, answers) + |answers| * 1_000_000)
  {
    ChargedAsWritten(input, output, answers);
    EstimatesCover(Text(input), Text(output), answers);
  }

  /** There is an estimate exactly when both rates are known. */
  lemma EstimatedExactly(inputRate: Option<string>, outputRate: Option<string>, prompt: Option<nat>, completion: Option<nat>)
    requires inputRate.Some? ==> ToScaled(inputRate.value) >= 0
    requires outputRate.Some? ==> ToScaled(outputRate.value) >= 0
    ensures EstimateCost(inputRate, outputRate, prompt, completion).Some? <==> inputRate.Some? && outputRate.Some?
  {
  }

  /** A number of tokens that is not known costs nothing, and any other the rate times itself. */
  lemma {:induction false} PricedExactly(rate: nat, tokens: nat)
    ensures Price(rate, None) == 0 && Price(rate, Some(tokens)) == tokens * rate
  {
  }

  lemma ReadAsNothing(fraction: string)
    requires AllDigits(fraction) && |fraction| > SCALE && fraction[..SCALE] == Zeros(SCALE)
    ensures ToScaled("." + fraction) == 0
  {
    PlainParts("", fraction);
    assert "" + "." + fraction == "." + fraction;
    assert Six(fraction) == Zeros(SCALE);
    ZerosAreZero(SCALE);
  }

  lemma WorthSomething(fraction: string)
    requires AllDigits(fraction) && |fraction| > SCALE && fraction[SCALE..] != Zeros(|fraction| - SCALE)
    ensures Value(fraction) > 0
  {
    WorthNothing(fraction);
    assert Zeros(|fraction|)[SCALE..] == Zeros(|fraction| - SCALE);
  }

  lemma FreeAnswer(rate: string, answer: Answer)
    requires ToScaled(rate) == 0
    ensures EstimateCost(Some(rate), Some(rate), answer.prompt, answer.completion) == Some(FromScaled(0))
  {
    assert Charge(rate, rate, answer.prompt, answer.completion) == 0;
  }

  /** A positive rate whose first six decimals are zero makes every answer free. */
  lemma TooFineARateIsFree(fraction: string, answer: Answer)
    requires AllDigits(fraction) && |fraction| > SCALE && fraction[..SCALE] == Zeros(SCALE)
    requires fraction[SCALE..] != Zeros(|fraction| - SCALE)
    ensures Value(fraction) > 0 && ToScaled("." + fraction) == 0
    ensures EstimateCost(Some("." + fraction), Some("." + fraction), answer.prompt, answer.completion) == Some(FromScaled(0))
  {
    ReadAsNothing(fraction);
    WorthSomething(fraction);
    FreeAnswer("." + fraction, answer);
  }
}

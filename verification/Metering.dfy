/** LLM metering: token estimates, charges in whole cents, and the amount reserved before a call. */
module Metering {
  import opened Basics

  // ----- rounding -----

  /** Decimal.quantize(0.01, ROUND_HALF_UP) in cents: to the nearest cent, ties away from zero. */
  function Cents(yuan: real): int {
    if yuan >= 0.0 then (yuan * 100.0 + 0.5).Floor else -((-yuan * 100.0 + 0.5).Floor)
  }

  function Yuan(cents: int): real {
    cents as real / 100.0
  }

  /** Rounding keeps order, leaves whole cents alone, and moves an amount by at most half a cent. */
  lemma HalfUpLaws(x: real, y: real, cents: int)
    ensures x <= y ==> Cents(x) <= Cents(y)
    ensures Cents(Yuan(cents)) == cents
    ensures -0.5 <= Cents(x) as real - x * 100.0 <= 0.5
    ensures 2.0 * x * 100.0 == (2 * cents + 1) as real ==> Cents(x) == if x >= 0.0 then cents + 1 else cents
  {
    assert Yuan(cents) * 100.0 == cents as real;
    assert (cents as real + 0.5).Floor == cents && ((-cents) as real + 0.5).Floor == -cents;
    assert -Yuan(cents) * 100.0 == (-cents) as real;
    if 2.0 * x * 100.0 == (2 * cents + 1) as real {
      assert x * 100.0 == cents as real + 0.5;
      assert -x * 100.0 + 0.5 == (-cents) as real;
      assert ((cents + 1) as real).Floor == cents + 1 && ((-cents) as real).Floor == -cents;
    }
  }

  // ----- usage -----

  datatype Usage = Usage(prompt: int, completion: int, total: int, estimated: bool)

  /** What an upstream reports, under the names the vendors use; a missing name and a zero count alike. */
  datatype RawUsage = RawUsage(prompt: seq<int>, completion: seq<int>, total: seq<int>)

  /** The `a or b or c or 0` chain. */
  function FirstNonZero(values: seq<int>): int {
    if |values| == 0 then 0 else if values[0] != 0 then values[0] else FirstNonZero(values[1..])
  }

  function EstimateTokens(text: string): int {
    Max(1, |text| / 4 + 1)
  }

  function SumEstimates(contents: seq<string>): int {
    if |contents| == 0 then 0
    else SumEstimates(contents[..|contents| - 1]) + EstimateTokens(contents[|contents| - 1])
  }

  function UsageFromResponse(raw: RawUsage, contents: seq<string>, reply: string): Usage {
    var prompt, completion, total := FirstNonZero(raw.prompt), FirstNonZero(raw.completion), FirstNonZero(raw.total);
    if prompt != 0 || completion != 0 || total != 0 then
      Usage(prompt, completion, if total == 0 then prompt + completion else total, false)
    else
      var p, c := SumEstimates(contents), EstimateTokens(reply);
      Usage(p, c, p + c, true)
  }

  /** A text is estimated at one token more than the whole fours of characters it holds. */
  lemma EstimateIs(text: string)
    ensures 4 * (EstimateTokens(text) - 1) <= |text| < 4 * EstimateTokens(text)
  {
  }

  lemma FirstNonZeroIs(values: seq<int>)
    ensures var r := FirstNonZero(values);
            if forall i :: 0 <= i < |values| ==> values[i] == 0 then r == 0
            else exists i :: 0 <= i < |values| && values[i] == r != 0 && forall k :: 0 <= k < i ==> values[k] == 0
  {
    if |values| > 0 && values[0] == 0 {
      FirstNonZeroIs(values[1..]);
      var rest := values[1..];
      assert forall k :: 1 <= k < |values| ==> values[k] == rest[k - 1];
      if i :| 0 <= i < |rest| && rest[i] == FirstNonZero(rest) != 0 && forall k :: 0 <= k < i ==> rest[k] == 0 {
        assert values[i + 1] == FirstNonZero(values);
      }
    }
  }

  /** Reported counts are taken over, a missing total being their sum; only if nothing at all is reported, prompt and
      reply are estimated from their texts. */
  lemma UsageIs(raw: RawUsage, contents: seq<string>, reply: string)
    ensures var u := UsageFromResponse(raw, contents, reply);
            var p, c, t := FirstNonZero(raw.prompt), FirstNonZero(raw.completion), FirstNonZero(raw.total);
            && (u.estimated <==> p == 0 && c == 0 && t == 0)
            && (!u.estimated ==> u.prompt == p && u.completion == c && u.total == if t != 0 then t else p + c)
            && (u.estimated ==> u.prompt == SumEstimates(contents) && u.total == u.prompt + u.completion &&
                                4 * (u.completion - 1) <= |reply| < 4 * u.completion)
  {
  }

  method SumOfEstimates(contents: seq<string>) returns (n: int)
    ensures n == SumEstimates(contents)
  {
    n := 0;
    for i := 0 to |contents|
      invariant n == SumEstimates(contents[..i])
    {
      assert contents[..i + 1][..i] == contents[..i];
      n := n + EstimateTokens(contents[i]);
    }
    assert contents[..|contents|] == contents;
  }

  /** A message is never estimated at fewer tokens than a quarter of its characters, and always at one at least. */
  lemma {:induction false} EstimateBounds(contents: seq<string>, i: nat)
    requires i < |contents|
    ensures SumEstimates(contents) >= |contents|
    ensures 4 * SumEstimates(contents) > |contents[i]|
    decreases |contents|
  {
    var front := contents[..|contents| - 1];
    if i < |front| {
      EstimateBounds(front, i);
    } else if |front| > 0 {
      EstimateBounds(front, 0);
    }
  }

  // ----- charges -----

  datatype Price = Price(input: real, output: real, minCharge: real)

  /** The row of the price table, if the model has one that is enabled; a zero minimum counts as missing. */
  function ModelPrice(row: Option<Price>, defaults: Price): Price {
    if row.None? then defaults
    else if row.value.minCharge == 0.0 then row.value.(minCharge := defaults.minCharge)
    else row.value
  }

  function BaseAmount(price: Price, prompt: int, completion: int): real {
    prompt as real / 1000.0 * price.input + completion as real / 1000.0 * price.output
  }

  function MaxReal(x: real, y: real): real {
    if x < y then y else x
  }

  /** An amount before the fee, in cents after the fee and at least the minimum charge. */
  function ChargeFor(base: real, multiplier: real, minCharge: real): int {
    Cents(MaxReal(base * multiplier, minCharge))
  }

  /** The charge in cents. */
  function CalculateCharge(price: Price, multiplier: real, usage: Usage): int {
    ChargeFor(BaseAmount(price, usage.prompt, usage.completion), multiplier, price.minCharge)
  }

  /** `max_tokens or default`. */
  function CompletionCap(maxTokens: Option<int>, default: int): int {
    if maxTokens.None? || maxTokens.value == 0 then default else maxTokens.value
  }

  /** The amount reserved, in cents; `floor` is the smallest reservation. */
  function EstimatePreauthorization(price: Price, multiplier: real, contents: seq<string>, maxTokens: Option<int>,
                                    defaultTokens: int, floor: real): int
  {
    var prompt, completion := SumEstimates(contents), CompletionCap(maxTokens, defaultTokens);
    var charge := CalculateCharge(price, multiplier, Usage(prompt, completion, prompt + completion, true));
    Cents(MaxReal(Yuan(charge), floor))
  }

  /** An amount in yuan, to the nearest cent. */
  predicate InCents(cents: int, yuan: real) {
    -0.5 <= cents as real - 100.0 * yuan <= 0.5
  }

  /** The larger of two amounts. */
  function AtLeast(yuan: real, least: real): real {
    if yuan < least then least else yuan
  }

  /** What a call costs before rounding: the input price for every thousand prompt tokens plus the output price for
      every thousand completion tokens, times the fee. */
  function Exact(price: Price, multiplier: real, prompt: int, completion: int): real {
    multiplier * (prompt as real * price.input + completion as real * price.output) / 1000.0
  }

  /** The charge in arithmetic: the exact cost and at least the minimum charge, to the nearest cent. */
  predicate IsChargeOf(cents: int, price: Price, multiplier: real, usage: Usage) {
    && InCents(cents, AtLeast(Exact(price, multiplier, usage.prompt, usage.completion), price.minCharge))
    && cents >= Cents(price.minCharge)
  }

  lemma ChargeIs(price: Price, multiplier: real, usage: Usage)
    ensures IsChargeOf(CalculateCharge(price, multiplier, usage), price, multiplier, usage)
    ensures InCents(Cents(price.minCharge), price.minCharge)
  {
    hide BaseAmount, Cents, Exact, AtLeast, InCents;
    var base := BaseAmount(price, usage.prompt, usage.completion);
    BaseIsExact(price, multiplier, usage.prompt, usage.completion);
    RoundedIs(base * multiplier, price.minCharge);
  }

  lemma BaseIsExact(price: Price, multiplier: real, prompt: int, completion: int)
    ensures BaseAmount(price, prompt, completion) * multiplier == Exact(price, multiplier, prompt, completion)
  {
    PerThousand(prompt as real, price.input);
    PerThousand(completion as real, price.output);
    var sum := prompt as real * price.input + completion as real * price.output;
    assert BaseAmount(price, prompt, completion) == sum / 1000.0;
    Commute(sum, multiplier);
  }

  lemma PerThousand(n: real, price: real)
    ensures n / 1000.0 * price == n * price / 1000.0
  {
  }

  lemma Commute(sum: real, multiplier: real)
    ensures sum / 1000.0 * multiplier == multiplier * sum / 1000.0
  {
  }

  lemma RoundedIs(yuan: real, least: real)
    ensures var cents := Cents(MaxReal(yuan, least));
            InCents(cents, AtLeast(yuan, least)) && Cents(least) <= cents && InCents(Cents(least), least)
  {
    HalfUpLaws(MaxReal(yuan, least), 0.0, 0);
    HalfUpLaws(least, MaxReal(yuan, least), 0);
  }

  /** The reservation: the charge of a call that uses the whole estimate, or the smallest reservation if that is more.
      */
  lemma PreauthIs(price: Price, multiplier: real, contents: seq<string>, maxTokens: Option<int>, defaultTokens: int,
                  floor: real, whole: Usage)
    requires whole.prompt == SumEstimates(contents)
    requires whole.completion == if maxTokens == None || maxTokens == Some(0) then defaultTokens else maxTokens.value
    ensures var charge := CalculateCharge(price, multiplier, whole) as real / 100.0;
            InCents(EstimatePreauthorization(price, multiplier, contents, maxTokens, defaultTokens, floor),
                    AtLeast(charge, floor))
  {
    RoundedIs(Yuan(CalculateCharge(price, multiplier, whole)), floor);
  }

  /** The price of an enabled row of the table, with the default minimum for a missing one; the defaults without a
      row. */
  lemma PriceIs(row: Option<Price>, defaults: Price)
    ensures var p := ModelPrice(row, defaults);
            && p.input == (if row.Some? then row.value.input else defaults.input)
            && p.output == (if row.Some? then row.value.output else defaults.output)
            && p.minCharge ==
               if row.Some? && row.value.minCharge != 0.0 then row.value.minCharge else defaults.minCharge
  {
  }

  predicate Sensible(price: Price, multiplier: real) {
    price.input >= 0.0 && price.output >= 0.0 && multiplier >= 0.0
  }

  lemma MulMonotone(a: real, b: real, c: real)
    requires a <= b && c >= 0.0
    ensures a * c <= b * c
  {
  }

  lemma BaseMonotone(price: Price, u: Usage, v: Usage)
    requires price.input >= 0.0 && price.output >= 0.0 && u.prompt <= v.prompt && u.completion <= v.completion
    ensures BaseAmount(price, u.prompt, u.completion) <= BaseAmount(price, v.prompt, v.completion)
  {
    MulMonotone(u.prompt as real / 1000.0, v.prompt as real / 1000.0, price.input);
    MulMonotone(u.completion as real / 1000.0, v.completion as real / 1000.0, price.output);
  }

  lemma CentsMonotone(x: real, y: real)
    requires x <= y
    ensures Cents(x) <= Cents(y)
  {
  }

  lemma ScaledMonotone(a: real, b: real, multiplier: real, minCharge: real)
    requires a <= b && multiplier >= 0.0
    ensures ChargeFor(a, multiplier, minCharge) <= ChargeFor(b, multiplier, minCharge)
  {
    MulMonotone(a, b, multiplier);
    CentsMonotone(MaxReal(a * multiplier, minCharge), MaxReal(b * multiplier, minCharge));
  }

  lemma ChargeMonotone(price: Price, multiplier: real, u: Usage, v: Usage)
    requires Sensible(price, multiplier) && u.prompt <= v.prompt && u.completion <= v.completion
    ensures CalculateCharge(price, multiplier, u) <= CalculateCharge(price, multiplier, v)
  {
    BaseMonotone(price, u, v);
    ScaledMonotone(BaseAmount(price, u.prompt, u.completion), BaseAmount(price, v.prompt, v.completion),
                   multiplier, price.minCharge);
  }

  /** The reservation covers the final charge of every call that stays within the estimate it was made from. */
  lemma PreauthCoversCharge(price: Price, multiplier: real, contents: seq<string>, maxTokens: Option<int>,
                            defaultTokens: int, floor: real, actual: Usage)
    requires Sensible(price, multiplier)
    requires actual.prompt <= SumEstimates(contents)
    requires actual.completion <= CompletionCap(maxTokens, defaultTokens)
    ensures CalculateCharge(price, multiplier, actual) <=
            EstimatePreauthorization(price, multiplier, contents, maxTokens, defaultTokens, floor)
    ensures Cents(floor) <= EstimatePreauthorization(price, multiplier, contents, maxTokens, defaultTokens, floor)
  {
    var prompt, completion := SumEstimates(contents), CompletionCap(maxTokens, defaultTokens);
    var estimate := Usage(prompt, completion, prompt + completion, true);
    ChargeMonotone(price, multiplier, actual, estimate);
    var charge := CalculateCharge(price, multiplier, estimate);
    HalfUpLaws(Yuan(charge), MaxReal(Yuan(charge), floor), charge);
    HalfUpLaws(floor, MaxReal(Yuan(charge), floor), charge);
  }

  /** When the upstream reports no usage, the reservation covers the charge if the reply fits the completion cap. */
  lemma UnreportedUsageIsCovered(price: Price, multiplier: real, contents: seq<string>, maxTokens: Option<int>,
                                 defaultTokens: int, floor: real, raw: RawUsage, reply: string)
    requires Sensible(price, multiplier)
    requires UsageFromResponse(raw, contents, reply).estimated
    requires |reply| < 4 * CompletionCap(maxTokens, defaultTokens)
    ensures CalculateCharge(price, multiplier, UsageFromResponse(raw, contents, reply)) <=
            EstimatePreauthorization(price, multiplier, contents, maxTokens, defaultTokens, floor)
  {
    PreauthCoversCharge(price, multiplier, contents, maxTokens, defaultTokens, floor,
                        UsageFromResponse(raw, contents, reply));
  }

  /** The usage stays within what a reservation is made from. */
  predicate WithinEstimate(actual: Usage, contents: seq<string>, maxTokens: Option<int>, defaultTokens: int) {
    actual.prompt <= SumEstimates(contents) && actual.completion <= CompletionCap(maxTokens, defaultTokens)
  }

  /** The cost of some tokens at so many yuan each. */
  function AtRate(tokens: int, yuan: real): real {
    tokens as real * yuan
  }

  /** What a token costs at a price of 1000 * yuan / multiplier per thousand, after the fee. */
  lemma PerToken(tokens: int, yuan: real, multiplier: real)
    requires multiplier > 0.0
    ensures tokens as real / 1000.0 * (1000.0 * yuan / multiplier) * multiplier == tokens as real * yuan
  {
    var n := tokens as real;
    assert 1000.0 * yuan / multiplier * multiplier == 1000.0 * yuan;
    assert n / 1000.0 * (1000.0 * yuan / multiplier) * multiplier == n / 1000.0 * (1000.0 * yuan);
  }

  /** An amount a yuan above another one and above the floor is rounded to more than that one's reservation. */
  lemma YuanMore(low: real, high: real, floor: real)
    requires low + 1.0 <= high && floor + 1.0 <= high
    ensures Cents(MaxReal(Yuan(Cents(low)), floor)) < Cents(high)
  {
    hide Cents;
    var reserved := MaxReal(Yuan(Cents(low)), floor);
    HalfUpLaws(low, high, 0);
    HalfUpLaws(high, high, 0);
    HalfUpLaws(reserved, high, 0);
  }

  /** One more token at that price is dearer than any reservation for fewer, if it costs a yuan more than the floor. */
  lemma TokenExceeds(few: int, many: int, yuan: real, floor: real)
    requires 0 <= few < many && yuan >= 1.0 && yuan >= floor + 1.0
    ensures Cents(MaxReal(Yuan(Cents(MaxReal(AtRate(few, yuan), 0.0))), floor)) <
            Cents(MaxReal(AtRate(many, yuan), 0.0))
  {
    hide Cents;
    var low, high := AtRate(few, yuan), AtRate(many, yuan);
    MulMonotone((few + 1) as real, many as real, yuan);
    assert (few + 1) as real * yuan == low + yuan;
    MulMonotone(0.0, few as real, yuan);
    assert low >= 0.0 && high >= low + yuan;
    YuanMore(low, high, floor);
  }

  /** Prices at which one kind of token costs that much and the other nothing. */
  function PromptPrice(yuan: real, multiplier: real): Price
    requires multiplier > 0.0
  {
    Price(1000.0 * yuan / multiplier, 0.0, 0.0)
  }

  function CompletionPrice(yuan: real, multiplier: real): Price
    requires multiplier > 0.0
  {
    Price(0.0, 1000.0 * yuan / multiplier, 0.0)
  }

  lemma OneSidedCharge(yuan: real, multiplier: real, u: Usage)
    requires multiplier > 0.0
    ensures CalculateCharge(PromptPrice(yuan, multiplier), multiplier, u) ==
            Cents(MaxReal(AtRate(u.prompt, yuan), 0.0))
    ensures CalculateCharge(CompletionPrice(yuan, multiplier), multiplier, u) ==
            Cents(MaxReal(AtRate(u.completion, yuan), 0.0))
  {
    PerToken(u.prompt, yuan, multiplier);
    PerToken(u.completion, yuan, multiplier);
    assert u.completion as real / 1000.0 * 0.0 == 0.0 && u.prompt as real / 1000.0 * 0.0 == 0.0;
  }

  lemma PricesAreSensible(yuan: real, multiplier: real)
    requires multiplier > 0.0 && yuan >= 1.0
    ensures Sensible(PromptPrice(yuan, multiplier), multiplier)
    ensures Sensible(CompletionPrice(yuan, multiplier), multiplier)
  {
    assert 1000.0 * yuan / multiplier >= 0.0;
  }

  lemma EstimatesArePositive(contents: seq<string>)
    ensures 0 <= SumEstimates(contents)
  {
    if |contents| > 0 {
      EstimateBounds(contents, 0);
    }
  }

  /** A reservation whose estimate is for fewer tokens of the one kind that costs anything. */
  lemma DearerThanReserved(price: Price, multiplier: real, contents: seq<string>, maxTokens: Option<int>,
                           defaultTokens: int, floor: real, actual: Usage, few: int, many: int, yuan: real)
    requires 0 <= few < many && yuan >= 1.0 && yuan >= floor + 1.0
    requires var prompt, completion := SumEstimates(contents), CompletionCap(maxTokens, defaultTokens);
             CalculateCharge(price, multiplier, Usage(prompt, completion, prompt + completion, true)) ==
             Cents(MaxReal(AtRate(few, yuan), 0.0))
    requires CalculateCharge(price, multiplier, actual) == Cents(MaxReal(AtRate(many, yuan), 0.0))
    ensures CalculateCharge(price, multiplier, actual) >
            EstimatePreauthorization(price, multiplier, contents, maxTokens, defaultTokens, floor)
  {
    hide CalculateCharge, Cents, MaxReal, AtRate;
    TokenExceeds(few, many, yuan, floor);
  }

  /** A call outside its estimate costs more than its reservation under some sensible price. */
  lemma OverrunExceedsReservation(multiplier: real, contents: seq<string>, maxTokens: Option<int>, defaultTokens: int,
                                  floor: real, actual: Usage) returns (price: Price)
    requires multiplier > 0.0 && 0 <= CompletionCap(maxTokens, defaultTokens)
    requires !WithinEstimate(actual, contents, maxTokens, defaultTokens)
    ensures Sensible(price, multiplier)
    ensures CalculateCharge(price, multiplier, actual) >
            EstimatePreauthorization(price, multiplier, contents, maxTokens, defaultTokens, floor)
  {
    hide Cents, CalculateCharge, EstimatePreauthorization, SumEstimates, CompletionCap, AtRate;
    var prompt, completion := SumEstimates(contents), CompletionCap(maxTokens, defaultTokens);
    var yuan := MaxReal(floor, 0.0) + 1.0;
    OneSidedCharge(yuan, multiplier, actual);
    OneSidedCharge(yuan, multiplier, Usage(prompt, completion, prompt + completion, true));
    EstimatesArePositive(contents);
    PricesAreSensible(yuan, multiplier);
    if prompt < actual.prompt {
      price := PromptPrice(yuan, multiplier);
      DearerThanReserved(price, multiplier, contents, maxTokens, defaultTokens, floor, actual,
                         prompt, actual.prompt, yuan);
    } else {
      price := CompletionPrice(yuan, multiplier);
      DearerThanReserved(price, multiplier, contents, maxTokens, defaultTokens, floor, actual,
                         completion, actual.completion, yuan);
    }
  }

  ghost predicate Covered(price: Price, multiplier: real, contents: seq<string>, maxTokens: Option<int>,
                          defaultTokens: int, floor: real, actual: Usage)
  {
    CalculateCharge(price, multiplier, actual) <=
    EstimatePreauthorization(price, multiplier, contents, maxTokens, defaultTokens, floor)
  }

  /** The reservation covers a call under every sensible price exactly if the call stays within its estimate. */
  lemma CoveredIffWithinEstimate(multiplier: real, contents: seq<string>, maxTokens: Option<int>, defaultTokens: int,
                                 floor: real, actual: Usage)
    requires multiplier > 0.0 && 0 <= CompletionCap(maxTokens, defaultTokens)
    ensures (forall price :: Sensible(price, multiplier) ==>
               Covered(price, multiplier, contents, maxTokens, defaultTokens, floor, actual)) <==>
            WithinEstimate(actual, contents, maxTokens, defaultTokens)
  {
    hide CalculateCharge, EstimatePreauthorization, SumEstimates, CompletionCap;
    if WithinEstimate(actual, contents, maxTokens, defaultTokens) {
      forall price | Sensible(price, multiplier)
        ensures Covered(price, multiplier, contents, maxTokens, defaultTokens, floor, actual)
      {
        PreauthCoversCharge(price, multiplier, contents, maxTokens, defaultTokens, floor, actual);
      }
    } else {
      var price := OverrunExceedsReservation(multiplier, contents, maxTokens, defaultTokens, floor, actual);
      assert !Covered(price, multiplier, contents, maxTokens, defaultTokens, floor, actual);
    }
  }
}

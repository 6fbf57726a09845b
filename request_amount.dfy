/** The amount of a transfer or deposit request as the request carries it, a .NET decimal, and
    what the numeric(18,4) columns make of the handler's in-memory results when they are saved.
    Stored rows count amounts in whole ten-thousandths; this module shows what happens to an
    amount that is not one, and that for every amount that is, the saved rows are exactly the
    ten-thousandth arithmetic the rest of the model does. */
module RequestAmount {
  import opened Common
  import opened TransferValidator

  /** A decimal value: units / 10^scale. */
  datatype Decimal = Decimal(units: int, scale: nat)

  function Pow10(n: nat): (r: nat)
    ensures r >= 1
  {
    if n == 0 then 1 else 10 * Pow10(n - 1)
  }

  function Max(a: nat, b: nat): nat { if a < b then b else a }

  /** The value of `d` counted in units of 10^-s. */
  function Align(d: Decimal, s: nat): int
    requires d.scale <= s
  {
    d.units * Pow10(s - d.scale)
  }

  /** decimal addition: exact, at the larger of the two scales. */
  function Add(a: Decimal, b: Decimal): Decimal {
    var s := Max(a.scale, b.scale);
    Decimal(Align(a, s) + Align(b, s), s)
  }

  function Negate(d: Decimal): Decimal {
    Decimal(-d.units, d.scale)
  }

  /** decimal comparison a <= b. */
  predicate LessOrEqual(a: Decimal, b: Decimal) {
    var s := Max(a.scale, b.scale);
    Align(a, s) <= Align(b, s)
  }

  /** A column value, counted in ten-thousandths, as a decimal. */
  function FromColumn(v: int): Decimal {
    Decimal(v, 4)
  }

  /** The value is a whole number of ten-thousandths. */
  predicate FitsColumn(d: Decimal) {
    d.scale <= 4 || d.units % Pow10(d.scale - 4) == 0
  }

  /** Assignment to a numeric(18,4) column: PostgreSQL rounds the value to four decimal places,
      half away from zero. The result is counted in ten-thousandths. */
  function RoundToColumn(d: Decimal): (v: int)
    ensures d.scale > 4 ==>
              var unit: int := Pow10(d.scale - 4);
              -unit <= 2 * (d.units - v * unit) <= unit
  {
    if d.scale <= 4 then d.units * Pow10(4 - d.scale)
    else
      var unit := Pow10(d.scale - 4);
      var a := if d.units < 0 then -d.units else d.units;
      var m := a / unit + (if 2 * (a % unit) >= unit then 1 else 0);
      RoundHalf(a, unit);
      if d.units < 0 then -m else m
  }

  lemma RoundHalf(a: nat, unit: int)
    requires unit >= 1
    ensures var m := a / unit + (if 2 * (a % unit) >= unit then 1 else 0);
            -unit <= 2 * (a - m * unit) <= unit
  {
    var q, r := a / unit, a % unit;
    assert a == q * unit + r;
    if 2 * r >= unit {
      assert (q + 1) * unit == q * unit + unit;
    }
  }

  /** The rows TransferFundsCommandHandler saves for a request amount: the two wallets' new
      balances, and the amount both legs and the transfer record carry. Each is the handler's
      in-memory decimal, rounded by its numeric(18,4) column. */
  datatype SavedAmounts = SavedAmounts(senderBalance: int, recipientBalance: int, movedAmount: int)

  function SaveAsWritten(senderBalance: int, recipientBalance: int, amount: Decimal): SavedAmounts {
    SavedAmounts(
      RoundToColumn(Add(FromColumn(senderBalance), Negate(amount))),
      RoundToColumn(Add(FromColumn(recipientBalance), amount)),
      RoundToColumn(amount))
  }

  /** The amount rules of TransferFundsCommandValidator, on the decimal itself. */
  function DecimalAmountFailures(amount: Decimal): seq<ValidationFailure> {
    (if amount.units > 0 then [] else [AmountNotPositive])
    + (if LessOrEqual(amount, Decimal(10_000_000, 0)) then [] else [AmountTooLarge])
  }

  /** What the request must pass before the save: the validator's amount rules, the handler's
      own amount > 0 check, which they imply, and its balance check. */
  predicate PassesChecks(senderBalance: int, amount: Decimal) {
    DecimalAmountFailures(amount) == [] && LessOrEqual(amount, FromColumn(senderBalance))
  }

  /** As written: 0.00005 sent from a wallet holding 1.0000 to one holding 0 passes every check.
      The sender's 0.99995 is saved as 1.0000, the recipient's 0.00005 as 0.0001, and both legs
      record 0.0001. The two balances together rise by 0.0001, and the sender's balance is no
      longer its old balance less its debit leg. */
  lemma SubUnitAmountCreatesMoney()
    ensures var amount := Decimal(5, 5);
            var saved := SaveAsWritten(10_000, 0, amount);
            && PassesChecks(10_000, amount)
            && saved == SavedAmounts(10_000, 1, 1)
            && saved.senderBalance + saved.recipientBalance == 10_000 + 0 + 1
            && saved.senderBalance != 10_000 - saved.movedAmount
  {
    SmallSave();
    SmallChecks();
  }

  lemma SmallSave()
    ensures SaveAsWritten(10_000, 0, Decimal(5, 5)) == SavedAmounts(10_000, 1, 1)
  {
    SmallSums();
    RoundSmall();
  }

  lemma SmallSums()
    ensures Add(FromColumn(10_000), Negate(Decimal(5, 5))) == Decimal(99_995, 5)
    ensures Add(FromColumn(0), Decimal(5, 5)) == Decimal(5, 5)
  {
    Pow10Small();
  }

  lemma SmallChecks()
    ensures PassesChecks(10_000, Decimal(5, 5))
  {
    Pow10Small();
    assert Align(Decimal(10_000_000, 0), 5) == 1_000_000_000_000;
    assert Align(FromColumn(10_000), 5) == 100_000;
  }

  lemma Pow10Small()
    ensures Pow10(0) == 1 && Pow10(1) == 10 && Pow10(5) == 100_000
  {
  }

  lemma RoundSmall()
    ensures RoundToColumn(Decimal(99_995, 5)) == 10_000
    ensures RoundToColumn(Decimal(5, 5)) == 1
  {
    Pow10Small();
    assert 99_995 / 10 == 9_999 && 99_995 % 10 == 5;
    assert 5 / 10 == 0 && 5 % 10 == 5;
  }

  /** 0.00004 rounds to nothing and 0.00005 to one ten-thousandth. */
  lemma RoundSubUnit()
    ensures RoundToColumn(Decimal(4, 5)) == 0
    ensures RoundToColumn(Decimal(5, 5)) == 1
  {
    Pow10Small();
    assert 4 / 10 == 0 && 4 % 10 == 4;
    assert 5 / 10 == 0 && 5 % 10 == 5;
  }

  /** Rounding to the column keeps the sign: a value of zero or less is stored as zero or less,
      and a value of zero or more as zero or more. */
  lemma RoundKeepsSign(d: Decimal)
    ensures d.units <= 0 ==> RoundToColumn(d) <= 0
    ensures d.units >= 0 ==> RoundToColumn(d) >= 0
  {
    if d.scale <= 4 {
      MulSign(d.units, Pow10(4 - d.scale));
    } else {
      RoundFineSign(d.units, Pow10(d.scale - 4));
    }
  }

  lemma RoundFineSign(units: int, unit: nat)
    requires unit >= 1
    ensures var a := if units < 0 then -units else units;
            var m := a / unit + (if 2 * (a % unit) >= unit then 1 else 0);
            m >= 0 && (units == 0 ==> m == 0)
  {
  }

  lemma MulSign(x: int, k: nat)
    ensures x <= 0 ==> x * k <= 0
    ensures x >= 0 ==> x * k >= 0
  {
  }

  /** The two decimals denote the same number, whatever their scales. */
  predicate SameValue(a: Decimal, b: Decimal) {
    LessOrEqual(a, b) && LessOrEqual(b, a)
  }

  /** The rule the amount evidently needs besides the validator's: no more than four decimal
      places, so that the amount is a column value. */
  predicate AcceptedAsCorrected(amount: Decimal) {
    DecimalAmountFailures(amount) == [] && FitsColumn(amount)
  }

  /** Corrected: for an amount with at most four decimal places, the saved rows are the exact
      in-memory results. The amount is the whole number `a` of ten-thousandths that the rest of
      the model works with, and the validator's and the handler's checks on the decimal agree
      with theirs on `a`. The sender loses `a`, the recipient gains `a`, both legs record `a`,
      and the two balances keep their total. */
  lemma CorrectedAmountIsConserved(senderBalance: int, recipientBalance: int, amount: Decimal)
    requires AcceptedAsCorrected(amount)
    ensures var a := RoundToColumn(amount);
            var saved := SaveAsWritten(senderBalance, recipientBalance, amount);
            && a > 0 && AmountFailures(a) == []
            && (PassesChecks(senderBalance, amount) <==> a <= senderBalance)
            && saved == SavedAmounts(senderBalance - a, recipientBalance + a, a)
            && saved.senderBalance + saved.recipientBalance == senderBalance + recipientBalance
  {
    var a := RoundToColumn(amount);
    var S := Max(amount.scale, 4);
    FitsColumnValue(amount, S);
    CorrectedChecksAgree(senderBalance, amount, a, S);
    AddColumnValue(senderBalance, Negate(amount), -a, S);
    AddColumnValue(recipientBalance, amount, a, S);
  }

  /** An amount accepted with at most four decimal places is saved without rounding: the column
      value denotes the same number, and it lies in (0, 10,000,000] counted in ten-thousandths. */
  lemma AcceptedIsColumnValue(amount: Decimal)
    requires AcceptedAsCorrected(amount)
    ensures 0 < RoundToColumn(amount) <= MaxTransferAmount
    ensures SameValue(FromColumn(RoundToColumn(amount)), amount)
  {
    var a := RoundToColumn(amount);
    var S := Max(amount.scale, 4);
    FitsColumnValue(amount, S);
    CorrectedChecksAgree(0, amount, a, S);
    assert Align(FromColumn(a), S) == a * Pow10(S - 4);
  }

  lemma CorrectedChecksAgree(senderBalance: int, amount: Decimal, a: int, S: nat)
    requires AcceptedAsCorrected(amount)
    requires S == Max(amount.scale, 4) && Align(amount, S) == a * Pow10(S - 4)
    ensures a > 0 && AmountFailures(a) == []
    ensures PassesChecks(senderBalance, amount) <==> a <= senderBalance
  {
    var unit := Pow10(S - 4);
    AmountCeiling(S);
    LessOrEqualAt(amount, Decimal(10_000_000, 0), S);
    MulMonotone(a, MaxTransferAmount, unit);
    PositiveFactor(amount.units, Pow10(S - amount.scale));
    PositiveFactor(a, unit);
    LessOrEqualAt(amount, FromColumn(senderBalance), S);
    MulMonotone(a, senderBalance, unit);
  }

  /** 10,000,000 held at scale S >= 4 is MaxTransferAmount steps of 10^-(S-4) ten-thousandths. */
  lemma AmountCeiling(S: nat)
    requires S >= 4
    ensures Align(Decimal(10_000_000, 0), S) == MaxTransferAmount * Pow10(S - 4)
  {
    Pow10Add(4, S - 4);
    assert Pow10(4) == 10_000;
    MulAssoc(10_000_000, 10_000, Pow10(S - 4));
  }

  lemma {:induction false} Pow10Add(a: nat, b: nat)
    ensures Pow10(a + b) == Pow10(a) * Pow10(b)
  {
    if b > 0 {
      Pow10Add(a, b - 1);
      assert Pow10(a + b) == 10 * Pow10(a + b - 1);
    }
  }

  lemma MulMonotone(x: int, y: int, k: nat)
    requires k >= 1
    ensures x <= y <==> x * k <= y * k
  {
    if x <= y {
      assert y * k - x * k == (y - x) * k;
    } else {
      assert x * k - y * k == (x - y) * k;
    }
  }

  lemma PositiveFactor(x: int, k: nat)
    requires k >= 1
    ensures x > 0 <==> x * k > 0
  {
    MulMonotone(x, 0, k);
  }

  lemma AlignRescale(d: Decimal, s: nat, S: nat)
    requires d.scale <= s <= S
    ensures Align(d, S) == Align(d, s) * Pow10(S - s)
  {
    Pow10Add(s - d.scale, S - s);
    assert S - d.scale == (s - d.scale) + (S - s);
    assert d.units * (Pow10(s - d.scale) * Pow10(S - s)) == (d.units * Pow10(s - d.scale)) * Pow10(S - s);
  }

  /** Comparison does not depend on the common scale it is made at. */
  lemma LessOrEqualAt(a: Decimal, b: Decimal, S: nat)
    requires a.scale <= S && b.scale <= S
    ensures LessOrEqual(a, b) <==> Align(a, S) <= Align(b, S)
  {
    var s := Max(a.scale, b.scale);
    AlignRescale(a, s, S);
    AlignRescale(b, s, S);
    MulMonotone(Align(a, s), Align(b, s), Pow10(S - s));
  }

  /** Euclidean division of a multiple of `k` by `k`. */
  lemma DivOfMultiple(q: int, k: nat)
    requires k >= 1
    ensures (q * k) / k == q && (q * k) % k == 0
  {
    var x := q * k;
    var d, r := x / k, x % k;
    assert x == d * k + r && 0 <= r < k;
    assert (q - d) * k == r;
    if q - d >= 1 {
      MulMonotone(1, q - d, k);
    } else if q - d <= -1 {
      MulMonotone(q - d, -1, k);
    }
  }

  /** A value held at scale S >= 4 that is a whole number m of ten-thousandths rounds to m. */
  lemma RoundOfColumnMultiple(m: int, S: nat)
    requires S >= 4
    ensures RoundToColumn(Decimal(m * Pow10(S - 4), S)) == m
  {
    var unit := Pow10(S - 4);
    if S > 4 {
      var a := if m < 0 then -m else m;
      assert (if m * unit < 0 then -(m * unit) else m * unit) == a * unit by {
        PositiveFactor(m, unit);
        PositiveFactor(-m, unit);
      }
      DivOfMultiple(a, unit);
    }
  }

  /** A decimal with more than four places that fits the column is its rounding times the
      scale step. */
  lemma FitsColumnRound(d: Decimal)
    requires FitsColumn(d) && d.scale > 4
    ensures d.units == RoundToColumn(d) * Pow10(d.scale - 4)
  {
    var unit := Pow10(d.scale - 4);
    var k := d.units / unit;
    assert d.units == k * unit + d.units % unit;
    RoundOfColumnMultiple(k, d.scale);
  }

  /** A decimal that fits the column has the value of its rounding, at every scale. */
  lemma FitsColumnValue(d: Decimal, S: nat)
    requires FitsColumn(d) && d.scale <= S && 4 <= S
    ensures Align(d, S) == RoundToColumn(d) * Pow10(S - 4)
  {
    if d.scale <= 4 {
      var p, q := Pow10(4 - d.scale), Pow10(S - 4);
      Pow10Add(4 - d.scale, S - 4);
      assert S - d.scale == (4 - d.scale) + (S - 4);
      assert Align(d, S) == d.units * (p * q);
      MulAssoc(d.units, p, q);
    } else {
      var r, p, q := RoundToColumn(d), Pow10(d.scale - 4), Pow10(S - d.scale);
      FitsColumnRound(d);
      Pow10Add(d.scale - 4, S - d.scale);
      assert S - 4 == (d.scale - 4) + (S - d.scale);
      assert Align(d, S) == (r * p) * q;
      MulAssoc(r, p, q);
    }
  }

  lemma MulAssoc(x: int, y: int, z: int)
    ensures x * (y * z) == (x * y) * z
  {
  }

  /** Adding an amount of whole ten-thousandths `delta` to a column value gives, once saved,
      the exact sum. */
  lemma AddColumnValue(balance: int, amount: Decimal, delta: int, S: nat)
    requires S == Max(amount.scale, 4)
    requires Align(amount, S) == delta * Pow10(S - 4)
    ensures RoundToColumn(Add(FromColumn(balance), amount)) == balance + delta
  {
    var unit := Pow10(S - 4);
    var sum := Add(FromColumn(balance), amount);
    assert sum.scale == S;
    assert sum.units == balance * unit + delta * unit;
    assert balance * unit + delta * unit == (balance + delta) * unit;
    RoundOfColumnMultiple(balance + delta, S);
  }
}

/** InitiateDepositCommandValidator: the one rule on a deposit request, its decimal amount. */
module DepositValidator {
  import opened Common
  import opened InitiateDeposit
  import opened RequestAmount

  /** The largest amount a request may carry: 10,000,000, in ten-thousandths. */
  const MaxDepositAmount: int := 10_000_000 * AmountScale

  /** 10,000,000 as the decimal the rule compares with. */
  const MaxDeposit: Decimal := Decimal(10_000_000, 0)

  const AmountNotPositive: ValidationFailure := ValidationFailure("Amount", "Amount must be greater than zero")

  const AmountTooLarge: ValidationFailure := ValidationFailure("Amount", "Amount cannot exceed 10,000,000")

  /** The failures the validator reports, in rule order. A request is accepted exactly when its
      amount lies in (0, 10,000,000]; nothing but the amount is checked, the number of decimal
      places included, and each side of the range has its own message. */
  function ValidateDeposit(request: InitiateDepositCommand): (errors: seq<ValidationFailure>)
    ensures var d := request.amount;
            errors == [] <==> 0 < d.units <= 10_000_000 * Pow10(d.scale)
    ensures request.amount.units <= 0 ==> errors == [AmountNotPositive]
    ensures request.amount.units > 10_000_000 * Pow10(request.amount.scale) ==> errors == [AmountTooLarge]
  {
    assert Align(MaxDeposit, request.amount.scale) == 10_000_000 * Pow10(request.amount.scale);
    (if request.amount.units > 0 then [] else [AmountNotPositive])
    + (if LessOrEqual(request.amount, MaxDeposit) then [] else [AmountTooLarge])
  }

  /** On amounts that are whole ten-thousandths the rule is the range (0, MaxDepositAmount]. */
  lemma ValidateColumnAmount(v: int)
    ensures ValidateDeposit(InitiateDepositCommand(FromColumn(v))) == [] <==> 0 < v <= MaxDepositAmount
  {
    assert Pow10(4) == 10_000;
  }

  /** The edges of the range: the maximum itself is accepted, one ten-thousandth above it and
      zero are not; 0.00004, finer than a column can hold, is accepted. */
  lemma DepositLimits()
    ensures ValidateDeposit(InitiateDepositCommand(FromColumn(MaxDepositAmount))) == []
    ensures ValidateDeposit(InitiateDepositCommand(FromColumn(MaxDepositAmount + 1))) == [AmountTooLarge]
    ensures ValidateDeposit(InitiateDepositCommand(FromColumn(0))) == [AmountNotPositive]
    ensures ValidateDeposit(InitiateDepositCommand(FromColumn(1))) == []
    ensures ValidateDeposit(InitiateDepositCommand(Decimal(4, 5))) == []
  {
    assert Pow10(4) == 10_000;
    Pow10Small();
  }

  /** The deposit rule is the transfer validator's amount rule on the same decimal. */
  lemma SameRuleAsTransfers(request: InitiateDepositCommand)
    ensures ValidateDeposit(request) == [] <==> DecimalAmountFailures(request.amount) == []
  {
  }
}

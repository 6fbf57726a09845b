/** TransferFundsCommandValidator: the rules on a transfer request. Each rule chain keeps going
    after a failure, so one property can report more than one failure. */
module TransferValidator {
  import opened Common
  import opened Text
  import opened TransferFunds

  /** The largest amount a transfer may carry: 10,000,000, in ten-thousandths. */
  const MaxTransferAmount: int := 10_000_000 * AmountScale

  const NumberRequired: ValidationFailure := ValidationFailure("RecipientWalletNumber", "Recipient wallet number is required")

  const NumberLength: ValidationFailure := ValidationFailure("RecipientWalletNumber", "Wallet number must be between 10 and 50 characters")

  const AmountNotPositive: ValidationFailure := ValidationFailure("Amount", "Amount must be greater than zero")

  const AmountTooLarge: ValidationFailure := ValidationFailure("Amount", "Amount cannot exceed 10,000,000")

  const DescriptionTooLong: ValidationFailure := ValidationFailure("Description", "Description cannot exceed 500 characters")

  /** NotEmpty on a string: not empty and not white space only. */
  predicate NotEmpty(s: string) {
    !IsWhiteSpaceOnly(s)
  }

  /** NotEmpty, then Length(10, 50) in UTF-16 code units; both rules are checked. */
  function NumberFailures(number: string): (errors: seq<ValidationFailure>)
    ensures errors == [] <==> NotEmpty(number) && 10 <= Utf16Length(number) <= 50
    ensures !NotEmpty(number) ==> NumberRequired in errors
    ensures !(10 <= Utf16Length(number) <= 50) ==> NumberLength in errors
  {
    (if NotEmpty(number) then [] else [NumberRequired])
    + (if 10 <= Utf16Length(number) <= 50 then [] else [NumberLength])
  }

  function AmountFailures(amount: int): (errors: seq<ValidationFailure>)
    ensures errors == [] <==> 0 < amount <= MaxTransferAmount
  {
    (if amount > 0 then [] else [AmountNotPositive])
    + (if amount <= MaxTransferAmount then [] else [AmountTooLarge])
  }

  /** MaximumLength(500) in UTF-16 code units, applied only when a non-empty description is
      given. */
  function DescriptionFailures(description: Option<string>): (errors: seq<ValidationFailure>)
    ensures errors == [] <==> description.None? || Utf16Length(description.value) <= 500
    ensures errors != [] ==> errors == [DescriptionTooLong]
  {
    if description.Some? && description.value != "" && Utf16Length(description.value) > 500 then [DescriptionTooLong] else []
  }

  /** The failures of all three rules, in declaration order. */
  function ValidateTransfer(request: TransferFundsCommand): (errors: seq<ValidationFailure>)
    ensures errors == [] <==>
              && NotEmpty(request.recipientWalletNumber) && 10 <= Utf16Length(request.recipientWalletNumber) <= 50
              && 0 < request.amount <= MaxTransferAmount
              && (request.description.None? || Utf16Length(request.description.value) <= 500)
  {
    NumberFailures(request.recipientWalletNumber) + AmountFailures(request.amount) + DescriptionFailures(request.description)
  }

  /** Concrete edges of the rules: an empty number fails both number rules; exactly
      10,000,000 passes and one unit more does not; 500 UTF-16 code units of description pass
      and 501 do not. */
  lemma TransferRuleEdges(number: string, d500: string, d501: string)
    requires 10 <= Utf16Length(number) <= 50 && NotEmpty(number)
    requires Utf16Length(d500) == 500 && Utf16Length(d501) == 501
    ensures ValidateTransfer(TransferFundsCommand("", 1, None)) == [NumberRequired, NumberLength]
    ensures ValidateTransfer(TransferFundsCommand(number, MaxTransferAmount, Some(d500))) == []
    ensures ValidateTransfer(TransferFundsCommand(number, MaxTransferAmount + 1, None)) == [AmountTooLarge]
    ensures ValidateTransfer(TransferFundsCommand(number, 0, None)) == [AmountNotPositive]
    ensures ValidateTransfer(TransferFundsCommand(number, 1, Some(d501))) == [DescriptionTooLong]
    ensures ValidateTransfer(TransferFundsCommand(number, 1, Some(""))) == []
  {
  }

  /** Lengths are counted in UTF-16 code units, so a description of 300 characters outside the
      Basic Multilingual Plane (emoji, say) is 600 units long and refused, and so is a wallet
      number of 30 such characters. */
  lemma SurrogatePairsCountTwice(number: string, description: string)
    requires |number| == 30 && forall i :: 0 <= i < |number| ==> !IsBmp(number[i])
    requires |description| == 300 && forall i :: 0 <= i < |description| ==> !IsBmp(description[i])
    ensures NumberLength in NumberFailures(number)
    ensures DescriptionFailures(Some(description)) == [DescriptionTooLong]
  {
  }

  /** A request the validator accepts passes the handler's own amount check. */
  lemma ValidAmountIsPositive(request: TransferFundsCommand)
    requires ValidateTransfer(request) == []
    ensures request.amount > 0
  {
  }
}

/** ResolveWalletNumberValidator: the rules on the number to resolve. */
module ResolveWalletNumberValidator {
  import opened Common
  import opened Text
  import opened ResolveWalletNumber

  const NumberRequired: ValidationFailure := ValidationFailure("WalletNumber", "Wallet number is required")

  const NumberLength: ValidationFailure := ValidationFailure("WalletNumber", "Wallet number must be between 10 and 50 characters")

  /** NotEmpty, then Length(10, 50), both checked. A number is accepted exactly when it is not
      blank and its length in UTF-16 code units lies in [10, 50]. */
  function ValidateQuery(query: ResolveWalletNumberQuery): (errors: seq<ValidationFailure>)
    ensures errors == [] <==> !IsWhiteSpaceOnly(query.walletNumber) && 10 <= Utf16Length(query.walletNumber) <= 50
    ensures Utf16Length(query.walletNumber) < 10 || Utf16Length(query.walletNumber) > 50 ==> NumberLength in errors
    ensures IsWhiteSpaceOnly(query.walletNumber) ==> NumberRequired in errors
  {
    (if !IsWhiteSpaceOnly(query.walletNumber) then [] else [NumberRequired])
    + (if 10 <= Utf16Length(query.walletNumber) <= 50 then [] else [NumberLength])
  }

  /** The empty number fails both rules; nine digits are too short and ten pass. */
  lemma NumberEdges()
    ensures ValidateQuery(ResolveWalletNumberQuery("")) == [NumberRequired, NumberLength]
    ensures ValidateQuery(ResolveWalletNumberQuery("123456789")) == [NumberLength]
    ensures ValidateQuery(ResolveWalletNumberQuery("1234567890")) == []
  {
    assert !IsWhiteSpace('1');
    assert ResolveWalletNumberQuery("1234567890").walletNumber[0] == '1';
  }

  /** Fifty-one is too long: a number of 51 characters that starts with a digit fails the length
      rule alone. */
  lemma TooLongNumber(number: string)
    requires |number| == 51 && IsDigit(number[0])
    ensures ValidateQuery(ResolveWalletNumberQuery(number)) == [NumberLength]
  {
    assert !IsWhiteSpace(number[0]);
  }
}

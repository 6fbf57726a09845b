/** Permissions: the names a key can be granted, and the check of a requested name. */
module Permissions {
  import opened Text

  const Deposit: string := "deposit"
  const Transfer: string := "transfer"
  const Read: string := "read"

  const All: seq<string> := [Deposit, Transfer, Read]

  /** Permissions.IsValid: ignore-case membership in `All`. */
  predicate IsValid(permission: string) {
    ContainsIgnoreCase(All, permission)
  }

  /** A name is valid exactly when it is one of the three, up to case. */
  lemma IsValidMeaning(permission: string)
    ensures IsValid(permission) <==>
              || ToUpperInvariant(permission) == "DEPOSIT"
              || ToUpperInvariant(permission) == "TRANSFER"
              || ToUpperInvariant(permission) == "READ"
  {
    UpperOf(Deposit, "DEPOSIT");
    UpperOf(Transfer, "TRANSFER");
    UpperOf(Read, "READ");
    if ToUpperInvariant(permission) == "DEPOSIT" { assert EqualsIgnoreCase(All[0], permission); }
    if ToUpperInvariant(permission) == "TRANSFER" { assert EqualsIgnoreCase(All[1], permission); }
    if ToUpperInvariant(permission) == "READ" { assert EqualsIgnoreCase(All[2], permission); }
  }

  /** Upper-casing a lower-case ASCII word. */
  lemma UpperOf(s: string, u: string)
    requires |s| == |u|
    requires forall i :: 0 <= i < |s| ==> IsAsciiLower(s[i]) && u[i] as int == s[i] as int - 32
    ensures ToUpperInvariant(s) == u
  {
  }

  /** The three names are distinct, even ignoring case. */
  lemma AllDistinct()
    ensures |All| == 3
    ensures forall i, j :: 0 <= i < j < |All| ==> !EqualsIgnoreCase(All[i], All[j])
  {
    UpperOf(Deposit, "DEPOSIT");
    UpperOf(Transfer, "TRANSFER");
    UpperOf(Read, "READ");
  }

  lemma Examples()
    ensures IsValid("READ") && IsValid("Deposit") && IsValid("transfer")
    ensures !IsValid("write") && !IsValid("")
  {
    UpperOf("read", "READ");
    UpperOf("eposit", "EPOSIT");
    assert ToUpperInvariant("READ") == "READ";
    assert ToUpperInvariant("Deposit") == "DEPOSIT";
    UpperOf("transfer", "TRANSFER");
    IsValidMeaning("READ");
    IsValidMeaning("Deposit");
    IsValidMeaning("transfer");
    IsValidMeaning("write");
    IsValidMeaning("");
  }
}

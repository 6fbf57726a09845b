/** ExpiryDurations: the lifetimes a key can be given. */
module ExpiryDurations {
  import opened Text

  const OneHour: string := "1H"
  const OneDay: string := "1D"
  const OneMonth: string := "1M"
  const OneYear: string := "1Y"

  const Valid: seq<string> := [OneHour, OneDay, OneMonth, OneYear]

  /** ExpiryDurations.IsValid: ignore-case membership in `Valid`. */
  predicate IsValid(duration: string) {
    ContainsIgnoreCase(Valid, duration)
  }

  /** The constants are their own upper-case forms. */
  lemma ConstantsAreUpper()
    ensures forall i :: 0 <= i < |Valid| ==> ToUpperInvariant(Valid[i]) == Valid[i]
  {
    forall i | 0 <= i < |Valid| ensures ToUpperInvariant(Valid[i]) == Valid[i] {
      var v := Valid[i];
      assert forall j :: 0 <= j < |v| ==> !IsAsciiLower(v[j]);
    }
  }

  /** A duration is valid exactly when its upper-case form is one of the four constants. */
  lemma IsValidMeaning(duration: string)
    ensures IsValid(duration) <==>
              var u := ToUpperInvariant(duration); u == OneHour || u == OneDay || u == OneMonth || u == OneYear
  {
    ConstantsAreUpper();
    var u := ToUpperInvariant(duration);
    if u == OneHour { assert EqualsIgnoreCase(Valid[0], duration); }
    if u == OneDay { assert EqualsIgnoreCase(Valid[1], duration); }
    if u == OneMonth { assert EqualsIgnoreCase(Valid[2], duration); }
    if u == OneYear { assert EqualsIgnoreCase(Valid[3], duration); }
  }

  lemma Examples()
    ensures IsValid("1m") && IsValid("1h") && IsValid("1Y")
    ensures !IsValid("2H") && !IsValid("") && !IsValid("1W")
  {
    assert ToUpperInvariant("1m") == "1M";
    assert ToUpperInvariant("1h") == "1H";
    assert ToUpperInvariant("1Y") == "1Y";
    assert ToUpperInvariant("2H")[0] == '2';
    assert ToUpperInvariant("1W") == "1W";
    IsValidMeaning("1m");
    IsValidMeaning("1h");
    IsValidMeaning("1Y");
    IsValidMeaning("2H");
    IsValidMeaning("");
    IsValidMeaning("1W");
  }
}

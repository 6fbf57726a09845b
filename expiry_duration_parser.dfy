/** ExpiryDurationParser: the expiry instant of a key created now with a given duration. */
module ExpiryDurationParser {
  import opened Common
  import opened Text
  import opened ExpiryDurations

  /** The message of the ArgumentException for an unknown duration; .NET appends the parameter
      name to it. */
  function InvalidDurationMessage(duration: string): string {
    "Invalid expiry duration: " + duration + ". Valid values are: 1H, 1D, 1M, 1Y (Parameter 'duration')"
  }

  /** ParseToDateTime, with the clock reading passed in: the upper-cased duration selects one
      hour, one day, 30 days or 365 days from now. */
  function ParseToDateTime(duration: string, now: Instant): (r: Result<Instant>)
    ensures r.Err? ==> r.error == ArgumentException(InvalidDurationMessage(duration))
    ensures r.Ok? ==> r.value > now
  {
    var upperDuration := ToUpperInvariant(duration);
    if upperDuration == OneHour then Ok(now + TicksPerHour)
    else if upperDuration == OneDay then Ok(now + TicksPerDay)
    else if upperDuration == OneMonth then Ok(now + 30 * TicksPerDay)
    else if upperDuration == OneYear then Ok(now + 365 * TicksPerDay)
    else Err(ArgumentException(InvalidDurationMessage(duration)))
  }

  /** The parser accepts exactly what ExpiryDurations.IsValid accepts, and refuses the rest with
      an ArgumentException naming the input. */
  lemma ParseAcceptsTheValidDurations(duration: string, now: Instant)
    ensures ParseToDateTime(duration, now).Ok? <==> IsValid(duration)
    ensures !IsValid(duration) ==> ParseToDateTime(duration, now) == Err(ArgumentException(InvalidDurationMessage(duration)))
  {
    IsValidMeaning(duration);
  }

  /** Parsing looks at the duration only up to case. */
  lemma ParseIgnoresCase(a: string, b: string, now: Instant)
    requires EqualsIgnoreCase(a, b)
    ensures ParseToDateTime(a, now).Ok? <==> ParseToDateTime(b, now).Ok?
    ensures ParseToDateTime(a, now).Ok? ==> ParseToDateTime(a, now) == ParseToDateTime(b, now)
  {
  }

  /** Every valid duration expires strictly after now, and the four are ordered
      1H < 1D < 1M < 1Y. */
  lemma ExpiryOrder(now: Instant)
    ensures ParseToDateTime(OneHour, now) == Ok(now + TicksPerHour)
    ensures ParseToDateTime(OneDay, now) == Ok(now + 24 * TicksPerHour)
    ensures ParseToDateTime(OneMonth, now) == Ok(now + 30 * 24 * TicksPerHour)
    ensures ParseToDateTime(OneYear, now) == Ok(now + 365 * 24 * TicksPerHour)
    ensures now < ParseToDateTime(OneHour, now).value < ParseToDateTime(OneDay, now).value
              < ParseToDateTime(OneMonth, now).value < ParseToDateTime(OneYear, now).value
  {
    ConstantsAreUpper();
    assert ToUpperInvariant(Valid[0]) == OneHour && ToUpperInvariant(Valid[1]) == OneDay;
    assert ToUpperInvariant(Valid[2]) == OneMonth && ToUpperInvariant(Valid[3]) == OneYear;
  }

  /** Whatever duration is given, a parsed expiry lies between one hour and 365 days ahead. */
  lemma ExpiryIsAhead(duration: string, now: Instant)
    requires ParseToDateTime(duration, now).Ok?
    ensures now + TicksPerHour <= ParseToDateTime(duration, now).value <= now + 365 * TicksPerDay
  {
  }
}

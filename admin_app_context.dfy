/** The admin panel's shared helpers: the age shown for a patient. */
module AdminAppContext {
  import opened Calendar

  /** `calculateAge`: this year minus the birth year, with no month or day adjustment and no clamping. */
  function CalculateAge(dob: Date, today: Date): int {
    today.year - dob.year
  }

  /** Whether this year's birthday has come by `today`. */
  predicate BirthdayReached(dob: Date, today: Date) {
    dob.month < today.month || (dob.month == today.month && dob.day <= today.day)
  }

  /** The age in completed years, for comparison. */
  function CompletedYears(dob: Date, today: Date): int {
    if BirthdayReached(dob, today) then today.year - dob.year else today.year - dob.year - 1
  }

  /**
   * The shown age equals the age in completed years once this year's
   * birthday has come, and is one more before it.
   */
  lemma AgeVersusCompletedYears(dob: Date, today: Date)
    ensures BirthdayReached(dob, today) <==> CalculateAge(dob, today) == CompletedYears(dob, today)
    ensures !BirthdayReached(dob, today) <==> CalculateAge(dob, today) == CompletedYears(dob, today) + 1
  {
  }

  /** Only the years matter: the birth month and day never change the shown age. */
  lemma AgeIgnoresMonthAndDay(dob: Date, other: Date, today: Date)
    requires dob.year == other.year
    ensures CalculateAge(dob, today) == CalculateAge(other, today)
  {
  }

  /** Born this year gives 0; a later birth year gives a negative age. */
  lemma AgeSign(dob: Date, today: Date)
    ensures dob.year == today.year ==> CalculateAge(dob, today) == 0
    ensures dob.year > today.year ==> CalculateAge(dob, today) < 0
    ensures dob.year < today.year ==> CalculateAge(dob, today) > 0
  {
  }

  /** The shown age goes up on New Year's Day, not on the birthday: from one day to the next it changes only after 31 December. */
  lemma AgeNextDay(dob: Date, today: Date)
    requires ValidDate(today)
    ensures CalculateAge(dob, NextDay(today)) == CalculateAge(dob, today) + (if today.month == 12 && today.day == 31 then 1 else 0)
  {
  }
}

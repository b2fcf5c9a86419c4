/** Calendar dates as (year, month, day) triples and the derived patient age. */
module Dates {
  import opened Wrappers

  datatype Date = Date(year: int, month: int, day: int)

  /** Strictly earlier in calendar order. */
  predicate Before(a: Date, b: Date) {
    || a.year < b.year
    || (a.year == b.year && (a.month < b.month || (a.month == b.month && a.day < b.day)))
  }

  /** The `n`-th birthday of someone born on `birth`. */
  function Anniversary(birth: Date, n: int): Date {
    Date(birth.year + n, birth.month, birth.day)
  }

  /**
   * The `patient_age` virtual: `null` without a birth date, otherwise the year
   * difference, less one when this year's birthday is still ahead. The result
   * is the number of birthdays reached by `today`.
   */
  function PatientAge(birth: Option<Date>, today: Date): (age: Option<int>)
    ensures age.None? <==> birth.None?
    ensures age.Some? ==> !Before(today, Anniversary(birth.value, age.value))
    ensures age.Some? ==> Before(today, Anniversary(birth.value, age.value + 1))
  {
    match birth
    case None => None
    case Some(b) =>
      var years := today.year - b.year;
      var m := today.month - b.month;
      if m < 0 || (m == 0 && today.day < b.day) then Some(years - 1) else Some(years)
  }

  /** The age is the only count of birthdays that fits: reached, with the next one still ahead. */
  lemma AgeIsUnique(birth: Date, today: Date, n: int)
    requires !Before(today, Anniversary(birth, n)) && Before(today, Anniversary(birth, n + 1))
    ensures PatientAge(Some(birth), today) == Some(n)
  {
  }

  /** For a birth date not after today the age is between zero and the raw year difference. */
  lemma AgeBounds(birth: Date, today: Date)
    requires !Before(today, birth)
    ensures var age := PatientAge(Some(birth), today).value;
      0 <= age <= today.year - birth.year && today.year - birth.year - 1 <= age
  {
  }
}

/**
 * The two small types of the IdentityKeyBuilder.Application namespace: the closed field
 * enumeration IdentityKeyProperty and the immutable property bag IdentityKeyProperties.
 * The bag's `DateTime?` is modelled by a calendar date (year, month, day).
 */
module Application {
  import opened Options

  /** The four fields a key can be built from. */
  datatype IdentityKeyProperty = AccountNumber | SystemCode | ExternalId | ServiceDate
  {
    /** The enum member's underlying integer value. */
    function Value(): int
    {
      match this
      case AccountNumber => 1
      case SystemCode => 2
      case ExternalId => 3
      case ServiceDate => 4
    }

    /** The three fields whose values are strings. */
    predicate IsText()
    {
      this != ServiceDate
    }
  }

  /**
   * An integer cast into the enumeration names a member only when it is one of the four
   * declared values; every other integer (0, the default of the enum type, included) is what
   * the builders' `default` branches are there for.
   */
  function FromValue(n: int): (r: Option<IdentityKeyProperty>)
    ensures r.Some? <==> 1 <= n <= 4
    ensures r.Some? ==> r.value.Value() == n
    ensures forall p: IdentityKeyProperty :: p.Value() == n ==> r == Some(p)
  {
    if n == 1 then Some(AccountNumber)
    else if n == 2 then Some(SystemCode)
    else if n == 3 then Some(ExternalId)
    else if n == 4 then Some(ServiceDate)
    else None
  }

  /** A calendar date with the range of .NET's DateTime: years 1 to 9999. */
  datatype Date = Date(year: int, month: int, day: int)

  predicate IsLeapYear(year: int)
  {
    year % 4 == 0 && (year % 100 != 0 || year % 400 == 0)
  }

  function DaysInMonth(year: int, month: int): int
    requires 1 <= month <= 12
  {
    if month == 2 then (if IsLeapYear(year) then 29 else 28)
    else if month == 4 || month == 6 || month == 9 || month == 11 then 30
    else 31
  }

  predicate ValidDate(d: Date)
  {
    1 <= d.year <= 9999 && 1 <= d.month <= 12 && 1 <= d.day <= DaysInMonth(d.year, d.month)
  }

  type CalendarDate = d: Date | ValidDate(d) witness Date(1, 1, 1)

  /**
   * The property bag. Its constructor stores the four arguments as given and validates
   * nothing: a null or empty string and a null date are all accepted here and rejected, if at
   * all, by the builders. A datatype value cannot be changed after construction, which is
   * what the private setters of the source achieve.
   */
  datatype IdentityKeyProperties = IdentityKeyProperties(
    accountNumber: Option<string>,
    systemCode: Option<string>,
    externalId: Option<string>,
    serviceDate: Option<CalendarDate>)
}

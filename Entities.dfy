/** Shared shapes of the persisted records (rents, rooms, tenants, properties)
    and the small numeric helpers that more than one service uses. */
module Entities {

  datatype Option<T> = None | Some(value: T) {
    function GetOr(default: T): T {
      if Some? then value else default
    }

    function OrElse(other: Option<T>): Option<T> {
      if Some? then this else other
    }
  }

  /** A document identifier (a Mongo ObjectId as a string). */
  type Id = string

  /** A point in time, in milliseconds since the Unix epoch (UTC). */
  type Timestamp = int

  /** An amount of money, in the smallest currency unit. */
  type Money = int

  datatype RentStatus = Pending | Partial | Paid | Overdue

  datatype RoomStatus = Vacant | Occupied | Maintenance | Reserved

  datatype TenantStatus = Active | Inactive | Evicted

  datatype PropertyStatus = PropertyActive | PropertyInactive | PropertyMaintenance

  /** One billing obligation of a tenant for a room of a property. */
  datatype Rent = Rent(
    tenantId: Id,
    roomId: Id,
    propertyId: Id,
    amount: Money,
    dueDate: Timestamp,
    paidDate: Option<Timestamp>,
    status: RentStatus,
    amountPaid: Money,
    paymentMethod: Option<string>,
    transactionId: Option<string>,
    notes: Option<string>,
    createdAt: Timestamp,
    updatedAt: Timestamp
  )

  datatype Room = Room(
    roomNumber: string,
    propertyId: Id,
    rentAmount: Money,
    status: RoomStatus,
    currentTenantId: Option<Id>,
    createdAt: Timestamp,
    updatedAt: Timestamp
  )

  datatype Tenant = Tenant(
    firstName: string,
    lastName: string,
    email: string,
    roomId: Option<Id>,
    propertyId: Option<Id>,
    status: TenantStatus,
    createdAt: Timestamp,
    updatedAt: Timestamp
  )

  datatype Property = Property(
    name: string,
    address: string,
    totalRooms: Option<int>,
    status: PropertyStatus,
    ownerId: Option<Id>
  )

  /** `whole > 0 ? (part / whole) * 100 : 0`, the guarded rate every service
      reports (occupancy and collection), as an exact ratio; a rate of a part
      of a whole lies between 0 and 100. */
  function Percentage(part: int, whole: int): (r: real)
    ensures whole <= 0 ==> r == 0.0
    ensures whole > 0 ==> r * (whole as real) == (part as real) * 100.0
    ensures 0 <= part <= whole ==> 0.0 <= r <= 100.0
  {
    if whole > 0 then
      var q := part as real / whole as real;
      assert q * (whole as real) == part as real;
      assert 0 <= part <= whole ==> 0.0 <= q <= 1.0;
      q * 100.0
    else
      0.0
  }

  const MillisPerDay := 86_400_000

  /** The calendar month (UTC) of a timestamp as a single ordered key,
      `year * 12 + (month - 1)`: the value `toISOString().slice(0, 7)`
      ("YYYY-MM") stands for. Days are converted to a civil date with the
      proleptic Gregorian calendar (era / day-of-era arithmetic). */
  function MonthKey(t: Timestamp): int {
    var days := t / MillisPerDay;          // floor, since the divisor is positive
    var z := days + 719_468;               // days since 0000-03-01
    var era := z / 146_097;                // 400-year cycles
    EraMonthKey(era, z - era * 146_097)
  }

  /** The month key of day `doe` (0 to 146096) of era `era`. */
  function EraMonthKey(era: int, doe: int): int {
    var yoe := YearOfEra(doe);
    var doy := doe - (365 * yoe + yoe / 4 - yoe / 100);
    CivilMonthKey(era, yoe, (5 * doy + 2) / 153)
  }

  /** The year within the era, counted in years that start on 1 March. */
  function YearOfEra(doe: int): int {
    (doe - doe / 1_460 + doe / 36_524 - doe / 146_096) / 365
  }

  /** The key of month `mp` (0 is March, 11 is February) of year `yoe` of
      era `era`: January and February belong to the next calendar year. */
  function CivilMonthKey(era: int, yoe: int, mp: int): (key: int)
    ensures 0 <= mp < 12 ==> key == 4800 * era + 12 * yoe + mp + 2
  {
    var month := if mp < 10 then mp + 3 else mp - 9;
    var year := yoe + era * 400 + (if month <= 2 then 1 else 0);
    year * 12 + (month - 1)
  }

  /** The month key read off given quotients: each divided value is pinned
      between its quotient times the divisor and the next multiple. */
  lemma MonthKeyFrom(t: Timestamp, days: int, era: int, a: int, b: int, c: int,
                     yoe: int, q4: int, q100: int, mp: int)
    requires MillisPerDay * days <= t < MillisPerDay * days + MillisPerDay
    requires 146_097 * era <= days + 719_468 < 146_097 * era + 146_097
    requires var doe := days + 719_468 - 146_097 * era;
             && 1_460 * a <= doe < 1_460 * a + 1_460
             && 36_524 * b <= doe < 36_524 * b + 36_524
             && 146_096 * c <= doe < 146_096 * c + 146_096
             && 365 * yoe <= doe - a + b - c < 365 * yoe + 365
             && 153 * mp <= 5 * (doe - (365 * yoe + q4 - q100)) + 2 < 153 * mp + 153
    requires 4 * q4 <= yoe < 4 * q4 + 4 && 100 * q100 <= yoe < 100 * q100 + 100
    requires 0 <= mp < 12
    ensures MonthKey(t) == 4800 * era + 12 * yoe + mp + 2
  {
    MonthKeyOfEra(t, days, era);
    EraMonthKeyFrom(era, days + 719_468 - 146_097 * era, a, b, c, yoe, q4, q100, mp);
  }

  lemma MonthKeyOfEra(t: Timestamp, days: int, era: int)
    requires MillisPerDay * days <= t < MillisPerDay * days + MillisPerDay
    requires 146_097 * era <= days + 719_468 < 146_097 * era + 146_097
    ensures MonthKey(t) == EraMonthKey(era, days + 719_468 - 146_097 * era)
  {
    assert t / MillisPerDay == days;
    assert (days + 719_468) / 146_097 == era;
  }

  lemma EraMonthKeyFrom(era: int, doe: int, a: int, b: int, c: int,
                        yoe: int, q4: int, q100: int, mp: int)
    requires 1_460 * a <= doe < 1_460 * a + 1_460
    requires 36_524 * b <= doe < 36_524 * b + 36_524
    requires 146_096 * c <= doe < 146_096 * c + 146_096
    requires 365 * yoe <= doe - a + b - c < 365 * yoe + 365
    requires 4 * q4 <= yoe < 4 * q4 + 4 && 100 * q100 <= yoe < 100 * q100 + 100
    requires 153 * mp <= 5 * (doe - (365 * yoe + q4 - q100)) + 2 < 153 * mp + 153
    requires 0 <= mp < 12
    ensures EraMonthKey(era, doe) == 4800 * era + 12 * yoe + mp + 2
  {
    YearOfEraFrom(doe, a, b, c, yoe);
    assert yoe / 4 == q4 && yoe / 100 == q100;
    assert (5 * (doe - (365 * yoe + q4 - q100)) + 2) / 153 == mp;
  }

  lemma YearOfEraFrom(doe: int, a: int, b: int, c: int, yoe: int)
    requires 1_460 * a <= doe < 1_460 * a + 1_460
    requires 36_524 * b <= doe < 36_524 * b + 36_524
    requires 146_096 * c <= doe < 146_096 * c + 146_096
    requires 365 * yoe <= doe - a + b - c < 365 * yoe + 365
    ensures YearOfEra(doe) == yoe
  {
    assert doe / 1_460 == a && doe / 36_524 == b && doe / 146_096 == c;
  }

  /** Month keys of fixed instants, in milliseconds since
      1970-01-01T00:00Z: the epoch and the millisecond before it, and the
      last millisecond of 2023 and the first of 2024. */
  lemma MonthKeyAroundEpoch()
    ensures MonthKey(0) == 1970 * 12 + 0
    ensures MonthKey(-1) == 1969 * 12 + 11
    ensures MonthKey(1_704_067_199_999) == 2023 * 12 + 11
    ensures MonthKey(1_704_067_200_000) == 2024 * 12 + 0
  {
    MonthKeyFrom(0, 0, 4, 92, 3, 0, 369, 92, 3, 10);
    MonthKeyFrom(-1, -1, 4, 92, 3, 0, 369, 92, 3, 9);
    MonthKeyFrom(1_704_067_199_999, 19722, 5, 5, 0, 0, 23, 5, 0, 9);
    MonthKeyFrom(1_704_067_200_000, 19723, 5, 5, 0, 0, 23, 5, 0, 10);
  }

  /** The leap days of 2000 (a 400-year leap year) and 2024 belong to
      February, the next day to March. */
  lemma MonthKeyAroundLeapDays()
    ensures MonthKey(951_782_400_000) == 2000 * 12 + 1
    ensures MonthKey(951_868_800_000) == 2000 * 12 + 2
    ensures MonthKey(1_709_164_800_000) == 2024 * 12 + 1
    ensures MonthKey(1_709_251_200_000) == 2024 * 12 + 2
  {
    MonthKeyFrom(951_782_400_000, 11016, 4, 100, 4, 1, 399, 99, 3, 11);
    MonthKeyFrom(951_868_800_000, 11017, 5, 0, 0, 0, 0, 0, 0, 0);
    MonthKeyFrom(1_709_164_800_000, 19782, 5, 6, 0, 0, 23, 5, 0, 11);
    MonthKeyFrom(1_709_251_200_000, 19783, 5, 6, 0, 0, 24, 6, 0, 0);
  }

  /** 1900 is not a leap year: 28 February is followed by 1 March. The
      first day of year 1 and the last millisecond of year 9999. */
  lemma MonthKeyFarDates()
    ensures MonthKey(-2_203_977_600_000) == 1900 * 12 + 1
    ensures MonthKey(-2_203_891_200_000) == 1900 * 12 + 2
    ensures MonthKey(-62_135_596_800_000) == 1 * 12 + 0
    ensures MonthKey(253_402_300_799_999) == 9999 * 12 + 11
  {
    MonthKeyFrom(-2_203_977_600_000, -25509, 4, 75, 2, 0, 299, 74, 2, 11);
    MonthKeyFrom(-2_203_891_200_000, -25508, 4, 75, 3, 0, 300, 75, 3, 0);
    MonthKeyFrom(-62_135_596_800_000, -719_162, 0, 0, 0, 0, 0, 0, 0, 10);
    MonthKeyFrom(253_402_300_799_999, 2_932_896, 24, 100, 3, 0, 399, 99, 3, 9);
  }
}

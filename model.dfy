/**
 * The `Record` of src/model.rs: one timestamped, geolocated observation of a named entity,
 * the calendar accessors `year`, `month` and `day` that feed the partition key, and the
 * integer and string part of `generate_random`.
 */
module Model {
  import opened Wrappers
  import opened Decimal

  /** An IEEE-754 double, carried as its 64 bits: the model only ever copies such values. */
  type F64 = bv64

  /** Rust's `i32`. */
  newtype Int32 = x: int | -0x8000_0000 <= x < 0x8000_0000

  /** The year range of chrono's `DateTime<Utc>` (the bounds of `NaiveDate`). */
  const MinYear: int := -262144
  const MaxYear: int := 262143

  /** A UTC date-time broken down into its calendar and clock fields. */
  datatype DateTime = DateTime(year: int, month: int, day: int, hour: int, minute: int, second: int, nanos: int)

  predicate IsLeapYear(y: int)
  {
    y % 4 == 0 && (y % 100 != 0 || y % 400 == 0)
  }

  function DaysInMonth(year: int, month: int): int
    requires 1 <= month <= 12
  {
    if month == 2 then (if IsLeapYear(year) then 29 else 28)
    else if month in {4, 6, 9, 11} then 30
    else 31
  }

  /**
   * The date-times chrono can represent: a proleptic Gregorian date in range, a clock time,
   * and a fraction below two seconds, the second one only on a leap second (second 59).
   */
  predicate ValidDateTime(t: DateTime)
  {
    && MinYear <= t.year <= MaxYear
    && 1 <= t.month <= 12
    && 1 <= t.day <= DaysInMonth(t.year, t.month)
    && 0 <= t.hour < 24
    && 0 <= t.minute < 60
    && 0 <= t.second < 60
    && 0 <= t.nanos < 2_000_000_000
    && (t.nanos >= 1_000_000_000 ==> t.second == 59)
  }

  /** chrono's `DateTime<Utc>`. */
  type UtcDateTime = t: DateTime | ValidDateTime(t) witness DateTime(1970, 1, 1, 0, 0, 0, 0)

  /** Two date-times fall on the same UTC calendar day. */
  predicate SameUtcDate(a: UtcDateTime, b: UtcDateTime)
  {
    a.year == b.year && a.month == b.month && a.day == b.day
  }

  /** One observation; every field is mandatory. */
  datatype Record = Record(
    version: string,
    name: string,
    uuid: string,
    latitude: F64,
    longitude: F64,
    altitude: F64,
    course: F64,
    speed: Int32,
    timestamp: UtcDateTime)

  /**
   * chrono's `%Y`: years 0 to 9999 as four zero-padded digits; any other year with an
   * explicit sign in front of at least four digits.
   */
  function YearText(y: int): string
  {
    if 0 <= y <= 9999 then Padded(y, 4)
    else if y > 9999 then "+" + Padded(y, 4)
    else "-" + Padded(-y, 4)
  }

  /** Reads a `%Y` rendering back. */
  function ReadYear(s: string): Option<int>
  {
    if |s| > 0 && s[0] == '+' && IsDigits(s[1..]) then Some(Value(s[1..]))
    else if |s| > 0 && s[0] == '-' && IsDigits(s[1..]) then var v: int := Value(s[1..]); Some(-v)
    else if IsDigits(s) then Some(Value(s))
    else None
  }

  /** `Record::year`: the UTC year, readable back, four plain digits for years 0 to 9999. */
  function Year(r: Record): (s: string)
    ensures ReadYear(s) == Some(r.timestamp.year)
    ensures '/' !in s
    ensures 0 <= r.timestamp.year <= 9999 ==> |s| == 4 && IsDigits(s) && Value(s) == r.timestamp.year
  {
    YearTextReadsBack(r.timestamp.year);
    YearText(r.timestamp.year)
  }

  lemma YearTextReadsBack(y: int)
    ensures ReadYear(YearText(y)) == Some(y)
    ensures '/' !in YearText(y)
    ensures 0 <= y <= 9999 ==> |YearText(y)| == 4 && IsDigits(YearText(y)) && Value(YearText(y)) == y
  {
    var a := if y < 0 then -y else y;
    PaddedRoundTrip(a, 4);
    DigitsHaveNoSlash(Padded(a, 4));
    if 0 <= y <= 9999 {
      assert Pow10(4) == 10000;
      PaddedWidth(y, 4);
    } else {
      assert YearText(y)[1..] == Padded(a, 4);
    }
  }

  /** `Record::month`: exactly two decimal digits, zero-padded, denoting the UTC month. */
  function Month(r: Record): (s: string)
    ensures |s| == 2 && IsDigits(s) && Value(s) == r.timestamp.month
  {
    PaddedRoundTrip(r.timestamp.month, 2);
    PaddedWidth(r.timestamp.month, 2);
    Padded(r.timestamp.month, 2)
  }

  /** `Record::day`: exactly two decimal digits, zero-padded, denoting the UTC day of the month. */
  function Day(r: Record): (s: string)
    ensures |s| == 2 && IsDigits(s) && Value(s) == r.timestamp.day
  {
    PaddedRoundTrip(r.timestamp.day, 2);
    PaddedWidth(r.timestamp.day, 2);
    Padded(r.timestamp.day, 2)
  }

  /**
   * The three accessors agree on two records exactly when their timestamps fall on the same
   * UTC day; hour, minute, second and fraction play no part.
   */
  lemma DatePartsIff(a: Record, b: Record)
    ensures (Year(a) == Year(b) && Month(a) == Month(b) && Day(a) == Day(b)) <==> SameUtcDate(a.timestamp, b.timestamp)
  {
    if Year(a) == Year(b) {
      assert Some(a.timestamp.year) == ReadYear(Year(a)) == Some(b.timestamp.year);
    }
  }

  /** A timestamp on 15 March 2022 gives "2022", "03" and "15", whatever its time of day. */
  lemma AccessorsExample(r: Record)
    requires r.timestamp.year == 2022 && r.timestamp.month == 3 && r.timestamp.day == 15
    ensures Year(r) == "2022" && Month(r) == "03" && Day(r) == "15"
  {
    PaddedExamples();
    assert Year(r) == Padded(2022, 4);
  }

  lemma PaddedExamples()
    ensures Padded(2022, 4) == "2022" && Padded(3, 2) == "03" && Padded(15, 2) == "15"
  {
    assert Digits(2022) == "2022";
    assert Padded(2022, 4) == [] + "2022";
    assert Digits(3) == "3" && Zeros(1) == "0";
    assert Padded(3, 2) == "0" + "3";
    assert Digits(15) == "15";
    assert Padded(15, 2) == [] + "15";
  }

  // ----- generate_random -----------------------------------------------------------------

  /** The prefix every generated uuid carries. */
  const UuidPrefix: string := "urn:mrn:signalk:uuid:"

  /**
   * The random draws of `generate_random`, in the order it takes them; the four f64 draws
   * are opaque payloads.
   */
  datatype Draws = Draws(
    year: int, month: int, day: int, hour: int, minute: int, second: int,
    boatNumber: int,
    latitudeOffset: F64, longitudeOffset: F64, altitude: F64, course: F64,
    speed: int)

  /** The ranges `random_range` draws from. */
  predicate DrawsInRange(d: Draws)
  {
    && 2020 <= d.year <= 2025
    && 1 <= d.month <= 12
    && 1 <= d.day <= 28
    && 0 <= d.hour <= 23
    && 0 <= d.minute <= 59
    && 0 <= d.second <= 59
    && 1 <= d.boatNumber <= 100
    && 0 <= d.speed < 25
  }

  /** `format!("{year}-{month:02}-{day:02}T{hour:02}:{minute:02}:{second:02}Z")`. */
  function TimestampText(year: nat, month: nat, day: nat, hour: nat, minute: nat, second: nat): string
  {
    Digits(year) + "-" + Padded(month, 2) + "-" + Padded(day, 2) + "T"
      + Padded(hour, 2) + ":" + Padded(minute, 2) + ":" + Padded(second, 2) + "Z"
  }

  /**
   * `DateTime::parse_from_rfc3339` restricted to the one shape the generator produces,
   * `YYYY-MM-DDTHH:MM:SSZ` (RFC 3339 section 5.6 with no fraction and offset `Z`):
   * it fails on any other text and on a date or time that does not exist.
   */
  function ParseUtcSeconds(s: string): Option<UtcDateTime>
  {
    if && |s| == 20
       && IsDigits(s[0..4]) && s[4] == '-' && IsDigits(s[5..7]) && s[7] == '-' && IsDigits(s[8..10])
       && s[10] == 'T' && IsDigits(s[11..13]) && s[13] == ':' && IsDigits(s[14..16]) && s[16] == ':'
       && IsDigits(s[17..19]) && s[19] == 'Z'
    then
      var t := DateTime(Value(s[0..4]), Value(s[5..7]), Value(s[8..10]),
                        Value(s[11..13]), Value(s[14..16]), Value(s[17..19]), 0);
      if ValidDateTime(t) then Some(t) else None
    else None
  }

  /**
   * With the drawn ranges the formatted text always parses, to the drawn date and time, so
   * the `unwrap` after `parse_from_rfc3339` cannot panic.
   */
  lemma TimestampTextParses(d: Draws)
    requires DrawsInRange(d)
    ensures ParseUtcSeconds(TimestampText(d.year, d.month, d.day, d.hour, d.minute, d.second))
         == Some(DateTime(d.year, d.month, d.day, d.hour, d.minute, d.second, 0))
  {
    TimestampTextLaidOut(d);
    ParseLaidOut(TimestampText(d.year, d.month, d.day, d.hour, d.minute, d.second));
  }

  /** The generator's text has the fixed layout, and each digit field reads back as its draw. */
  lemma TimestampTextLaidOut(d: Draws)
    requires DrawsInRange(d)
    ensures var s := TimestampText(d.year, d.month, d.day, d.hour, d.minute, d.second);
      && |s| == 20 && s[4] == '-' && s[7] == '-' && s[10] == 'T' && s[13] == ':' && s[16] == ':' && s[19] == 'Z'
      && IsDigits(s[0..4]) && Value(s[0..4]) == d.year
      && IsDigits(s[5..7]) && Value(s[5..7]) == d.month
      && IsDigits(s[8..10]) && Value(s[8..10]) == d.day
      && IsDigits(s[11..13]) && Value(s[11..13]) == d.hour
      && IsDigits(s[14..16]) && Value(s[14..16]) == d.minute
      && IsDigits(s[17..19]) && Value(s[17..19]) == d.second
  {
    FourDigits(d.year);
    TwoDigits(d.month);
    TwoDigits(d.day);
    TwoDigits(d.hour);
    TwoDigits(d.minute);
    TwoDigits(d.second);
    var s := TimestampText(d.year, d.month, d.day, d.hour, d.minute, d.second);
    TimestampFields(Digits(d.year), Padded(d.month, 2), Padded(d.day, 2), Padded(d.hour, 2), Padded(d.minute, 2), Padded(d.second, 2));
    FieldAt(s, 0, 4, Digits(d.year));
    FieldAt(s, 5, 7, Padded(d.month, 2));
    FieldAt(s, 8, 10, Padded(d.day, 2));
    FieldAt(s, 11, 13, Padded(d.hour, 2));
    FieldAt(s, 14, 16, Padded(d.minute, 2));
    FieldAt(s, 17, 19, Padded(d.second, 2));
  }

  /** A slice equal to a digit string reads as the same number. */
  lemma FieldAt(s: string, i: nat, j: nat, f: string)
    requires i <= j <= |s| && s[i..j] == f && IsDigits(f)
    ensures IsDigits(s[i..j]) && Value(s[i..j]) == Value(f)
  {
  }

  /** Text laid out as `YYYY-MM-DDTHH:MM:SSZ` parses to the date-time its digits denote, if that exists. */
  lemma ParseLaidOut(s: string)
    requires && |s| == 20 && s[4] == '-' && s[7] == '-' && s[10] == 'T' && s[13] == ':' && s[16] == ':' && s[19] == 'Z'
    requires && IsDigits(s[0..4]) && IsDigits(s[5..7]) && IsDigits(s[8..10])
             && IsDigits(s[11..13]) && IsDigits(s[14..16]) && IsDigits(s[17..19])
    ensures var t := DateTime(Value(s[0..4]), Value(s[5..7]), Value(s[8..10]),
                              Value(s[11..13]), Value(s[14..16]), Value(s[17..19]), 0);
      ParseUtcSeconds(s) == if ValidDateTime(t) then Some(t) else None
  {
  }

  lemma FourDigits(n: nat)
    requires 1000 <= n < 10000
    ensures |Digits(n)| == 4 && Value(Digits(n)) == n
  {
    DigitsRoundTrip(n);
    DigitsLength(n, 4);
    DigitsLength(n, 3);
    assert Pow10(4) == 10000 && Pow10(3) == 1000;
  }

  lemma TwoDigits(n: nat)
    requires n < 100
    ensures |Padded(n, 2)| == 2 && IsDigits(Padded(n, 2)) && Value(Padded(n, 2)) == n
  {
    assert Pow10(2) == 100;
    PaddedRoundTrip(n, 2);
    PaddedWidth(n, 2);
  }

  /** The fixed positions of the six fields in the text `TimestampText` builds. */
  lemma TimestampFields(y: string, mo: string, da: string, h: string, mi: string, se: string)
    requires |y| == 4 && |mo| == 2 && |da| == 2 && |h| == 2 && |mi| == 2 && |se| == 2
    ensures var s := y + "-" + mo + "-" + da + "T" + h + ":" + mi + ":" + se + "Z";
      && |s| == 20 && s[0..4] == y && s[4] == '-' && s[5..7] == mo && s[7] == '-' && s[8..10] == da
      && s[10] == 'T' && s[11..13] == h && s[13] == ':' && s[14..16] == mi && s[16] == ':'
      && s[17..19] == se && s[19] == 'Z'
  {
    var s := y + "-" + mo + "-" + da + "T" + h + ":" + mi + ":" + se + "Z";
    assert s == [y[0], y[1], y[2], y[3], '-', mo[0], mo[1], '-', da[0], da[1], 'T',
                 h[0], h[1], ':', mi[0], mi[1], ':', se[0], se[1], 'Z'];
    assert s[0..4] == y;
    assert s[5..7] == mo;
    assert s[8..10] == da;
    assert s[11..13] == h;
    assert s[14..16] == mi;
    assert s[17..19] == se;
  }

  /** The number in a name of the form "Boat <n>", if it has that form. */
  function BoatNumber(name: string): Option<nat>
  {
    if |name| > 5 && name[..5] == "Boat " && IsDigits(name[5..]) then Some(Value(name[5..])) else None
  }

  /**
   * `Record::generate_random`: the version of `example` unchanged, a name "Boat <n>" with the
   * drawn n in 1..=100, a uuid under the signalk prefix, a speed in [0, 25), and a valid UTC
   * timestamp on the drawn date and time in 2020..=2025; `fadd` is the f64 addition.
   */
  function GenerateRandom(example: Record, d: Draws, uuid: string, fadd: (F64, F64) -> F64): (r: Record)
    requires DrawsInRange(d)
    ensures r.version == example.version
    ensures BoatNumber(r.name) == Some(d.boatNumber) && 1 <= d.boatNumber <= 100
    ensures |r.uuid| >= |UuidPrefix| && r.uuid[..|UuidPrefix|] == UuidPrefix
    ensures 0 <= r.speed < 25
    ensures r.timestamp == DateTime(d.year, d.month, d.day, d.hour, d.minute, d.second, 0)
    ensures 2020 <= r.timestamp.year <= 2025 && 1 <= r.timestamp.day <= 28
  {
    TimestampTextParses(d);
    var timestamp := ParseUtcSeconds(TimestampText(d.year, d.month, d.day, d.hour, d.minute, d.second)).value;
    var name := "Boat " + Digits(d.boatNumber);
    assert name[5..] == Digits(d.boatNumber);
    DigitsRoundTrip(d.boatNumber);
    Record(
      example.version,
      name,
      UuidPrefix + uuid,
      fadd(example.latitude, d.latitudeOffset),
      fadd(example.longitude, d.longitudeOffset),
      d.altitude,
      d.course,
      d.speed as Int32,
      timestamp)
  }
}

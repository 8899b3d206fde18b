/** Calendar dates as pandas holds them, and the `%Y%m%d` integer encoding the
  * visit sheet uses. */
module Calendar {
  import opened Wrappers
  import opened Sorting

  datatype Date = Date(year: int, month: int, day: int)

  /** A pandas datetime value: its calendar date (`.dt.date`) and time of day. */
  datatype Timestamp = Timestamp(date: Date, secondOfDay: nat)

  /** Proleptic Gregorian leap years, as pandas uses. */
  predicate IsLeapYear(y: int) {
    y % 4 == 0 && (y % 100 != 0 || y % 400 == 0)
  }

  function DaysInMonth(y: int, m: int): int
    requires 1 <= m <= 12
  {
    if m == 2 then (if IsLeapYear(y) then 29 else 28)
    else if m == 4 || m == 6 || m == 9 || m == 11 then 30
    else 31
  }

  predicate ValidDate(d: Date) {
    1 <= d.month <= 12 && 1 <= d.day <= DaysInMonth(d.year, d.month)
  }

  /** Chronological order of dates: `a < b`. */
  predicate Before(a: Date, b: Date) {
    || a.year < b.year
    || (a.year == b.year && a.month < b.month)
    || (a.year == b.year && a.month == b.month && a.day < b.day)
  }

  /** `a <= b` */
  predicate NotAfter(a: Date, b: Date) {
    !Before(b, a)
  }

  lemma BeforeIsStrictTotalOrder()
    ensures StrictTotalOrder(Before)
  {
  }

  /** The `YYYYMMDD` integer of a date. */
  function Encode(d: Date): int {
    d.year * 10000 + d.month * 100 + d.day
  }

  /** The first and last calendar days whose midnight a pandas `Timestamp` can hold:
    * nanoseconds since 1970 in a signed 64-bit integer reach from 1677-09-21 00:12:43
    * to 2262-04-11 23:47:16. */
  const FirstTimestampDay: Date := Date(1677, 9, 22)
  const LastTimestampDay: Date := Date(2262, 4, 11)

  predicate InTimestampRange(d: Date) {
    NotAfter(FirstTimestampDay, d) && NotAfter(d, LastTimestampDay)
  }

  /** `pd.to_datetime(code, format='%Y%m%d')` on an integer: `None` is a code that is
    * not eight digits forming a date, or a date outside the `Timestamp` range; on
    * either the conversion raises. */
  function ParseYmd(code: int): (r: Option<Date>)
    ensures r.Some? ==> ValidDate(r.value) && InTimestampRange(r.value)
  {
    if code < 10000000 || 99999999 < code then None
    else
      var d := Date(code / 10000, code / 100 % 100, code % 100);
      if ValidDate(d) && InTimestampRange(d) then Some(d) else None
  }

  /** A code that converts is the encoding of a valid date with a four-digit year. */
  lemma ParseYmdSound(code: int)
    ensures ParseYmd(code).Some? ==> ValidDate(ParseYmd(code).value) && 1000 <= ParseYmd(code).value.year <= 9999
    ensures ParseYmd(code).Some? ==> Encode(ParseYmd(code).value) == code
  {
    if ParseYmd(code).Some? {
      var y, rest := code / 10000, code % 10000;
      assert code == y * 10000 + rest;
      assert code / 100 == y * 100 + rest / 100;
      assert code / 100 % 100 == rest / 100;
      assert code % 100 == rest % 100;
      assert rest == rest / 100 * 100 + rest % 100;
    }
  }

  /** Every date a `Timestamp` can hold survives encoding and parsing. */
  lemma ParseEncode(d: Date)
    requires ValidDate(d) && InTimestampRange(d)
    ensures ParseYmd(Encode(d)) == Some(d)
  {
    var c := Encode(d);
    assert 1677 <= d.year <= 2262;
    assert 0 <= d.month * 100 + d.day < 10000;
    assert c / 10000 == d.year;
    assert c / 100 == d.year * 100 + d.month;
    assert c % 100 == d.day;
  }

  /** The codes just outside the `Timestamp` range are valid dates that do not
    * convert. */
  lemma TimestampRangeEdges()
    ensures ParseYmd(16770921) == None && ParseYmd(16770922) == Some(Date(1677, 9, 22))
    ensures ParseYmd(22620411) == Some(Date(2262, 4, 11)) && ParseYmd(22620412) == None
    ensures ParseYmd(30000101) == None && ParseYmd(16000101) == None
  {
  }

  /** Comparing `YYYYMMDD` integers compares the dates they encode. */
  lemma EncodeMonotone(a: Date, b: Date)
    requires ValidDate(a) && ValidDate(b)
    ensures Before(a, b) <==> Encode(a) < Encode(b)
  {
  }
}

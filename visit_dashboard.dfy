/** The patient-visit dashboard (app.py): the columns derived from each visit row,
  * the sidebar filter, the KPI counts with their alerts, and the daily visit counts. */
module VisitDashboard {
  import opened Wrappers
  import opened Tables
  import opened Sorting
  import opened Calendar
  import opened PyText

  // ---------------------------------------------------------------------------
  // Hour bucket of a visit time (categorize_time)

  /** The visit time as six-place text: `'000000'` when missing, otherwise
    * `str(int(hms)).zfill(6)`. */
  function TimeText(hms: Option<int>): string {
    if hms.None? then "000000" else ZFill(Show(hms.value), 6)
  }

  /** `int(time_str[:2])` never raises on the text of a missing or integer time. */
  lemma TimeTextLead(hms: Option<int>)
    ensures |TimeText(hms)| >= 6
    ensures ParseInt(TimeText(hms)[..2]).Some?
    ensures -9 <= ParseInt(TimeText(hms)[..2]).value <= 99
  {
    var t := TimeText(hms);
    if hms.None? {
      assert t[..2] == ['0', '0'];
      TwoDigitsRoundTrip('0', '0');
    } else if hms.value >= 0 {
      var d := DecimalText(hms.value);
      assert d[0] != '-' && d[0] != '+';
      assert AllDigits(t);
      assert t[..2] == [t[0], t[1]];
      TwoDigitsRoundTrip(t[0], t[1]);
    } else {
      var s := Show(hms.value);
      var c := if |s| >= 6 then s[1] else '0';
      assert s[1..] == DecimalText(-hms.value);
      assert IsDigit(c);
      assert t[..2] == ['-', c];
      assert ['-', c][1..] == [c];
      assert [c][..|[c]| - 1] == [];
      assert DigitsValue([c]) == DigitValue(c);
      assert ParseInt(t[..2]) == Some(-(DigitValue(c) as int));
    }
  }

  /** The hour bucket of a visit time: always two characters, two digits or a minus
    * sign and a digit. */
  function CategorizeTime(hms: Option<int>): (bucket: string)
    ensures |bucket| == 2
    ensures AllDigits(bucket) || (bucket[0] == '-' && IsDigit(bucket[1]))
  {
    var timeStr := TimeText(hms);
    TimeTextLead(hms);
    var hour := ParseInt(timeStr[..2]).value;
    TwoPlaceFormat(hour);
    ZFill(Show(hour), 2)
  }

  /** A missing time goes to bucket `"00"`. */
  lemma CategorizeTimeMissing()
    ensures CategorizeTime(None) == "00"
  {
    TwoDigitsRoundTrip('0', '0');
    assert TimeText(None)[..2] == ['0', '0'];
  }

  /** For a non-negative time the bucket is two decimal digits: the first two
    * characters of the six-place zero-padded text. */
  lemma CategorizeTimeDigits(n: int)
    requires 0 <= n
    ensures CategorizeTime(Some(n)) == TimeText(Some(n))[..2]
    ensures |CategorizeTime(Some(n))| == 2 && AllDigits(CategorizeTime(Some(n)))
  {
    var t := TimeText(Some(n));
    var d := DecimalText(n);
    assert d[0] != '-' && d[0] != '+';
    assert AllDigits(t);
    assert t[..2] == [t[0], t[1]];
    TwoDigitsRoundTrip(t[0], t[1]);
  }

  /** For a time of day `HHMMSS` (0 to 999999) the bucket is the hour `n div 10000`
    * written with two digits: 93000 gives "09". */
  lemma CategorizeTimeHour(n: int)
    requires 0 <= n <= 999999
    ensures CategorizeTime(Some(n)) == ZFill(Show(n / 10000), 2)
    ensures CategorizeTime(Some(n)) == [Digit(n / 100000), Digit(n / 10000 % 10)]
  {
    CategorizeTimeDigits(n);
    LeadingPairOfSix(n);
    TwoPlaces(n / 10000);
    assert n / 10000 / 10 == n / 100000;
  }

  /** A negative time (which no clock produces) still gets a two-character bucket:
    * `"00"` when its magnitude is below 10000, otherwise a minus sign and the leading
    * digit of the magnitude: -12345 gives "-1". */
  lemma CategorizeTimeNegative(n: int)
    requires n < 0
    ensures |CategorizeTime(Some(n))| == 2
    ensures CategorizeTime(Some(n)) == "00" || (CategorizeTime(Some(n))[0] == '-' && IsDigit(CategorizeTime(Some(n))[1]))
    ensures -n < 10000 ==> CategorizeTime(Some(n)) == "00"
    ensures -n >= 10000 ==> CategorizeTime(Some(n)) == ['-', DecimalText(-n)[0]]
  {
    var s := Show(n);
    var t := TimeText(Some(n));
    assert s[1..] == DecimalText(-n);
    var c := if |s| >= 6 then s[1] else '0';
    assert t[..2] == ['-', c];
    assert ['-', c][1..] == [c];
    assert [c][..|[c]| - 1] == [];
    assert IsDigit(c);
    assert DigitsValue([c]) == DigitValue(c);
    var h := -(DigitValue(c) as int);
    assert ParseInt(t[..2]) == Some(h);
    if -n < 10000 {
      assert Pow10(4) == 10000;
      DecimalTextLength(-n, 4);
      assert c == '0';
    } else {
      assert Pow10(4) == 10000;
      DecimalTextLong(-n, 4);
      assert c == DecimalText(-n)[0] && c != '0';
    }
    if h == 0 {
      assert Show(h) == "0";
    } else {
      assert Show(h) == "-" + [c];
    }
  }

  // ---------------------------------------------------------------------------
  // Decade age bands (pd.cut with right=False)

  /** Bin edges `list(range(0, 101, 10)) + [999]`. */
  const Bins: seq<int> := [0, 10, 20, 30, 40, 50, 60, 70, 80, 90, 100, 999]

  /** Band labels `["10대이하"] + [f"{i}대" for i in range(10, 100, 10)] + ["90대이상"]`. */
  const BandLabels: seq<string> := ["10대이하", "10대", "20대", "30대", "40대", "50대", "60대", "70대", "80대", "90대", "90대이상"]

  /** The edges are `range(0, 101, 10)` followed by 999. */
  lemma BinsSpelled()
    ensures |Bins| == 12 && Bins[11] == 999
    ensures forall i :: 0 <= i <= 10 ==> Bins[i] == 10 * i
  {
  }

  /** The eleven labels are distinct; the middle nine are `f"{i}대"` for the decades
    * `i = 10, 20, ..., 90`. */
  lemma BandLabelsSpelled()
    ensures |BandLabels| == 11 && Distinct(BandLabels)
    ensures BandLabels[0] == "10대이하" && BandLabels[10] == "90대이상"
    ensures forall k :: 1 <= k <= 9 ==> BandLabels[k] == Show(10 * k) + "대"
  {
    assert Show(10) == "10";
    assert Show(20) == "20";
    assert Show(30) == "30";
    assert Show(40) == "40";
    assert Show(50) == "50";
    assert Show(60) == "60";
    assert Show(70) == "70";
    assert Show(80) == "80";
    assert Show(90) == "90";
  }

  /** The edges increase strictly, so the half-open bins `[Bins[i], Bins[i+1])` are
    * pairwise disjoint and ordered as listed. */
  lemma BinsAscending()
    ensures |Bins| == 12 && Ascending(Bins, IntLt)
  {
    AscendingByNeighbours(Bins, IntLt);
  }

  /** The bin `[Bins[i], Bins[i+1])` holding an age in `[0, 999)`. */
  function BandIndex(age: int): (i: nat)
    requires 0 <= age < 999
    ensures i < 11 && Bins[i] <= age < Bins[i + 1]
  {
    if age >= 100 then 10 else age / 10
  }

  /** At most one bin holds any age. */
  lemma BinsDisjoint(age: int, i: nat, j: nat)
    requires i < 11 && j < 11
    requires Bins[i] <= age < Bins[i + 1] && Bins[j] <= age < Bins[j + 1]
    ensures i == j
  {
    BinsAscending();
  }

  /** The age band label of an age; missing ages and ages outside `[0, 999)` get none. */
  function AgeBand(age: Option<int>): (band: Option<string>)
    ensures band.Some? <==> age.Some? && 0 <= age.value < 999
    ensures band.Some? ==> exists i :: 0 <= i < 11 && Bins[i] <= age.value < Bins[i + 1] && band.value == BandLabels[i]
  {
    if age.Some? && 0 <= age.value < 999 then Some(BandLabels[BandIndex(age.value)]) else None
  }

  /** The labels each range of ages receives. */
  lemma AgeBandLabels(a: int)
    ensures 0 <= a < 10 ==> AgeBand(Some(a)) == Some("10대이하")
    ensures 10 <= a < 100 ==> AgeBand(Some(a)) == Some(Show(a / 10 * 10) + "대")
    ensures 100 <= a < 999 ==> AgeBand(Some(a)) == Some("90대이상")
    ensures a < 0 || 999 <= a ==> AgeBand(Some(a)) == None
  {
    BandLabelsSpelled();
  }

  /** Two ages share a band exactly when they lie in the same bin: the bands are
    * disjoint and their labels tell them apart. */
  lemma SameBandSameBin(a: int, b: int)
    requires 0 <= a < 999 && 0 <= b < 999
    ensures AgeBand(Some(a)) == AgeBand(Some(b)) <==> BandIndex(a) == BandIndex(b)
  {
    BandLabelsSpelled();
  }

  /** Older never falls in an earlier band. */
  lemma AgeBandMonotone(a: int, b: int)
    requires 0 <= a <= b < 999
    ensures BandIndex(a) <= BandIndex(b)
  {
  }

  // ---------------------------------------------------------------------------
  // Rows and their derived columns

  /** A row of the visit sheet: visit date code `YYYYMMDD`, visit time `HHMMSS`, age,
    * gender and visit type (`"신환"` for a first visit). */
  datatype RawVisit = RawVisit(
    dateCode: Option<int>,
    time: Option<int>,
    age: Option<int>,
    gender: Option<string>,
    visitType: Option<string>)

  /** A visit row after preprocessing: the date converted and the age band column
    * added. The hour-bucket column is `HourBucket`, a function of the stored time. */
  datatype Visit = Visit(
    date: Option<Date>,
    time: Option<int>,
    age: Option<int>,
    band: Option<string>,
    gender: Option<string>,
    visitType: Option<string>)

  /** The `진료시간대` column of a row. */
  function HourBucket(v: Visit): string {
    CategorizeTime(v.time)
  }

  /** The date code converts: it is missing (NaT) or an eight-digit date. */
  predicate Convertible(code: Option<int>) {
    code.None? || ParseYmd(code.value).Some?
  }

  /** One row with the derived columns filled in: a date exactly when the code is
    * present, a band exactly when the age lies in `[0, 999)` (the label of the bin
    * holding the age), the other columns kept. */
  function Derive(r: RawVisit): (v: Visit)
    requires Convertible(r.dateCode)
    ensures v.date.Some? <==> r.dateCode.Some?
    ensures v.band.Some? <==> r.age.Some? && 0 <= r.age.value < 999
    ensures v.band.Some? ==> exists i :: 0 <= i < 11 && Bins[i] <= r.age.value < Bins[i + 1] && v.band.value == BandLabels[i]
    ensures (v.time, v.age, v.gender, v.visitType) == (r.time, r.age, r.gender, r.visitType)
  {
    Visit(
      if r.dateCode.None? then None else ParseYmd(r.dateCode.value),
      r.time,
      r.age,
      AgeBand(r.age),
      r.gender,
      r.visitType)
  }

  /** What preprocessing does to one row: a date exactly when the code is present,
    * whose `YYYYMMDD` encoding is the code; a band exactly when the age lies in
    * `[0, 999)`, and then the label of the bin holding the age; the source columns
    * unchanged. */
  lemma DeriveColumns(r: RawVisit)
    requires Convertible(r.dateCode)
    ensures Derive(r).date.Some? <==> r.dateCode.Some?
    ensures Derive(r).date.Some? ==> Encode(Derive(r).date.value) == r.dateCode.value && ValidDate(Derive(r).date.value)
    ensures Derive(r).band.Some? <==> r.age.Some? && 0 <= r.age.value < 999
    ensures Derive(r).band.Some? ==> exists i :: 0 <= i < 11 && Bins[i] <= r.age.value < Bins[i + 1] && Derive(r).band.value == BandLabels[i]
    ensures (Derive(r).time, Derive(r).age, Derive(r).gender, Derive(r).visitType) == (r.time, r.age, r.gender, r.visitType)
  {
    if r.dateCode.Some? {
      ParseYmdSound(r.dateCode.value);
    }
  }

  /** The sidebar's date-range test on a converted date is the same test on the raw
    * `YYYYMMDD` code: integer order of codes is date order. */
  lemma DateRangeOnCodes(r: RawVisit, start: Date, end: Date)
    requires Convertible(r.dateCode) && r.dateCode.Some?
    requires ValidDate(start) && ValidDate(end)
    ensures NotAfter(start, Derive(r).date.value) && NotAfter(Derive(r).date.value, end)
            <==> Encode(start) <= r.dateCode.value <= Encode(end)
  {
    DeriveColumns(r);
    var d := Derive(r).date.value;
    EncodeMonotone(d, start);
    EncodeMonotone(end, d);
  }

  /** Adds the converted date and the age band to every row. The date conversion
    * raises on a code that is not a date, and then no table is produced. */
  method AddDerivedColumns(raw: seq<RawVisit>) returns (df: Option<seq<Visit>>)
    ensures df.Some? <==> forall i :: 0 <= i < |raw| ==> Convertible(raw[i].dateCode)
    ensures df.Some? ==> |df.value| == |raw| && forall i :: 0 <= i < |raw| ==> df.value[i] == Derive(raw[i])
  {
    var rows: seq<Visit> := [];
    var i := 0;
    while i < |raw|
      invariant 0 <= i <= |raw|
      invariant |rows| == i
      invariant forall j :: 0 <= j < i ==> Convertible(raw[j].dateCode) && rows[j] == Derive(raw[j])
    {
      if !Convertible(raw[i].dateCode) {
        return None;
      }
      rows := rows + [Derive(raw[i])];
      i := i + 1;
    }
    return Some(rows);
  }

  // ---------------------------------------------------------------------------
  // Sidebar filter

  /** The sidebar's test: visit date within `[start, end]`, age band among the
    * selected ones and, unless "전체" is chosen, the selected gender. */
  predicate Passes(v: Visit, start: Date, end: Date, bands: seq<string>, gender: Pick<string>): (b: bool)
    ensures b ==> v.date.Some? && v.band.Some? && NotAfter(start, end)
  {
    && v.date.Some? && NotAfter(start, v.date.value) && NotAfter(v.date.value, end)
    && v.band.Some? && v.band.value in bands
    && (gender.Only? ==> v.gender == Some(gender.value))
  }

  function PassesFilter(start: Date, end: Date, bands: seq<string>, gender: Pick<string>): Visit -> bool {
    (v: Visit) => Passes(v, start, end, bands, gender)
  }

  /** The first mask: date range and band membership. */
  function DatedInBands(start: Date, end: Date, bands: seq<string>): Visit -> bool {
    (v: Visit) => v.date.Some? && NotAfter(start, v.date.value) && NotAfter(v.date.value, end)
         && v.band.Some? && v.band.value in bands
  }

  function HasGender(g: string): Visit -> bool {
    (v: Visit) => v.gender == Some(g)
  }

  /** The filtered table: the mask on date and band, then the gender when one is chosen. */
  function FilterVisits(df: seq<Visit>, start: Date, end: Date, bands: seq<string>, gender: Pick<string>): (filtered: seq<Visit>)
    ensures filtered == Where(df, PassesFilter(start, end, bands, gender))
  {
    var masked := Where(df, DatedInBands(start, end, bands));
    if gender.All? then
      WhereAgreeing(df, DatedInBands(start, end, bands), PassesFilter(start, end, bands, gender));
      masked
    else
      WhereWhere(df, DatedInBands(start, end, bands), HasGender(gender.value), PassesFilter(start, end, bands, gender));
      Where(masked, HasGender(gender.value))
  }

  /** The filtered rows are, in their original order, exactly the rows passing all
    * three tests. */
  lemma FilterVisitsSelects(df: seq<Visit>, start: Date, end: Date, bands: seq<string>, gender: Pick<string>)
    ensures IsSubsequence(FilterVisits(df, start, end, bands, gender), df)
    ensures forall v :: v in FilterVisits(df, start, end, bands, gender) <==> v in df && Passes(v, start, end, bands, gender)
  {
    WhereIsSubsequence(df, PassesFilter(start, end, bands, gender));
  }

  /** A row whose age is missing or outside `[0, 999)` never passes, even with every
    * band selected. */
  lemma UnbandedNeverPasses(r: RawVisit, start: Date, end: Date, gender: Pick<string>)
    requires Convertible(r.dateCode)
    requires r.age.None? || r.age.value < 0 || 999 <= r.age.value
    ensures !Passes(Derive(r), start, end, BandLabels, gender)
  {
  }

  // ---------------------------------------------------------------------------
  // KPI cards and alerts

  const FirstVisit: string := "신환"

  /** `초/재진 == "신환"`: a missing visit type is not a first visit. */
  predicate IsNew(v: Visit) {
    v.visitType == Some(FirstVisit)
  }

  /** `초/재진 != "신환"`: a missing visit type counts as a return visit. */
  predicate IsReturn(v: Visit) {
    v.visitType != Some(FirstVisit)
  }

  /** The fraction `num / den`, `den > 0`. */
  datatype Ratio = Ratio(num: nat, den: nat)

  /** `part / total if total else 0` */
  function Share(part: nat, total: nat): (r: Ratio)
    ensures r.den > 0
    ensures total == 0 ==> r.num == 0
    ensures total > 0 ==> r.num * total == part * r.den
  {
    if total > 0 then Ratio(part, total) else Ratio(0, 1)
  }

  /** `r > p / q`, by cross-multiplication. */
  predicate Exceeds(r: Ratio, p: nat, q: nat) {
    r.num * q > p * r.den
  }

  datatype Kpi = Kpi(total: nat, newCount: nat, returnCount: nat, newRatio: Ratio, returnRatio: Ratio)

  /** Total visits, first and return visits, and their shares of the total. */
  function Kpis(filtered: seq<Visit>): (k: Kpi)
    ensures k.total == |filtered| == k.newCount + k.returnCount
    ensures k.newCount == |Where(filtered, IsNew)| && k.returnCount == |Where(filtered, IsReturn)|
    ensures k.total == 0 ==> k.newRatio.num == 0 && k.returnRatio.num == 0
    ensures k.total > 0 ==> k.newRatio == Ratio(k.newCount, k.total) && k.returnRatio == Ratio(k.returnCount, k.total)
  {
    var total := |filtered|;
    var newCount := |Where(filtered, IsNew)|;
    var returnCount := |Where(filtered, IsReturn)|;
    WherePartition(filtered, IsNew, IsReturn);
    Kpi(total, newCount, returnCount, Share(newCount, total), Share(returnCount, total))
  }

  datatype Alert = NewShareAlert | ReturnShareAlert | NoAlert

  /** The success message shown: first visits over 50%, else return visits over 70%. */
  function AlertFor(k: Kpi): (a: Alert)
    ensures a == ReturnShareAlert ==> !Exceeds(k.newRatio, 1, 2)
    ensures k.newRatio.num == 0 && k.returnRatio.num == 0 ==> a == NoAlert
  {
    if Exceeds(k.newRatio, 1, 2) then NewShareAlert
    else if Exceeds(k.returnRatio, 7, 10) then ReturnShareAlert
    else NoAlert
  }

  /** The alert for a filtered table, stated on the counts: the first-visit alert
    * fires exactly when first visits are more than half, the return alert exactly
    * when it does not and return visits are more than 70%; an empty table raises none. */
  lemma AlertThresholds(filtered: seq<Visit>)
    ensures var k := Kpis(filtered);
      && (AlertFor(k) == NewShareAlert <==> 2 * k.newCount > k.total)
      && (AlertFor(k) == ReturnShareAlert <==> 2 * k.newCount <= k.total && 10 * k.returnCount > 7 * k.total)
      && (k.total == 0 ==> AlertFor(k) == NoAlert)
  {
  }

  // ---------------------------------------------------------------------------
  // Daily visit counts

  function DateKey(v: Visit): Option<Date> {
    v.date
  }

  /** `filtered.groupby('진료일자').size()`: visit counts per date, in date order. */
  function DailyCounts(filtered: seq<Visit>): (daily: seq<(Date, nat)>)
    ensures Ascending(Keys(daily), Before)
    ensures forall d :: d in Keys(daily) <==> exists v :: v in filtered && v.date == Some(d)
    ensures forall i :: 0 <= i < |daily| ==> 0 < daily[i].1 == CountOf(filtered, DateKey, daily[i].0)
    ensures Total(daily) == |Where(filtered, HasSomeKey(DateKey))|
  {
    BeforeIsStrictTotalOrder();
    var g := GroupSizes(filtered, DateKey, Before);
    assert forall i :: 0 <= i < |g| ==> g[i].0 == Keys(g)[i];
    g
  }

  /** Every filtered row has a date, so the daily counts add up to the number of
    * filtered rows. */
  lemma DailyCountsCoverFiltered(df: seq<Visit>, start: Date, end: Date, bands: seq<string>, gender: Pick<string>)
    ensures Total(DailyCounts(FilterVisits(df, start, end, bands, gender))) == |FilterVisits(df, start, end, bands, gender)|
  {
    var filtered := FilterVisits(df, start, end, bands, gender);
    WhereAll(filtered, HasSomeKey(DateKey));
  }
}

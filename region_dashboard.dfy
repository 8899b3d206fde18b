/** The regional patient map (app2.py): rows without coordinates dropped, cascading
  * region selectors, the period selectors, `filter_data` and the table shown: the
  * filtered table on the run the submit button triggers, the whole table otherwise. */
module RegionDashboard {
  import opened Wrappers
  import opened Tables
  import opened Sorting
  import opened Calendar
  import opened PyText

  /** A row of the address-converted patient sheet: last visit (`최종내원일`), the
    * three region levels (`region_1depth` .. `region_3depth`), gender, nationality,
    * age group (`나이대`) and map coordinates. */
  datatype Patient = Patient(
    lastVisit: Option<Timestamp>,
    province: Option<string>,
    city: Option<string>,
    district: Option<string>,
    gender: Option<string>,
    nationality: Option<string>,
    ageGroup: Option<string>,
    x: Option<real>,
    y: Option<real>)

  predicate HasCoordinates(r: Patient) {
    r.x.Some? && r.y.Some?
  }

  /** `dropna(subset=['y', 'x'])`: the rows with both coordinates, in order. */
  function DropMissingCoordinates(raw: seq<Patient>): (df: seq<Patient>)
    ensures IsSubsequence(df, raw)
    ensures forall r :: r in df <==> r in raw && HasCoordinates(r)
  {
    WhereIsSubsequence(raw, HasCoordinates);
    Where(raw, HasCoordinates)
  }

  // ---------------------------------------------------------------------------
  // Columns

  function ProvinceOf(r: Patient): Option<string> { r.province }
  function CityOf(r: Patient): Option<string> { r.city }
  function DistrictOf(r: Patient): Option<string> { r.district }

  /** `최종내원일.dt.year`: missing for a missing visit date. */
  function YearOf(r: Patient): Option<int> {
    if r.lastVisit.Some? then Some(r.lastVisit.value.date.year) else None
  }

  /** `최종내원일.dt.month` */
  function MonthOf(r: Patient): Option<int> {
    if r.lastVisit.Some? then Some(r.lastVisit.value.date.month) else None
  }

  // ---------------------------------------------------------------------------
  // Select box option lists: `sorted(column.dropna().unique())`

  /** The province choices: every province named in some row, once, ascending. */
  function ProvinceOptions(df: seq<Patient>): (opts: seq<string>)
    ensures Ascending(opts, StringLt) && Distinct(opts)
    ensures forall v :: v in opts <==> exists r :: r in df && r.province == Some(v)
  {
    StringLtIsStrictTotalOrder();
    var opts := SortedDistinct(Present(df, ProvinceOf), StringLt);
    AscendingIsDistinct(opts, StringLt);
    opts
  }

  function InProvince(p: string): Patient -> bool {
    (r: Patient) => r.province == Some(p)
  }

  function InCity(c: string): Patient -> bool {
    (r: Patient) => r.city == Some(c)
  }

  /** The city choices: from the rows of the pinned province, or from all rows. */
  function CityOptions(df: seq<Patient>, province: Pick<string>): (opts: seq<string>)
    ensures Ascending(opts, StringLt) && Distinct(opts)
    ensures forall v :: v in opts <==>
      exists r :: r in df && r.city == Some(v) && (province.Only? ==> r.province == Some(province.value))
  {
    StringLtIsStrictTotalOrder();
    var rows := if province.Only? then Where(df, InProvince(province.value)) else df;
    var opts := SortedDistinct(Present(rows, CityOf), StringLt);
    AscendingIsDistinct(opts, StringLt);
    opts
  }

  /** The district choices: narrowed by the city when one is pinned (the province is
    * then ignored), otherwise by the province when one is pinned, otherwise not. */
  function DistrictOptions(df: seq<Patient>, province: Pick<string>, city: Pick<string>): (opts: seq<string>)
    ensures Ascending(opts, StringLt) && Distinct(opts)
    ensures forall v :: v in opts <==>
      exists r :: r in df && r.district == Some(v) &&
        (if city.Only? then r.city == Some(city.value) else province.Only? ==> r.province == Some(province.value))
  {
    StringLtIsStrictTotalOrder();
    var rows :=
      if city.Only? then Where(df, InCity(city.value))
      else if province.Only? then Where(df, InProvince(province.value))
      else df;
    var opts := SortedDistinct(Present(rows, DistrictOf), StringLt);
    AscendingIsDistinct(opts, StringLt);
    opts
  }

  /** The year choices: the years of the visit dates present. */
  function YearOptions(df: seq<Patient>): (opts: seq<int>)
    ensures Ascending(opts, IntLt) && Distinct(opts)
    ensures forall v :: v in opts <==> exists r :: r in df && YearOf(r) == Some(v)
  {
    var opts := SortedDistinct(Present(df, YearOf), IntLt);
    AscendingIsDistinct(opts, IntLt);
    opts
  }

  function InYear(y: int): Patient -> bool {
    (r: Patient) => YearOf(r) == Some(y)
  }

  /** The month choices: the months of the visits in the pinned year, or of all visits. */
  function MonthOptions(df: seq<Patient>, year: Pick<int>): (opts: seq<int>)
    ensures Ascending(opts, IntLt) && Distinct(opts)
    ensures forall v :: v in opts <==>
      exists r :: r in df && MonthOf(r) == Some(v) && (year.Only? ==> YearOf(r) == Some(year.value))
  {
    var rows := if year.Only? then Where(df, InYear(year.value)) else df;
    var opts := SortedDistinct(Present(rows, MonthOf), IntLt);
    AscendingIsDistinct(opts, IntLt);
    opts
  }

  function GenderOf(r: Patient): Option<string> { r.gender }
  function NationalityOf(r: Patient): Option<string> { r.nationality }

  /** The gender choices: every gender present, once, ascending. */
  function GenderOptions(df: seq<Patient>): (opts: seq<string>)
    ensures Ascending(opts, StringLt) && Distinct(opts)
    ensures forall v :: v in opts <==> exists r :: r in df && r.gender == Some(v)
  {
    StringLtIsStrictTotalOrder();
    var opts := SortedDistinct(Present(df, GenderOf), StringLt);
    AscendingIsDistinct(opts, StringLt);
    opts
  }

  /** The nationality choices: every nationality present, once, ascending. */
  function NationalityOptions(df: seq<Patient>): (opts: seq<string>)
    ensures Ascending(opts, StringLt) && Distinct(opts)
    ensures forall v :: v in opts <==> exists r :: r in df && r.nationality == Some(v)
  {
    StringLtIsStrictTotalOrder();
    var opts := SortedDistinct(Present(df, NationalityOf), StringLt);
    AscendingIsDistinct(opts, StringLt);
    opts
  }

  // ---------------------------------------------------------------------------
  // filter_data

  /** The ten arguments of `filter_data`; `All` is the sentinel `'전체'`. */
  datatype Query = Query(
    year: Pick<int>,
    month: Pick<int>,
    start: Date,
    end: Date,
    province: Pick<string>,
    city: Pick<string>,
    district: Pick<string>,
    gender: Pick<string>,
    nationality: Pick<string>,
    ageGroup: Pick<string>)

  /** A pinned choice requires equality with the column (a missing cell never equals
    * anything); `All` accepts every row. */
  predicate Pinned<T(==)>(p: Pick<T>, v: Option<T>) {
    p.All? || v == Some(p.value)
  }

  /** `start <= 최종내원일.dt.date <= end`; a missing date fails both comparisons. */
  predicate InDateRange(t: Option<Timestamp>, start: Date, end: Date) {
    t.Some? && NotAfter(start, t.value.date) && NotAfter(t.value.date, end)
  }

  /** The row test `filter_data` applies: one independent condition per argument. */
  predicate Matches(r: Patient, q: Query): (b: bool)
    ensures b ==> r.lastVisit.Some? && NotAfter(q.start, q.end)
  {
    && Pinned(q.year, YearOf(r))
    && Pinned(q.month, MonthOf(r))
    && InDateRange(r.lastVisit, q.start, q.end)
    && Pinned(q.province, r.province)
    && Pinned(q.city, r.city)
    && Pinned(q.district, r.district)
    && Pinned(q.gender, r.gender)
    && Pinned(q.nationality, r.nationality)
    && Pinned(q.ageGroup, r.ageGroup)
  }

  function Matcher(q: Query): Patient -> bool {
    (r: Patient) => Matches(r, q)
  }

  /** The table `filter_data` returns, as one selection. */
  function Select(df: seq<Patient>, q: Query): (rows: seq<Patient>)
    ensures |rows| <= |df|
    ensures forall r :: r in rows ==> r in df && r.lastVisit.Some?
  {
    Where(df, Matcher(q))
  }

  /** The columns `filter_data` narrows by. */
  datatype Column = Year | Month | Dates | Province | City | District | Gender | Nationality | AgeGroup

  /** The position of each column's step in `filter_data`. */
  function Rank(c: Column): nat {
    match c
    case Year => 0
    case Month => 1
    case Dates => 2
    case Province => 3
    case City => 4
    case District => 5
    case Gender => 6
    case Nationality => 7
    case AgeGroup => 8
  }

  /** One narrowing step's condition. */
  predicate StepTest(q: Query, c: Column, r: Patient) {
    match c
    case Year => Pinned(q.year, YearOf(r))
    case Month => Pinned(q.month, MonthOf(r))
    case Dates => InDateRange(r.lastVisit, q.start, q.end)
    case Province => Pinned(q.province, r.province)
    case City => Pinned(q.city, r.city)
    case District => Pinned(q.district, r.district)
    case Gender => Pinned(q.gender, r.gender)
    case Nationality => Pinned(q.nationality, r.nationality)
    case AgeGroup => Pinned(q.ageGroup, r.ageGroup)
  }

  function Step(q: Query, c: Column): Patient -> bool {
    (r: Patient) => StepTest(q, c, r)
  }

  /** Whether the argument of column `c` is the sentinel, so that its step is skipped. */
  predicate Skipped(q: Query, c: Column) {
    match c
    case Year => q.year.All?
    case Month => q.month.All?
    case Dates => false
    case Province => q.province.All?
    case City => q.city.All?
    case District => q.district.All?
    case Gender => q.gender.All?
    case Nationality => q.nationality.All?
    case AgeGroup => q.ageGroup.All?
  }

  /** The row meets the conditions of the first `k` steps. */
  predicate PassesFirst(q: Query, k: nat, r: Patient) {
    forall c: Column :: Rank(c) < k ==> StepTest(q, c, r)
  }

  function Upto(q: Query, k: nat): Patient -> bool {
    (r: Patient) => PassesFirst(q, k, r)
  }

  /** One step of `filter_data` turns the selection by the first `k` steps into the
    * selection by the first `k + 1`, whether it narrows or is skipped. */
  lemma Narrowed(df: seq<Patient>, q: Query, c: Column, before: seq<Patient>, after: seq<Patient>)
    requires before == Where(df, Upto(q, Rank(c)))
    requires after == Where(before, Step(q, c)) || (Skipped(q, c) && after == before)
    ensures after == Where(df, Upto(q, Rank(c) + 1))
  {
    forall r: Patient ensures Upto(q, Rank(c) + 1)(r) == (Upto(q, Rank(c))(r) && Step(q, c)(r)) {
      if PassesFirst(q, Rank(c), r) && StepTest(q, c, r) {
        forall d: Column | Rank(d) < Rank(c) + 1 ensures StepTest(q, d, r) {
          if d != c {
            assert Rank(d) < Rank(c);
          }
        }
      }
    }
    WhereWhere(df, Upto(q, Rank(c)), Step(q, c), Upto(q, Rank(c) + 1));
    if after == before && Skipped(q, c) {
      WhereAll(before, Step(q, c));
    }
  }

  /** All nine steps together are the row test `Matches`. */
  lemma UptoAllSteps(df: seq<Patient>, q: Query)
    ensures Where(df, Upto(q, 9)) == Select(df, q)
  {
    forall r: Patient ensures Upto(q, 9)(r) == Matcher(q)(r) {
      if PassesFirst(q, 9, r) {
        assert StepTest(q, Year, r) && StepTest(q, Month, r) && StepTest(q, Dates, r);
        assert StepTest(q, Province, r) && StepTest(q, City, r) && StepTest(q, District, r);
        assert StepTest(q, Gender, r) && StepTest(q, Nationality, r) && StepTest(q, AgeGroup, r);
      }
    }
    WhereAgreeing(df, Upto(q, 9), Matcher(q));
  }

  /** One `if value != '전체': tmp = tmp[tmp[column] == value]` of `filter_data` (the
    * date range has no such guard): narrows the rows kept so far by column `c`. */
  method NarrowBy(ghost df: seq<Patient>, q: Query, c: Column, ghost k: nat, tmp: seq<Patient>) returns (next: seq<Patient>)
    requires k == Rank(c) && tmp == Where(df, Upto(q, k))
    ensures next == Where(df, Upto(q, k + 1))
  {
    if Skipped(q, c) {
      next := tmp;
    } else {
      next := Where(tmp, Step(q, c));
    }
    Narrowed(df, q, c, tmp, next);
  }

  /** The period part of `filter_data`: year, month, then the date range. */
  method NarrowByPeriod(ghost df: seq<Patient>, q: Query, tmp: seq<Patient>) returns (next: seq<Patient>)
    requires tmp == Where(df, Upto(q, 0))
    ensures next == Where(df, Upto(q, 3))
  {
    next := NarrowBy(df, q, Year, 0, tmp);
    next := NarrowBy(df, q, Month, 1, next);
    next := NarrowBy(df, q, Dates, 2, next);
  }

  /** The region part of `filter_data`: province, city, then district. */
  method NarrowByRegion(ghost df: seq<Patient>, q: Query, tmp: seq<Patient>) returns (next: seq<Patient>)
    requires tmp == Where(df, Upto(q, 3))
    ensures next == Where(df, Upto(q, 6))
  {
    next := NarrowBy(df, q, Province, 3, tmp);
    next := NarrowBy(df, q, City, 4, next);
    next := NarrowBy(df, q, District, 5, next);
  }

  /** The patient part of `filter_data`: gender, nationality, then age group. */
  method NarrowByPatient(ghost df: seq<Patient>, q: Query, tmp: seq<Patient>) returns (next: seq<Patient>)
    requires tmp == Where(df, Upto(q, 6))
    ensures next == Where(df, Upto(q, 9))
  {
    next := NarrowBy(df, q, Gender, 6, tmp);
    next := NarrowBy(df, q, Nationality, 7, next);
    next := NarrowBy(df, q, AgeGroup, 8, next);
  }

  /** `filter_data`: starts from a copy of the table and narrows it by each argument
    * that is not `'전체'`, the date range always; the result is the selection by the
    * conjunction of all the conditions. */
  method FilterData(df: seq<Patient>, q: Query) returns (tmp: seq<Patient>)
    ensures tmp == Select(df, q)
  {
    tmp := df;
    WhereAll(df, Upto(q, 0));
    tmp := NarrowByPeriod(df, q, tmp);
    tmp := NarrowByRegion(df, q, tmp);
    tmp := NarrowByPatient(df, q, tmp);
    UptoAllSteps(df, q);
  }

  /** The filtered table keeps, in their original order, exactly the rows meeting
    * every condition. */
  lemma SelectIsOrderedSelection(df: seq<Patient>, q: Query)
    ensures IsSubsequence(Select(df, q), df)
    ensures forall r :: r in Select(df, q) <==> r in df && Matches(r, q)
  {
    WhereIsSubsequence(df, Matcher(q));
  }

  /** Filtering a filtered table again with the same arguments changes nothing. */
  lemma SelectIdempotent(df: seq<Patient>, q: Query)
    ensures Select(Select(df, q), q) == Select(df, q)
  {
    WhereIdempotent(df, Matcher(q));
  }

  /** A select box value other than `'전체'` demands equality with its column, and
    * `'전체'` demands nothing. */
  lemma WidgetSemantics(s: string, v: Option<string>)
    ensures Pinned(FromWidget(s), v) <==> s == AllSentinel || v == Some(s)
  {
  }

  /** The region levels are combined literally: a pinned city that lies in no row of
    * the pinned province leaves nothing. */
  lemma MismatchedRegionsSelectNothing(df: seq<Patient>, q: Query)
    requires q.province.Only? && q.city.Only?
    requires forall r :: r in df && r.city == Some(q.city.value) ==> r.province != Some(q.province.value)
    ensures Select(df, q) == []
  {
    WhereNone(df, Matcher(q));
  }

  /** A row without a visit date never passes, whatever the other arguments. */
  lemma MissingDateNeverMatches(r: Patient, q: Query)
    requires r.lastVisit.None?
    ensures !Matches(r, q)
  {
  }

  /** The range compares calendar dates and includes both ends: a visit at any time of
    * the start or end day passes when the other arguments are all `'전체'`. */
  lemma DateRangeInclusive(r: Patient, q: Query, secondOfDay: nat)
    requires NotAfter(q.start, q.end)
    requires q.year.All? && q.month.All? && q.province.All? && q.city.All? && q.district.All?
    requires q.gender.All? && q.nationality.All? && q.ageGroup.All?
    requires r.lastVisit == Some(Timestamp(q.start, secondOfDay)) || r.lastVisit == Some(Timestamp(q.end, secondOfDay))
    ensures Matches(r, q)
  {
  }

  // ---------------------------------------------------------------------------
  // The table on screen

  /** The table shown: on the run the submit button triggers, `filter_data` of the
    * coordinate-filtered table; on every other run, the whole table. */
  method DisplayedTable(df: seq<Patient>, submitted: bool, q: Query) returns (shown: seq<Patient>)
    ensures !submitted ==> shown == df
    ensures submitted ==> shown == Select(df, q)
    ensures IsSubsequence(shown, df)
  {
    if submitted {
      shown := FilterData(df, q);
      SelectIsOrderedSelection(df, q);
    } else {
      shown := df;
      WhereAll(df, (r: Patient) => true);
      WhereIsSubsequence(df, (r: Patient) => true);
    }
  }

  /** Every row that reaches the filter, the table or the region choices has both
    * coordinates. */
  lemma CoordinatesThroughout(raw: seq<Patient>, q: Query)
    ensures forall r :: r in Select(DropMissingCoordinates(raw), q) ==> HasCoordinates(r)
    ensures forall v :: v in ProvinceOptions(DropMissingCoordinates(raw)) ==>
      exists r :: r in raw && HasCoordinates(r) && r.province == Some(v)
    ensures forall v :: v in CityOptions(DropMissingCoordinates(raw), q.province) ==>
      exists r :: r in raw && HasCoordinates(r) && r.city == Some(v)
    ensures forall v :: v in DistrictOptions(DropMissingCoordinates(raw), q.province, q.city) ==>
      exists r :: r in raw && HasCoordinates(r) && r.district == Some(v)
  {
  }
}

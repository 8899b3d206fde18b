# Clinic dashboards: the row logic, in Dafny

This project models the row-level logic of two Streamlit dashboards that work on a
clinic's patient sheets. Everything else in them is page layout, charts and maps.

- **Visit dashboard** (`app.py`, module `VisitDashboard`):
  - Preprocessing: the `YYYYMMDD` visit date code is converted to a date. The
    `HHMMSS` visit time gets a two-character hour bucket (`categorize_time`). The
    age gets a decade band (`pd.cut`, with right-open bins and Korean labels).
  - The sidebar filter: an inclusive date range, the selected bands, and an
    optional gender.
  - The KPI counts of first visits (`"신환"`) and return visits, with their shares
    and the two success alerts.
  - The visit counts per day (`groupby(...).size()`).
- **Regional patient map** (`app2.py`, module `RegionDashboard`):
  - Rows without map coordinates are dropped.
  - The select box option lists. These are sorted and free of duplicates. The
    lower region levels are narrowed by whichever higher level is pinned.
  - `filter_data`: nine successive narrowing steps over ten arguments, where `'전체'` ("all")
    leaves a column unconstrained.
  - The table shown: `filter_data`'s result on the run the submit button
    triggers, and the whole table on every other run.

The supporting modules hold the parts of pandas and Python these rely on:
- `Tables`: boolean-mask selection, order-preserving subsequences and `dropna`.
- `Sorting`: `sorted(unique())` under a strict total order, and `groupby(key).size()`.
- `Calendar`: dates, their order and the `%Y%m%d` conversion.
- `PyText`: `str(int)`, `str.zfill`, `int(str)`, `f"{h:02d}"` and Python's string `<`.
- `Wrappers`: `Option` for missing cells, and `Pick` for a select box, where
  `All` is the sentinel `'전체'`.

Tables are sequences of row datatypes. A missing cell (NaN or NaT) is `None`.
Ratios are pairs of naturals, compared by cross-multiplication.

The age bands are right-open decades. The top band is `[100, 999)`: an age of 999
or more gets no band, because `pd.cut` with `right=False` leaves the last edge out.
The labels are `"10대이하"`, `"10대"` … `"90대"`, `"90대이상"`.

Dates are converted as pandas does with its nanosecond `Timestamp`, which holds
the days from 1677-09-22 to 2262-04-11. A date code outside that range makes the
conversion raise.

## Model

| member | source | states |
|---|---|---|
| Wrappers.FromWidget | app2.py:19 | a select box value is `All` exactly when it is the string `'전체'`, and otherwise pins that string |
| Tables.Where | app.py:76-80 | a boolean mask keeps exactly the rows of the table meeting the condition, and never more rows than the table has |
| Tables.WhereIsSubsequence | app2.py:72 | a boolean mask keeps the rows in their original order |
| Tables.SubsequenceTransitive | app2.py:70-88 | narrowing an already narrowed table still gives an order-preserving subsequence of the original |
| Tables.WhereWhere | app.py:76-82 | masking twice is masking once by the conjunction of the two conditions |
| Tables.WhereAgreeing | app.py:76-82 | conditions that agree on every row select the same rows |
| Tables.WhereAll | app2.py:101 | a condition every row meets keeps the table unchanged |
| Tables.WhereNone | app2.py:76-79 | a condition no row meets leaves an empty table |
| Tables.WhereIdempotent | app2.py:70-88 | applying the same mask twice gives the same table as applying it once |
| Tables.WherePartition | app.py:86-87 | complementary masks split the table, so their sizes add up to its length |
| Tables.Present | app2.py:18 | `dropna()` of a column holds exactly the values that some row carries |
| Sorting.AscendingByNeighbours | app.py:47 | a list whose neighbours are in order is strictly increasing throughout |
| Sorting.SortedDistinct | app2.py:18 | `sorted(unique())` is strictly ascending and holds exactly the values of its input |
| Sorting.AscendingIsDistinct | app2.py:18 | a strictly ascending list has no value twice |
| Sorting.AscendingUnique | app2.py:18 | two strictly ascending lists holding the same values are equal, so the sorted distinct list is determined by its values |
| Sorting.TallyTotal | app.py:106 | counting group by group over distinct keys covering every keyed row counts each keyed row once |
| Sorting.GroupSizes | app.py:106 | `groupby(key).size()` has ascending keys, exactly the non-missing keys present, and a positive count per key equal to its group's size; the counts sum to the number of keyed rows |
| Calendar.BeforeIsStrictTotalOrder | app.py:106 | date order is a strict total order, so the group-by keys can be sorted |
| Calendar.ParseYmdSound | app.py:28 | a code that `%Y%m%d` converts is the `YYYYMMDD` encoding of a valid date with a four-digit year |
| Calendar.ParseYmd | app.py:28 | a code converts only to a valid date inside the `Timestamp` range; other codes are `None`, on which the conversion raises |
| Calendar.ParseEncode | app.py:28 | every valid date a `Timestamp` can hold (1677-09-22 to 2262-04-11) converts back from its `YYYYMMDD` code |
| Calendar.TimestampRangeEdges | app.py:28 | 16770922 and 22620411 convert, while 16770921, 22620412, 16000101 and 30000101 are valid dates that do not |
| Calendar.EncodeMonotone | app.py:77-78 | comparing `YYYYMMDD` codes compares the dates they encode |
| PyText.DecimalText | app.py:38 | `str(n)` of a natural is a non-empty run of decimal digits, with no leading zero unless `n` is 0 |
| PyText.Show | app.py:38 | `str(n)` is non-empty, starts with `-` exactly when `n` is negative, and starts with `0` only for 0 |
| PyText.ZFill | app.py:38 | `zfill(width)` returns text of length `max(len, width)` |
| PyText.ValueOfDecimalText | app.py:41 | the digits of `str(n)` read back as `n` |
| PyText.ParseInt | app.py:41 | `int(s)` accepts only text starting with a digit or a sign, and a negative result only after a `-` |
| PyText.ParseShow | app.py:37-41 | `int(str(n)) == n` for every integer, negative ones included |
| PyText.ZFillDecimalText | app.py:38 | zero-filling `str(n)` to `k` places, for `n < 10^k`, gives the last `k` digits of `n` |
| PyText.LeadingPairOfSix | app.py:41 | the first two characters of the six-place text of `n <= 999999` are the digits of `n div 10000` |
| PyText.TwoDigitsRoundTrip | app.py:41-42 | `int` of two digits, formatted with `02d`, gives the same two digits back |
| PyText.StringLtIsStrictTotalOrder | app2.py:18 | Python's `<` on strings is a strict total order |
| PyText.TwoPlaceFormat | app.py:42 | `f"{h:02d}"` for `-9 <= h <= 99` is two characters: two digits, or a minus sign and a digit |
| VisitDashboard.TimeTextLead | app.py:32-41 | the six-place text of a missing or integer time always starts with something `int()` accepts, whose value lies in `[-9, 99]` |
| VisitDashboard.CategorizeTime | app.py:30-42 | `categorize_time` on a missing or integer time never raises and returns two characters: two digits, or a minus sign and a digit |
| VisitDashboard.CategorizeTimeMissing | app.py:32-33 | a missing time goes to bucket `"00"` |
| VisitDashboard.CategorizeTimeDigits | app.py:37-42 | for a non-negative time the bucket is exactly two decimal digits: the first two characters of the six-place zero-padded text |
| VisitDashboard.CategorizeTimeHour | app.py:37-42 | for `0 <= n <= 999999` the bucket is `n div 10000`, zero-padded to two digits (93000 gives `"09"`) |
| VisitDashboard.CategorizeTimeNegative | app.py:37-42 | a negative time gets `"00"` when its magnitude is below 10000, and otherwise a minus sign followed by the leading digit of its magnitude (-12345 gives `"-1"`) |
| VisitDashboard.BinsSpelled | app.py:47 | the edges are `range(0, 101, 10)` followed by 999 |
| VisitDashboard.BandLabelsSpelled | app.py:48 | the eleven labels are distinct, the outer two are `"10대이하"` and `"90대이상"`, and the middle nine are `f"{i}대"` for `i = 10 … 90` |
| VisitDashboard.BinsAscending | app.py:47 | the bin edges increase strictly |
| VisitDashboard.BandIndex | app.py:49-55 | an age in `[0, 999)` lies in the half-open bin `[Bins[i], Bins[i+1])` |
| VisitDashboard.BinsDisjoint | app.py:49-55 | no age lies in two bins |
| VisitDashboard.AgeBand | app.py:49-55 | an age gets a band exactly when it is present and in `[0, 999)`, and the band is the label of the bin holding it |
| VisitDashboard.AgeBandLabels | app.py:47-55 | `[0,10)` gets `"10대이하"`, `[k, k+10)` gets `"k대"` for k = 10 … 90, `[100, 999)` gets `"90대이상"`, and anything else gets no band |
| VisitDashboard.SameBandSameBin | app.py:49-55 | two ages share a label exactly when they share a bin |
| VisitDashboard.AgeBandMonotone | app.py:49-55 | an older age never falls in an earlier band |
| VisitDashboard.Derive | app.py:28-55 | one preprocessed row has a date exactly when its code is present, a band exactly when its age is in `[0, 999)`, that band being the label of the bin holding the age, and its other columns unchanged |
| VisitDashboard.DeriveColumns | app.py:28-55 | a row gets a date exactly when its code is present, and that date encodes back to the code; it gets a band exactly when its age is in `[0, 999)`, and the band is the label of the bin holding the age; the source columns are kept |
| VisitDashboard.DateRangeOnCodes | app.py:77-78 | the date-range test on a converted date holds exactly when the raw code lies between the codes of the start and end dates |
| VisitDashboard.AddDerivedColumns | app.py:28-55 | produces a table exactly when every date code converts, and then it is the input table row by row with the derived columns added |
| VisitDashboard.Passes | app.py:76-82 | a row passing the sidebar test has a date and a band, and the range it passes is not empty |
| VisitDashboard.FilterVisits | app.py:76-82 | the band-and-date mask followed by the optional gender mask equals one mask by the conjunction of the three tests |
| VisitDashboard.FilterVisitsSelects | app.py:76-82 | the filtered rows are an order-preserving subsequence holding exactly the rows in the date range, in a selected band, and of the chosen gender unless `"전체"` is chosen |
| VisitDashboard.UnbandedNeverPasses | app.py:79 | a row with no band never passes, even with every band selected |
| VisitDashboard.Share | app.py:88-89 | `part / total if total else 0`: zero for an empty selection, otherwise equal to `part / total` |
| VisitDashboard.Kpis | app.py:85-89 | first visits plus return visits make the total; both shares are 0 when the total is 0 |
| VisitDashboard.AlertFor | app.py:99-102 | the return alert is shown only when the first-visit share does not exceed a half, and no alert is shown when both shares are zero |
| VisitDashboard.AlertThresholds | app.py:99-102 | the first-visit alert fires iff `2·new > total`; the return alert fires iff it does not and `10·return > 7·total`; an empty selection raises neither |
| VisitDashboard.DailyCounts | app.py:106 | one entry per distinct visit date of the filtered rows, in date order, each holding a positive count of the rows on that date |
| VisitDashboard.DailyCountsCoverFiltered | app.py:76-106 | the daily counts add up to the number of filtered rows |
| RegionDashboard.DropMissingCoordinates | app2.py:13 | keeps, in order, exactly the rows with both coordinates |
| RegionDashboard.ProvinceOptions | app2.py:18 | the province choices are ascending, distinct, and exactly the provinces some row names |
| RegionDashboard.CityOptions | app2.py:20-23 | the city choices are ascending and distinct, and are exactly the cities of the rows in the pinned province, or of all rows |
| RegionDashboard.DistrictOptions | app2.py:25-30 | the district choices are narrowed by the city alone when one is pinned, otherwise by the province when one is pinned, otherwise not at all |
| RegionDashboard.YearOptions | app2.py:38 | the year choices are ascending, distinct, and exactly the years of the visit dates present |
| RegionDashboard.MonthOptions | app2.py:41-45 | the month choices are the months of the visits in the pinned year, or of all visits |
| RegionDashboard.GenderOptions | app2.py:58 | the gender choices are ascending, distinct, and exactly the genders present |
| RegionDashboard.NationalityOptions | app2.py:59 | the nationality choices are ascending, distinct, and exactly the nationalities present |
| RegionDashboard.Matches | app2.py:71-87 | a row meeting all of `filter_data`'s conditions has a visit date, and the date range it lies in is not empty |
| RegionDashboard.Select | app2.py:67-88 | the selection is no longer than the table and holds only rows of the table that have a visit date |
| RegionDashboard.Narrowed | app2.py:71-87 | each narrowing step, taken or skipped, turns the selection by the earlier conditions into the selection by one more condition |
| RegionDashboard.UptoAllSteps | app2.py:70-88 | the nine conditions together are the row test `Matches` |
| RegionDashboard.NarrowBy | app2.py:71-87 | one `if value != '전체'` step extends the selection by one condition |
| RegionDashboard.NarrowByPeriod | app2.py:71-75 | the year, month and date-range steps select by those three conditions |
| RegionDashboard.NarrowByRegion | app2.py:76-81 | the province, city and district steps add those three conditions |
| RegionDashboard.NarrowByPatient | app2.py:82-87 | the gender, nationality and age-group steps add the last three conditions |
| RegionDashboard.FilterData | app2.py:67-88 | `filter_data` returns the rows meeting the conjunction of all its conditions |
| RegionDashboard.SelectIsOrderedSelection | app2.py:70-88 | the filtered table is an order-preserving subsequence holding exactly the rows meeting every condition |
| RegionDashboard.SelectIdempotent | app2.py:67-88 | filtering the filtered table again with the same arguments changes nothing |
| RegionDashboard.WidgetSemantics | app2.py:71-87 | a choice other than `'전체'` demands equality with its column; `'전체'` demands nothing |
| RegionDashboard.MismatchedRegionsSelectNothing | app2.py:76-79 | a pinned city that lies in no row of the pinned province gives an empty result |
| RegionDashboard.MissingDateNeverMatches | app2.py:75 | a row without a visit date fails, whatever the other arguments |
| RegionDashboard.DateRangeInclusive | app2.py:75 | a visit at any time of the start or end day passes the range |
| RegionDashboard.DisplayedTable | app2.py:92-101 | on the run the submit button triggers, `filter_data` of the table; on every other run, including reruns caused by the region select boxes, the whole table; either way an order-preserving subsequence |
| RegionDashboard.CoordinatesThroughout | app2.py:13 | every row reaching the filter, and every region choice, comes from a row with both coordinates |

## Left out

- Page setup, sidebar widgets, forms, metric cards, HTML and the success messages' text are not modelled. They are user interface.
- Spreadsheet loading (`pd.read_excel`) and `@st.cache_data` are not modelled: they are I/O and caching. The tables are parameters.
- Folium maps, marker clusters and the map centre (a float mean of coordinates) are not modelled. Coordinates are kept only as present or missing.
- Altair charts, the weekday column (`dt.day_name`, app.py:123) and the weekday × hour counts (app.py:124) are not modelled. The weekday is a library calendar routine.
- `avg_age`, and the percentage formatting of the shares (app.py:90-96), are not modelled: they are floating point.
- `VisitDashboard.Share`: the shares are exact fractions, and the `0.5` and `0.7` thresholds are cross-multiplied. IEEE division agrees with this for any realistic row count.
- The config-style assignments at the top of `app.py` are left out, as is all of `Home.py`: it is a separate demo landing page, outside the two dashboards modelled here.
- `categorize_time` is modelled on missing and integer times. A finite float time passes `int(hms)` (app.py:37) and takes the same path as its integer part, so it is modelled by that integer. Text times are not modelled: text `int()` accepts also takes the `try` branch, other text takes the `except` branch (app.py:39-40) and is zero-filled as it is, and line 41 raises only when `int()` rejects its first two characters.
- `int()` whitespace and underscore handling is not modelled. It never arises on the text `str(int)` produces.
- `pd.to_datetime(format='%Y%m%d')` is modelled on integer codes, with pandas' nanosecond `Timestamp` assumed. Eight digits forming a valid date between 1677-09-22 and 2262-04-11 convert. A missing code becomes NaT. Every other code is treated as making the whole conversion raise, and then no table is produced.
- `Calendar.ParseYmd`: codes of six or seven digits are treated as conversion errors. pandas' `%Y%m%d` matching may accept a single unpadded month or day digit and parse them, e.g. 2023111 as 2023-11-01. On such a code the model produces no table where pandas may produce one.
- The age column is modelled as a missing or integer value. Fractional ages are not modelled.
- The defaults of the date inputs (the minimum and maximum dates) are not modelled. The start and end dates are parameters.
- `VisitDashboard.AddDerivedColumns` adds the date and band columns. The hour-bucket column is the function `VisitDashboard.HourBucket` of a row's time, not a stored field.
- The tables are values, so "`filter_data` does not change its input" holds by construction rather than being proved about a copy.
- The seven fixed age-group choices of the form (app2.py:60) are not modelled as a list. The age-group argument of `filter_data` may be any string.

# SpotGPS location history, modelled in Dafny

`SpotGPS.py` defines `MapMeClass`, which loads a Google location-history
export and draws it on a Mapbox map. On construction it keeps three
fields of every location: `latitudeE7`, `longitudeE7` and `timestampMs`.
It derives UTC calendar columns and a hover text `M/D/YYYY H:M` from
each timestamp, and rescales both coordinates from E7 fixed point to
degrees. The result is both the current view and a snapshot. `Filter`
narrows the view with a boolean mask and `ClearFilter` restores the
snapshot. `PlotMap` builds a point layer over the view and a layout
centred on the middle record of the view.

The project has six modules:

- `Wrappers` (`wrappers.dfy`): `Option`, `Result` and `Outcome`.
- `Calendar` (`calendar.dfy`): the proleptic Gregorian UTC breakdown of an epoch-millisecond timestamp, with its inverse `EpochMillis`.
- `Decimal` (`decimal.dfy`): the plain decimal text of an integer and its exact inverse parse.
- `Display` (`display.dfy`): the hover text and a parse that reads it back.
- `Views` (`views.dfy`): selection by a positional mask, subsequences and mask composition.
- `SpotGps` (`spot_gps.dfy`): the loaded frame, the row transformations, and the `MapMe` class whose fields `data`, `originalData`, `fig`, `scatterData` and `layout` are the object's attributes.

The source's `__init__` takes a file path. The model splits it in two:

- `MapMe.Init` takes the already parsed document. It returns the load error or the new object, because a Dafny constructor cannot fail.
- The constructor takes the loaded frame.

`originalData` is a `const`, so nothing after construction can change the snapshot.

In these cases the model follows the code:

- An empty `locations` array gives an empty frame with no columns. The first column access then raises `KeyError('timestampMs')`, so construction fails rather than producing an empty object.
- A column missing from every location fails in the same way, when it is first accessed. The order is `timestampMs`, then `latitudeE7`, then `longitudeE7`.
- The centre of the map is the record at position `int(len/2)` of the current view, not a geographic centroid.

## Model

| member | source | states |
|---|---|---|
| SpotGps.LocationRow | SpotGPS.py:28-29 | a location's row holds exactly its latitudeE7, longitudeE7 and timestampMs values and no time columns yet |
| SpotGps.ReadJson | SpotGPS.py:26-68 | no `locations` key gives KeyError('locations') (line 27); a column that no location carries (every column, for an empty array) is absent from the frame, and the first access raises KeyError of the first absent column in the order timestampMs (line 41), latitudeE7, longitudeE7 (lines 67-68); loading succeeds exactly when the array is non-empty and every location has the three fields; on success there is one row per location, in document order, each the projection of its location |
| SpotGps.TimeColumnsOf | SpotGPS.py:41-54 | the time columns are a valid date and time of day (month 1..12, day 1..days in that month, hour 0..23, minute and second 0..59) whose second contains the timestamp, i.e. days*86400000 + h*3600000 + m*60000 + s*1000 + r == ms with 0 <= r < 1000; the text is the display text of those fields |
| SpotGps.TimeColumnsOfUnique | SpotGPS.py:41-47 | any valid calendar fields whose second contains the timestamp are the time columns of that timestamp |
| SpotGps.TimeColumnsOfText | SpotGPS.py:50-54 | the display text of a row reads back as its month, day, year, hour and minute |
| SpotGps.NewYear2021 | SpotGPS.py:41-54 | 1609459200000 gives 2021-01-01 00:00:00 and the text "1/1/2021 0:0" |
| SpotGps.NewYear2021Breakdown | SpotGPS.py:41-47 | 1609459200000 breaks down to 2021-01-01 00:00:00 UTC |
| SpotGps.NewYear2021Text | SpotGPS.py:50-54 | the display text of 2021-01-01 00:00 is "1/1/2021 0:0", with no zero padding |
| SpotGps.NewYear2021FieldTexts | SpotGPS.py:50-54 | the fields of 2021-01-01 00:00 are written "2021", "1", "1", "0" and "0" |
| SpotGps.WithTimeColumns | SpotGPS.py:41-54 | the derived row gains time columns that are a valid UTC breakdown of its own timestamp, and a display text that is TimestampString of those fields (which reads back as them); every other column is kept |
| SpotGps.WithDegrees | SpotGPS.py:67-68 | each rescaled coordinate times 10^7 is the stored coordinate; the timestamp and time columns are kept |
| SpotGps.DegreesNotIdempotent | SpotGPS.py:11-12 | rescaling twice divides by 10^14, so a non-zero coordinate must be rescaled exactly once |
| SpotGps.CoordinateExample | SpotGPS.py:67-68 | 377749000 and -1224194000 become 37.7749 and -122.4194 |
| SpotGps.CentreIndex | SpotGPS.py:98-99 | for a non-empty view of n records the centre position is in range and balances the view: n-1-i <= i <= n-i |
| SpotGps.CentreIndexExamples | SpotGPS.py:98-99 | views of 5, 4 and 1 records centre on positions 2, 2 and 0 |
| SpotGps.CentreIndexUnique | SpotGPS.py:98-99 | the balancing position is unique, so it is int(n/2) |
| SpotGps.MapMe.constructor | SpotGPS.py:10-14 | the view and the snapshot are the same frame, one rescaled and time-enriched row per loaded row; fig is None; the object is valid |
| SpotGps.MapMe.Init | SpotGPS.py:9-14 | construction fails exactly when loading fails, with the same error; otherwise a fresh, valid object whose view is its snapshot, with no figure, point layer or layout yet, and whose snapshot row i is location i projected, time-enriched and rescaled once |
| SpotGps.MapMe.DeriveTimeIntervals | SpotGPS.py:41-56 | one output row per input row, each with the time columns of its own timestamp added |
| SpotGps.MapMe.FixLatLong | SpotGPS.py:67-69 | one output row per input row, each with both coordinates divided by 10^7 and nothing else changed |
| SpotGps.MapMe.Filter | SpotGPS.py:119-125 | a mask of the view's length keeps exactly the masked rows, in order; any other length raises IndexError and leaves the view unchanged; the view stays a subsequence of the snapshot |
| SpotGps.MapMe.ClearFilter | SpotGPS.py:127-129 | the view becomes the snapshot again, whatever filters came before, so clearing twice is the same as clearing once |
| SpotGps.MapMe.SetScatterData | SpotGPS.py:71-87 | one point per row of the view, with that row's coordinates and display text; the mode and marker are the arguments (defaults "markers", 10, "rgb(255,0,0)", 0.3) |
| SpotGps.MapMe.SetLayout | SpotGPS.py:89-117 | an empty view raises IndexError and leaves the layout unchanged; otherwise autosize, the given height and width (default 800x1200), hovermode "closest", bearing 0, pitch 0, zoom 7, the given style (default "outdoors") and token, centred on the view's record at int(len/2) |
| SpotGps.MapMe.PlotMap | SpotGPS.py:132-178 | the point layer is always set, one point per row of the view with its coordinates and display text, in the given mode and marker (defaults "markers", 10, "rgb(255,0,0)", 0.3); an empty view raises IndexError and leaves layout and fig unchanged; otherwise the layout is the whole centred layout of SetLayout with the given height, width, style and token (defaults 800, 1200, "outdoors"), fig is the figure of the layer and that layout, and it is returned |
| Calendar.YearOf | SpotGPS.py:41-42 | the year of a day count is the one whose first day is at or before it and the next year's first day is after it |
| Calendar.YearOfUnique | SpotGPS.py:41-42 | only one year contains a given day |
| Calendar.MonthFrom | SpotGPS.py:41-43 | the month of a day of the year is the one whose first day is at or before it and the next month's first day is after it |
| Calendar.MonthFromUnique | SpotGPS.py:41-43 | only one month contains a given day of the year |
| Calendar.CivilFromDays | SpotGPS.py:41-44 | the date of a day count is a valid date that counts back to it |
| Calendar.CivilFromDaysInverse | SpotGPS.py:41-44 | every valid date is the date of its own day count |
| Calendar.UtcBreakdown | SpotGPS.py:41-47 | the breakdown is valid and its second contains the timestamp |
| Calendar.TimeOfDay | SpotGPS.py:45-47 | the hour, minute and second of a time of day are in range and cover it to within a second |
| Calendar.UtcBreakdownUnique | SpotGPS.py:41-47 | valid fields whose second contains the timestamp are its breakdown |
| Calendar.DaysBeforeYearStep | SpotGPS.py:41-42 | each year adds 366 days if it is a leap year and 365 otherwise |
| Calendar.DaysBeforeYearBounds | SpotGPS.py:41-42 | the day count of a year's start stays within two days of 146097 days per 400 years |
| Calendar.DaysBeforeYearIncreasing | SpotGPS.py:41-42 | later years start later |
| Calendar.DaysBeforeMonthStep | SpotGPS.py:41-43 | each month adds its own length, and the twelve months make up the year |
| Calendar.DaysBeforeMonthMonotone | SpotGPS.py:41-43 | later months start later in the year |
| Decimal.NatToString | SpotGPS.py:50-54 | the text of a natural number is non-empty and all digits, with a leading zero only for zero |
| Decimal.IntToString | SpotGPS.py:50-54 | the text of an integer is non-empty and is made of digits and a minus sign |
| Decimal.IntToStringRoundTrip | SpotGPS.py:50-54 | parsing the text of an integer gives the integer back |
| Decimal.ParseIntCanonical | SpotGPS.py:50-54 | the only text that parses to an integer is the text written for it |
| Decimal.DigitsValueOfNatToString | SpotGPS.py:50-54 | the digits written for n denote n |
| Decimal.NatToStringOfDigitsValue | SpotGPS.py:50-54 | a digit string without leading zeros is the text of the number it denotes |
| Display.TimestampString | SpotGPS.py:50-54 | the hover text is month/day/year hour:minute, each the unpadded decimal text of its field (IntToString), and it reads back as exactly the month, day, year, hour and minute it was built from |
| Display.TimestampStringSameText | SpotGPS.py:50-54 | two timestamps have the same hover text exactly when they agree on month, day, year, hour and minute |
| Views.Select | SpotGPS.py:125 | filtering keeps as many rows as the mask has true entries |
| Views.SelectAt | SpotGPS.py:125 | the j-th kept row is the row at the j-th true position of the mask |
| Views.SelectIsSubsequence | SpotGPS.py:125 | the kept rows are a subsequence of the view, embedded at the true positions |
| Views.TrueIndicesSpec | SpotGPS.py:125 | the true positions are listed once each, in increasing order, and a position is listed exactly when the mask is true there |
| Views.SubsequenceTransitive | SpotGPS.py:125 | a subsequence of a subsequence of the snapshot is a subsequence of the snapshot |
| Views.SubsequenceElements | SpotGPS.py:125 | every row of a filtered view is a row of the frame it was filtered from |
| Views.Compose | SpotGPS.py:125 | the composed mask is as long as the outer view |
| Views.SelectCompose | SpotGPS.py:125 | two successive filters act as one filter by the composed mask |

## Left out

- Reading the file (`pd.read_json`) is not modelled. `Init` takes the parsed document, and only integer fields of the location objects are represented.
- Timestamps that the export stores as numeric strings are modelled as the integers they denote.
- A field present in some locations but not all makes pandas fill the gaps with NaN. The model reports `IncompleteColumn` for that field instead. pandas goes on as follows:
  - A gap in `latitudeE7` or `longitudeE7` leaves NaN in that coordinate column. The NaN reaches the scatter points and possibly the map centre. The time and text columns are unaffected.
  - A gap in `timestampMs` gives NaT in that row. Then `year`, `month`, `day`, `hour`, `min` and `sec` become floating-point columns for every row. So even complete rows get texts such as "1.0/1.0/2021.0 0.0:0.0", and the rows with the gap get "nan/nan/nan nan:nan".
- The coordinates are exact rationals (`real`), so the model does not capture float64 rounding of the division by 10^7.
- The `timestamp_fixed` column (Python `datetime` objects) is not modelled. Nothing in the class reads it.
- pandas datetimes are limited to roughly the years 1677 to 2262 and raise OutOfBoundsDatetime outside that range. The model breaks down every integer timestamp on the proleptic Gregorian calendar.
- `Filter` takes a positional mask. pandas aligns a boolean Series by index label. After an earlier filter the labels are no longer 0..n-1, and that alignment is not modelled. Any length mismatch is reported as IndexError.
- In the source, the view and the snapshot are the same DataFrame object, updated column by column. The model builds the frame as values and assigns it once. Nothing mutates the frame after construction, so the aliasing is not observable.
- `PlotMap` does not model showing the figure (`fig.show`), the `renderer` argument or `**kwargs`. The plotly objects are modelled as records of their settings.

/**
 * The location-history object: a frame of location rows loaded from a
 * location-history export, enriched with UTC calendar columns and a display
 * text, with its coordinates rescaled from E7 fixed point to degrees; a
 * current view that filters narrow and ClearFilter restores; and the
 * point-layer and map-layout descriptions handed to the map renderer.
 */
module SpotGps {
  import opened Wrappers
  import opened Calendar
  import opened Display
  import opened Views
  import opened Decimal

  /** A location object of the export, by field name (only integer fields matter here). */
  type JsonObject = map<string, int>

  /** The parsed export: the array under the "locations" key, if the document has one. */
  datatype Document = Document(locations: Option<seq<JsonObject>>)

  datatype Error =
    | KeyError(key: string)             // a key or column that is indexed is absent
    | IncompleteColumn(column: string)  // a column that some, but not all, locations carry
    | IndexError                        // a mask or a position that does not fit the view

  /**
   * The columns derived from a row's timestamp: the calendar fields (the
   * year, month, day, hour, min and sec columns) and the display text.
   */
  datatype TimeColumns = TimeColumns(fields: DateTime, timestampString: string)

  /**
   * One row of the location frame. The coordinate columns keep their names
   * throughout: they hold the raw E7 integers until FixLatLong rescales
   * them to degrees. The calendar columns are absent until
   * DeriveTimeIntervals adds them.
   */
  datatype Row = Row(latitudeE7: real, longitudeE7: real, timestampMs: int, time: Option<TimeColumns>)

  /** Degrees are stored multiplied by this factor in the export. */
  const E7: real := 10_000_000.0

  // ---------------------------------------------------------------------
  // Loading

  predicate HasColumn(locations: seq<JsonObject>, column: string) {
    exists i :: 0 <= i < |locations| && column in locations[i]
  }

  predicate IsComplete(locations: seq<JsonObject>, column: string) {
    forall i :: 0 <= i < |locations| ==> column in locations[i]
  }

  predicate HasAllFields(location: JsonObject) {
    "latitudeE7" in location && "longitudeE7" in location && "timestampMs" in location
  }

  /** When every location carries every field, the frame has all three columns. */
  lemma FieldsMakeColumns(locations: seq<JsonObject>)
    ensures |locations| > 0 && (forall i :: 0 <= i < |locations| ==> HasAllFields(locations[i])) ==>
      HasColumn(locations, "timestampMs") && HasColumn(locations, "latitudeE7") && HasColumn(locations, "longitudeE7")
  {
    if |locations| > 0 && (forall i :: 0 <= i < |locations| ==> HasAllFields(locations[i])) {
      assert HasAllFields(locations[0]);
    }
  }

  /** The row of one location: its two coordinates and its timestamp, as they are stored. */
  function LocationRow(location: JsonObject): (row: Row)
    requires HasAllFields(location)
    ensures row.latitudeE7 == location["latitudeE7"] as real
    ensures row.longitudeE7 == location["longitudeE7"] as real
    ensures row.timestampMs == location["timestampMs"] && row.time.None?
  {
    Row(location["latitudeE7"] as real, location["longitudeE7"] as real, location["timestampMs"], None)
  }

  /**
   * The frame of the export: one row per location, in document order,
   * holding only the two coordinates and the timestamp. A column that no
   * location carries (so every column of an empty array) is absent from the
   * frame, and the first access to it fails with a KeyError: timestampMs
   * when the time columns are derived, then latitudeE7 and longitudeE7 when
   * the coordinates are fixed.
   */
  function ReadJson(doc: Document): (r: Result<seq<Row>, Error>)
    ensures doc.locations.None? ==> r == Failure(KeyError("locations"))
    ensures doc.locations == Some([]) ==> r == Failure(KeyError("timestampMs"))
    ensures doc.locations.Some? && !HasColumn(doc.locations.value, "timestampMs") ==>
      r == Failure(KeyError("timestampMs"))
    ensures (doc.locations.Some? && HasColumn(doc.locations.value, "timestampMs")
             && !HasColumn(doc.locations.value, "latitudeE7")) ==>
      r == Failure(KeyError("latitudeE7"))
    ensures (doc.locations.Some? && HasColumn(doc.locations.value, "timestampMs")
             && HasColumn(doc.locations.value, "latitudeE7")
             && !HasColumn(doc.locations.value, "longitudeE7")) ==>
      r == Failure(KeyError("longitudeE7"))
    ensures r.Success? <==>
      doc.locations.Some? && |doc.locations.value| > 0 &&
      forall i :: 0 <= i < |doc.locations.value| ==> HasAllFields(doc.locations.value[i])
    ensures r.Success? ==>
      var locations := doc.locations.value;
      && |r.value| == |locations|
      && forall i :: 0 <= i < |locations| ==>
           r.value[i] == LocationRow(locations[i])
  {
    if doc.locations.None? then Failure(KeyError("locations"))
    else
      var locations := doc.locations.value;
      FieldsMakeColumns(locations);
      if !HasColumn(locations, "timestampMs") then Failure(KeyError("timestampMs"))
      else if !HasColumn(locations, "latitudeE7") then Failure(KeyError("latitudeE7"))
      else if !HasColumn(locations, "longitudeE7") then Failure(KeyError("longitudeE7"))
      else if !IsComplete(locations, "timestampMs") then Failure(IncompleteColumn("timestampMs"))
      else if !IsComplete(locations, "latitudeE7") then Failure(IncompleteColumn("latitudeE7"))
      else if !IsComplete(locations, "longitudeE7") then Failure(IncompleteColumn("longitudeE7"))
      else
        Success(seq(|locations|, i requires 0 <= i < |locations| && HasAllFields(locations[i]) =>
          LocationRow(locations[i])))
  }

  // ---------------------------------------------------------------------
  // Deriving the time columns

  /**
   * The UTC calendar columns of epoch-millisecond timestamp ms: a valid
   * date and time of day whose second holds ms, and the display text of
   * those fields.
   */
  function TimeColumnsOf(ms: int): (c: TimeColumns)
    ensures ValidDateTime(c.fields)
    ensures 0 <= ms - EpochMillis(c.fields) < MillisPerSecond
    ensures c.timestampString == TimestampString(c.fields)
  {
    var t := UtcBreakdown(ms);
    TimeColumns(t, TimestampString(t))
  }

  /** The display text of the time columns reads back as their month, day, year, hour and minute. */
  lemma TimeColumnsOfText(ms: int)
    ensures var c := TimeColumnsOf(ms);
      ParseTimestampString(c.timestampString) ==
        Some(ShownFields(c.fields.month, c.fields.day, c.fields.year, c.fields.hour, c.fields.minute))
  {
  }

  /** The time columns of a timestamp are the only valid calendar fields whose second holds it. */
  lemma TimeColumnsOfUnique(ms: int, c: TimeColumns)
    requires ValidDateTime(c.fields)
    requires 0 <= ms - EpochMillis(c.fields) < MillisPerSecond
    requires c.timestampString == TimestampString(c.fields)
    ensures TimeColumnsOf(ms) == c
  {
    UtcBreakdownUnique(ms, c.fields);
  }

  /**
   * 2021-01-01T00:00:00Z shows as "1/1/2021 0:0": no zero padding. The
   * timestamp is a parameter fixed by the precondition rather than a
   * literal, so that the verifier does not evaluate the whole breakdown.
   */
  lemma NewYear2021(ms: int)
    requires ms == 1609459200000
    ensures TimeColumnsOf(ms) == TimeColumns(DateTime(2021, 1, 1, 0, 0, 0), "1/1/2021 0:0")
  {
    NewYear2021Breakdown();
    NewYear2021Text(DateTime(2021, 1, 1, 0, 0, 0));
  }

  lemma NewYear2021Text(t: DateTime)
    requires t == DateTime(2021, 1, 1, 0, 0, 0)
    ensures TimestampString(t) == "1/1/2021 0:0"
  {
    NewYear2021FieldTexts(t);
  }

  lemma NewYear2021FieldTexts(t: DateTime)
    requires t == DateTime(2021, 1, 1, 0, 0, 0)
    ensures IntToString(t.year) == "2021"
    ensures IntToString(t.month) == "1" && IntToString(t.day) == "1"
    ensures IntToString(t.hour) == "0" && IntToString(t.minute) == "0"
  {
    assert NatToString(20) == "20";
    assert NatToString(202) == "202";
  }

  lemma NewYear2021Breakdown()
    ensures UtcBreakdown(1609459200000) == DateTime(2021, 1, 1, 0, 0, 0)
  {
    var t := DateTime(2021, 1, 1, 0, 0, 0);
    assert DaysFromCivil(DateOf(t)) == 18628;
    UtcBreakdownUnique(1609459200000, t);
  }

  /** The row with the time columns of its own timestamp added; the other columns are kept. */
  function WithTimeColumns(row: Row): (r: Row)
    ensures r.time.Some? && r.(time := row.time) == row
    ensures ValidDateTime(r.time.value.fields)
    ensures 0 <= row.timestampMs - EpochMillis(r.time.value.fields) < MillisPerSecond
    ensures r.time.value.timestampString == TimestampString(r.time.value.fields)
  {
    row.(time := Some(TimeColumnsOf(row.timestampMs)))
  }

  /** The row with both coordinates rescaled from E7 fixed point to degrees; the other columns are kept. */
  function WithDegrees(row: Row): (r: Row)
    ensures r.latitudeE7 * E7 == row.latitudeE7 && r.longitudeE7 * E7 == row.longitudeE7
    ensures r.timestampMs == row.timestampMs && r.time == row.time
  {
    row.(latitudeE7 := row.latitudeE7 / E7, longitudeE7 := row.longitudeE7 / E7)
  }

  /**
   * Rescaling is not idempotent: a second pass divides by the factor again,
   * so a row must be rescaled exactly once.
   */
  lemma DegreesNotIdempotent(row: Row)
    requires row.latitudeE7 != 0.0
    ensures WithDegrees(WithDegrees(row)) != WithDegrees(row)
    ensures WithDegrees(WithDegrees(row)).latitudeE7 * E7 * E7 == row.latitudeE7
  {
  }

  /** The coordinates of 37.7749, -122.4194 as the export stores them. */
  lemma CoordinateExample()
    ensures WithDegrees(Row(377749000.0, -1224194000.0, 0, None)).latitudeE7 == 37.7749
    ensures WithDegrees(Row(377749000.0, -1224194000.0, 0, None)).longitudeE7 == -122.4194
  {
  }

  // ---------------------------------------------------------------------
  // The map description handed to the renderer

  datatype Marker = Marker(size: int, color: string, opacity: real)
  datatype Scatter = Scatter(lat: seq<real>, lon: seq<real>, mode: string, text: seq<string>, marker: Marker)
  datatype Centre = Centre(lat: real, lon: real)
  datatype Mapbox = Mapbox(
    accessToken: Option<string>, bearing: int, centre: Centre, pitch: int, zoom: int, style: string)
  datatype Layout = Layout(autosize: bool, height: int, width: int, hovermode: string, mapbox: Mapbox)
  datatype Figure = Figure(scatter: Scatter, layout: Layout)

  /**
   * The position of the record the map is centred on: the middle record of
   * the view, or for an even count the later of the two middle records.
   * It is a position in the view, not a geographic centroid.
   */
  function CentreIndex(n: nat): (i: nat)
    requires n > 0
    ensures i < n
    ensures n - 1 - i <= i <= n - i
  {
    n / 2
  }

  lemma CentreIndexExamples()
    ensures CentreIndex(5) == 2 && CentreIndex(4) == 2 && CentreIndex(1) == 0
  {
  }

  /** The position that CentreIndex picks is the only one that balances the view. */
  lemma CentreIndexUnique(n: nat, i: nat)
    requires 0 < n && i < n
    requires n - 1 - i <= i <= n - i
    ensures CentreIndex(n) == i
  {
  }

  /**
   * s draws one point per row of view, at that row's coordinates and
   * labelled with its display text, in the given mode and marker.
   */
  predicate IsPointLayer(s: Scatter, view: seq<Row>, mode: string, marker: Marker) {
    && |s.lat| == |s.lon| == |s.text| == |view|
    && (forall i :: 0 <= i < |view| ==>
          && s.lat[i] == view[i].latitudeE7
          && s.lon[i] == view[i].longitudeE7
          && view[i].time.Some? && s.text[i] == view[i].time.value.timestampString)
    && s.mode == mode
    && s.marker == marker
  }

  /**
   * l fills the whole figure's width and height, shows the closest point
   * on hover, and looks straight down at zoom 7 on the row of the view at
   * CentreIndex, with the given style and access token.
   */
  predicate IsCentredLayout(l: Layout, view: seq<Row>, height: int, width: int, style: string,
                            mapboxAccessToken: Option<string>)
    requires view != []
  {
    var centreRow := view[CentreIndex(|view|)];
    l == Layout(true, height, width, "closest",
      Mapbox(mapboxAccessToken, 0, Centre(centreRow.latitudeE7, centreRow.longitudeE7), 0, 7, style))
  }

  // ---------------------------------------------------------------------
  // The location-history object

  class MapMe {
    /** The current view: the snapshot, or what the filters since the last ClearFilter left of it. */
    var data: seq<Row>
    /** The snapshot taken at construction; never reassigned. */
    const originalData: seq<Row>
    var fig: Option<Figure>
    var scatterData: Option<Scatter>
    var layout: Option<Layout>

    ghost predicate Valid()
      reads this
    {
      && IsSubsequence(data, originalData)
      && (forall row :: row in originalData ==> row.time.Some?)
      && (forall row :: row in data ==> row.time.Some?)
    }

    /**
     * The rest of construction once the export is loaded: derive the time
     * columns, rescale the coordinates, and keep the result both as the view
     * and as the snapshot.
     */
    constructor (frame: seq<Row>)
      ensures Valid()
      ensures data == originalData && fig.None? && scatterData.None? && layout.None?
      ensures |originalData| == |frame|
      ensures forall i :: 0 <= i < |frame| ==> originalData[i] == WithDegrees(WithTimeColumns(frame[i]))
    {
      var rows := DeriveTimeIntervals(frame);
      rows := FixLatLong(rows);
      data := rows;
      fig := None;
      scatterData := None;
      layout := None;
      originalData := rows;
      new;
      SubsequenceReflexive(rows);
    }

    /**
     * Loads the export and builds the object from it; a failed load
     * produces no object.
     */
    static method Init(doc: Document) returns (r: Result<MapMe, Error>)
      ensures r.Failure? <==> ReadJson(doc).Failure?
      ensures r.Failure? ==> r.error == ReadJson(doc).error
      ensures r.Success? ==> fresh(r.value) && r.value.Valid()
      ensures r.Success? ==> r.value.data == r.value.originalData && r.value.fig.None?
      ensures r.Success? ==> r.value.scatterData.None? && r.value.layout.None?
      ensures r.Success? ==>
        var locations := doc.locations.value;
        && |r.value.originalData| == |locations|
        && forall i :: 0 <= i < |locations| ==>
             r.value.originalData[i] == WithDegrees(WithTimeColumns(LocationRow(locations[i])))
    {
      var frame :- ReadJson(doc);
      var m := new MapMe(frame);
      return Success(m);
    }

    /**
     * Adds the calendar columns and the display text, derived from each
     * row's own timestamp; the other columns are left as they were.
     */
    static method DeriveTimeIntervals(frame: seq<Row>) returns (derived: seq<Row>)
      ensures |derived| == |frame|
      ensures forall i :: 0 <= i < |frame| ==> derived[i] == WithTimeColumns(frame[i])
    {
      derived := seq(|frame|, i requires 0 <= i < |frame| => WithTimeColumns(frame[i]));
    }

    /** Rescales both coordinate columns from E7 fixed point to degrees; nothing else changes. */
    static method FixLatLong(frame: seq<Row>) returns (fixed: seq<Row>)
      ensures |fixed| == |frame|
      ensures forall i :: 0 <= i < |frame| ==> fixed[i] == WithDegrees(frame[i])
    {
      fixed := seq(|frame|, i requires 0 <= i < |frame| => WithDegrees(frame[i]));
    }

    /**
     * Keeps the rows of the view whose mask entry is true. A mask whose
     * length differs from the view's fails with an IndexError and leaves
     * the view as it was.
     */
    method Filter(mask: seq<bool>) returns (outcome: Outcome<Error>)
      requires Valid()
      modifies this`data
      ensures Valid() && IsSubsequence(data, old(data))
      ensures |mask| == old(|data|) ==> outcome == Pass && data == Select(old(data), mask)
      ensures |mask| != old(|data|) ==> outcome == Fail(IndexError) && data == old(data)
    {
      if |mask| != |data| {
        SubsequenceReflexive(data);
        return Fail(IndexError);
      }
      SelectIsSubsequence(data, mask);
      SubsequenceElements(Select(data, mask), data);
      SubsequenceTransitive(Select(data, mask), data, originalData);
      data := Select(data, mask);
      return Pass;
    }

    /** Restores the view to the snapshot, whatever filters came before. */
    method ClearFilter()
      requires Valid()
      modifies this`data
      ensures Valid()
      ensures data == originalData
    {
      data := originalData;
      SubsequenceReflexive(data);
    }

    /** The point layer: one point per row of the view, labelled with its display text. */
    method SetScatterData(mode: string := "markers", markerSize: int := 10,
                          markerColour: string := "rgb(255,0,0)", opacity: real := 0.3)
      requires Valid()
      modifies this`scatterData
      ensures Valid()
      ensures scatterData.Some?
      ensures IsPointLayer(scatterData.value, data, mode, Marker(markerSize, markerColour, opacity))
    {
      var view := data;
      var lat := seq(|view|, i requires 0 <= i < |view| => view[i].latitudeE7);
      var lon := seq(|view|, i requires 0 <= i < |view| => view[i].longitudeE7);
      var text := seq(|view|, i requires 0 <= i < |view| && view[i].time.Some? => view[i].time.value.timestampString);
      scatterData := Some(Scatter(lat, lon, mode, text, Marker(markerSize, markerColour, opacity)));
    }

    /**
     * The map layout, centred on the middle record of the view. An empty
     * view has no record to centre on: IndexError, and the layout is left
     * as it was.
     */
    method SetLayout(height: int := 800, width: int := 1200, style: string := "outdoors",
                     mapboxAccessToken: Option<string> := None) returns (outcome: Outcome<Error>)
      requires Valid()
      modifies this`layout
      ensures Valid()
      ensures data == [] ==> outcome == Fail(IndexError) && layout == old(layout)
      ensures data != [] ==> outcome == Pass && layout.Some?
      ensures data != [] ==> IsCentredLayout(layout.value, data, height, width, style, mapboxAccessToken)
    {
      if |data| == 0 {
        return Fail(IndexError);
      }
      var i := CentreIndex(|data|);
      var centre := Centre(data[i].latitudeE7, data[i].longitudeE7);
      var mapbox := Mapbox(mapboxAccessToken, 0, centre, 0, 7, style);
      layout := Some(Layout(true, height, width, "closest", mapbox));
      return Pass;
    }

    /**
     * Builds the point layer and the layout from the view and keeps the
     * figure made of them. Showing the figure is the renderer's business.
     */
    method PlotMap(mapboxAccessToken: Option<string>, mode: string := "markers", markerSize: int := 10,
                   markerColour: string := "rgb(255,0,0)", opacity: real := 0.3,
                   height: int := 800, width: int := 1200, style: string := "outdoors")
      returns (r: Result<Figure, Error>)
      requires Valid()
      modifies this`scatterData, this`layout, this`fig
      ensures Valid()
      ensures scatterData.Some?
      ensures IsPointLayer(scatterData.value, data, mode, Marker(markerSize, markerColour, opacity))
      ensures data == [] ==> r == Failure(IndexError) && layout == old(layout) && fig == old(fig)
      ensures data != [] ==>
        && layout.Some?
        && IsCentredLayout(layout.value, data, height, width, style, mapboxAccessToken)
        && fig == Some(Figure(scatterData.value, layout.value))
        && r == Success(fig.value)
    {
      SetScatterData(mode := mode, markerSize := markerSize, markerColour := markerColour, opacity := opacity);
      var outcome := SetLayout(height := height, width := width, style := style,
                               mapboxAccessToken := mapboxAccessToken);
      if outcome.Fail? {
        return Failure(outcome.error);
      }
      fig := Some(Figure(scatterData.value, layout.value));
      return Success(fig.value);
    }
  }
}

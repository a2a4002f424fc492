/**
  The script's single pass over the levee rows: each row, in the order the
  database returns them (by start date, end date, then name), is turned into
  a JSON-LD entry, a numbered GeoJSON feature, an HTML table row and a
  calendar event, each appended to its own output.
 */
module LeveesFiles {
  import opened Text
  import opened Levee
  import opened JsonLd
  import opened GeoJson
  import opened Html
  import opened ICalendar

  /** The four documents of one run, before they are serialised. */
  datatype Files = Files(
    jsonLd: seq<Event>,
    geoJson: FeatureCollection,
    html: string,
    calendar: Calendar)

  /** The JSON-LD entries of the first `n` rows, in row order. */
  function JsonLdEntries(rows: seq<Row>, n: nat): (r: seq<Event>)
    requires n <= |rows|
    ensures |r| == n
  {
    if n == 0 then [] else JsonLdEntries(rows, n - 1) + [MakeJsonLd(rows[n - 1])]
  }

  /** The features of the first `n` rows, numbered by a counter that starts
      at 1 and advances once per row, so the last of them is numbered `n`. */
  function Features(rows: seq<Row>, n: nat): (r: seq<Feature>)
    requires n <= |rows|
    ensures |r| == n
  {
    if n == 0 then [] else Features(rows, n - 1) + [MakeGeoJson(rows[n - 1], n)]
  }

  /** The table rows of the first `n` rows, concatenated in row order. */
  function HtmlRows(rows: seq<Row>, n: nat, formatTime: string -> string): string
    requires n <= |rows|
  {
    Flatten(rows, n, row => HtmlRow(row, formatTime))
  }

  /** The calendar events of the first `n` rows, in row order. */
  function CalendarEvents(rows: seq<Row>, n: nat): (r: seq<CalendarEvent>)
    requires n <= |rows|
    ensures |r| == n
  {
    if n == 0 then [] else CalendarEvents(rows, n - 1) + [MakeICalendar(rows[n - 1])]
  }

  /** The k-th JSON-LD entry is built from the k-th row. */
  lemma {:induction false} JsonLdEntriesInOrder(rows: seq<Row>, n: nat)
    requires n <= |rows|
    ensures forall k :: 0 <= k < n ==> JsonLdEntries(rows, n)[k] == MakeJsonLd(rows[k])
  {
    if n > 0 {
      JsonLdEntriesInOrder(rows, n - 1);
    }
  }

  /** The k-th feature (from 0) is built from the k-th row and numbered k + 1. */
  lemma {:induction false} FeaturesNumbered(rows: seq<Row>, n: nat)
    requires n <= |rows|
    ensures forall k :: 0 <= k < n ==> Features(rows, n)[k] == MakeGeoJson(rows[k], k + 1)
  {
    if n > 0 {
      FeaturesNumbered(rows, n - 1);
    }
  }

  /** The k-th calendar event is built from the k-th row. */
  lemma {:induction false} CalendarEventsInOrder(rows: seq<Row>, n: nat)
    requires n <= |rows|
    ensures forall k :: 0 <= k < n ==> CalendarEvents(rows, n)[k] == MakeICalendar(rows[k])
  {
    if n > 0 {
      CalendarEventsInOrder(rows, n - 1);
    }
  }

  /** What one run produces from `rows`. The GeoJSON collection is typed
      after the pass, and the HTML document is the header, the rows and the
      closing tags. */
  function LeveesOutput(rows: seq<Row>, formatTime: string -> string): Files {
    Files(
      JsonLdEntries(rows, |rows|),
      FeatureCollection("FeatureCollection", Features(rows, |rows|)),
      HtmlHeader + HtmlRows(rows, |rows|, formatTime) + HtmlFooter,
      Calendar(ProdId, CalendarEvents(rows, |rows|)))
  }

  /** The script's main loop: appends each row's entry to the four outputs
      and advances the marker counter once per row. */
  method MakeLeveesFiles(rows: seq<Row>, formatTime: string -> string) returns (files: Files)
    ensures files == LeveesOutput(rows, formatTime)
  {
    var jsonLd: seq<Event> := [];
    var features: seq<Feature> := [];
    var html: string := "";
    var events: seq<CalendarEvent> := [];
    var counter: nat := 1;
    var i := 0;
    while i < |rows|
      invariant 0 <= i <= |rows|
      invariant counter == i + 1
      invariant jsonLd == JsonLdEntries(rows, i)
      invariant features == Features(rows, i)
      invariant html == HtmlRows(rows, i, formatTime)
      invariant events == CalendarEvents(rows, i)
    {
      var row := rows[i];
      jsonLd := jsonLd + [MakeJsonLd(row)];
      features := features + [MakeGeoJson(row, counter)];
      var tr := MakeHtml(row, formatTime);
      html := html + tr;
      events := events + [MakeICalendar(row)];
      counter := counter + 1;
      i := i + 1;
    }
    var geoJson := FeatureCollection("FeatureCollection", features);
    files := Files(jsonLd, geoJson, HtmlHeader + html + HtmlFooter, Calendar(ProdId, events));
  }

  /** The collection is a FeatureCollection, with exactly one feature per row
      and marker symbols 1, 2, ..., N in row order, with no gap. */
  lemma MarkerSymbolsOneToN(rows: seq<Row>, formatTime: string -> string)
    ensures LeveesOutput(rows, formatTime).geoJson.typ == "FeatureCollection"
    ensures |LeveesOutput(rows, formatTime).geoJson.features| == |rows|
    ensures forall k :: 0 <= k < |rows| ==>
      LeveesOutput(rows, formatTime).geoJson.features[k].properties.markerSymbol == k + 1
  {
    FeaturesNumbered(rows, |rows|);
  }

  /** In the HTML rows, the markup of the first k rows is followed by that of
      row k, for every k: each row's markup appears once, in row order. */
  lemma HtmlRowAt(rows: seq<Row>, formatTime: string -> string, k: nat)
    requires k < |rows|
    ensures StartsWith(HtmlRows(rows, |rows|, formatTime),
                       HtmlRows(rows, k, formatTime) + HtmlRow(rows[k], formatTime))
  {
    FlattenStartsWith(rows, row => HtmlRow(row, formatTime), k, |rows|);
  }

  /** Each of JSON-LD, GeoJSON and the calendar has exactly one entry per row,
      and the k-th entry of each reads back as the k-th row (the k-th feature
      with marker number k + 1): the three outputs agree with the input and
      with one another, entry by entry. The calendar read-back needs a
      latitude without commas, since the geo text joins the two coordinates
      with one. */
  lemma OutputsReadBack(rows: seq<Row>, formatTime: string -> string, k: nat)
    requires k < |rows|
    ensures var out := LeveesOutput(rows, formatTime);
      && |out.jsonLd| == |rows| && |out.geoJson.features| == |rows| && |out.calendar.components| == |rows|
      && ReadEvent(out.jsonLd[k], rows[k].accessible) == Some(rows[k])
      && ReadFeature(out.geoJson.features[k], rows[k].locationName, rows[k].accessible) == Some((rows[k], k + 1))
      && (',' !in rows[k].latitude ==>
            ReadCalendarEvent(out.calendar.components[k], rows[k].accessible) == Some(rows[k]))
  {
    var out := LeveesOutput(rows, formatTime);
    JsonLdEntriesInOrder(rows, |rows|);
    FeaturesNumbered(rows, |rows|);
    CalendarEventsInOrder(rows, |rows|);
    EventRoundTrip(out.jsonLd[k], rows[k]);
    FeatureRoundTrip(out.geoJson.features[k], rows[k], k + 1);
    if ',' !in rows[k].latitude {
      CalendarEventRoundTrip(out.calendar.components[k], rows[k]);
    }
  }

  /** The JSON-LD name, the GeoJSON name and the calendar summary of the k-th
      entry are the same text: the k-th row's name followed by the fixed
      suffix; and the JSON-LD geo coordinates and the GeoJSON position agree. */
  lemma NamesAndPositionsAgree(rows: seq<Row>, formatTime: string -> string, k: nat)
    requires k < |rows|
    ensures var out := LeveesOutput(rows, formatTime);
      && out.jsonLd[k].name == out.geoJson.features[k].properties.name == out.calendar.components[k].summary
      && StripSuffix(out.jsonLd[k].name, LeveeSuffix) == Some(rows[k].name)
      && Position(out.geoJson.features[k])
         == Some((out.jsonLd[k].location.geo.latitude, out.jsonLd[k].location.geo.longitude))
  {
    JsonLdEntriesInOrder(rows, |rows|);
    FeaturesNumbered(rows, |rows|);
    CalendarEventsInOrder(rows, |rows|);
  }
}

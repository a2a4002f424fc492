# Levees: one table, four files

A model of `make-levees-files.php`, the script that reads the `levees` table
(New Year's Day open houses, one row per host) and writes the same list four
ways: a schema.org JSON-LD document, a GeoJSON FeatureCollection for a map,
an HTML table, and an iCalendar file.

The script makes one pass over the rows in the order the database returns
them (by start date, then end date, then name). For every row it appends a
schema.org Event, a GeoJSON Feature numbered by a running `marker-symbol`
counter, an HTML table row and a calendar event to four separate outputs.
After the pass the GeoJSON object gets its `type`, and the HTML file is
written as the table header, the rows, and the closing tags.

Layout:

- `text.dfy` (module `Text`): `Option`, prefixes and suffixes, cutting a
  string at its first separator, and `Flatten`, the in-order concatenation
  of per-element texts.
- `levee.dfy` (module `Levee`): the `Row` datatype and the event name
  shared by three formats (`name` followed by `" 2016 New Years Levee"`).
- `jsonld.dfy` (module `JsonLd`): `makeJSONLD` as `MakeJsonLd`, and a
  reader `ReadEvent`.
- `geojson.dfy` (module `GeoJson`): `makeGeoJSON` as `MakeGeoJson`, the
  GeoJSON position reader `Position` (longitude first, section 3.1.1 of
  RFC 7946) and a feature reader `ReadFeature`.
- `html.dfy` (module `Html`): `makeHTMLheader` as the constant
  `HtmlHeader`, the closing tags `HtmlFooter`, the OpenStreetMap link and
  its reader, `makeHTML` as the function `HtmlRow` and the method
  `MakeHtml`, which builds the row by successive appends the way the script
  does, and a reader for the accessibility cell.
- `icalendar.dfy` (module `ICalendar`): the values `makeICalendar` hands to
  the calendar library, as `MakeICalendar`, and a reader.
- `pipeline.dfy` (module `LeveesFiles`): the main loop as the method
  `MakeLeveesFiles`, specified by the function `LeveesOutput`. That function
  is a fold over the rows, in the loop's order.

JSON-LD, GeoJSON and the calendar each have a reader that takes an entry
apart the way a consumer of that format would. Round-trip lemmas state that
an entry reads back as a row exactly when it is the entry built from that
row. Fields an entry does not carry (`accessible`, and the location name in
GeoJSON) are supplied to the reader. An HTML row cannot be read back as a
row: it omits the location name and shows formatted times rather than the
date text. Its map link reads back as a position (`OsmLinkRoundTrip`) and
its last cell as the accessible flag (`AccessibleCellReadBack`).

The script renders start and end times with `strftime("%l:%M %p",
strtotime(date))` under the process-wide time zone `America/Halifax`. The
model takes this rendering as a parameter, `formatTime: string -> string`.

What the script writes, and so what the model writes:

- The script filters nothing. Every row goes into every output, and the
  marker counter advances on every row (line 76).
- Table cells carry fixed `class` attributes only (`levee_name`,
  `levee_address`, `levee_start`, `levee_end`, `levee_accessible`). None is
  taken from a row's columns.
- A GeoJSON feature's properties are `name`, `address`, `startDate`,
  `endDate` and `marker-symbol`. The location name is not among them.
- An HTML row has five cells: name with map link, address, start, end and
  accessible.
- A calendar event's location is the place name, a line break and the
  address, and its location title is the place name again.

## Model

| member | source | states |
|---|---|---|
| Levee.LeveeName | make-levees-files.php:119 | The event name ends with the fixed suffix `" 2016 New Years Levee"`, and removing that suffix gives back the row's name. |
| JsonLd.EventRoundTrip | make-levees-files.php:115-131 | An entry reads back as a row exactly when it is `MakeJsonLd` of that row. So the entry is an `Event` with `@context` `http://schema.org`. Its name is the row name plus the suffix. Start and end dates are copied unchanged. The location is a `Place` with the row's location name and address. That Place's `geo` is a `GeoCoordinates` with the row's latitude and longitude unchanged. |
| GeoJson.FeaturePosition | make-levees-files.php:137-138 | A feature's position, read in GeoJSON order (longitude first), is the row's own latitude and longitude. So the script writes the coordinates as `[longitude, latitude]`. |
| GeoJson.FeatureRoundTrip | make-levees-files.php:133-146 | A feature reads back as a row and number `n` exactly when it is `MakeGeoJson(row, n)`. So it is a `Feature` with a `Point` geometry. Its `name` is the row name plus the suffix. `address` is the location address. The dates are copied. `marker-symbol` is `n`. |
| Html.OsmLinkRoundTrip | make-levees-files.php:157 | The name cell's link is an OpenStreetMap search. Its query is `latitude,longitude` and its anchor is `#map=19/latitude/longitude`. A link reads back as a position exactly when it is the link built for that position (given a latitude without commas and coordinates without `#`). |
| Html.MakeHtml | make-levees-files.php:152-169 | Building the row by successive appends to an empty string gives exactly the row markup `HtmlRow`. |
| Html.HtmlRowFraming | make-levees-files.php:156-167 | Every table row starts with `"\t\t<tr>\n"` and ends with the accessibility cell followed by `"\t\t</tr>\n"`. |
| Html.AccessibleCellReadBack | make-levees-files.php:161-166 | The last cell of a row reads `Yes` when the row is accessible and `No` when it is not. |
| ICalendar.CalendarEventRoundTrip | make-levees-files.php:171-180 | A calendar event reads back as a row exactly when it is `MakeICalendar` of that row (given a latitude without commas, as the geo text joins the coordinates with one). The address is what follows the location title and a line break in the location, so any place name reads back. So the event is timed and zoned. Its summary is the row name plus the suffix. Its location is the place name and the address, separated by a newline. Its location title is the place name. Its geo string is `latitude,longitude`. Its start and end are the row's date text. |
| LeveesFiles.JsonLdEntriesInOrder | make-levees-files.php:61-64 | The k-th JSON-LD entry is built from the k-th row, with one entry per row (the length is promised by `JsonLdEntries` itself). |
| LeveesFiles.FeaturesNumbered | make-levees-files.php:56-76 | The k-th feature, counting from 0, is built from the k-th row with counter value k + 1. |
| LeveesFiles.CalendarEventsInOrder | make-levees-files.php:61-77 | The k-th calendar event is built from the k-th row. |
| LeveesFiles.MakeLeveesFiles | make-levees-files.php:56-91 | The loop, the `FeatureCollection` typing after it, and the HTML assembly produce exactly `LeveesOutput`. That is: the JSON-LD entries, the typed feature collection, the header followed by the rows in order and then `"\t</tbody>\n</table>\n"`, and the calendar `ruk.ca/levee-2016` with the events in order. |
| LeveesFiles.MarkerSymbolsOneToN | make-levees-files.php:56-80 | The GeoJSON object is a `FeatureCollection` with one feature per row. The marker symbols are 1, 2, ..., N in row order, with no gap. |
| LeveesFiles.HtmlRowAt | make-levees-files.php:70 | For every k, the HTML rows begin with the markup of the first k rows followed by the markup of row k. So each row appears in row order. |
| LeveesFiles.OutputsReadBack | make-levees-files.php:61-77 | JSON-LD, GeoJSON and the calendar each hold exactly as many entries as there are rows. The k-th JSON-LD entry reads back as the k-th row, and the k-th feature reads back as the k-th row with marker number k + 1, for every row. The k-th calendar event reads back as the k-th row whenever that row's latitude has no comma. |
| LeveesFiles.NamesAndPositionsAgree | make-levees-files.php:115-177 | For each row, the JSON-LD name, the GeoJSON name and the calendar summary are the same text: the row's name plus the fixed suffix. The JSON-LD coordinates and the GeoJSON position are the same. |

## Left out

- The SQLite query. The rows are the input sequence, already in the database's order (start date, end date, name); the model does not sort them.
- Opening, writing and closing the four files, and `json_encode(..., JSON_PRETTY_PRINT)`. The model produces the structured values and the HTML text, not the bytes written.
- The eluceo iCal library. The `Calendar` object and `addComponent` are modelled as a value holding a sequence of events. `render()` and the VEVENT text it produces are not part of this model.
- Time handling. `date_default_timezone_set`, `strtotime` and `strftime` are the `formatTime` parameter. `new \DateTime(...)` is not modelled, so a calendar event's start and end hold the row's date text unparsed. An unparsable date, which makes `DateTime` throw, is therefore not modelled.
- PHP truthiness of the `accessible` column. It is a `bool` in the model.
- Column types. Latitude and longitude are kept as text. The script copies numeric columns as numbers into JSON, which the model does not distinguish.
- The accumulators start as `''` in the script, not as empty arrays. Before PHP 7.1, PHP turns an empty string into an array on the first `[]` append. From PHP 7.1 the script stops at line 64 with "[] operator not supported for strings". The model follows PHP before 7.1 and starts both as empty sequences. With no rows at all the script would write `""` as the JSON-LD document rather than `[]`, and the GeoJSON object would have no `features` member; the model gives an empty sequence for both.
- `vendor/composer/autoload_static.php` is a generated class loader with no part in the output. It is not part of this model.

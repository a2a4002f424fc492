/**
  The schema.org structured-data entry built for each levee (`makeJSONLD`):
  an Event whose location is a Place whose `geo` is a GeoCoordinates.
  The `@context` and `@type` members are kept as fields so that a reader
  can check them.
 */
module JsonLd {
  import opened Text
  import opened Levee

  const SchemaOrg: string := "http://schema.org"

  datatype GeoCoordinates = GeoCoordinates(typ: string, latitude: string, longitude: string)

  datatype Place = Place(typ: string, name: string, address: string, geo: GeoCoordinates)

  datatype Event = Event(
    context: string,
    typ: string,
    name: string,
    startDate: string,
    endDate: string,
    location: Place)

  function MakeJsonLd(row: Row): Event {
    Event(SchemaOrg, "Event", LeveeName(row.name), row.startDate, row.endDate,
      Place("Place", row.locationName, row.locationAddress,
        GeoCoordinates("GeoCoordinates", row.latitude, row.longitude)))
  }

  /** Reads a levee back out of a schema.org entry, the way a consumer of the
      JSON-LD would: the entry must be an Event at a Place with
      GeoCoordinates, and its name must carry the levee suffix. The entry has
      no accessibility information, so the reader supplies that flag. */
  function ReadEvent(e: Event, accessible: bool): Option<Row> {
    if e.context == SchemaOrg && e.typ == "Event"
       && e.location.typ == "Place" && e.location.geo.typ == "GeoCoordinates"
    then
      match StripSuffix(e.name, LeveeSuffix)
      case None => None
      case Some(name) =>
        Some(Row(name, e.startDate, e.endDate, e.location.name, e.location.address,
                 e.location.geo.latitude, e.location.geo.longitude, accessible))
    else None
  }

  /** The JSON-LD entry carries every field of the row except `accessible`,
      unchanged and in the schema.org places: reading an entry gives back a
      row exactly when the entry is the one built from that row. */
  lemma EventRoundTrip(e: Event, row: Row)
    ensures ReadEvent(e, row.accessible) == Some(row) <==> e == MakeJsonLd(row)
  {
  }
}

/**
  The GeoJSON Feature built for each levee (`makeGeoJSON`) and the
  FeatureCollection that gathers them.
 */
module GeoJson {
  import opened Text
  import opened Levee

  datatype Point = Point(typ: string, coordinates: seq<string>)

  datatype Properties = Properties(
    name: string,
    address: string,
    startDate: string,
    endDate: string,
    markerSymbol: nat)

  datatype Feature = Feature(typ: string, geometry: Point, properties: Properties)

  /** The collection gets its `type` only after every feature is in. */
  datatype FeatureCollection = FeatureCollection(typ: string, features: seq<Feature>)

  /** The feature for `row`, numbered `counter` on the map. GeoJSON lists a
      position longitude first. The feature carries the location address but
      not the location name. */
  function MakeGeoJson(row: Row, counter: nat): Feature {
    Feature("Feature",
      Point("Point", [row.longitude, row.latitude]),
      Properties(LeveeName(row.name), row.locationAddress, row.startDate, row.endDate, counter))
  }

  /** The (latitude, longitude) of a point feature, reading its coordinates in
      GeoJSON order: longitude first, then latitude (section 3.1.1 of RFC 7946). */
  function Position(f: Feature): Option<(string, string)> {
    if f.geometry.typ == "Point" && |f.geometry.coordinates| == 2 then
      Some((f.geometry.coordinates[1], f.geometry.coordinates[0]))
    else None
  }

  /** Reads a levee and its marker number back out of a feature. The feature
      has neither the location name nor the accessibility flag, so the reader
      supplies both. */
  function ReadFeature(f: Feature, locationName: string, accessible: bool): Option<(Row, nat)> {
    if f.typ != "Feature" then None
    else
      match (Position(f), StripSuffix(f.properties.name, LeveeSuffix))
      case (Some((lat, lon)), Some(name)) =>
        Some((Row(name, f.properties.startDate, f.properties.endDate, locationName,
                  f.properties.address, lat, lon, accessible),
              f.properties.markerSymbol))
      case _ => None
  }

  /** A feature is a Point at the row's latitude and longitude, read in
      GeoJSON order (longitude first). */
  lemma FeaturePosition(row: Row, counter: nat)
    ensures Position(MakeGeoJson(row, counter)) == Some((row.latitude, row.longitude))
  {
  }

  /** Reading a feature gives back a row and a marker number exactly when the
      feature is the one built from that row with that number. */
  lemma FeatureRoundTrip(f: Feature, row: Row, counter: nat)
    ensures ReadFeature(f, row.locationName, row.accessible) == Some((row, counter))
            <==> f == MakeGeoJson(row, counter)
  {
  }
}

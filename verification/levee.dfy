/**
  One levee as it comes out of the `levees` table, and the event name that
  every structured output derives from it.
 */
module Levee {
  import opened Text

  /** The columns of a `levees` row that the script reads. Dates and
      coordinates are kept as the text they are copied or pasted as. */
  datatype Row = Row(
    name: string,
    startDate: string,
    endDate: string,
    locationName: string,
    locationAddress: string,
    latitude: string,
    longitude: string,
    accessible: bool)

  /** The fixed year-and-occasion suffix of every event name. */
  const LeveeSuffix: string := " 2016 New Years Levee"

  /** A row's name as the JSON-LD event name, the GeoJSON `name` property
      and the calendar summary: the row's name, then the fixed suffix. */
  function LeveeName(name: string): (r: string)
    ensures EndsWith(r, LeveeSuffix)
    ensures StripSuffix(r, LeveeSuffix) == Some(name)
  {
    StripSuffixOfJoin(name, LeveeSuffix);
    name + LeveeSuffix
  }
}

/**
  The calendar event built for each levee (`makeICalendar`) and the calendar
  that holds them. Only the values the script hands to the calendar library
  are modelled: the start and end text, the all-day and time-zone switches,
  the summary and the three location arguments.
 */
module ICalendar {
  import opened Text
  import opened Levee

  /** The product identifier the calendar is created with. */
  const ProdId: string := "ruk.ca/levee-2016"

  datatype CalendarEvent = CalendarEvent(
    dtStart: string,
    dtEnd: string,
    noTime: bool,
    summary: string,
    location: string,
    locationTitle: string,
    locationGeo: string,
    useTimezone: bool)

  datatype Calendar = Calendar(prodId: string, components: seq<CalendarEvent>)

  /** A timed (not all-day) event in the configured zone, named after the
      levee, located at the place name and address on two lines, titled with
      the place name, with the geo position `latitude,longitude`. */
  function MakeICalendar(row: Row): CalendarEvent {
    CalendarEvent(row.startDate, row.endDate, false, LeveeName(row.name),
      row.locationName + "\n" + row.locationAddress, row.locationName,
      row.latitude + "," + row.longitude, true)
  }

  /** Reads a levee back out of a calendar event: the location must open with
      the location title and a line break, the rest of it is the address, and
      the geo position is cut at its first comma. The reader supplies the
      accessibility flag, which the event does not carry. */
  function ReadCalendarEvent(ev: CalendarEvent, accessible: bool): Option<Row> {
    if ev.noTime || !ev.useTimezone then None
    else
      match (StripSuffix(ev.summary, LeveeSuffix), StripPrefix(ev.location, ev.locationTitle + "\n"),
             SplitAt(ev.locationGeo, ','))
      case (Some(name), Some(address), Some((latitude, longitude))) =>
        Some(Row(name, ev.dtStart, ev.dtEnd, ev.locationTitle, address, latitude, longitude, accessible))
      case _ => None
  }

  /** For a row whose latitude has no comma, reading a calendar event gives
      back the row exactly when the event is the one built from it. */
  lemma CalendarEventRoundTrip(ev: CalendarEvent, row: Row)
    requires ',' !in row.latitude
    ensures ReadCalendarEvent(ev, row.accessible) == Some(row) <==> ev == MakeICalendar(row)
  {
    if ev == MakeICalendar(row) {
      StripPrefixOfJoin(row.locationName + "\n", row.locationAddress);
      assert ev.locationGeo == row.latitude + [','] + row.longitude;
      SplitJoin(row.latitude, ',', row.longitude);
    }
    if ReadCalendarEvent(ev, row.accessible) == Some(row) {
      assert ev.summary == LeveeName(row.name);
      assert ev.location == row.locationName + "\n" + row.locationAddress;
      assert ev.locationGeo == row.latitude + "," + row.longitude;
    }
  }
}

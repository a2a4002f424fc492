/**
  The HTML listing: a fixed table header (`makeHTMLheader`), one table row
  per levee (`makeHTML`) and the closing tags written after the rows.
  Row markup is pasted together from the row's text without escaping.
 */
module Html {
  import opened Text
  import opened Levee

  /** The table opening and its header row: Organization, Location, Starts,
      Ends and an accessibility column headed by the wheelchair symbol. */
  const HtmlHeader: string :=
    "<table class='levees datatable'>\n\t<tbody>\n\t\t<tr>\n"
    + "\t\t\t<th class='levee_name'>Organization</th>\n"
    + "\t\t\t<th class='levee_address'>Location</th>\n"
    + "\t\t\t<th class='levee_start'>Starts</th>\n"
    + "\t\t\t<th class='levee_end'>Ends</th>\n"
    + "\t\t\t<th class='levee_accessible'>\U{267F}<span class='levee_accessible_title'> Accessible</span></th>\n"
    + "\t\t</tr>\n"

  /** Written after the last row. */
  const HtmlFooter: string := "\t</tbody>\n</table>\n"

  const RowOpen: string := "\t\t<tr>\n"
  const RowClose: string := "\t\t</tr>\n"

  const OsmSearch: string := "http://www.openstreetmap.org/search?query="

  /** The OpenStreetMap search link of a levee: `latitude,longitude` as the
      query, and a zoom-19 map anchor at `latitude/longitude`. */
  function OsmLink(latitude: string, longitude: string): string {
    OsmSearch + OsmQuery(latitude, longitude) + "#" + OsmAnchor(latitude, longitude)
  }

  function OsmQuery(latitude: string, longitude: string): string {
    latitude + "," + longitude
  }

  function OsmAnchor(latitude: string, longitude: string): string {
    "map=19/" + latitude + "/" + longitude
  }

  /** The (latitude, longitude) a search link was made for: the query is cut
      at its first comma, and the map anchor must name the same position. */
  function ReadOsmLink(url: string): Option<(string, string)> {
    match StripPrefix(url, OsmSearch)
    case None => None
    case Some(rest) =>
      match SplitAt(rest, '#')
      case None => None
      case Some((query, anchor)) =>
        match SplitAt(query, ',')
        case None => None
        case Some((latitude, longitude)) =>
          if anchor == OsmAnchor(latitude, longitude) then Some((latitude, longitude))
          else None
  }

  /** A link built from a latitude without commas and coordinates without
      `#` leads back to that latitude and longitude, and a link that reads as
      a position is the link built from it. */
  lemma OsmLinkRoundTrip(url: string, latitude: string, longitude: string)
    requires ',' !in latitude && '#' !in latitude && '#' !in longitude
    ensures ReadOsmLink(url) == Some((latitude, longitude)) <==> url == OsmLink(latitude, longitude)
  {
    var query := OsmQuery(latitude, longitude);
    var anchor := OsmAnchor(latitude, longitude);
    var rest := query + ['#'] + anchor;
    assert OsmLink(latitude, longitude) == OsmSearch + rest;
    if url == OsmLink(latitude, longitude) {
      StripPrefixOfJoin(OsmSearch, rest);
      assert query == latitude + [','] + longitude;
      SplitJoin(query, '#', anchor);
      SplitJoin(latitude, ',', longitude);
    }
    if ReadOsmLink(url) == Some((latitude, longitude)) {
      var r := StripPrefix(url, OsmSearch).value;
      var (q, a) := SplitAt(r, '#').value;
      assert q == latitude + [','] + longitude == query;
      assert a == anchor;
      assert r == rest;
    }
  }

  function NameCell(row: Row): string {
    "\t\t\t<td class=\"levee_name\"><a href=\"" + OsmLink(row.latitude, row.longitude) + "\">"
    + row.name + "</a></td>\n"
  }

  function AddressCell(row: Row): string {
    "\t\t\t<td class=\"levee_address\">" + row.locationAddress + "</td>\n"
  }

  function StartCell(start: string): string {
    "\t\t\t<td class=\"levee_start\">" + start + "</td>\n"
  }

  function EndCell(end: string): string {
    "\t\t\t<td class=\"levee_end\">" + end + "</td>\n"
  }

  const YesCell: string := "\t\t\t<td class=\"levee_accessible\">Yes</td>\n"
  const NoCell: string := "\t\t\t<td class=\"levee_accessible\">No</td>\n"

  function AccessibleCell(accessible: bool): string {
    if accessible then YesCell else NoCell
  }

  /** The table row of a levee. `formatTime` stands for rendering a stored
      date as a local "hour:minutes AM/PM" time of day. */
  function HtmlRow(row: Row, formatTime: string -> string): string {
    RowOpen + NameCell(row) + AddressCell(row)
    + StartCell(formatTime(row.startDate)) + EndCell(formatTime(row.endDate))
    + AccessibleCell(row.accessible) + RowClose
  }

  /** Builds the row by appending one line after another. */
  method MakeHtml(row: Row, formatTime: string -> string) returns (tmp: string)
    ensures tmp == HtmlRow(row, formatTime)
  {
    tmp := "";
    tmp := tmp + RowOpen;
    assert tmp == RowOpen;
    tmp := tmp + NameCell(row);
    tmp := tmp + AddressCell(row);
    tmp := tmp + StartCell(formatTime(row.startDate));
    tmp := tmp + EndCell(formatTime(row.endDate));
    if row.accessible {
      tmp := tmp + YesCell;
    } else {
      tmp := tmp + NoCell;
    }
    tmp := tmp + RowClose;
  }

  /** The accessibility answer of a table row, read from its last cell. */
  function ReadAccessible(html: string): Option<bool> {
    if EndsWith(html, YesCell + RowClose) then Some(true)
    else if EndsWith(html, NoCell + RowClose) then Some(false)
    else None
  }

  /** Every row opens with `<tr>` on its own line and closes with `</tr>`
      right after the accessibility cell. */
  lemma HtmlRowFraming(row: Row, formatTime: string -> string)
    ensures StartsWith(HtmlRow(row, formatTime), RowOpen)
    ensures EndsWith(HtmlRow(row, formatTime), AccessibleCell(row.accessible) + RowClose)
  {
  }

  /** The accessible cell of a row reads `Yes` when the levee is accessible
      and `No` when it is not. */
  lemma AccessibleCellReadBack(row: Row, formatTime: string -> string)
    ensures ReadAccessible(HtmlRow(row, formatTime)) == Some(row.accessible)
  {
    HtmlRowFraming(row, formatTime);
    var h := HtmlRow(row, formatTime);
    if !row.accessible {
      var yes := YesCell + RowClose;
      var no := NoCell + RowClose;
      assert h[|h| - |no|..] == no;
      assert h[|h| - 15] == no[|no| - 15] == 'o';
      assert yes[|yes| - 15] == 's';
      if EndsWith(h, yes) {
        assert false;
      }
    }
  }
}

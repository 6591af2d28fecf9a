/** The spreadsheet the booking script writes to, reduced to what the script
    relies on: a list of rows that `append_row` extends or, when it raises,
    leaves alone; and the reading of a stored booking's Date and Time cells. */
module Store {

  import opened Wrappers
  import opened Text
  import opened Calendar
  import opened Availability

  type Row = seq<string>

  /** The sheet's columns, in the order the script fills them. */
  function Columns(): seq<string> {
    ["Name", "Email", "Phone", "Service", "Date", "Time", "Price"]
  }

  const DATE_COLUMN: nat := 4
  const TIME_COLUMN: nat := 5

  /** Whether a call to `append_row` returned normally or raised. */
  datatype AppendResponse = Appended | Raised

  /** The sheet's data rows, below its header. */
  class Sheet {

    var rows: seq<Row>

    constructor (initial: seq<Row>)
      ensures rows == initial
    {
      rows := initial;
    }

    /** `sheet.append_row(values)`: one atomic append, or nothing when the
        call raises. */
    method AppendRow(values: Row, response: AppendResponse) returns (ok: bool)
      modifies this
      ensures ok <==> response == Appended
      ensures rows == if ok then old(rows) + [values] else old(rows)
    {
      ok := response == Appended;
      if ok {
        rows := rows + [values];
      }
    }
  }

  /** Lines 78-79 of the script for the cell forms the script itself writes:
      `strip("'")` on the Date and Time cells, then `YYYY-MM-DD` and `HH:MM`.
      `None` for a row these forms do not cover. */
  function ReadSlot(row: Row): (r: Option<BookedSlot>)
    ensures r.Some? ==> ValidDate(r.value.date)
    ensures r.Some? ==> |row| > TIME_COLUMN
    ensures r.Some? ==> FormatTime(r.value.time) == Strip(row[TIME_COLUMN], '\'')
    ensures r.Some? ==> FormatDate(r.value.date) == Strip(row[DATE_COLUMN], '\'')
  {
    if |row| <= TIME_COLUMN then None
    else
      match (ParseDate(Strip(row[DATE_COLUMN], '\'')), ParseTime(Strip(row[TIME_COLUMN], '\'')))
      case (Some(d), Some(t)) =>
        DateText(Strip(row[DATE_COLUMN], '\''));
        TimeText(Strip(row[TIME_COLUMN], '\''));
        Some(BookedSlot(d, t))
      case _ => None
  }

}

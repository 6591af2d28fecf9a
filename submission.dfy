/** The booking form of the script: the check that every detail was given,
    the `booking_details` record and the row made from it, and the
    per-session "booking submitted" flag that allows one booking per session. */
module Submission {

  import opened Wrappers
  import opened Text
  import opened Calendar
  import opened Availability
  import opened Catalog
  import opened Store

  /** What the customer typed into the form, as typed: nothing is trimmed. */
  datatype Contact = Contact(name: string, email: string, phone: string)

  /** How `if name and email and phone and time_selected:` comes out. */
  datatype Check =
    | Complete(time: string)
      /** some detail is the empty string (Python's falsy) */
    | Incomplete
      /** all three details given but no slot was ever offered, so the name
          `time_selected` is unbound and evaluating it raises `NameError` */
    | SlotUnbound

  /** Line 168, with Python's left-to-right short-circuit: `time_selected` is
      only looked at once name, email and phone are all non-empty. */
  function CheckDetails(contact: Contact, slot: Option<string>): (c: Check)
    ensures c.Complete? <==> contact.name != "" && contact.email != "" && contact.phone != "" && slot.Some? && slot.value != ""
    ensures c.Complete? ==> slot == Some(c.time)
    ensures c.SlotUnbound? <==> contact.name != "" && contact.email != "" && contact.phone != "" && slot.None?
  {
    if contact.name == "" || contact.email == "" || contact.phone == "" then Incomplete
    else if slot.None? then SlotUnbound
    else if slot.value == "" then Incomplete
    else Complete(slot.value)
  }

  /** `f"${price}"`. */
  function PriceText(price: nat): string {
    "$" + Decimal(price)
  }

  /** Reads a price cell back: a dollar sign before a run of digits. */
  function ParsePrice(cell: string): Option<nat> {
    if cell != [] && cell[0] == '$' then ParseNat(cell[1..]) else None
  }

  /** The `booking_details` dictionary of lines 169-177: column name and value,
      in insertion order. */
  function BookingDetails(contact: Contact, service: Service, date: Date, time: string): (fields: seq<(string, string)>)
    ensures |fields| == |Columns()|
    ensures forall i :: 0 <= i < |fields| ==> fields[i].0 == Columns()[i]
  {
    [
      ("Name", contact.name),
      ("Email", contact.email),
      ("Phone", contact.phone),
      ("Service", service.name),
      ("Date", FormatDate(date)),
      ("Time", time),
      ("Price", PriceText(service.price))
    ]
  }

  /** `list(booking_details.values())`, the row handed to `append_row`. */
  function BookingRow(contact: Contact, service: Service, date: Date, time: string): Row {
    var fields := BookingDetails(contact, service, date, time);
    seq(|fields|, i requires 0 <= i < |fields| => fields[i].1)
  }

  /** The row has the seven columns in the sheet's order; its date, time and
      price read back as the selected date, slot and catalog price. */
  lemma RowShape(contact: Contact, service: Service, date: Date, time: string)
    requires ValidDate(date)
    ensures var row := BookingRow(contact, service, date, time);
      && |row| == |Columns()| == 7
      && row[0] == contact.name && row[1] == contact.email && row[2] == contact.phone
      && row[3] == service.name && row[TIME_COLUMN] == time
      && ParseDate(row[DATE_COLUMN]) == Some(date)
      && ParsePrice(row[6]) == Some(service.price)
  {
    var row := BookingRow(contact, service, date, time);
    DateRoundTrip(date);
    DecimalValue(service.price);
    assert row[6][1..] == Decimal(service.price);
  }

  /** Reading the row of a booking back gives its date and slot. */
  lemma RowReadsBack(contact: Contact, service: Service, date: Date, t: Time)
    requires ValidDate(date)
    ensures ReadSlot(BookingRow(contact, service, date, FormatTime(t))) == Some(BookedSlot(date, t))
  {
    var row := BookingRow(contact, service, date, FormatTime(t));
    var d, h := FormatDate(date), FormatTime(t);
    assert row[DATE_COLUMN] == d && row[TIME_COLUMN] == h;
    assert d[..4][0] == d[0] && d[8..][1] == d[9];
    assert h[..2][0] == h[0] && h[3..][1] == h[4];
    StripUnchanged(d, '\'');
    StripUnchanged(h, '\'');
    DateRoundTrip(date);
    TimeRoundTrip(t);
  }

  /** Once the script has written a booking for slot `t` and the sheet is read
      again, the resolver no longer offers that slot on that date. */
  lemma WrittenBookingTakesSlot(contact: Contact, service: Service, date: Date, t: Time, bookings: seq<BookedSlot>)
    requires ValidDate(date)
    ensures var written := ReadSlot(BookingRow(contact, service, date, FormatTime(t)));
      written.Some? && FormatTime(t) !in FormatTimes(FreeSlots(date, bookings + [written.value]))
  {
    RowReadsBack(contact, service, date, t);
    BookedSlotNotOffered(date, bookings + [BookedSlot(date, t)], t);
  }

  /** A confirmation email as far as the model follows it; the body text is not modelled. */
  datatype Email = Email(recipient: string, subject: string)

  const CONFIRMATION_SUBJECT: string := "Booking Confirmation"

  /** The mail sender: records every attempt. */
  class Mailer {

    var outbox: seq<Email>

    constructor ()
      ensures outbox == []
    {
      outbox := [];
    }

    /** `send_email_gmail`: any failure to deliver is caught inside it, so a
        call always returns normally. */
    method Send(recipient: string, subject: string)
      modifies this
      ensures outbox == old(outbox) + [Email(recipient, subject)]
    {
      outbox := outbox + [Email(recipient, subject)];
    }
  }

  /** What one press of "Confirm Booking" leads to. */
  datatype Outcome =
    | FormHidden       // a booking was already confirmed: no form is shown
    | MissingDetails   // "Please fill in all the details ..."
    | SlotNameError    // `NameError` on the unbound `time_selected`
    | AppendFailed     // "Failed to submit booking. Please try again."
    | Confirmed        // the row is in the sheet

  /** One browser session of the script, holding `st.session_state.booking_submitted`. */
  class BookingSession {

    var submitted: bool
    /** The rows this session has put into the sheet, one per confirmed submission. */
    ghost var booked: seq<Row>

    /** The flag is set exactly when this session has appended a row, and it
        has appended at most one. */
    ghost predicate Valid()
      reads this
    {
      |booked| <= 1 && (submitted <==> booked != [])
    }

    /** Lines 153-154: the flag starts out false. */
    constructor ()
      ensures Valid() && !submitted && booked == []
    {
      submitted := false;
      booked := [];
    }

    /** Lines 156-201: a press of "Confirm Booking" with the given details,
        the service and date chosen above and the slot chosen, if any was
        offered. `response` says whether `append_row` returns or raises. */
    method Submit(contact: Contact, service: Service, date: Date, slot: Option<string>,
                  sheet: Sheet, mailer: Mailer, response: AppendResponse) returns (outcome: Outcome)
      requires Valid()
      modifies this, sheet, mailer
      ensures Valid()
      ensures old(submitted) ==> outcome == FormHidden
      ensures !old(submitted) ==> outcome == match CheckDetails(contact, slot)
        case Incomplete => MissingDetails
        case SlotUnbound => SlotNameError
        case Complete(_) => if response == Appended then Confirmed else AppendFailed
      ensures submitted <==> old(submitted) || outcome == Confirmed
      ensures outcome == Confirmed ==>
        && slot.Some?
        && sheet.rows == old(sheet.rows) + [BookingRow(contact, service, date, slot.value)]
        && booked == old(booked) + [BookingRow(contact, service, date, slot.value)]
        && mailer.outbox == old(mailer.outbox) + [Email(contact.email, CONFIRMATION_SUBJECT)]
      ensures outcome != Confirmed ==>
        sheet.rows == old(sheet.rows) && mailer.outbox == old(mailer.outbox) && booked == old(booked)
    {
      if submitted {
        return FormHidden;
      }
      match CheckDetails(contact, slot)
      case Incomplete =>
        outcome := MissingDetails;
      case SlotUnbound =>
        outcome := SlotNameError;
      case Complete(time) =>
        var row := BookingRow(contact, service, date, time);
        var ok := sheet.AppendRow(row, response);
        if ok {
          submitted := true;
          booked := booked + [row];
          mailer.Send(contact.email, CONFIRMATION_SUBJECT);
          outcome := Confirmed;
        } else {
          outcome := AppendFailed;
        }
    }
  }
}

/** Worked cases of the resolver and the form, checked against the contracts
    of the other modules. */
module Scenarios {

  import opened Wrappers
  import opened Calendar
  import opened Availability
  import opened Catalog
  import opened Store
  import opened Submission

  /** No booking on the day: all four slots. */
  method NothingBookedCase() {
    var day := Date(2024, 6, 1);
    var slots := AvailableTimeSlots(day, []);
    NothingBookedAllFree(day, []);
    assert slots == ["09:00", "11:00", "13:00", "15:00"];
  }

  /** One booking at 11:00: the other three slots, in order. */
  method OneBookedCase() {
    var day := Date(2024, 6, 1);
    var one := [BookedSlot(day, Time(11, 0))];
    var slots := AvailableTimeSlots(day, one);
    OneBookedFree(day);
    TemplateLabelsFormatted();
    assert slots == ["09:00", "13:00", "15:00"];
  }

  lemma OneBookedFree(day: Date)
    ensures FreeSlots(day, [BookedSlot(day, Time(11, 0))]) == [Time(9, 0), Time(13, 0), Time(15, 0)]
  {
    var bookings := [BookedSlot(day, Time(11, 0))];
    var expected := [Time(9, 0), Time(13, 0), Time(15, 0)];
    var free := FreeSlots(day, bookings);
    forall t
      ensures t in free <==> t in expected
    {
      assert IsBooked(day, bookings, t) <==> t == Time(11, 0) by {
        assert bookings[0] in bookings;
      }
    }
    IncreasingUnique(free, expected);
  }

  /** A booking on another day and one at a time outside the template: all four slots. */
  method IrrelevantBookingsCase() {
    var day := Date(2024, 6, 1);
    var earlier := [BookedSlot(Date(2024, 6, 2), Time(9, 0))];
    var odd := BookedSlot(day, Time(10, 30));
    var slots := AvailableTimeSlots(day, earlier + [odd]);
    IrrelevantBookingIgnored(day, earlier, odd);
    NothingBookedAllFree(day, earlier);
    assert slots == ["09:00", "11:00", "13:00", "15:00"];
  }

  /** Every slot booked: nothing offered. */
  method FullyBookedCase() {
    var day := Date(2024, 6, 1);
    var all := [BookedSlot(day, Time(9, 0)), BookedSlot(day, Time(11, 0)), BookedSlot(day, Time(13, 0)), BookedSlot(day, Time(15, 0))];
    assert forall t :: t in Template() ==> IsBooked(day, all, t) by {
      assert all[0] in all && all[1] in all && all[2] in all && all[3] in all;
    }
    var slots := AvailableTimeSlots(day, all);
    FullyBookedNoneFree(day, all);
    assert slots == [];
  }

  /** The form: missing details, no slot offered, a failing append, a
      successful one, and a second attempt in the same session. */
  method FormCases() {
    var session := new BookingSession();
    var sheet := new Sheet([]);
    var mailer := new Mailer();
    var service := Service("Classic Lashes", 50);
    var day := Date(2024, 6, 1);

    var first := session.Submit(Contact("", "a@b.com", "123"), service, day, Some("09:00"), sheet, mailer, Appended);
    assert first == MissingDetails && sheet.rows == [] && mailer.outbox == [] && !session.submitted;

    var second := session.Submit(Contact("Ann", "a@b.com", "123"), service, day, None, sheet, mailer, Appended);
    assert second == SlotNameError && sheet.rows == [] && !session.submitted;

    var third := session.Submit(Contact("Ann", "a@b.com", "123"), service, day, Some("09:00"), sheet, mailer, Raised);
    assert third == AppendFailed && sheet.rows == [] && mailer.outbox == [] && !session.submitted;

    var fourth := session.Submit(Contact("Ann", "a@b.com", "123"), service, day, Some("09:00"), sheet, mailer, Appended);
    assert fourth == Confirmed && |sheet.rows| == 1 && session.submitted;
    assert mailer.outbox == [Email("a@b.com", CONFIRMATION_SUBJECT)];

    var fifth := session.Submit(Contact("Bea", "b@c.com", "456"), service, day, Some("11:00"), sheet, mailer, Appended);
    assert fifth == FormHidden && |sheet.rows| == 1 && session.submitted;
  }

  /** What a session loading `snapshot` sees first in the slot select box, on
      a day the snapshot holds no booking of. */
  method FirstOffered(day: Date, snapshot: seq<BookedSlot>) returns (slot: string)
    requires forall b :: b in snapshot ==> b.date != day
    ensures slot == "09:00"
  {
    NothingBookedAllFree(day, snapshot);
    var offered := AvailableTimeSlots(day, snapshot);
    assert offered == TemplateLabels();
    slot := offered[0];
  }

  /** A sheet holding one booking of 31 May 2024 at 09:00, and the bookings a
      session loads from it. */
  method SheetWithEarlierBooking() returns (sheet: Sheet, snapshot: seq<BookedSlot>)
    ensures fresh(sheet) && |sheet.rows| == 1
    ensures snapshot == [BookedSlot(Date(2024, 5, 31), Time(9, 0))]
    ensures ReadSlot(sheet.rows[0]) == Some(snapshot[0])
  {
    var cy := Contact("Cy", "c@d.com", "789");
    var service := Service("Infill", 25);
    sheet := new Sheet([BookingRow(cy, service, Date(2024, 5, 31), FormatTime(Time(9, 0)))]);
    RowReadsBack(cy, service, Date(2024, 5, 31), Time(9, 0));
    snapshot := [ReadSlot(sheet.rows[0]).value];
  }

  /** Two sessions load the sheet above: each reads the same snapshot of
      bookings from it, runs the resolver on 1 June and finds 09:00 first in its
      select box. */
  method TwoSnapshots(day: Date) returns (sheet: Sheet, annSlot: string, beaSlot: string)
    requires day == Date(2024, 6, 1)
    ensures fresh(sheet) && |sheet.rows| == 1
    ensures annSlot == beaSlot == "09:00"
  {
    var snapshot;
    sheet, snapshot := SheetWithEarlierBooking();
    annSlot := FirstOffered(day, snapshot);
    beaSlot := FirstOffered(day, snapshot);
  }

  /** Two sessions load the same snapshot of the sheet, which holds one
      booking of another day. Both are offered 09:00 and take it: nothing stops
      the second append, so the day ends up with two bookings of one slot. */
  method TwoSessionsRace() {
    var day := Date(2024, 6, 1);
    var sheet, annSlot, beaSlot := TwoSnapshots(day);
    var service := Service("Infill", 25);
    var mailer := new Mailer();
    var ann := new BookingSession();
    var bea := new BookingSession();
    var first := ann.Submit(Contact("Ann", "a@b.com", "123"), service, day, Some(annSlot), sheet, mailer, Appended);
    var second := bea.Submit(Contact("Bea", "b@c.com", "456"), service, day, Some(beaSlot), sheet, mailer, Appended);
    assert first == Confirmed && second == Confirmed;
    assert |sheet.rows| == 3 && sheet.rows[1][TIME_COLUMN] == sheet.rows[2][TIME_COLUMN] == "09:00";
  }
}

# Booking logic of a salon booking form

This project models, in Dafny, the booking logic inside a one-file Streamlit
booking script for a beauty salon. A customer picks a service from a catalog,
picks a date and one of the free time slots of that date, types a name, an
email address and a phone number, and confirms. The booking is appended as one
row to a shared spreadsheet and a confirmation email is sent.

The model covers four pieces of that script:

- **Availability resolver** (`Availability`). `get_available_time_slots`
  starts from the fixed template 09:00, 11:00, 13:00 and 15:00 on the chosen
  date. It walks the bookings of that date and removes each booked slot it
  finds with `list.remove`. It prints what is left as `HH:MM`. The method
  `AvailableTimeSlots` keeps the list variable and the loop. It is proved
  equal to a specification function `FreeSlots`: the template times that no
  booking of that date holds, in template order. Lemmas show that other dates
  and times outside the template change nothing, that one booking takes away
  exactly its slot, and how an empty day and a fully booked day come out.
  With no booking the result is all four slots. With all four booked it is
  the empty list. An empty list means "fully booked", not an error.
- **Service catalog** (`Catalog`). The catalog has two categories with four
  priced services each, in dictionary order. The script labels each service
  `"{service} - ${price}"` and recovers the name with `split(" - $")[0]`.
  `LabelRoundTrip` proves that any name not containing `" - $"` is read back
  from its label. `SelectionRoundTrip` proves that choosing the i-th option
  selects the i-th service at its catalog price. `ServicesWellFormed` shows
  that the script's own catalog meets those conditions.
- **Booking record** (`Submission`, `Store`). The record is built only when
  name, email, phone and the chosen slot are all non-empty. The script does
  not trim whitespace, so a name of one space passes. The record's seven values
  are Name, Email, Phone, Service, Date (`YYYY-MM-DD`), Time (the slot text)
  and Price (`$` and the catalog price). Lemmas show that the Date, Time and
  Price cells parse back to the chosen date, slot and price. Once such a row
  is read back, the resolver no longer offers its slot on its date.
- **Session flag** (`Submission.BookingSession`). `booking_submitted` starts
  false. It becomes true only when `append_row` returns. While it is true, no
  form is shown. A failed append shows an error and leaves the flag as it was.
  The email goes out after the flag is set. It cannot undo the flag, because
  `send_email_gmail` catches every exception. A ghost field records the rows
  the session appended. The class invariant proves that a session appends at
  most one row.

The date and time text forms, and their parsers, live in `Calendar`. The digit,
padding, `str(int)`, `split` and `strip` helpers live in `Text`.
`scenarios.dfy` walks through worked cases. Each is proved from the
contracts and lemmas of the other modules. One scenario starts the sheet with one booking of another
day. Two sessions read the same snapshot of that sheet. Each runs the resolver on it, is offered 09:00 first, and books that
slot. Both appends succeed: the script has no cross-session check, and the
model invents none.

The script raises when no slot exists. In that case `time_selected` is never
bound (lines 146-149). If name, email and phone are all non-empty, evaluating
line 168 raises `NameError`. Python evaluates `and` from left to right and
stops at the first falsy value, so with a missing detail the form shows its
usual error instead. The model keeps both behaviours. `CheckDetails` returns
`SlotUnbound` and `Submit` returns `SlotNameError`, with nothing appended and
the flag unchanged. The script does not handle this case gracefully; the
model records what it does.

## Model

| member | source | states |
|---|---|---|
| `Availability.Template` | streamlit_app.py:131-132 | four slots, 09:00 to 15:00, strictly increasing |
| `Availability.BookingsOn` | streamlit_app.py:128-129 | keeps exactly the bookings whose date equals the chosen date, in store order, each as often as the store holds it |
| `Availability.Free` | streamlit_app.py:134-138 | a slot survives exactly when it is not taken; survivors keep their order |
| `Availability.FirstIndex` | streamlit_app.py:138 | the position `list.remove` acts on: it holds the value and no earlier position does |
| `Availability.RemoveFirst` | streamlit_app.py:137-138 | `list.remove` of a present value drops its first occurrence and keeps the rest in order; one copy leaves the multiset |
| `Availability.Combine` | streamlit_app.py:132 | the i-th datetime is the i-th time on the chosen date; a datetime is listed exactly when its time is |
| `Availability.FormatSlots` | streamlit_app.py:141 | the i-th output is the `HH:MM` form of the i-th datetime's time |
| `Availability.FormatTimes` | streamlit_app.py:140-141 | the i-th output is the `HH:MM` form of the i-th slot |
| `Availability.FreeSlots` | streamlit_app.py:127-143 | a template time is offered exactly when no booking of that date holds it; result is a subsequence of the template, ascending, duplicate-free, at most 4 long |
| `Availability.AvailableTimeSlots` | streamlit_app.py:127-143 | the loop's result equals the printed `FreeSlots`; it is a subsequence of ["09:00","11:00","13:00","15:00"] with no repeats; a template slot's text is present exactly when that slot is unbooked |
| `Availability.RemovalStep` | streamlit_app.py:135-138 | one loop turn (remove the booked datetime if present) equals counting one more booking as taken |
| `Availability.FreeInsert` | streamlit_app.py:136-138 | taking one more time removes exactly that time from the free slots |
| `Availability.OnlyTheDayMatters` | streamlit_app.py:129 | bookings on other dates do not affect the result |
| `Availability.IrrelevantBookingIgnored` | streamlit_app.py:136-137 | a booking on another date or at a non-template time leaves the result unchanged |
| `Availability.BookingTakesSlot` | streamlit_app.py:135-138 | a booking of a template slot removes exactly that slot |
| `Availability.BookedSlotNotOffered` | streamlit_app.py:135-141 | a slot booked on the date is absent from the printed result |
| `Availability.NothingBookedAllFree` | streamlit_app.py:132-141 | with no booking on the date the result is exactly ["09:00","11:00","13:00","15:00"] |
| `Availability.FullyBookedNoneFree` | streamlit_app.py:135-149 | with all four times booked the result is empty |
| `Availability.LabelsOf` | streamlit_app.py:141 | printing keeps the subsequence relation to the template, distinctness, and membership |
| `Availability.IncreasingUnique` | streamlit_app.py:132-141 | two ascending lists of times that hold the same times are equal, so the membership and order clauses of `FreeSlots` fix the resolver's result |
| `Availability.SubsequenceOrdered` | streamlit_app.py:132-141 | what is left of the ascending template is ascending and duplicate-free |
| `Calendar.FormatTime` | streamlit_app.py:141 | `strftime('%H:%M')` gives five characters, two digits, a colon, two digits |
| `Calendar.TimeRoundTrip` | streamlit_app.py:79 | parsing a printed time with `%H:%M` gives the time back |
| `Calendar.TimeText` | streamlit_app.py:79 | text that parses as a time is that time printed |
| `Calendar.FormatTimeInjective` | streamlit_app.py:141 | two times print alike exactly when they are equal |
| `Calendar.FormatDate` | streamlit_app.py:174 | `strftime('%Y-%m-%d')` gives ten characters with dashes at places 4 and 7 |
| `Calendar.DateRoundTrip` | streamlit_app.py:174 | parsing a printed valid date gives the date back |
| `Calendar.ParseTime` | streamlit_app.py:79 | `strptime(.., '%H:%M')`: a result means hour and minute fields around a colon; `TimeRoundTrip` and `TimeText` tie it to `FormatTime` both ways |
| `Calendar.ParseDate` | streamlit_app.py:78 | reading a date cell: a result is always a valid calendar date; `DateRoundTrip` and `DateText` tie it to `FormatDate` both ways |
| `Calendar.DateText` | streamlit_app.py:78 | text that parses as a date is that date printed |
| `Text.Padded` | streamlit_app.py:132 | `{n:02d}` has exactly the requested number of digits |
| `Text.PaddedValue` | streamlit_app.py:132 | the padded digits denote the number |
| `Text.DigitsArePadded` | streamlit_app.py:79 | a digit string is the padded form of the number it denotes |
| `Text.Decimal` | streamlit_app.py:111 | `str(n)` is a non-empty digit string with a leading zero only for zero |
| `Text.DecimalValue` | streamlit_app.py:176 | `str(n)` reads back as n |
| `Text.SplitFirst` | streamlit_app.py:115 | `split(sep)[0]` is a prefix with no earlier occurrence of sep, followed by sep unless it is the whole string |
| `Text.StripLeft` | streamlit_app.py:78-79 | drops exactly the leading quote characters |
| `Text.StripRight` | streamlit_app.py:78-79 | drops exactly the trailing quote characters |
| `Text.Strip` | streamlit_app.py:78-79 | `str.strip("'")`; no contract of its own: `StripLeft` and `StripRight` state what each half drops, and `StripUnchanged` and `Store.ReadSlot` use it |
| `Catalog.Services` | streamlit_app.py:89-102 | the two categories and their eight priced services in insertion order; `ServicesWellFormed` states its properties |
| `Catalog.Label` | streamlit_app.py:111 | `f"{service} - ${price}"`; `LabelRoundTrip` carries its contract |
| `Catalog.Options` | streamlit_app.py:111 | the radio options, one label per service in catalog order; `SelectionRoundTrip` carries its contract |
| `Catalog.ServiceName` | streamlit_app.py:115 | `split(" - $")[0]`; its contract is `Text.SplitFirst`'s, and `LabelRoundTrip` states the round trip |
| `Catalog.FindCategory` | streamlit_app.py:116 | `services[category]` succeeds exactly when the category exists, and returns a category of that name from the catalog |
| `Catalog.FindPrice` | streamlit_app.py:116 | `[name]` succeeds exactly when a service of that name exists, and returns the price of a service of that name |
| `Catalog.Select` | streamlit_app.py:115-116 | a selected service carries the name read off the label and is a service of a category with the chosen name; `SelectionRoundTrip` states that option i selects service i |
| `Catalog.LabelRoundTrip` | streamlit_app.py:111-115 | a name without " - $" is recovered from its label |
| `Catalog.NoStraddle` | streamlit_app.py:115 | the separator cannot begin inside a name and end inside the separator after it |
| `Catalog.FindPriceAt` | streamlit_app.py:116 | with unique names, a service's name looks up its own price |
| `Catalog.SelectionRoundTrip` | streamlit_app.py:109-116 | the i-th option of a category selects the i-th service at its catalog price |
| `Catalog.ServicesWellFormed` | streamlit_app.py:89-102 | the catalog has unique category and service names, and no name contains the separator |
| `Store.Sheet.AppendRow` | streamlit_app.py:184 | the row is appended exactly when the call returns; otherwise the sheet is unchanged |
| `Store.ReadSlot` | streamlit_app.py:78-79 | a row read back yields a valid date and a time whose printed forms are the stripped cells |
| `Submission.CheckDetails` | streamlit_app.py:168 | complete exactly when name, email, phone and slot are non-empty; `NameError` exactly when the three are non-empty and no slot was offered |
| `Submission.PriceText` | streamlit_app.py:176 | `f"${service_price}"`; `RowShape` states that it reads back as the price |
| `Submission.BookingRow` | streamlit_app.py:184 | `list(booking_details.values())`; `RowShape` states its seven cells in column order |
| `Submission.BookingDetails` | streamlit_app.py:169-177 | seven fields, keyed Name, Email, Phone, Service, Date, Time, Price in that order |
| `Submission.RowShape` | streamlit_app.py:169-177 | the appended row holds the details in column order; Date, Time and Price read back as date, slot and catalog price |
| `Submission.RowReadsBack` | streamlit_app.py:174-175 | reading a written row's Date and Time cells gives the booked date and slot |
| `Submission.WrittenBookingTakesSlot` | streamlit_app.py:184 | after a booking row is read back, the resolver no longer offers its slot |
| `Submission.Mailer.Send` | streamlit_app.py:32-54 | every send returns normally and is recorded |
| `Submission.BookingSession.constructor` | streamlit_app.py:153-154 | the flag starts false with no row appended |
| `Submission.BookingSession.Submit` | streamlit_app.py:156-201 | hidden form when already submitted; otherwise missing details, `NameError`, failed append or confirmed; only a confirmed submission appends the row, sends one email and sets the flag; the flag never goes back; at most one row per session |

## Left out

- Streamlit rendering (`st.selectbox`, `st.radio`, `st.form`, messages, page setup) is presentation. The "Booking Confirmed!" message at line 178 appears before the append is attempted, as in the script. The model does not track messages.
- Credential loading from the environment (lines 15-30) is configuration I/O.
- Google Sheets access (`connect_to_gsheets`, `get_all_records`, `append_row`) is a network client. The append is an abstract outcome, `Appended` or `Raised`.
- `load_existing_bookings` uses pandas, and `pd.to_datetime` accepts many date forms. The resolver takes bookings as already-parsed (date, time) values. `Store.ReadSlot` reads only the two forms the script itself writes (`YYYY-MM-DD`, two-digit `HH:MM`), after `strip("'")`. Other cell text counts as unreadable in the model.
- `send_email_gmail` and the email body are network I/O. The model keeps the recipient, the subject and the fact that a send never raises.
- The read-then-write race between sessions is not guarded against, as in the script. `Scenarios.TwoSessionsRace` shows two sessions booking the same slot.
- `datetime.now()` as the default date is clock input. The date is a parameter.
- Calendar.FormatDate: the year is always written with four digits. glibc's `strftime('%Y')` writes years below 1000 without padding. `st.date_input` does not offer such years in practice.
- Calendar.ParseTime: only the two-digit form is accepted. `strptime`'s `%H` also takes one digit, but the script writes two.
- A failure while loading bookings (lines 73-84) stops the whole script before any form appears. That is not modelled. One such failure is a sheet holding only its header row: `get_all_records()` then returns no records, the DataFrame has no `Date` column, and line 78 raises `KeyError`. The model's resolver accepts an empty list of bookings, but no sheet the script can load gives one.

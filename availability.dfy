/** The availability resolver of the booking script (`get_available_time_slots`):
    the fixed daily template of four slots, minus the times already booked on
    the chosen date, in template order, printed as `HH:MM`. */
module Availability {

  import opened Text
  import opened Calendar

  /** One recorded booking as the resolver consumes it: the Date and Time
      columns of a store row after loading has normalised them. */
  datatype BookedSlot = BookedSlot(date: Date, time: Time)

  predicate StrictlyIncreasing(ts: seq<Time>) {
    forall i, j :: 0 <= i < j < |ts| ==> MinuteOfDay(ts[i]) < MinuteOfDay(ts[j])
  }

  predicate Distinct<T(==)>(s: seq<T>) {
    forall i, j :: 0 <= i < j < |s| ==> s[i] != s[j]
  }

  /** `a` is `b` with some elements left out, the rest kept in order. */
  predicate IsSubsequence<T(==)>(a: seq<T>, b: seq<T>)
    decreases |b|
  {
    if a == [] then true
    else if b == [] then false
    else (a[0] == b[0] && IsSubsequence(a[1..], b[1..])) || IsSubsequence(a, b[1..])
  }

  /** The daily template: 9 AM, 11 AM, 1 PM and 3 PM, for every date alike. */
  function Template(): (slots: seq<Time>)
    ensures |slots| == 4 && StrictlyIncreasing(slots)
  {
    [Time(9, 0), Time(11, 0), Time(13, 0), Time(15, 0)]
  }

  /** The template as the resolver prints it. */
  function TemplateLabels(): seq<string> {
    ["09:00", "11:00", "13:00", "15:00"]
  }

  /** `existing_bookings[existing_bookings['Date'] == date]`: the bookings of one
      day, in store order, each as often as the store holds it. */
  function BookingsOn(date: Date, bookings: seq<BookedSlot>): (r: seq<BookedSlot>)
    ensures |r| <= |bookings|
    ensures forall b :: b in r <==> b in bookings && b.date == date
    ensures IsSubsequence(r, bookings)
    ensures forall b :: multiset(r)[b] == if b.date == date then multiset(bookings)[b] else 0
  {
    if bookings == [] then []
    else
      var rest := BookingsOn(date, bookings[1..]);
      assert bookings == [bookings[0]] + bookings[1..];
      if bookings[0].date == date then
        var r := [bookings[0]] + rest;
        assert r[0] == bookings[0] && r[1..] == rest;
        r
      else rest
  }

  /** Some booking holds time `t` on `date`. */
  predicate IsBooked(date: Date, bookings: seq<BookedSlot>, t: Time) {
    exists b :: b in bookings && b.date == date && b.time == t
  }

  /** The times booked on `date`. */
  function Taken(date: Date, bookings: seq<BookedSlot>): set<Time> {
    set b | b in bookings && b.date == date :: b.time
  }

  /** The times of some bookings, whatever their dates. */
  function TimesOf(bookings: seq<BookedSlot>): set<Time> {
    set b | b in bookings :: b.time
  }

  /** `slots` without the taken ones, in their original order. */
  function Free(slots: seq<Time>, taken: set<Time>): (r: seq<Time>)
    ensures |r| <= |slots|
    ensures forall t :: t in r <==> t in slots && t !in taken
    ensures IsSubsequence(r, slots)
  {
    if slots == [] then []
    else
      var rest := Free(slots[1..], taken);
      if slots[0] in taken then rest
      else
        var r := [slots[0]] + rest;
        assert r[0] == slots[0] && r[1..] == rest;
        r
  }

  /** What the resolver offers for `date`: exactly the template times that no
      booking of that date holds, in template order. */
  function FreeSlots(date: Date, bookings: seq<BookedSlot>): (r: seq<Time>)
    ensures |r| <= 4
    ensures forall t :: t in r <==> t in Template() && !IsBooked(date, bookings, t)
    ensures IsSubsequence(r, Template())
    ensures StrictlyIncreasing(r) && Distinct(r)
  {
    var r := Free(Template(), Taken(date, bookings));
    SubsequenceOrdered(r, Template());
    r
  }

  /** Python's `list.index(x)`: where `x` first occurs. */
  function FirstIndex<T(==)>(s: seq<T>, x: T): (i: nat)
    requires x in s
    ensures i < |s| && s[i] == x && x !in s[..i]
  {
    if s[0] == x then 0
    else
      var j := FirstIndex(s[1..], x);
      assert s[..j + 1] == [s[0]] + s[1..][..j];
      j + 1
  }

  /** Python's `list.remove(x)` on a list that holds `x`: drops its first
      occurrence and keeps the other elements in their order. */
  function RemoveFirst<T(==)>(s: seq<T>, x: T): (r: seq<T>)
    requires x in s
    ensures |r| == |s| - 1
    ensures r == s[..FirstIndex(s, x)] + s[FirstIndex(s, x) + 1..]
    ensures multiset(r) == multiset(s) - multiset{x}
  {
    RemoveAtCount(s, FirstIndex(s, x));
    if s[0] == x then s[1..]
    else
      var rest := RemoveFirst(s[1..], x);
      RemoveLater(s, x, rest);
      [s[0]] + rest
  }

  /** `remove` on a list with a known head: the head goes when it is the value,
      otherwise the removal happens in the tail. */
  lemma RemoveFirstCons<T>(a: T, tail: seq<T>, x: T)
    requires x == a || x in tail
    ensures RemoveFirst([a] + tail, x) == if a == x then tail else [a] + RemoveFirst(tail, x)
  {
    var s := [a] + tail;
    assert s[0] == a && s[1..] == tail;
  }

  /** Removing the first `x` from the tail of a list whose head is not `x` is
      removing the first `x` from the whole, after its head. */
  lemma RemoveLater<T>(s: seq<T>, x: T, rest: seq<T>)
    requires s != [] && s[0] != x && x in s[1..]
    requires rest == s[1..][..FirstIndex(s[1..], x)] + s[1..][FirstIndex(s[1..], x) + 1..]
    ensures [s[0]] + rest == s[..FirstIndex(s, x)] + s[FirstIndex(s, x) + 1..]
  {
    var j := FirstIndex(s[1..], x);
    assert FirstIndex(s, x) == j + 1;
    assert [s[0]] + s[1..][..j] == s[..j + 1];
    assert s[1..][j + 1..] == s[j + 2..];
  }

  /** Dropping the element at `i` takes one copy of it out of the multiset. */
  lemma RemoveAtCount<T>(s: seq<T>, i: nat)
    requires i < |s|
    ensures multiset(s[..i] + s[i + 1..]) == multiset(s) - multiset{s[i]}
  {
    assert s == s[..i] + [s[i]] + s[i + 1..];
  }

  /** `[datetime.combine(date, t) for t in times]`. */
  function Combine(date: Date, times: seq<Time>): (r: seq<DateTime>)
    ensures |r| == |times|
    ensures forall i :: 0 <= i < |times| ==> r[i] == DateTime(date, times[i])
    ensures forall t :: DateTime(date, t) in r <==> t in times
  {
    if times == [] then [] else [DateTime(date, times[0])] + Combine(date, times[1..])
  }

  /** `[slot.strftime('%H:%M') for slot in slots]`. */
  function FormatSlots(slots: seq<DateTime>): (r: seq<string>)
    ensures |r| == |slots|
    ensures forall i :: 0 <= i < |slots| ==> r[i] == FormatTime(slots[i].time)
  {
    if slots == [] then [] else [FormatTime(slots[0].time)] + FormatSlots(slots[1..])
  }

  /** The printed form of a sequence of times. */
  function FormatTimes(times: seq<Time>): (r: seq<string>)
    ensures |r| == |times|
    ensures forall i :: 0 <= i < |times| ==> r[i] == FormatTime(times[i])
  {
    if times == [] then [] else [FormatTime(times[0])] + FormatTimes(times[1..])
  }

  /** `get_available_time_slots(date_selected, existing_bookings)`. */
  method AvailableTimeSlots(date: Date, bookings: seq<BookedSlot>) returns (available: seq<string>)
    ensures available == FormatTimes(FreeSlots(date, bookings))
    ensures IsSubsequence(available, TemplateLabels())
    ensures |available| <= 4 && Distinct(available)
    ensures forall t :: t in Template() ==> (FormatTime(t) in available <==> !IsBooked(date, bookings, t))
  {
    var booked := BookingsOn(date, bookings);
    var allSlots := Combine(date, Template());
    var k := 0;
    assert allSlots == Combine(date, Free(Template(), TimesOf(booked[..k]))) by {
      assert TimesOf(booked[..k]) == {};
      FreeNothingTaken(Template());
    }
    while k < |booked|
      invariant 0 <= k <= |booked|
      invariant allSlots == Combine(date, Free(Template(), TimesOf(booked[..k])))
    {
      var bookedTime := DateTime(date, booked[k].time);
      ghost var next := Combine(date, Free(Template(), TimesOf(booked[..k + 1])));
      assert next == if bookedTime in allSlots then RemoveFirst(allSlots, bookedTime) else allSlots by {
        RemovalStep(date, booked, k);
      }
      if bookedTime in allSlots {
        allSlots := RemoveFirst(allSlots, bookedTime);
      }
      k := k + 1;
    }
    assert allSlots == Combine(date, FreeSlots(date, bookings)) by {
      assert booked[..k] == booked;
      BookedTimesOfDay(date, bookings);
    }
    available := FormatSlots(allSlots);
    PrintedFreeSlots(date, bookings);
  }

  /** What the resolver prints once its loop has left the free slots of the day. */
  lemma PrintedFreeSlots(date: Date, bookings: seq<BookedSlot>)
    ensures var printed := FormatSlots(Combine(date, FreeSlots(date, bookings)));
      && printed == FormatTimes(FreeSlots(date, bookings))
      && IsSubsequence(printed, TemplateLabels())
      && |printed| <= 4 && Distinct(printed)
      && forall t :: t in Template() ==> (FormatTime(t) in printed <==> !IsBooked(date, bookings, t))
  {
    FormatSlotsCombine(date, FreeSlots(date, bookings));
    LabelsOf(FreeSlots(date, bookings));
  }

  // ----- lemmas about the specification -----

  /** One turn of the resolver's loop: removing the booked datetime when it is
      still listed is the same as counting one more booking as taken. */
  lemma RemovalStep(date: Date, booked: seq<BookedSlot>, k: nat)
    requires k < |booked|
    ensures var before := Free(Template(), TimesOf(booked[..k]));
      var after := Free(Template(), TimesOf(booked[..k + 1]));
      var dt := DateTime(date, booked[k].time);
      && (dt in Combine(date, before) ==> Combine(date, after) == RemoveFirst(Combine(date, before), dt))
      && (dt !in Combine(date, before) ==> after == before)
  {
    var t := booked[k].time;
    var before := Free(Template(), TimesOf(booked[..k]));
    assert booked[..k + 1] == booked[..k] + [booked[k]];
    assert TimesOf(booked[..k + 1]) == TimesOf(booked[..k]) + {t};
    FreeInsert(Template(), TimesOf(booked[..k]), t);
    if t in before {
      CombineRemove(date, before, t);
    }
  }

  /** The times of the day's bookings are the times taken that day. */
  lemma BookedTimesOfDay(date: Date, bookings: seq<BookedSlot>)
    ensures TimesOf(BookingsOn(date, bookings)) == Taken(date, bookings)
  {
  }

  /** Every element of a subsequence comes from the whole. */
  lemma {:induction false} SubsequenceMembers<T>(a: seq<T>, b: seq<T>, x: T)
    requires IsSubsequence(a, b) && x in a
    ensures x in b
    decreases |b|
  {
    if a[0] == b[0] && IsSubsequence(a[1..], b[1..]) {
      if x != a[0] {
        SubsequenceMembers(a[1..], b[1..], x);
      }
    } else {
      SubsequenceMembers(a, b[1..], x);
    }
  }

  /** An ascending list of times is fixed by which times it holds. */
  lemma {:induction false} IncreasingUnique(a: seq<Time>, b: seq<Time>)
    requires StrictlyIncreasing(a) && StrictlyIncreasing(b)
    requires forall t :: t in a <==> t in b
    ensures a == b
  {
    assert a == [] <==> b == [] by {
      if a != [] {
        assert a[0] in a;
      }
      if b != [] {
        assert b[0] in b;
      }
    }
    if a != [] {
      HeadIsLeast(a, b[0]);
      HeadIsLeast(b, a[0]);
      forall t
        ensures t in a[1..] <==> t in b[1..]
      {
        TailMembers(a, t);
        TailMembers(b, t);
      }
      IncreasingUnique(a[1..], b[1..]);
      assert a == [a[0]] + a[1..] && b == [b[0]] + b[1..];
    }
  }

  /** The head of an ascending list comes before every other element. */
  lemma HeadIsLeast(s: seq<Time>, t: Time)
    requires StrictlyIncreasing(s) && t in s
    ensures t == s[0] || MinuteOfDay(s[0]) < MinuteOfDay(t)
  {
    var i :| 0 <= i < |s| && s[i] == t;
  }

  /** The tail of an ascending list holds everything but its head. */
  lemma TailMembers(s: seq<Time>, t: Time)
    requires StrictlyIncreasing(s) && s != []
    ensures t in s[1..] <==> t in s && t != s[0]
  {
    if t in s[1..] {
      var i :| 0 <= i < |s| - 1 && s[1..][i] == t;
      assert s[i + 1] == t;
    }
    if t in s && t != s[0] {
      var i :| 0 <= i < |s| && s[i] == t;
      assert s[1..][i - 1] == t;
    }
  }

  /** A subsequence of an ordered sequence is ordered. */
  lemma {:induction false} SubsequenceOrdered(a: seq<Time>, b: seq<Time>)
    requires IsSubsequence(a, b) && StrictlyIncreasing(b)
    ensures StrictlyIncreasing(a) && Distinct(a)
    decreases |b|
  {
    if a != [] {
      if a[0] == b[0] && IsSubsequence(a[1..], b[1..]) {
        SubsequenceOrdered(a[1..], b[1..]);
        forall j | 1 <= j < |a|
          ensures MinuteOfDay(a[0]) < MinuteOfDay(a[j])
        {
          SubsequenceMembers(a[1..], b[1..], a[j]);
        }
      } else {
        SubsequenceOrdered(a, b[1..]);
      }
    }
  }

  /** Printing keeps the subsequence relation. */
  lemma {:induction false} FormatTimesSubsequence(a: seq<Time>, b: seq<Time>)
    requires IsSubsequence(a, b)
    ensures IsSubsequence(FormatTimes(a), FormatTimes(b))
    decreases |b|
  {
    if a != [] {
      if a[0] == b[0] && IsSubsequence(a[1..], b[1..]) {
        FormatTimesSubsequence(a[1..], b[1..]);
        assert FormatTimes(a)[1..] == FormatTimes(a[1..]);
      } else {
        FormatTimesSubsequence(a, b[1..]);
      }
    }
  }

  lemma TemplateLabelsFormatted()
    ensures FormatTimes(Template()) == TemplateLabels()
  {
    assert Padded(0, 2) == "00";
    assert Padded(9, 2) == "09";
    assert Padded(11, 2) == "11";
    assert Padded(13, 2) == "13";
    assert Padded(15, 2) == "15";
    assert FormatTime(Time(9, 0)) == "09:00";
    assert FormatTime(Time(11, 0)) == "11:00";
    assert FormatTime(Time(13, 0)) == "13:00";
    assert FormatTime(Time(15, 0)) == "15:00";
  }

  /** With nothing taken every slot is free. */
  lemma {:induction false} FreeNothingTaken(slots: seq<Time>)
    ensures Free(slots, {}) == slots
  {
    if slots != [] {
      FreeNothingTaken(slots[1..]);
    }
  }

  /** The printed slots are as distinct as the times, and a time is offered
      exactly when its printed form is. */
  lemma LabelsOf(times: seq<Time>)
    requires IsSubsequence(times, Template())
    ensures IsSubsequence(FormatTimes(times), TemplateLabels())
    ensures Distinct(times) ==> Distinct(FormatTimes(times))
    ensures forall t :: FormatTime(t) in FormatTimes(times) <==> t in times
  {
    FormatTimesSubsequence(times, Template());
    TemplateLabelsFormatted();
    LabelsDistinct(times);
    LabelsMembership(times);
  }

  lemma LabelsDistinct(times: seq<Time>)
    ensures Distinct(times) ==> Distinct(FormatTimes(times))
  {
    var r := FormatTimes(times);
    if Distinct(times) {
      forall i, j | 0 <= i < j < |r|
        ensures r[i] != r[j]
      {
        FormatTimeInjective(times[i], times[j]);
      }
    }
  }

  lemma LabelsMembership(times: seq<Time>)
    ensures forall t :: FormatTime(t) in FormatTimes(times) <==> t in times
  {
    var r := FormatTimes(times);
    forall t
      ensures FormatTime(t) in r ==> t in times
    {
      if FormatTime(t) in r {
        var i :| 0 <= i < |r| && r[i] == FormatTime(t);
        FormatTimeInjective(times[i], t);
      }
    }
  }

  lemma {:induction false} FormatSlotsCombine(date: Date, times: seq<Time>)
    ensures FormatSlots(Combine(date, times)) == FormatTimes(times)
  {
    if times != [] {
      FormatSlotsCombine(date, times[1..]);
    }
  }

  /** Removing a time from the list of times and removing its datetime from the
      combined list are the same step. */
  lemma {:induction false} CombineRemove(date: Date, times: seq<Time>, t: Time)
    requires t in times
    ensures Combine(date, RemoveFirst(times, t)) == RemoveFirst(Combine(date, times), DateTime(date, t))
  {
    if times[0] != t {
      CombineRemove(date, times[1..], t);
    }
  }

  /** Taking one more time away from a list without repeats removes that time
      and nothing else. */
  lemma {:induction false} FreeInsert(slots: seq<Time>, taken: set<Time>, x: Time)
    requires Distinct(slots)
    ensures var before := Free(slots, taken);
      Free(slots, taken + {x}) == if x in before then RemoveFirst(before, x) else before
  {
    if slots != [] {
      var s0, rest := slots[0], slots[1..];
      assert Distinct(rest);
      FreeInsert(rest, taken, x);
      var tail := Free(rest, taken);
      if s0 in taken {
        assert Free(slots, taken) == tail;
      } else if s0 == x {
        assert x !in rest;
        assert Free(slots, taken) == [x] + tail;
      } else {
        var before := [s0] + tail;
        assert Free(slots, taken) == before;
        if x in tail {
          assert before[0] == s0 && before[1..] == tail;
          assert RemoveFirst(before, x) == [s0] + RemoveFirst(tail, x);
        }
      }
    }
  }

  /** Two sets of taken times that agree on the slots give the same free slots. */
  lemma {:induction false} FreeAgrees(slots: seq<Time>, taken1: set<Time>, taken2: set<Time>)
    requires forall t :: t in slots ==> (t in taken1 <==> t in taken2)
    ensures Free(slots, taken1) == Free(slots, taken2)
  {
    if slots != [] {
      FreeAgrees(slots[1..], taken1, taken2);
    }
  }

  /** Only the bookings of the chosen day matter. */
  lemma OnlyTheDayMatters(date: Date, bookings: seq<BookedSlot>)
    ensures FreeSlots(date, bookings) == FreeSlots(date, BookingsOn(date, bookings))
  {
    FreeAgrees(Template(), Taken(date, bookings), Taken(date, BookingsOn(date, bookings)));
  }

  /** A booking on another day, or at a time outside the template, changes nothing. */
  lemma IrrelevantBookingIgnored(date: Date, bookings: seq<BookedSlot>, b: BookedSlot)
    requires b.date != date || b.time !in Template()
    ensures FreeSlots(date, bookings + [b]) == FreeSlots(date, bookings)
  {
    FreeAgrees(Template(), Taken(date, bookings + [b]), Taken(date, bookings));
  }

  /** Booking a template slot on the chosen day takes exactly that slot away. */
  lemma BookingTakesSlot(date: Date, bookings: seq<BookedSlot>, t: Time)
    requires t in Template()
    ensures var before := FreeSlots(date, bookings);
      FreeSlots(date, bookings + [BookedSlot(date, t)]) == if t in before then RemoveFirst(before, t) else before
  {
    var taken := Taken(date, bookings);
    assert Taken(date, bookings + [BookedSlot(date, t)]) == taken + {t};
    FreeInsert(Template(), taken, t);
  }

  /** A slot booked on the chosen day is not among the printed slots. */
  lemma BookedSlotNotOffered(date: Date, bookings: seq<BookedSlot>, t: Time)
    requires BookedSlot(date, t) in bookings
    ensures FormatTime(t) !in FormatTimes(FreeSlots(date, bookings))
  {
    LabelsMembership(FreeSlots(date, bookings));
  }

  /** With no booking on the chosen day every template slot is offered. */
  lemma NothingBookedAllFree(date: Date, bookings: seq<BookedSlot>)
    requires forall b :: b in bookings ==> b.date != date
    ensures FreeSlots(date, bookings) == Template()
    ensures FormatTimes(FreeSlots(date, bookings)) == TemplateLabels()
  {
    FreeAgrees(Template(), Taken(date, bookings), {});
    assert Free(Template(), {}) == Template();
    TemplateLabelsFormatted();
  }

  /** With every template time booked nothing is offered: a fully booked day,
      not an error. */
  lemma FullyBookedNoneFree(date: Date, bookings: seq<BookedSlot>)
    requires forall t :: t in Template() ==> IsBooked(date, bookings, t)
    ensures FreeSlots(date, bookings) == []
  {
    FreeAllTaken(Template(), Taken(date, bookings));
  }

  /** With every slot taken nothing is free. */
  lemma {:induction false} FreeAllTaken(slots: seq<Time>, taken: set<Time>)
    requires forall t :: t in slots ==> t in taken
    ensures Free(slots, taken) == []
  {
    if slots != [] {
      FreeAllTaken(slots[1..], taken);
    }
  }
}

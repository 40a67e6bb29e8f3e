/**
 * The patient's appointment list: reading the `DD_MM_YYYY` date key back,
 * the status shown for an appointment and which buttons are disabled, and
 * the page state kept between the fetch and the cancel calls.
 */
module MyAppointmentsPage {
  import opened Wrappers
  import opened Text
  import opened Lists
  import opened Calendar
  import opened Records
  import AppointmentPage

  /**
   * What `formatSlot` shows before the locale rendering of the date: either
   * the fixed text for a missing argument, or the numbers read from the key
   * (`None` where `Number` gives NaN) and the time.
   */
  datatype SlotDisplay =
    | DateNotSpecified
    | ShownAt(day: Option<int>, month: Option<int>, year: Option<int>, time: string)

  /** The `i`-th piece of the split key as a number; a missing piece is `undefined`, which is NaN. */
  function Component(parts: seq<string>, i: nat): Option<int> {
    if i < |parts| then JsNumber(parts[i]) else None
  }

  /** `formatSlot`: `slotDate.split("_").map(Number)` destructured as day, month, year. */
  function FormatSlot(slotDate: string, slotTime: string): SlotDisplay {
    if slotDate == "" || slotTime == "" then DateNotSpecified
    else
      var parts := Split(slotDate, '_');
      ShownAt(Component(parts, 0), Component(parts, 1), Component(parts, 2), slotTime)
  }

  lemma FormatSlotMissing(slotDate: string, slotTime: string)
    ensures FormatSlot(slotDate, slotTime) == DateNotSpecified <==> slotDate == "" || slotTime == ""
  {
  }

  lemma NoSeparatorInDigits(s: string, sep: char)
    requires AllDigits(s) && !IsDigit(sep)
    ensures sep !in s
  {
  }

  /** Three separator-free pieces joined by two separators split back into those pieces. */
  lemma SplitThree(a: string, b: string, c: string, sep: char)
    requires sep !in a && sep !in b && sep !in c
    ensures Split(a + [sep] + b + [sep] + c, sep) == [a, b, c]
  {
    AppendAssociative(a + [sep] + b, [sep], c);
    AppendAssociative(a + [sep], b, [sep] + c);
    assert a + [sep] + b + [sep] + c == a + [sep] + (b + [sep] + c);
    SplitAtSeparator(a, sep, b + [sep] + c);
    SplitAtSeparator(b, sep, c);
    SplitWithoutSeparator(c, sep);
  }

  /** The date key splits into the padded day, the padded month and the year. */
  lemma DateKeyParts(d: Date)
    requires ValidDate(d)
    ensures Split(AppointmentPage.FormatDateForBackend(d), '_') == [Pad2(d.day), Pad2(d.month), NatToString(d.year)]
  {
    NoSeparatorInDigits(Pad2(d.day), '_');
    NoSeparatorInDigits(Pad2(d.month), '_');
    NoSeparatorInDigits(NatToString(d.year), '_');
    SplitThree(Pad2(d.day), Pad2(d.month), NatToString(d.year), '_');
  }

  /** Reading back a key built by `formatDateForBackend` recovers the day, the month and the year. */
  lemma FormatSlotRoundTrip(d: Date, time: string)
    requires ValidDate(d) && time != ""
    ensures FormatSlot(AppointmentPage.FormatDateForBackend(d), time) == ShownAt(Some(d.day), Some(d.month), Some(d.year), time)
  {
    DateKeyParts(d);
    JsNumberOfDigits(Pad2(d.day));
    JsNumberOfDigits(Pad2(d.month));
    JsNumberOfDigits(NatToString(d.year));
    Pad2Value(d.day);
    Pad2Value(d.month);
    DigitsValueOfNatToString(d.year);
  }

  /** Two days with the same key are the same day. */
  lemma DateKeyInjective(d1: Date, d2: Date)
    requires ValidDate(d1) && ValidDate(d2)
    requires AppointmentPage.FormatDateForBackend(d1) == AppointmentPage.FormatDateForBackend(d2)
    ensures d1 == d2
  {
    FormatSlotRoundTrip(d1, "t");
    FormatSlotRoundTrip(d2, "t");
  }

  /** The seven days of the booking grid have seven different keys, so their ledger entries never mix. */
  lemma WeekKeysDistinct(today: Date, i: nat, j: nat)
    requires ValidDate(today) && i < j
    ensures AppointmentPage.FormatDateForBackend(AddDays(today, i)) != AppointmentPage.FormatDateForBackend(AddDays(today, j))
  {
    AddDaysIncreasing(today, i, j);
    if AppointmentPage.FormatDateForBackend(AddDays(today, i)) == AppointmentPage.FormatDateForBackend(AddDays(today, j)) {
      DateKeyInjective(AddDays(today, i), AddDays(today, j));
    }
  }

  // ---------------------------------------------------------------------
  // Status

  predicate IsCancelled(a: Appointment) {
    a.cancelled || a.status == "cancelled"
  }

  predicate IsCompleted(a: Appointment) {
    a.isCompleted || a.status == "completed"
  }

  /** `getStatusText`. */
  function StatusText(a: Appointment): string {
    if IsCancelled(a) then "Cancelled"
    else if IsCompleted(a) then "Completed"
    else "Confirmed"
  }

  const CancelledStyle := "bg-red-50 text-red-700 border-red-200"
  const CompletedStyle := "bg-green-50 text-green-700 border-green-200"
  const ConfirmedStyle := "bg-blue-50 text-blue-700 border-blue-200"

  /** `getStatusStyles`. */
  function StatusStyles(a: Appointment): string {
    if IsCancelled(a) then CancelledStyle
    else if IsCompleted(a) then CompletedStyle
    else ConfirmedStyle
  }

  /** Cancelled wins over completed, completed over confirmed, and the style always goes with the text. */
  lemma StatusPrecedence(a: Appointment)
    ensures StatusText(a) == "Cancelled" <==> IsCancelled(a)
    ensures StatusText(a) == "Completed" <==> !IsCancelled(a) && IsCompleted(a)
    ensures StatusText(a) == "Confirmed" <==> !IsCancelled(a) && !IsCompleted(a)
    ensures StatusStyles(a) == (if StatusText(a) == "Cancelled" then CancelledStyle
                                else if StatusText(a) == "Completed" then CompletedStyle
                                else ConfirmedStyle)
  {
  }

  /** The cancel button: disabled while this appointment's cancel is in flight, or once it is cancelled or completed. */
  predicate CancelDisabled(cancellingId: Option<string>, a: Appointment) {
    cancellingId == Some(a.id) || IsCancelled(a) || IsCompleted(a)
  }

  /** The pay button: disabled once paid, cancelled or completed. */
  predicate PayDisabled(a: Appointment) {
    a.payment || IsCancelled(a) || IsCompleted(a)
  }

  /** Both buttons are disabled for every appointment not shown as "Confirmed"; for a confirmed one only their own conditions remain. */
  lemma ButtonsFollowStatus(cancellingId: Option<string>, a: Appointment)
    ensures CancelDisabled(cancellingId, a) <==> cancellingId == Some(a.id) || StatusText(a) != "Confirmed"
    ensures PayDisabled(a) <==> a.payment || StatusText(a) != "Confirmed"
  {
  }

  // ---------------------------------------------------------------------
  // Local cancel

  /** The entry as the page rewrites it after a successful cancel. */
  function CancelledLocally(a: Appointment): Appointment {
    a.(cancelled := true, status := "cancelled")
  }

  /** The `map` run after a successful cancel. */
  function MarkCancelled(list: seq<Appointment>, id: string): (r: seq<Appointment>)
    ensures |r| == |list|
    ensures forall k :: 0 <= k < |list| ==> r[k] == (if list[k].id == id then CancelledLocally(list[k]) else list[k])
  {
    Map(list, (a: Appointment) => if a.id == id then CancelledLocally(a) else a)
  }

  /** After the local cancel the matching entries read "Cancelled" with both buttons disabled; the others are untouched. */
  lemma MarkCancelledEffect(list: seq<Appointment>, id: string, cancellingId: Option<string>)
    ensures var r := MarkCancelled(list, id);
      forall k :: 0 <= k < |r| ==>
        if list[k].id == id then StatusText(r[k]) == "Cancelled" && CancelDisabled(cancellingId, r[k]) && PayDisabled(r[k])
        else r[k] == list[k]
  {
  }

  /** Cancelling the same id twice is cancelling it once. */
  lemma MarkCancelledIdempotent(list: seq<Appointment>, id: string)
    ensures MarkCancelled(MarkCancelled(list, id), id) == MarkCancelled(list, id)
  {
  }

  /** The page state: the list shown and the id whose cancel is in flight. */
  class MyAppointments {
    var appointments: seq<Appointment>
    var cancellingId: Option<string>

    constructor ()
      ensures appointments == [] && cancellingId == None
    {
      appointments := [];
      cancellingId := None;
    }

    /** `getUserAppointments`: a successful fetch is shown newest first; a failed one leaves the list. */
    method ReceiveAppointments(success: bool, fetched: seq<Appointment>)
      modifies this
      ensures appointments == (if success then Reversed(fetched) else old(appointments))
      ensures cancellingId == old(cancellingId)
    {
      if success {
        appointments := Reversed(fetched);
      }
    }

    /** The start of `cancelAppointment`, before the request. */
    method BeginCancel(id: string)
      modifies this
      ensures cancellingId == Some(id) && appointments == old(appointments)
    {
      cancellingId := Some(id);
    }

    /** The end of `cancelAppointment`: the local update on success, and the in-flight id cleared either way. */
    method FinishCancel(id: string, success: bool)
      modifies this
      ensures appointments == (if success then MarkCancelled(old(appointments), id) else old(appointments))
      ensures cancellingId == None
    {
      if success {
        appointments := MarkCancelled(appointments, id);
      }
      cancellingId := None;
    }
  }
}

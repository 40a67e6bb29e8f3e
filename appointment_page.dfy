/**
 * The patient's booking page: the seven-day slot grid built from the
 * doctor's booked-slot ledger, the `DD_MM_YYYY` date key, the availability
 * check, the automatic choice of the first free slot, the checks made before
 * a booking request is sent, and two display helpers.
 *
 * Time of day is a minute count (0 to 1439); seconds are not modelled. The
 * ledger `slots_booked` is a map from date key to booked `HH:MM` times; an
 * absent ledger behaves as the empty map.
 */
module AppointmentPage {
  import opened Wrappers
  import opened Text
  import opened Calendar
  import opened Lists

  const OpeningMinute := 600   // 10:00
  const ClosingMinute := 1260  // 21:00, never itself a slot
  const SlotMinutes := 30
  const WindowDays := 7

  /** `formatDateForBackend`: zero-padded day, zero-padded 1-based month and the year, joined by '_'. */
  function FormatDateForBackend(d: Date): (key: string)
    requires ValidDate(d)
  {
    Pad2(d.day) + "_" + Pad2(d.month) + "_" + NatToString(d.year)
  }

  /** `toLocaleTimeString` with two-digit hour and minute on a 24-hour clock: `HH:MM`. */
  function FormatTime(minute: int): (t: string)
    requires 0 <= minute < 1440
    ensures |t| == 5 && t[2] == ':'
  {
    var h, m := minute / 60, minute % 60;
    [DigitChar(h / 10), DigitChar(h % 10), ':', DigitChar(m / 10), DigitChar(m % 10)]
  }

  /** The time is the zero-padded hour and minute around a colon. */
  lemma FormatTimePadded(minute: int)
    requires 0 <= minute < 1440
    ensures FormatTime(minute) == Pad2(minute / 60) + ":" + Pad2(minute % 60)
  {
    Pad2Small(minute / 60);
    Pad2Small(minute % 60);
  }

  /** The ledger has an entry for the day and it lists the time. */
  predicate IsBooked(slotsBooked: map<string, seq<string>>, dateKey: string, time: string) {
    dateKey in slotsBooked && time in slotsBooked[dateKey]
  }

  /** `isSlotAvailable`: the ledger does not list the time for that day. */
  function IsSlotAvailable(slotsBooked: map<string, seq<string>>, date: Date, time: string): bool
    requires ValidDate(date)
  {
    var dateKey := FormatDateForBackend(date);
    !(dateKey in slotsBooked && time in slotsBooked[dateKey])
  }

  datatype TimeSlot = TimeSlot(minute: int, time: string, isBooked: bool)
  datatype DaySlots = DaySlots(date: Date, slots: seq<TimeSlot>)

  function Max(a: int, b: int): int {
    if a >= b then a else b
  }

  /** The smallest multiple of thirty minutes not before `minute`. */
  function RoundUpToSlot(minute: nat): (r: nat)
    ensures minute <= r < minute + SlotMinutes && r % SlotMinutes == 0
  {
    (minute + SlotMinutes - 1) / SlotMinutes * SlotMinutes
  }

  /** Where the day's grid starts: 10:00, or for today the current time rounded up to a half hour if that is later. */
  function FirstSlotMinute(dayIndex: nat, now: nat): (m: nat)
    ensures m % SlotMinutes == 0 && OpeningMinute <= m
    ensures dayIndex == 0 ==> now <= m
  {
    if dayIndex == 0 then Max(OpeningMinute, RoundUpToSlot(now)) else OpeningMinute
  }

  /** A candidate slot, marked booked when the ledger lists its time for the day. */
  function Slot(minute: int, dateKey: string, slotsBooked: map<string, seq<string>>): TimeSlot
    requires 0 <= minute < 1440
  {
    var time := FormatTime(minute);
    TimeSlot(minute, time, IsBooked(slotsBooked, dateKey, time))
  }

  /** The half-hour candidates from `start` while strictly before 21:00. */
  function Schedule(start: nat, dateKey: string, slotsBooked: map<string, seq<string>>): seq<TimeSlot>
    decreases ClosingMinute - start
  {
    if start < ClosingMinute then [Slot(start, dateKey, slotsBooked)] + Schedule(start + SlotMinutes, dateKey, slotsBooked)
    else []
  }

  /** The slots of the day `dayIndex` days after today. */
  function DayOf(today: Date, dayIndex: nat, now: nat, slotsBooked: map<string, seq<string>>): DaySlots
    requires ValidDate(today)
  {
    var date := AddDays(today, dayIndex);
    DaySlots(date, Schedule(FirstSlotMinute(dayIndex, now), FormatDateForBackend(date), slotsBooked))
  }

  /** `getAvailableSlots`: one entry per day for today and the six days after it. */
  method GetAvailableSlots(today: Date, now: int, slotsBooked: map<string, seq<string>>) returns (allSlots: seq<DaySlots>)
    requires ValidDate(today) && 0 <= now < 1440
    ensures |allSlots| == WindowDays
    ensures forall i :: 0 <= i < |allSlots| ==> allSlots[i] == DayOf(today, i, now, slotsBooked)
  {
    allSlots := [];
    for i := 0 to WindowDays
      invariant |allSlots| == i
      invariant forall j :: 0 <= j < i ==> allSlots[j] == DayOf(today, j, now, slotsBooked)
    {
      var day := BuildDay(today, i, now, slotsBooked);
      allSlots := allSlots + [day];
    }
  }

  /** One pass of the outer loop of `getAvailableSlots`. */
  method BuildDay(today: Date, i: nat, now: int, slotsBooked: map<string, seq<string>>) returns (day: DaySlots)
    requires ValidDate(today) && 0 <= now < 1440
    ensures day == DayOf(today, i, now, slotsBooked)
  {
    var currentDate := AddDays(today, i);
    var startTime: nat;
    if i == 0 {
      startTime := TodayStart(now);
    } else {
      startTime := OpeningMinute;
    }
    var timeSlots := DaySlotsFrom(startTime, FormatDateForBackend(currentDate), slotsBooked);
    day := DaySlots(currentDate, timeSlots);
  }

  /** Today's start as the page computes it from the clock's hours and minutes. */
  method TodayStart(now: int) returns (startTime: nat)
    requires 0 <= now < 1440
    ensures startTime == FirstSlotMinute(0, now)
  {
    var hours, minutes := now / 60, now % 60;
    if hours < 10 {
      startTime := OpeningMinute;
    } else if minutes == 0 {
      startTime := now;
    } else if minutes <= 30 {
      startTime := hours * 60 + 30;
    } else {
      startTime := (hours + 1) * 60;
    }
  }

  /** The inner loop of `getAvailableSlots`: half-hour steps from `startTime` while before 21:00. */
  method DaySlotsFrom(startTime: nat, dateKey: string, slotsBooked: map<string, seq<string>>) returns (timeSlots: seq<TimeSlot>)
    ensures timeSlots == Schedule(startTime, dateKey, slotsBooked)
  {
    timeSlots := [];
    var tempTime := startTime;
    while tempTime < ClosingMinute
      invariant timeSlots + Schedule(tempTime, dateKey, slotsBooked) == Schedule(startTime, dateKey, slotsBooked)
      decreases ClosingMinute - tempTime
    {
      var formattedTime := FormatTime(tempTime);
      var isBooked := dateKey in slotsBooked && formattedTime in slotsBooked[dateKey];
      ghost var rest := Schedule(tempTime + SlotMinutes, dateKey, slotsBooked);
      assert Schedule(tempTime, dateKey, slotsBooked) == [TimeSlot(tempTime, formattedTime, isBooked)] + rest;
      AppendAssociative(timeSlots, [TimeSlot(tempTime, formattedTime, isBooked)], rest);
      timeSlots := timeSlots + [TimeSlot(tempTime, formattedTime, isBooked)];
      tempTime := tempTime + SlotMinutes;
    }
  }

  /** Today's start, case by case: before 10:00 it is 10:00; at minute 0 it stays; minutes 1-30 go to :30; minutes 31-59 go to the next hour. */
  lemma TodayStartCases(now: nat)
    requires now < 1440
    ensures now / 60 < 10 ==> FirstSlotMinute(0, now) == OpeningMinute
    ensures now / 60 >= 10 && now % 60 == 0 ==> FirstSlotMinute(0, now) == now
    ensures now / 60 >= 10 && 1 <= now % 60 <= 30 ==> FirstSlotMinute(0, now) == now / 60 * 60 + 30
    ensures now / 60 >= 10 && now % 60 > 30 ==> FirstSlotMinute(0, now) == (now / 60 + 1) * 60
  {
  }

  /** From a half-hour boundary `start`, as many slots as fit before 21:00. */
  lemma {:induction false} ScheduleLength(start: nat, dateKey: string, slotsBooked: map<string, seq<string>>)
    requires start % SlotMinutes == 0
    ensures |Schedule(start, dateKey, slotsBooked)| == (if start < ClosingMinute then (ClosingMinute - start) / SlotMinutes else 0)
    decreases ClosingMinute - start
  {
    if start < ClosingMinute {
      ScheduleLength(start + SlotMinutes, dateKey, slotsBooked);
    }
  }

  /** The `k`-th slot is `k` half hours after the grid's start. */
  lemma {:induction false} ScheduleAt(start: nat, dateKey: string, slotsBooked: map<string, seq<string>>, k: nat)
    requires k < |Schedule(start, dateKey, slotsBooked)|
    ensures start + SlotMinutes * k < ClosingMinute
    ensures Schedule(start, dateKey, slotsBooked)[k] == Slot(start + SlotMinutes * k, dateKey, slotsBooked)
    decreases k
  {
    var m := start + SlotMinutes * k;
    if k == 0 {
      assert m == start;
    } else {
      ScheduleAt(start + SlotMinutes, dateKey, slotsBooked, k - 1);
      ConsAt(Slot(start, dateKey, slotsBooked), Schedule(start + SlotMinutes, dateKey, slotsBooked), k);
      assert m == start + SlotMinutes + SlotMinutes * (k - 1);
    }
  }

  /** Every slot lies on a half hour in [10:00, 21:00), at or after the grid's start, and shows its own time. */
  lemma {:induction false} ScheduleBounds(start: nat, dateKey: string, slotsBooked: map<string, seq<string>>)
    requires start % SlotMinutes == 0
    ensures forall slot :: slot in Schedule(start, dateKey, slotsBooked) ==>
      start <= slot.minute < ClosingMinute && slot.minute % SlotMinutes == 0
      && slot.time == FormatTime(slot.minute)
    decreases ClosingMinute - start
  {
    if start < ClosingMinute {
      ScheduleBounds(start + SlotMinutes, dateKey, slotsBooked);
    }
  }

  lemma OpeningAndLastTimes()
    ensures FormatTime(OpeningMinute) == "10:00"
    ensures FormatTime(ClosingMinute - SlotMinutes) == "20:30"
  {
    assert NatToString(10) == "10";
    assert NatToString(20) == "20";
    assert NatToString(30) == "30";
  }

  /** Every day after today offers 22 slots, from 10:00 to 20:30. */
  lemma LaterDaySlots(dayIndex: nat, now: nat, dateKey: string, slotsBooked: map<string, seq<string>>)
    requires 1 <= dayIndex
    ensures var s := Schedule(FirstSlotMinute(dayIndex, now), dateKey, slotsBooked);
      && |s| == 22
      && s[0].minute == OpeningMinute && s[0].time == "10:00"
      && s[21].minute == ClosingMinute - SlotMinutes && s[21].time == "20:30"
  {
    ScheduleLength(OpeningMinute, dateKey, slotsBooked);
    ScheduleAt(OpeningMinute, dateKey, slotsBooked, 0);
    ScheduleAt(OpeningMinute, dateKey, slotsBooked, 21);
    OpeningAndLastTimes();
  }

  /** After 20:30 (and so in particular from 21:00 on) today offers no slot. */
  lemma NoSlotsLateToday(now: nat, dateKey: string, slotsBooked: map<string, seq<string>>)
    requires ClosingMinute - SlotMinutes < now < 1440
    ensures Schedule(FirstSlotMinute(0, now), dateKey, slotsBooked) == []
  {
  }

  /** Today never offers a slot that has already begun. */
  lemma TodayNotInPast(now: nat, dateKey: string, slotsBooked: map<string, seq<string>>)
    ensures forall slot :: slot in Schedule(FirstSlotMinute(0, now), dateKey, slotsBooked) ==> now <= slot.minute
  {
    ScheduleBounds(FirstSlotMinute(0, now), dateKey, slotsBooked);
  }

  /** A generated slot is marked booked exactly when `isSlotAvailable` would refuse it. */
  lemma BookedIffUnavailable(start: nat, date: Date, slotsBooked: map<string, seq<string>>)
    requires ValidDate(date)
    ensures forall slot :: slot in Schedule(start, FormatDateForBackend(date), slotsBooked) ==>
      (slot.isBooked <==> !IsSlotAvailable(slotsBooked, date, slot.time))
    decreases ClosingMinute - start
  {
    if start < ClosingMinute {
      BookedIffUnavailable(start + SlotMinutes, date, slotsBooked);
    }
  }

  // ---------------------------------------------------------------------
  // Automatic choice of a slot

  predicate AllBooked(slots: seq<TimeSlot>) {
    forall k :: 0 <= k < |slots| ==> slots[k].isBooked
  }

  /** `slots.find(slot => !slot.isBooked)`. */
  function FirstFree(slots: seq<TimeSlot>): (r: Option<TimeSlot>)
    ensures r.None? <==> AllBooked(slots)
    ensures r.Some? ==> exists k :: 0 <= k < |slots| && slots[k] == r.value && !slots[k].isBooked && AllBooked(slots[..k])
  {
    if slots == [] then None
    else if !slots[0].isBooked then Some(slots[0])
    else
      var r := FirstFree(slots[1..]);
      if r.Some? then
        ghost var k :| 0 <= k < |slots[1..]| && slots[1..][k] == r.value && !slots[1..][k].isBooked && AllBooked(slots[1..][..k]);
        assert slots[k + 1] == r.value && slots[..k + 1] == [slots[0]] + slots[1..][..k];
        r
      else r
  }

  /**
   * The effect run when the selected day changes: the first unbooked time of
   * that day, or "" when all are booked; the selection is left as it was when
   * the day does not exist or has no slot.
   */
  function AutoSelect(days: seq<DaySlots>, slotIndex: int, current: string): string {
    if 0 <= slotIndex < |days| && |days[slotIndex].slots| > 0 then
      match FirstFree(days[slotIndex].slots)
      case Some(slot) => slot.time
      case None => ""
    else current
  }

  lemma AutoSelectOutcome(days: seq<DaySlots>, slotIndex: int, current: string)
    ensures !(0 <= slotIndex < |days| && |days[slotIndex].slots| > 0) ==> AutoSelect(days, slotIndex, current) == current
    ensures 0 <= slotIndex < |days| && |days[slotIndex].slots| > 0 ==>
      var slots := days[slotIndex].slots;
      && (AllBooked(slots) ==> AutoSelect(days, slotIndex, current) == "")
      && (!AllBooked(slots) ==> exists k :: 0 <= k < |slots| && !slots[k].isBooked && AllBooked(slots[..k])
                                          && AutoSelect(days, slotIndex, current) == slots[k].time)
  {
    if 0 <= slotIndex < |days| && |days[slotIndex].slots| > 0 {
      var slots := days[slotIndex].slots;
      var r := FirstFree(slots);
      if r.Some? {
        var k :| 0 <= k < |slots| && slots[k] == r.value && !slots[k].isBooked && AllBooked(slots[..k]);
        assert AutoSelect(days, slotIndex, current) == slots[k].time;
      }
    }
  }

  /** On a later day with an empty ledger, 10:00 is chosen. */
  lemma AutoSelectOpeningWhenFree(today: Date, now: nat, dayIndex: nat, days: seq<DaySlots>, current: string)
    requires ValidDate(today) && 1 <= dayIndex < |days|
    requires days[dayIndex].slots == Schedule(FirstSlotMinute(dayIndex, now), FormatDateForBackend(AddDays(today, dayIndex)), map[])
    ensures AutoSelect(days, dayIndex, current) == "10:00"
  {
    LaterDaySlots(dayIndex, now, FormatDateForBackend(AddDays(today, dayIndex)), map[]);
  }

  // ---------------------------------------------------------------------
  // Booking

  datatype BookingRequest = BookingRequest(userId: string, docId: string, slotDate: string, slotTime: string)

  /** What `bookAppointment` does: stop at the first failed check, or send the request. */
  datatype BookingStep =
    | LoginRequired
    | UserUnknown
    | NoTimeSelected
    | InvalidDate
    | SlotTaken
    | Send(request: BookingRequest)

  predicate DaysValid(days: seq<DaySlots>) {
    forall k :: 0 <= k < |days| ==> ValidDate(days[k].date)
  }

  /** `userData` and its `_id`, when the application context provides them. */
  function BookAppointment(token: string, userId: Option<string>, docId: string, slotTime: string,
                           days: seq<DaySlots>, slotIndex: int, slotsBooked: map<string, seq<string>>): BookingStep
    requires DaysValid(days)
  {
    if token == "" then LoginRequired
    else if userId.None? || userId.value == "" then UserUnknown
    else if slotTime == "" then NoTimeSelected
    else if !(0 <= slotIndex < |days|) then InvalidDate
    else if !IsSlotAvailable(slotsBooked, days[slotIndex].date, slotTime) then SlotTaken
    else Send(BookingRequest(userId.value, docId, FormatDateForBackend(days[slotIndex].date), slotTime))
  }

  /** A request is sent only after every check passed, and it names the selected day's key and a time the ledger does not list for it. */
  lemma BookingSendsOnlyFreeSlots(token: string, userId: Option<string>, docId: string, slotTime: string,
                                  days: seq<DaySlots>, slotIndex: int, slotsBooked: map<string, seq<string>>)
    requires DaysValid(days)
    ensures BookAppointment(token, userId, docId, slotTime, days, slotIndex, slotsBooked).Send? <==>
      token != "" && userId.Some? && userId.value != "" && slotTime != "" && 0 <= slotIndex < |days|
      && !IsBooked(slotsBooked, FormatDateForBackend(days[slotIndex].date), slotTime)
    ensures BookAppointment(token, userId, docId, slotTime, days, slotIndex, slotsBooked).Send? ==>
      BookAppointment(token, userId, docId, slotTime, days, slotIndex, slotsBooked).request
      == BookingRequest(userId.value, docId, FormatDateForBackend(days[slotIndex].date), slotTime)
  {
  }

  /** The checks in order: login first, then the user, the time, the day, and the ledger last. */
  lemma BookingGuardOrder(token: string, userId: Option<string>, docId: string, slotTime: string,
                          days: seq<DaySlots>, slotIndex: int, slotsBooked: map<string, seq<string>>)
    requires DaysValid(days)
    ensures token == "" ==> BookAppointment(token, userId, docId, slotTime, days, slotIndex, slotsBooked) == LoginRequired
    ensures token != "" && (userId.None? || userId == Some("")) ==>
      BookAppointment(token, userId, docId, slotTime, days, slotIndex, slotsBooked) == UserUnknown
    ensures token != "" && userId.Some? && userId.value != "" && slotTime == "" ==>
      BookAppointment(token, userId, docId, slotTime, days, slotIndex, slotsBooked) == NoTimeSelected
    ensures token != "" && userId.Some? && userId.value != "" && slotTime != "" && !(0 <= slotIndex < |days|) ==>
      BookAppointment(token, userId, docId, slotTime, days, slotIndex, slotsBooked) == InvalidDate
    ensures (token != "" && userId.Some? && userId.value != "" && slotTime != "" && 0 <= slotIndex < |days|
      && IsBooked(slotsBooked, FormatDateForBackend(days[slotIndex].date), slotTime)) ==>
      BookAppointment(token, userId, docId, slotTime, days, slotIndex, slotsBooked) == SlotTaken
  {
  }

  // ---------------------------------------------------------------------
  // Display helpers

  /** The `experience` field: absent, a number or a string. */
  datatype Experience = NoExperience | ExpNumber(n: int) | ExpText(s: string)

  function YearWord(years: int): string {
    if years == 1 then "year" else "years"
  }

  /** The template `${years} ${years === 1 ? "year" : "years"} experience`. */
  function YearsText(years: int): string {
    IntToString(years) + " " + YearWord(years) + " experience"
  }

  /** `formatExperience`. */
  function FormatExperience(exp: Experience): string {
    if exp == NoExperience || exp == ExpNumber(0) || exp == ExpText("") then "0 years experience"
    else if exp.ExpText? && (Contains(exp.s, "year") || Contains(exp.s, "Year")) then exp.s
    else
      var years := if exp.ExpNumber? then Some(exp.n) else JsParseInt(exp.s);
      match years
      case None => "0 years experience"
      case Some(y) => YearsText(y)
  }

  lemma YearsTextMentionsYear(years: int)
    ensures Contains(YearsText(years), "year")
  {
    var w := YearWord(years);
    if years == 1 {
      ContainsPrefix(w, "year", []);
      assert "year" + [] == w;
    } else {
      ContainsPrefix(w, "year", "s");
      assert "year" + "s" == w;
    }
    ContainsInside(IntToString(years) + " ", w, " experience", "year");
  }

  /** The fixed fallback text is the template for zero. */
  lemma ZeroYearsText()
    ensures YearsText(0) == "0 years experience"
  {
    assert IntToString(0) == "0";
  }

  /** Whatever the input, the text mentions "year" or "Year". */
  lemma FormatExperienceMentionsYear(exp: Experience)
    ensures Contains(FormatExperience(exp), "year") || Contains(FormatExperience(exp), "Year")
  {
    if exp == NoExperience || exp == ExpNumber(0) || exp == ExpText("") {
      YearsTextMentionsYear(0);
      ZeroYearsText();
    } else if !(exp.ExpText? && (Contains(exp.s, "year") || Contains(exp.s, "Year"))) {
      var years := if exp.ExpNumber? then Some(exp.n) else JsParseInt(exp.s);
      if years.Some? {
        YearsTextMentionsYear(years.value);
      } else {
        YearsTextMentionsYear(0);
        ZeroYearsText();
      }
    }
  }

  /** Formatting an already formatted text changes nothing. */
  lemma FormatExperienceIdempotent(exp: Experience)
    ensures FormatExperience(ExpText(FormatExperience(exp))) == FormatExperience(exp)
  {
    FormatExperienceMentionsYear(exp);
  }

  /** A number of years other than zero is written with the singular only for one. */
  lemma FormatExperienceNumber(n: int)
    requires n != 0
    ensures FormatExperience(ExpNumber(n)) == IntToString(n) + " " + (if n == 1 then "year" else "years") + " experience"
  {
  }

  /** `parseInt` reads a `0x` text in base 16: the years are its hexadecimal value. */
  lemma FormatExperienceHex(marker: char, hex: string)
    requires marker == 'x' || marker == 'X'
    requires hex != [] && AllInRadix(hex, 16)
    ensures FormatExperience(ExpText(['0', marker] + hex)) == YearsText(HexValue(hex))
  {
    var s := ['0', marker] + hex;
    forall i | 0 <= i < |s| ensures s[i] != 'y' && s[i] != 'Y' {
      if i >= 2 {
        assert s[i] == hex[i - 2];
      }
    }
    NotContainsMissingChar(s, "year");
    NotContainsMissingChar(s, "Year");
    ParseIntHex(marker, hex);
  }

  /** "0x1A" is shown as 26 years. */
  lemma FormatExperienceHexExample()
    ensures FormatExperience(ExpText("0x1A")) == YearsText(26)
  {
    assert AllInRadix("1A", 16);
    FormatExperienceHex('x', "1A");
    assert ['0', 'x'] + "1A" == "0x1A";
    assert "1A"[..1] == "1";
    assert HexValue("1A") == 26;
  }

  /** The name starts with "Dr." in any letter case. */
  predicate HasDoctorPrefix(name: string) {
    |name| >= 3 && (name[0] == 'D' || name[0] == 'd') && (name[1] == 'r' || name[1] == 'R') && name[2] == '.'
  }

  /** `formatDoctorName`: drop one leading case-insensitive "Dr." and the whitespace after it. */
  function FormatDoctorName(name: string): string {
    if name == "" then ""
    else if HasDoctorPrefix(name) then TrimStart(name[3..])
    else name
  }

  /**
   * Exactly what `^Dr\.\s*` matches, in any letter case, is removed: the
   * result is the rest of the name after the prefix and the whitespace that
   * follows it, and never starts with whitespace when a prefix was dropped.
   */
  lemma FormatDoctorNameSuffix(name: string)
    ensures var r := FormatDoctorName(name);
      && |r| <= |name| && r == name[|name| - |r|..]
      && (!HasDoctorPrefix(name) ==> r == name)
      && (HasDoctorPrefix(name) ==> r == [] || !IsWhitespace(r[0]))
      && (HasDoctorPrefix(name) ==> |r| <= |name| - 3 && forall i :: 3 <= i < |name| - |r| ==> IsWhitespace(name[i]))
  {
    if HasDoctorPrefix(name) {
      var tail := name[3..];
      TrimStartShape(tail);
      assert tail[|tail| - |TrimStart(tail)|..] == name[|name| - |TrimStart(tail)|..];
    }
  }

  /** Only one prefix is removed: "Dr. " before a name that starts with a letter is removed, nothing more. */
  lemma FormatDoctorNameStripsOnce(rest: string)
    requires rest == [] || !IsWhitespace(rest[0])
    ensures FormatDoctorName("Dr. " + rest) == rest
    ensures FormatDoctorName("dr." + rest) == rest
  {
    assert ("Dr. " + rest)[3..] == " " + rest;
    assert TrimStart(" " + rest) == TrimStart((" " + rest)[1..]);
    assert (" " + rest)[1..] == rest;
    assert ("dr." + rest)[3..] == rest;
  }
}

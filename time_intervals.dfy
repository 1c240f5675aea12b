/** The slot grid of the time-interval panel (frontend/src/TimeIntervals.tsx):
    the fixed half-hour slots from 06:00 to 22:00, each marked available or
    occupied by the first booking of the shown day whose time starts with the
    slot's "HH:MM" label. Times of day are minutes since midnight. */
module TimeIntervals {
  import opened Common
  import opened Interfaces

  const DayMinutes: int := 24 * 60
  /** First slot, 06:00. */
  const Start: int := 6 * 60
  /** Last slot, 22:00 (inclusive). */
  const End: int := 22 * 60
  /** Distance between slots, 30 minutes. */
  const Step: int := 30
  /** Number of slots the grid holds: (End - Start) / Step + 1. */
  const SlotCount: int := 33

  // ---------------------------------------------------------------------------
  // "HH:MM" labels

  predicate IsDigit(c: char)
  {
    '0' <= c <= '9'
  }

  function Digit(d: int): (c: char)
    requires 0 <= d < 10
  {
    ('0' as int + d) as char
  }

  function DigitValue(c: char): int
  {
    c as int - '0' as int
  }

  /** The zero-padded "HH:MM" of a minute of the day, as
      `toTimeString().slice(0, 5)` writes it. */
  function Label(m: int): (s: string)
    requires 0 <= m < DayMinutes
    ensures |s| == 5 && s[2] == ':'
    ensures IsDigit(s[0]) && IsDigit(s[1]) && IsDigit(s[3]) && IsDigit(s[4])
    ensures 10 * DigitValue(s[0]) + DigitValue(s[1]) == m / 60
    ensures 10 * DigitValue(s[3]) + DigitValue(s[4]) == m % 60
  {
    var h, mm := m / 60, m % 60;
    DigitRoundTrip(h / 10);
    DigitRoundTrip(h % 10);
    DigitRoundTrip(mm / 10);
    DigitRoundTrip(mm % 10);
    [Digit(h / 10), Digit(h % 10), ':', Digit(mm / 10), Digit(mm % 10)]
  }

  /** Reads a well-formed "HH:MM" (hours below 24, minutes below 60) back into
      a minute of the day; anything else is None. */
  function ParseLabel(s: string): (r: Option<int>)
    ensures r.Some? ==> 0 <= r.value < DayMinutes
  {
    if |s| == 5 && IsDigit(s[0]) && IsDigit(s[1]) && s[2] == ':' && IsDigit(s[3]) && IsDigit(s[4]) then
      var h := 10 * DigitValue(s[0]) + DigitValue(s[1]);
      var mm := 10 * DigitValue(s[3]) + DigitValue(s[4]);
      if h < 24 && mm < 60 then Some(60 * h + mm) else None
    else
      None
  }

  lemma DigitRoundTrip(d: int)
    requires 0 <= d < 10
    ensures IsDigit(Digit(d)) && DigitValue(Digit(d)) == d
  {
  }

  /** Parsing a label gives back its minute. */
  lemma LabelRoundTrip(m: int)
    requires 0 <= m < DayMinutes
    ensures ParseLabel(Label(m)) == Some(m)
  {
    var h, mm := m / 60, m % 60;
    assert h < 24;
    DigitRoundTrip(h / 10);
    DigitRoundTrip(h % 10);
    DigitRoundTrip(mm / 10);
    DigitRoundTrip(mm % 10);
    var s := Label(m);
    assert 10 * DigitValue(s[0]) + DigitValue(s[1]) == h;
    assert 10 * DigitValue(s[3]) + DigitValue(s[4]) == mm;
  }

  /** Every well-formed "HH:MM" is the label of the minute it denotes. With
      LabelRoundTrip this makes Label a bijection onto well-formed strings. */
  lemma ParseLabelRoundTrip(s: string)
    requires ParseLabel(s).Some?
    ensures Label(ParseLabel(s).value) == s
  {
    var d0, d1, d3, d4 := DigitValue(s[0]), DigitValue(s[1]), DigitValue(s[3]), DigitValue(s[4]);
    var h, mm := 10 * d0 + d1, 10 * d3 + d4;
    var m := 60 * h + mm;
    assert m / 60 == h && m % 60 == mm;
    assert h / 10 == d0 && h % 10 == d1;
    assert mm / 10 == d3 && mm % 10 == d4;
    var t := Label(m);
    assert t[0] == s[0] && t[1] == s[1] && t[2] == s[2] && t[3] == s[3] && t[4] == s[4];
  }

  /** Distinct minutes have distinct labels. */
  lemma LabelInjective(m1: int, m2: int)
    requires 0 <= m1 < DayMinutes && 0 <= m2 < DayMinutes
    ensures Label(m1) == Label(m2) <==> m1 == m2
  {
    LabelRoundTrip(m1);
    LabelRoundTrip(m2);
  }

  // ---------------------------------------------------------------------------
  // Matching bookings against slots

  /** JavaScript's `s.slice(0, n)`. */
  function Slice(s: string, n: nat): (r: string)
    ensures |r| == if |s| < n then |s| else n
    ensures r <= s
  {
    if |s| <= n then s else s[..n]
  }

  /** The predicate `find` applies to each booking: same calendar day as the
      shown date, and the booking's time cut to five characters is exactly the
      slot's label. */
  predicate Matches(b: Booking, date: Day, timeString: string): (r: bool)
    ensures r <==> b.date == date && timeString <= b.time
                   && |timeString| == (if |b.time| < 5 then |b.time| else 5)
  {
    b.date == date && Slice(b.time, 5) == timeString
  }

  /** Position of the first matching booking (JavaScript's `findIndex`), or
      |schedule| when none matches. */
  function FirstMatch(schedule: seq<Booking>, date: Day, timeString: string): (r: int)
    ensures 0 <= r <= |schedule|
    ensures forall j :: 0 <= j < r ==> !Matches(schedule[j], date, timeString)
    ensures r < |schedule| ==> Matches(schedule[r], date, timeString)
  {
    if schedule == [] then 0
    else if Matches(schedule[0], date, timeString) then 0
    else 1 + FirstMatch(schedule[1..], date, timeString)
  }

  /** `schedule.find(...)`: the first matching booking, if any. */
  function Find(schedule: seq<Booking>, date: Day, timeString: string): (r: Option<Booking>)
    ensures r.None? <==> forall j :: 0 <= j < |schedule| ==> !Matches(schedule[j], date, timeString)
    ensures r.Some? ==> Matches(r.value, date, timeString)
    ensures r.Some? ==> exists i :: (0 <= i < |schedule| && schedule[i] == r.value
      && forall j :: 0 <= j < i ==> !Matches(schedule[j], date, timeString))
  {
    var i := FirstMatch(schedule, date, timeString);
    if i < |schedule| then Some(schedule[i]) else None
  }

  // ---------------------------------------------------------------------------
  // The grid

  /** One rendered slot. `timeString` and `booking` are exactly what a click on the
      slot reports (`onSelectTime(timeString, booking || null)`); the three
      flags are the CSS classes 'available', 'selected' and 'selected-booking'. */
  datatype Interval = Interval(timeString: string, booking: Option<Booking>,
                               available: bool, selected: bool, selectedBooking: bool)

  function SlotMinute(k: int): int
  {
    Start + Step * k
  }

  /** The slot at minute m, as one iteration of the rendering loop builds it. */
  function IntervalAt(schedule: seq<Booking>, date: Day, selectedTime: Option<string>,
                      selectedBooking: Option<Booking>, m: int): (iv: Interval)
    requires 0 <= m < DayMinutes
    ensures iv.timeString == Label(m)
    ensures iv.available <==> iv.booking.None?
    ensures iv.available <==> forall j :: 0 <= j < |schedule| ==> !Matches(schedule[j], date, Label(m))
    ensures iv.booking.Some? ==> iv.booking.value in schedule && Matches(iv.booking.value, date, Label(m))
    ensures iv.selected <==> selectedTime == Some(Label(m))
  {
    var timeString := Label(m);
    var booking := Find(schedule, date, timeString);
    Interval(timeString, booking, booking.None?, selectedTime == Some(timeString),
             selectedBooking.Some? && Slice(selectedBooking.value.time, 5) == timeString)
  }

  /** The whole grid, slot k at minute Start + Step * k. */
  function Grid(schedule: seq<Booking>, date: Day, selectedTime: Option<string>,
                selectedBooking: Option<Booking>): (g: seq<Interval>)
    ensures |g| == SlotCount
    ensures forall k :: 0 <= k < SlotCount ==> g[k].timeString == Label(SlotMinute(k))
  {
    GridPrefix(schedule, date, selectedTime, selectedBooking, SlotCount)
  }

  /** The first n slots of the grid. */
  function GridPrefix(schedule: seq<Booking>, date: Day, selectedTime: Option<string>,
                      selectedBooking: Option<Booking>, n: int): (g: seq<Interval>)
    requires 0 <= n <= SlotCount
    ensures |g| == n
  {
    seq(n, k requires 0 <= k < n =>
      IntervalAt(schedule, date, selectedTime, selectedBooking, SlotMinute(k)))
  }

  /** One more step of the rendering loop adds the next slot of the grid. */
  lemma GridPrefixStep(schedule: seq<Booking>, date: Day, selectedTime: Option<string>,
                       selectedBooking: Option<Booking>, n: int)
    requires 0 <= n < SlotCount
    ensures GridPrefix(schedule, date, selectedTime, selectedBooking, n + 1)
      == GridPrefix(schedule, date, selectedTime, selectedBooking, n)
         + [IntervalAt(schedule, date, selectedTime, selectedBooking, SlotMinute(n))]
  {
  }

  /** `renderTimeIntervals`: nothing (and no exception) for a schedule that is
      not an array; otherwise the loop that walks from 06:00 to 22:00, both
      included, in 30-minute steps, and renders one slot per step. */
  method RenderTimeIntervals(schedule: Payload, date: Day, selectedTime: Option<string>,
                             selectedBooking: Option<Booking>)
    returns (r: Option<seq<Interval>>)
    ensures r.None? <==> schedule.NotAList?
    ensures schedule.List? ==> r == Some(Grid(schedule.items, date, selectedTime, selectedBooking))
  {
    if !schedule.List? {
      return None;
    }
    var bookings := schedule.items;
    var intervals: seq<Interval> := [];
    var current := Start;
    while current <= End
      invariant current == SlotMinute(|intervals|) && |intervals| <= SlotCount
      invariant intervals == GridPrefix(bookings, date, selectedTime, selectedBooking, |intervals|)
    {
      var timeString := Label(current);
      var booking := Find(bookings, date, timeString);
      var isAvailable := booking.None?;
      var interval := Interval(timeString, booking, isAvailable, selectedTime == Some(timeString),
                               selectedBooking.Some? && Slice(selectedBooking.value.time, 5) == timeString);
      assert interval == IntervalAt(bookings, date, selectedTime, selectedBooking, current);
      GridPrefixStep(bookings, date, selectedTime, selectedBooking, |intervals|);
      intervals := intervals + [interval];
      current := current + Step;
    }
    assert |intervals| == SlotCount;
    return Some(intervals);
  }


  // ---------------------------------------------------------------------------
  // Properties of the grid

  /** The labels of the first and the last slot. */
  lemma FirstAndLastLabel()
    ensures Label(SlotMinute(0)) == "06:00" && Label(SlotMinute(32)) == "22:00"
  {
    assert Label(360) == "06:00";
    assert Label(1320) == "22:00";
  }

  /** Exactly 33 slots, from 06:00 to 22:00 in ascending half-hour steps; each
      label is the zero-padded "HH:MM" of its minute, so no label repeats. */
  lemma GridSlots(schedule: seq<Booking>, date: Day, selectedTime: Option<string>,
                  selectedBooking: Option<Booking>)
    ensures var g := Grid(schedule, date, selectedTime, selectedBooking);
      && |g| == 33
      && g[0].timeString == "06:00" && g[32].timeString == "22:00"
      && (forall k :: 0 <= k < |g| ==>
            Start <= SlotMinute(k) <= End && ParseLabel(g[k].timeString) == Some(SlotMinute(k)))
      && (forall i, j :: 0 <= i < j < |g| ==>
            ParseLabel(g[i].timeString).value < ParseLabel(g[j].timeString).value
            && g[i].timeString != g[j].timeString)
  {
    var g := Grid(schedule, date, selectedTime, selectedBooking);
    FirstAndLastLabel();
    assert g[0].timeString == Label(SlotMinute(0));
    assert g[32].timeString == Label(SlotMinute(32));
    forall k | 0 <= k < |g|
      ensures Start <= SlotMinute(k) <= End && ParseLabel(g[k].timeString) == Some(SlotMinute(k))
    {
      LabelRoundTrip(SlotMinute(k));
    }
    forall i, j | 0 <= i < j < |g|
      ensures ParseLabel(g[i].timeString).value < ParseLabel(g[j].timeString).value
    {
      assert ParseLabel(g[i].timeString) == Some(SlotMinute(i));
      assert ParseLabel(g[j].timeString) == Some(SlotMinute(j));
    }
  }

  /** A slot is available iff no booking of the shown day has its label; an
      occupied slot carries the first such booking in schedule order. */
  lemma GridOccupancy(schedule: seq<Booking>, date: Day, selectedTime: Option<string>,
                      selectedBooking: Option<Booking>, k: int)
    requires 0 <= k < SlotCount
    ensures var iv := Grid(schedule, date, selectedTime, selectedBooking)[k];
      && (iv.available <==> iv.booking.None?)
      && (iv.available <==> forall i :: 0 <= i < |schedule| ==> !Matches(schedule[i], date, iv.timeString))
      && (iv.booking.Some? ==>
            exists i :: 0 <= i < |schedule| && schedule[i] == iv.booking.value
                     && Matches(schedule[i], date, iv.timeString)
                     && forall j :: 0 <= j < i ==> !Matches(schedule[j], date, iv.timeString))
  {
    var iv := Grid(schedule, date, selectedTime, selectedBooking)[k];
    var i := FirstMatch(schedule, date, iv.timeString);
    if i < |schedule| {
      assert schedule[i] == iv.booking.value;
    }
  }

  /** The 'selected' flag holds iff the selected time is the slot's label; the
      'selected-booking' flag compares only the selected booking's time, cut to
      "HH:MM", with the label: a selected booking of another day still lights
      up the slot of the same time. */
  lemma GridSelection(schedule: seq<Booking>, date: Day, selectedTime: Option<string>,
                      b: Booking, otherDay: Day, k: int)
    requires 0 <= k < SlotCount
    ensures var iv := Grid(schedule, date, selectedTime, Some(b))[k];
      && (iv.selected <==> selectedTime == Some(Label(SlotMinute(k))))
      && (iv.selectedBooking <==> Slice(b.time, 5) == Label(SlotMinute(k)))
      && iv.selectedBooking == Grid(schedule, date, selectedTime, Some(b.(date := otherDay)))[k].selectedBooking
  {
  }

  /** A booking whose time does not start with a grid label (it is not
      "HH:MM", or it is off the half-hour grid, such as "09:05", or outside
      06:00-22:00), or whose day is another one, matches no slot. */
  lemma OffGridBookingMatchesNoSlot(b: Booking, date: Day, k: int)
    requires 0 <= k < SlotCount
    requires b.date != date || ParseLabel(Slice(b.time, 5)).None?
          || ParseLabel(Slice(b.time, 5)).value % Step != 0
          || ParseLabel(Slice(b.time, 5)).value < Start
          || ParseLabel(Slice(b.time, 5)).value > End
    ensures !Matches(b, date, Label(SlotMinute(k)))
  {
    if Matches(b, date, Label(SlotMinute(k))) {
      LabelRoundTrip(SlotMinute(k));
    }
  }

  /** "09:05" lies between two slots, so a booking at 09:05 occupies none. */
  lemma NineOhFiveOccupiesNoSlot(schedule: seq<Booking>, date: Day, selectedTime: Option<string>,
                                 selectedBooking: Option<Booking>)
    requires forall i :: 0 <= i < |schedule| ==> Slice(schedule[i].time, 5) == "09:05"
    ensures forall k :: 0 <= k < SlotCount ==> Grid(schedule, date, selectedTime, selectedBooking)[k].available
  {
    assert ParseLabel("09:05") == Some(545);
    forall k, i | 0 <= k < SlotCount && 0 <= i < |schedule|
      ensures !Matches(schedule[i], date, Label(SlotMinute(k)))
    {
      OffGridBookingMatchesNoSlot(schedule[i], date, k);
    }
  }

  /** Bookings of other days never occupy a slot. */
  lemma OtherDaysOccupyNoSlot(schedule: seq<Booking>, date: Day, selectedTime: Option<string>,
                              selectedBooking: Option<Booking>)
    requires forall i :: 0 <= i < |schedule| ==> schedule[i].date != date
    ensures forall k :: 0 <= k < SlotCount ==> Grid(schedule, date, selectedTime, selectedBooking)[k].available
  {
    forall k | 0 <= k < SlotCount
      ensures Grid(schedule, date, selectedTime, selectedBooking)[k].available
    {
      GridOccupancy(schedule, date, selectedTime, selectedBooking, k);
    }
  }

  /** A single booking of the shown day at "14:00" occupies exactly the 14:00
      slot (slot 16) and leaves the 32 others available. */
  lemma SingleBookingOccupiesOneSlot(b: Booking, date: Day, selectedTime: Option<string>,
                                     selectedBooking: Option<Booking>)
    requires b.date == date && Slice(b.time, 5) == "14:00"
    ensures var g := Grid([b], date, selectedTime, selectedBooking);
      && g[16].booking == Some(b)
      && forall k :: 0 <= k < SlotCount ==> (g[k].available <==> k != 16)
  {
    var g := Grid([b], date, selectedTime, selectedBooking);
    assert Label(SlotMinute(16)) == "14:00";
    forall k | 0 <= k < SlotCount
      ensures g[k].available <==> k != 16
    {
      LabelInjective(SlotMinute(k), SlotMinute(16));
    }
  }
}

/**
 * The booking calendar: the fixed catalog of hourly slots, the month's
 * occupancy map (date -> booked times) built from the `paid` bookings, the
 * booked slots of the selected day, the red day marker, the tagging of the
 * day schedule and the click guard on booked slots.
 */
module Calendar {
  import opened Common
  import opened BookingStore

  // ---------------------------------------------------------------------------
  // The slot catalog `${9 + i}:00`, i = 0..9

  function DigitChar(d: nat): char
    requires d < 10
  {
    ('0' as int + d) as char
  }

  /** Decimal rendering of a natural number, as a template literal prints it. */
  function Digits(n: nat): (r: string)
    ensures |r| >= 1
    ensures forall k :: 0 <= k < |r| ==> '0' <= r[k] <= '9'
  {
    if n < 10 then [DigitChar(n)] else Digits(n / 10) + [DigitChar(n % 10)]
  }

  /** Reads a string of decimal digits back. */
  function ParseDigits(s: string): nat
  {
    if s == [] then 0
    else ParseDigits(s[..|s| - 1]) * 10 + (if '0' <= s[|s| - 1] <= '9' then s[|s| - 1] as int - '0' as int else 0)
  }

  lemma {:induction false} ParseDigitsRoundTrip(n: nat)
    ensures ParseDigits(Digits(n)) == n
  {
    if n >= 10 {
      var s := Digits(n);
      assert s[..|s| - 1] == Digits(n / 10);
      ParseDigitsRoundTrip(n / 10);
    }
  }

  function SlotLabel(hour: nat): string {
    Digits(hour) + ":00"
  }

  /** The hour a slot label stands for. */
  function SlotHour(slot: string): nat {
    if |slot| < 3 then 0 else ParseDigits(slot[..|slot| - 3])
  }

  lemma SlotHourOfLabel(hour: nat)
    ensures SlotHour(SlotLabel(hour)) == hour
  {
    var l := SlotLabel(hour);
    assert l[..|l| - 3] == Digits(hour);
    ParseDigitsRoundTrip(hour);
  }

  /** `Array.from({ length: 10 }, (_, i) => `${9 + i}:00`)`. */
  function TimeSlots(): seq<string> {
    seq(10, i requires 0 <= i < 10 => SlotLabel(9 + i))
  }

  /**
   * The catalog has ten slots from "9:00" to "18:00", one per hour in
   * increasing order, hence without duplicates.
   */
  lemma TimeSlotsCatalog()
    ensures |TimeSlots()| == 10
    ensures TimeSlots()[0] == "9:00" && TimeSlots()[9] == "18:00"
    ensures forall i :: 0 <= i < 10 ==> SlotHour(TimeSlots()[i]) == 9 + i
    ensures forall i, j :: 0 <= i < j < 10 ==> TimeSlots()[i] != TimeSlots()[j]
  {
    forall i | 0 <= i < 10 ensures SlotHour(TimeSlots()[i]) == 9 + i {
      SlotHourOfLabel(9 + i);
    }
    assert Digits(18) == Digits(1) + [DigitChar(8)];
  }

  // ---------------------------------------------------------------------------
  // The month's occupancy map

  /** Lexicographic order on strings; on "YYYY-MM-DD" dates it is calendar order. */
  predicate DateLe(a: string, b: string)
    decreases |a|
  {
    a == [] || (b != [] && (a[0] < b[0] || (a[0] == b[0] && DateLe(a[1..], b[1..]))))
  }

  /** Rows occupying a slot on the calendar: status "paid" and a date within the month window. */
  predicate Occupying(b: Booking, startOfMonth: string, endOfMonth: string) {
    b.status == Paid && DateLe(startOfMonth, b.date) && DateLe(b.date, endOfMonth)
  }

  /**
   * `select("date, time").gte("date", startOfMonth).lte("date", endOfMonth).eq("status", "paid")`:
   * the rows the query returns, in table order.
   */
  function OccupyingQuery(table: seq<Booking>, startOfMonth: string, endOfMonth: string): seq<Booking>
  {
    Filter(table, (b: Booking) => Occupying(b, startOfMonth, endOfMonth))
  }

  /** The times of the rows dated `d`, in row order. */
  function TimesOn(rows: seq<Booking>, d: string): seq<string>
  {
    if rows == [] then []
    else (if rows[0].date == d then [rows[0].time] else []) + TimesOn(rows[1..], d)
  }

  function DatesOf(rows: seq<Booking>): set<string> {
    set i | 0 <= i < |rows| :: rows[i].date
  }

  /** The map `fetchBooked` builds: each date that has rows maps to their times. */
  function Grouped(rows: seq<Booking>): map<string, seq<string>> {
    map d | d in DatesOf(rows) :: TimesOn(rows, d)
  }

  lemma {:induction false} TimesOnAppend(rows: seq<Booking>, b: Booking, d: string)
    ensures TimesOn(rows + [b], d) == TimesOn(rows, d) + (if b.date == d then [b.time] else [])
  {
    if rows != [] {
      assert (rows + [b])[1..] == rows[1..] + [b];
      TimesOnAppend(rows[1..], b, d);
    }
  }

  lemma {:induction false} TimesOnAbsent(rows: seq<Booking>, d: string)
    requires d !in DatesOf(rows)
    ensures TimesOn(rows, d) == []
  {
    if rows != [] {
      assert rows[0].date in DatesOf(rows);
      assert DatesOf(rows[1..]) <= DatesOf(rows) by {
        forall x | x in DatesOf(rows[1..]) ensures x in DatesOf(rows) {
          var i :| 0 <= i < |rows[1..]| && rows[1..][i].date == x;
          assert rows[i + 1].date == x;
        }
      }
      TimesOnAbsent(rows[1..], d);
    }
  }

  lemma {:induction false} TimesOnMember(rows: seq<Booking>, i: nat)
    requires i < |rows|
    ensures rows[i].time in TimesOn(rows, rows[i].date)
  {
    if i > 0 {
      TimesOnMember(rows[1..], i - 1);
    }
  }

  lemma DatesOfSnoc(rows: seq<Booking>, b: Booking)
    ensures DatesOf(rows + [b]) == DatesOf(rows) + {b.date}
  {
    var next := rows + [b];
    forall x | x in DatesOf(next) ensures x in DatesOf(rows) + {b.date} {
      var k :| 0 <= k < |next| && next[k].date == x;
      if k < |rows| { assert rows[k].date == x; }
    }
    forall x | x in DatesOf(rows) ensures x in DatesOf(next) {
      var k :| 0 <= k < |rows| && rows[k].date == x;
      assert next[k].date == x;
    }
    assert next[|rows|].date == b.date;
  }

  /** One more row appends its time to its date's list, starting the list when the date is new. */
  lemma GroupedSnoc(rows: seq<Booking>, b: Booking)
    ensures var g := Grouped(rows);
      Grouped(rows + [b]) == g[b.date := (if b.date in g then g[b.date] else []) + [b.time]]
  {
    var g := Grouped(rows);
    var g' := g[b.date := (if b.date in g then g[b.date] else []) + [b.time]];
    DatesOfSnoc(rows, b);
    forall d | d in DatesOf(rows + [b]) ensures Grouped(rows + [b])[d] == g'[d] {
      TimesOnAppend(rows, b, d);
      if d == b.date && d !in DatesOf(rows) {
        TimesOnAbsent(rows, d);
      }
    }
    assert Grouped(rows + [b]).Keys == g'.Keys;
  }

  /**
   * `data.forEach(b => { if (!map[b.date]) map[b.date] = []; map[b.date].push(b.time); })`.
   */
  method GroupByDate(rows: seq<Booking>) returns (m: map<string, seq<string>>)
    ensures m == Grouped(rows)
  {
    m := map[];
    var i := 0;
    while i < |rows|
      invariant 0 <= i <= |rows|
      invariant m == Grouped(rows[..i])
    {
      var b := rows[i];
      assert rows[..i + 1] == rows[..i] + [b];
      GroupedSnoc(rows[..i], b);
      if b.date !in m {
        m := m[b.date := []];
      }
      m := m[b.date := m[b.date] + [b.time]];
      i := i + 1;
    }
    assert rows[..i] == rows;
  }

  /**
   * The `fetchBooked` effect: on a query error the previous map is kept
   * (the calendar keeps showing stale data); otherwise the map is rebuilt
   * from the rows the query returns.
   */
  method FetchBooked(previous: map<string, seq<string>>, table: seq<Booking>,
                     startOfMonth: string, endOfMonth: string, queryFails: bool)
    returns (bookedDates: map<string, seq<string>>)
    ensures queryFails ==> bookedDates == previous
    ensures !queryFails ==> bookedDates == Grouped(OccupyingQuery(table, startOfMonth, endOfMonth))
  {
    if queryFails {
      return previous;
    }
    bookedDates := GroupByDate(OccupyingQuery(table, startOfMonth, endOfMonth));
  }

  /** Every fetched row's time is listed under its date. */
  lemma GroupedHasEveryRow(rows: seq<Booking>)
    ensures forall i :: 0 <= i < |rows| ==> rows[i].date in Grouped(rows) && rows[i].time in Grouped(rows)[rows[i].date]
  {
    forall i | 0 <= i < |rows| ensures rows[i].date in Grouped(rows) && rows[i].time in Grouped(rows)[rows[i].date] {
      TimesOnMember(rows, i);
    }
  }

  /** The keys are exactly the dates of the rows (a date without rows has no key) and no list is empty. */
  lemma {:induction false} GroupedKeys(rows: seq<Booking>)
    ensures Grouped(rows).Keys == DatesOf(rows)
    ensures forall d :: d in Grouped(rows) ==> Grouped(rows)[d] != []
  {
    forall d | d in Grouped(rows) ensures Grouped(rows)[d] != [] {
      var i :| 0 <= i < |rows| && rows[i].date == d;
      TimesOnMember(rows, i);
    }
  }

  // Counting: the lists of the map hold exactly as many times as there are rows.

  /** The dates of `rows` in order of first appearance. */
  function DistinctDates(rows: seq<Booking>): seq<string>
  {
    if rows == [] then []
    else
      var ds := DistinctDates(rows[..|rows| - 1]);
      if rows[|rows| - 1].date in ds then ds else ds + [rows[|rows| - 1].date]
  }

  /** The total length of the lists stored under the dates `ds`. */
  function TotalTimes(m: map<string, seq<string>>, ds: seq<string>): nat
  {
    if ds == [] then 0 else (if ds[0] in m then |m[ds[0]]| else 0) + TotalTimes(m, ds[1..])
  }

  function TimesTotal(rows: seq<Booking>, ds: seq<string>): nat
  {
    if ds == [] then 0 else |TimesOn(rows, ds[0])| + TimesTotal(rows, ds[1..])
  }

  lemma {:induction false} DistinctDatesSpec(rows: seq<Booking>)
    ensures forall d :: d in DistinctDates(rows) <==> d in DatesOf(rows)
    ensures forall i, j :: 0 <= i < j < |DistinctDates(rows)| ==> DistinctDates(rows)[i] != DistinctDates(rows)[j]
  {
    if rows != [] {
      var front := rows[..|rows| - 1];
      DistinctDatesSpec(front);
      assert DatesOf(rows) == DatesOf(front) + {rows[|rows| - 1].date} by {
        forall x | x in DatesOf(rows) ensures x in DatesOf(front) + {rows[|rows| - 1].date} {
          var k :| 0 <= k < |rows| && rows[k].date == x;
          if k < |rows| - 1 { assert front[k].date == x; }
        }
        forall x | x in DatesOf(front) ensures x in DatesOf(rows) {
          var k :| 0 <= k < |front| && front[k].date == x;
          assert rows[k].date == x;
        }
      }
    }
  }

  lemma {:induction false} TimesTotalSnoc(rows: seq<Booking>, ds: seq<string>, d: string)
    ensures TimesTotal(rows, ds + [d]) == TimesTotal(rows, ds) + |TimesOn(rows, d)|
  {
    if ds != [] {
      assert (ds + [d])[1..] == ds[1..] + [d];
      TimesTotalSnoc(rows, ds[1..], d);
    }
  }

  lemma {:induction false} TimesTotalAppendRow(rows: seq<Booking>, b: Booking, ds: seq<string>)
    requires forall i, j :: 0 <= i < j < |ds| ==> ds[i] != ds[j]
    ensures TimesTotal(rows + [b], ds) == TimesTotal(rows, ds) + (if b.date in ds then 1 else 0)
  {
    if ds != [] {
      TimesOnAppend(rows, b, ds[0]);
      TimesTotalAppendRow(rows, b, ds[1..]);
      if b.date == ds[0] {
        assert b.date !in ds[1..];
      }
    }
  }

  lemma {:induction false} TimesTotalOfDistinct(rows: seq<Booking>)
    ensures TimesTotal(rows, DistinctDates(rows)) == |rows|
  {
    if rows != [] {
      var front := rows[..|rows| - 1];
      var b := rows[|rows| - 1];
      assert rows == front + [b];
      var ds := DistinctDates(front);
      TimesTotalOfDistinct(front);
      DistinctDatesSpec(front);
      TimesTotalAppendRow(front, b, ds);
      if b.date !in ds {
        TimesTotalSnoc(rows, ds, b.date);
        TimesOnAppend(front, b, b.date);
        TimesOnAbsent(front, b.date);
      }
    }
  }

  lemma {:induction false} TotalTimesGrouped(rows: seq<Booking>, ds: seq<string>)
    requires forall k :: 0 <= k < |ds| ==> ds[k] in DatesOf(rows)
    ensures TotalTimes(Grouped(rows), ds) == TimesTotal(rows, ds)
  {
    if ds != [] {
      TotalTimesGrouped(rows, ds[1..]);
    }
  }

  /**
   * Summed over the distinct dates (which are exactly the keys), the lists
   * of the map hold one time per fetched row.
   */
  lemma GroupedTotal(rows: seq<Booking>)
    ensures forall d :: d in DistinctDates(rows) <==> d in Grouped(rows)
    ensures TotalTimes(Grouped(rows), DistinctDates(rows)) == |rows|
  {
    DistinctDatesSpec(rows);
    TotalTimesGrouped(rows, DistinctDates(rows));
    TimesTotalOfDistinct(rows);
  }

  // ---------------------------------------------------------------------------
  // Selected day, day marker, day schedule

  /** `bookedDates[day] || []`. */
  function BookedSlotsFor(bookedDates: map<string, seq<string>>, day: string): seq<string> {
    if day in bookedDates then bookedDates[day] else []
  }

  /** `tileContent`: a day gets the red marker iff its list exists and is non-empty. */
  predicate HasMarker(bookedDates: map<string, seq<string>>, day: string) {
    day in bookedDates && |bookedDates[day]| > 0
  }

  /**
   * What the calendar shows after a successful fetch: time `t` is booked on
   * `day` iff a paid booking of the month window holds `(day, t)`; pending,
   * accepted or rejected rows never occupy a slot.
   */
  lemma BookedSlotIff(table: seq<Booking>, startOfMonth: string, endOfMonth: string, day: string, t: string)
    ensures var q := OccupyingQuery(table, startOfMonth, endOfMonth);
      t in BookedSlotsFor(Grouped(q), day) <==>
      exists i :: 0 <= i < |table| && table[i].date == day && table[i].time == t && Occupying(table[i], startOfMonth, endOfMonth)
  {
    var q := OccupyingQuery(table, startOfMonth, endOfMonth);
    GroupedSlotIff(q, day, t);
    FilteredSlotIff(table, (b: Booking) => Occupying(b, startOfMonth, endOfMonth), day, t);
  }

  /** Some kept row holds `(day, t)` exactly when some row of the table that passes `p` does. */
  lemma FilteredSlotIff(table: seq<Booking>, p: Booking -> bool, day: string, t: string)
    ensures var q := Filter(table, p);
      (exists k :: 0 <= k < |q| && q[k].date == day && q[k].time == t) <==>
      (exists i :: 0 <= i < |table| && table[i].date == day && table[i].time == t && p(table[i]))
  {
    var q := Filter(table, p);
    if exists k :: 0 <= k < |q| && q[k].date == day && q[k].time == t {
      var k :| 0 <= k < |q| && q[k].date == day && q[k].time == t;
      KeptRowInTable(table, p, k);
    }
    if exists i :: 0 <= i < |table| && table[i].date == day && table[i].time == t && p(table[i]) {
      var i :| 0 <= i < |table| && table[i].date == day && table[i].time == t && p(table[i]);
      PassingRowKept(table, p, i);
    }
  }

  /** A row the filter keeps comes from the table and passes the test. */
  lemma KeptRowInTable(table: seq<Booking>, p: Booking -> bool, k: nat)
    requires k < |Filter(table, p)|
    ensures exists i :: 0 <= i < |table| && table[i] == Filter(table, p)[k] && p(table[i])
  {
    var q := Filter(table, p);
    assert q[k] in table;
    var i :| 0 <= i < |table| && table[i] == q[k];
  }

  /** A row of the table that passes the test is kept. */
  lemma PassingRowKept(table: seq<Booking>, p: Booking -> bool, i: nat)
    requires i < |table| && p(table[i])
    ensures exists k :: 0 <= k < |Filter(table, p)| && Filter(table, p)[k] == table[i]
  {
    assert table[i] in Filter(table, p);
  }

  /** A time is listed under a day exactly when some row holds that day and time. */
  lemma GroupedSlotIff(rows: seq<Booking>, day: string, t: string)
    ensures t in BookedSlotsFor(Grouped(rows), day) <==>
      exists k :: 0 <= k < |rows| && rows[k].date == day && rows[k].time == t
  {
    if t in BookedSlotsFor(Grouped(rows), day) {
      TimesOnRow(rows, day, t);
    }
    if exists k :: 0 <= k < |rows| && rows[k].date == day && rows[k].time == t {
      var k :| 0 <= k < |rows| && rows[k].date == day && rows[k].time == t;
      TimesOnMember(rows, k);
    }
  }

  lemma {:induction false} TimesOnRow(rows: seq<Booking>, d: string, t: string)
    requires t in TimesOn(rows, d)
    ensures exists k :: 0 <= k < |rows| && rows[k].date == d && rows[k].time == t
  {
    if rows[0].date == d && rows[0].time == t {
    } else {
      TimesOnRow(rows[1..], d, t);
      var k :| 0 <= k < |rows[1..]| && rows[1..][k].date == d && rows[1..][k].time == t;
      assert rows[k + 1].date == d;
    }
  }

  /** After a successful fetch, a day is marked iff at least one occupying row lies on it. */
  lemma MarkerIff(rows: seq<Booking>, day: string)
    ensures HasMarker(Grouped(rows), day) <==> exists i :: 0 <= i < |rows| && rows[i].date == day
  {
    GroupedKeys(rows);
    if exists i :: 0 <= i < |rows| && rows[i].date == day {
      var i :| 0 <= i < |rows| && rows[i].date == day;
      assert day in DatesOf(rows);
    }
  }

  datatype SlotTag = Booked | Selected | Available

  datatype SlotView = SlotView(slot: string, tag: SlotTag)

  /** The class chosen for one slot: booked wins over selected. */
  function TagOf(slot: string, bookedSlots: seq<string>, time: string): SlotTag {
    if slot in bookedSlots then Booked else if slot == time then Selected else Available
  }

  /** The "Day Schedule" grid: one entry per catalog slot, in catalog order. */
  function DaySchedule(bookedSlots: seq<string>, time: string): seq<SlotView> {
    seq(|TimeSlots()|, i requires 0 <= i < |TimeSlots()| => SlotView(TimeSlots()[i], TagOf(TimeSlots()[i], bookedSlots, time)))
  }

  /**
   * The grid always has the ten catalog slots; a slot is Booked iff it is
   * among the day's booked slots, Selected iff it is the chosen time and not
   * booked, Available otherwise.
   */
  lemma DayScheduleComplete(bookedSlots: seq<string>, time: string)
    ensures |DaySchedule(bookedSlots, time)| == 10
    ensures forall i :: 0 <= i < 10 ==>
      var v := DaySchedule(bookedSlots, time)[i];
      && v.slot == TimeSlots()[i]
      && (v.tag == Booked <==> v.slot in bookedSlots)
      && (v.tag == Selected <==> v.slot !in bookedSlots && v.slot == time)
      && (v.tag == Available <==> v.slot !in bookedSlots && v.slot != time)
  {
  }

  /** `onClick={() => !isBooked && setTime(slot)}`: the new selected time. */
  function ClickSlot(slot: string, bookedSlots: seq<string>, time: string): string {
    if slot in bookedSlots then time else slot
  }

  /**
   * A click on a booked slot keeps the selection; a click on a free slot
   * selects it. So a click never moves the selection onto a booked slot:
   * from a free selection, the selection stays free.
   */
  lemma ClickNeverSelectsBooked(slot: string, bookedSlots: seq<string>, time: string)
    ensures slot in bookedSlots ==> ClickSlot(slot, bookedSlots, time) == time
    ensures slot !in bookedSlots ==> ClickSlot(slot, bookedSlots, time) == slot
    ensures time !in bookedSlots ==> ClickSlot(slot, bookedSlots, time) !in bookedSlots
  {
  }

  /** The selection after a series of clicks on the same day's grid. */
  function ClickAll(slots: seq<string>, bookedSlots: seq<string>, time: string): string
    decreases |slots|
  {
    if slots == [] then time else ClickAll(slots[1..], bookedSlots, ClickSlot(slots[0], bookedSlots, time))
  }

  /**
   * Whatever the clicks, a selection that starts free stays free, and it is
   * either the starting time or one of the clicked slots.
   */
  lemma {:induction false} ClicksKeepSelectionFree(slots: seq<string>, bookedSlots: seq<string>, time: string)
    requires time !in bookedSlots
    ensures ClickAll(slots, bookedSlots, time) !in bookedSlots
    ensures ClickAll(slots, bookedSlots, time) == time || ClickAll(slots, bookedSlots, time) in slots
    decreases |slots|
  {
    if slots != [] {
      ClickNeverSelectsBooked(slots[0], bookedSlots, time);
      ClicksKeepSelectionFree(slots[1..], bookedSlots, ClickSlot(slots[0], bookedSlots, time));
    }
  }

  /**
   * The time field (`<input type="time">`) sets the time to whatever the
   * visitor enters; nothing compares it with the booked slots.
   */
  function TypeTime(time: string, typed: string): string {
    typed
  }

  /** The line "This time is already booked." shows iff the time is one of the day's booked slots. */
  predicate BookedWarning(bookedSlots: seq<string>, time: string) {
    time in bookedSlots
  }

  /**
   * Picking another day reloads the day's booked slots from the month map
   * and keeps the time as it was.
   */
  function ChangeDate(bookedDates: map<string, seq<string>>, day: string, time: string): (string, seq<string>) {
    (time, BookedSlotsFor(bookedDates, day))
  }

  /**
   * Unlike a grid click, a typed time is kept even when it is booked; the
   * only consequence is the warning under the field.
   */
  lemma TypedBookedTimeKept(bookedSlots: seq<string>, time: string, typed: string)
    requires typed in bookedSlots
    ensures TypeTime(time, typed) == typed
    ensures BookedWarning(bookedSlots, TypeTime(time, typed))
    ensures ClickSlot(typed, bookedSlots, time) == time
  {
  }

  /**
   * After a day change the time is unchanged and the warning shows iff the
   * new day's map entry lists it, so a free selection can become a booked one.
   */
  lemma DateChangeKeepsTime(bookedDates: map<string, seq<string>>, day: string, time: string)
    ensures ChangeDate(bookedDates, day, time).0 == time
    ensures BookedWarning(ChangeDate(bookedDates, day, time).1, time)
      <==> day in bookedDates && time in bookedDates[day]
  {
  }

  /**
   * For a catalog time, the warning shows iff no slot of the grid is drawn
   * as selected: the grid and the warning never both mark the time.
   */
  lemma {:induction false} WarningIffNoSelectedSlot(bookedSlots: seq<string>, time: string)
    requires time in TimeSlots()
    ensures BookedWarning(bookedSlots, time)
      <==> forall i :: 0 <= i < 10 ==> DaySchedule(bookedSlots, time)[i].tag != Selected
  {
    DayScheduleComplete(bookedSlots, time);
    var k :| 0 <= k < |TimeSlots()| && TimeSlots()[k] == time;
    if !BookedWarning(bookedSlots, time) {
      assert DaySchedule(bookedSlots, time)[k].tag == Selected;
    }
  }
}

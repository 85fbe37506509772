/** The calendar view of a monthly record: one event per day that has an
    attendance entry or a settlement, in day order. A day with a settlement
    but no entry is named by counting weekdays from the month's first day. */
module Calendar {
  import opened Common
  import opened Utility
  import opened Settlements
  import opened Attendance

  /** The weekday index of day dayDate of a month whose first day has weekday
      index firstDayIndex. The operands are never negative here, so
      JavaScript's remainder and Dafny's agree. */
  function WeekdayOf(dayDate: int, firstDayIndex: int): (w: nat)
    requires 1 <= dayDate && 0 <= firstDayIndex < 7
    ensures w < 7
  {
    (dayDate + firstDayIndex - 1) % 7
  }

  /** The weekday reached from weekday w by stepping k days forward, one day at
      a time. */
  function StepDays(w: nat, k: nat): (r: nat)
    requires w < 7
    ensures r < 7
  {
    if k == 0 then w else (StepDays(w, k - 1) + 1) % 7
  }

  /** The weekday formula names every day as counting forward from the first
      day of the month does. */
  lemma {:induction false} WeekdayByCounting(dayDate: int, firstDayIndex: int)
    requires 1 <= dayDate && 0 <= firstDayIndex < 7
    ensures WeekdayOf(dayDate, firstDayIndex) == StepDays(firstDayIndex, dayDate - 1)
    decreases dayDate
  {
    if dayDate > 1 {
      WeekdayByCounting(dayDate - 1, firstDayIndex);
      var a := dayDate + firstDayIndex - 2;
      assert (a + 1) % 7 == (a % 7 + 1) % 7;
    }
  }

  /** One event of the calendar: the day, its weekday name, the entry of that
      day if any and the settlement made up to that day if any. */
  datatype CalendarEvent = CalendarEvent(dayDate: int, day: string, entry: Option<DailyRecord>,
                                         settlement: Option<Settlement>)

  /** The last entry for day d: later entries overwrite earlier ones in the
      day slots. */
  function LastEntryOn(rs: seq<DailyRecord>, d: int): (r: Option<DailyRecord>)
    ensures r.Some? <==> HasDay(rs, d)
    ensures r.Some? ==> r.value in rs && r.value.dayDate == d
  {
    if rs == [] then None
    else if rs[|rs| - 1].dayDate == d then Some(rs[|rs| - 1])
    else
      var r := LastEntryOn(rs[..|rs| - 1], d);
      assert HasDay(rs, d) <==> HasDay(rs[..|rs| - 1], d) by {
        if HasDay(rs, d) {
          var i :| 0 <= i < |rs| && rs[i].dayDate == d;
          assert rs[..|rs| - 1][i] == rs[i];
        }
        if HasDay(rs[..|rs| - 1], d) {
          var i :| 0 <= i < |rs| - 1 && rs[..|rs| - 1][i].dayDate == d;
          assert rs[i] == rs[..|rs| - 1][i];
        }
      }
      r
  }

  /** The last settlement on day d. */
  function LastSettlementOn(ss: seq<Settlement>, d: int): (r: Option<Settlement>)
    ensures r.Some? <==> exists i :: 0 <= i < |ss| && ss[i].dayDate == d
    ensures r.Some? ==> r.value in ss && r.value.dayDate == d
  {
    if ss == [] then None
    else if ss[|ss| - 1].dayDate == d then Some(ss[|ss| - 1])
    else
      var p := ss[..|ss| - 1];
      var r := LastSettlementOn(p, d);
      assert (exists i :: 0 <= i < |ss| && ss[i].dayDate == d) <==> (exists i :: 0 <= i < |p| && p[i].dayDate == d) by {
        if exists i :: 0 <= i < |ss| && ss[i].dayDate == d {
          var i :| 0 <= i < |ss| && ss[i].dayDate == d;
          assert p[i] == ss[i];
        }
      }
      r
  }

  /** The event of day d: the day's entry with the settlement of that day
      attached, or, for a settlement day without an entry, the settlement
      under the counted weekday's name; no event for any other day. */
  function EventOn(rs: seq<DailyRecord>, ss: seq<Settlement>, d: int, firstDayIndex: int): (r: Option<CalendarEvent>)
    requires 1 <= d && 0 <= firstDayIndex < 7
    ensures r.Some? <==> HasDay(rs, d) || exists i :: 0 <= i < |ss| && ss[i].dayDate == d
    ensures r.Some? ==> r.value.dayDate == d && r.value.settlement == LastSettlementOn(ss, d)
    ensures r.Some? ==> r.value.entry == LastEntryOn(rs, d)
    ensures r.Some? && r.value.entry.None? ==> r.value.day == Days[StepDays(firstDayIndex, d - 1)]
  {
    var e := LastEntryOn(rs, d);
    var s := LastSettlementOn(ss, d);
    WeekdayByCounting(d, firstDayIndex);
    if e.Some? then Some(CalendarEvent(d, e.value.day, e, s))
    else if s.Some? then Some(CalendarEvent(d, Days[WeekdayOf(d, firstDayIndex)], None, s))
    else None
  }

  /** The events of days 1 to k - 1, in day order. */
  function LayoutUpTo(rs: seq<DailyRecord>, ss: seq<Settlement>, firstDayIndex: int, k: int)
    : (r: seq<CalendarEvent>)
    requires 1 <= k && 0 <= firstDayIndex < 7
    ensures forall i :: 0 <= i < |r| ==> 1 <= r[i].dayDate < k && EventOn(rs, ss, r[i].dayDate, firstDayIndex) == Some(r[i])
    ensures forall i, j :: 0 <= i < j < |r| ==> r[i].dayDate < r[j].dayDate
    ensures forall d :: 1 <= d < k && EventOn(rs, ss, d, firstDayIndex).Some? ==>
              EventOn(rs, ss, d, firstDayIndex).value in r
    decreases k
  {
    if k == 1 then []
    else
      var ev := EventOn(rs, ss, k - 1, firstDayIndex);
      LayoutUpTo(rs, ss, firstDayIndex, k - 1) + (if ev.Some? then [ev.value] else [])
  }

  /** The calendar of a month of numberOfDays days. */
  function Layout(rs: seq<DailyRecord>, ss: seq<Settlement>, numberOfDays: int, firstDayIndex: int)
    : seq<CalendarEvent>
    requires 0 <= numberOfDays && 0 <= firstDayIndex < 7
  {
    LayoutUpTo(rs, ss, firstDayIndex, numberOfDays + 1)
  }

  /** The calendar holds, in strictly increasing day order, exactly one event
      for each day of the month that has an entry or a settlement, and nothing
      else. */
  lemma LayoutIsTheEventDays(rs: seq<DailyRecord>, ss: seq<Settlement>, numberOfDays: int, firstDayIndex: int, d: int)
    requires 0 <= numberOfDays && 0 <= firstDayIndex < 7 && 1 <= d <= numberOfDays
    ensures (exists i :: 0 <= i < |Layout(rs, ss, numberOfDays, firstDayIndex)|
                         && Layout(rs, ss, numberOfDays, firstDayIndex)[i].dayDate == d)
        <==> HasDay(rs, d) || exists j :: 0 <= j < |ss| && ss[j].dayDate == d
  {
    var events := Layout(rs, ss, numberOfDays, firstDayIndex);
    if HasDay(rs, d) || exists j :: 0 <= j < |ss| && ss[j].dayDate == d {
      var ev := EventOn(rs, ss, d, firstDayIndex).value;
      var i :| 0 <= i < |events| && events[i] == ev;
    }
  }

  /** Placing entry rs[i] in its slot turns the events of the first i entries
      into those of the first i + 1. */
  lemma PlaceEntryStep(rs: seq<DailyRecord>, i: int, d: int, firstDayIndex: int)
    requires 0 <= i < |rs| && 1 <= d && 0 <= firstDayIndex < 7
    ensures EventOn(rs[..i + 1], [], d, firstDayIndex)
         == if d == rs[i].dayDate then Some(CalendarEvent(d, rs[i].day, Some(rs[i]), None))
            else EventOn(rs[..i], [], d, firstDayIndex)
  {
    assert rs[..i + 1][..i] == rs[..i];
  }

  /** Attaching settlement ss[j] to its day turns the events with the first j
      settlements into those with the first j + 1. */
  lemma AttachSettlementStep(rs: seq<DailyRecord>, ss: seq<Settlement>, j: int, d: int, firstDayIndex: int)
    requires 0 <= j < |ss| && 1 <= d && 0 <= firstDayIndex < 7
    ensures EventOn(rs, ss[..j + 1], d, firstDayIndex)
         == if d != ss[j].dayDate then EventOn(rs, ss[..j], d, firstDayIndex)
            else if EventOn(rs, ss[..j], d, firstDayIndex).Some? then
              Some(EventOn(rs, ss[..j], d, firstDayIndex).value.(settlement := Some(ss[j])))
            else Some(CalendarEvent(d, Days[WeekdayOf(d, firstDayIndex)], None, Some(ss[j])))
  {
    assert ss[..j + 1][..j] == ss[..j];
  }

  /** The first loop of getCalendarEvents: every entry is put in the slot of
      its day. */
  method PlaceEntries(slots: array<Option<CalendarEvent>>, rs: seq<DailyRecord>, firstDayIndex: int)
    requires 0 <= firstDayIndex < 7 && slots.Length >= 1
    requires forall d :: 0 <= d < slots.Length ==> slots[d] == None
    requires forall i :: 0 <= i < |rs| ==> 1 <= rs[i].dayDate < slots.Length
    modifies slots
    ensures slots[0] == None
    ensures forall d :: 1 <= d < slots.Length ==> slots[d] == EventOn(rs, [], d, firstDayIndex)
  {
    for i := 0 to |rs|
      invariant slots[0] == None
      invariant forall d :: 1 <= d < slots.Length ==> slots[d] == EventOn(rs[..i], [], d, firstDayIndex)
    {
      forall d | 1 <= d < slots.Length {
        PlaceEntryStep(rs, i, d, firstDayIndex);
      }
      slots[rs[i].dayDate] := Some(CalendarEvent(rs[i].dayDate, rs[i].day, Some(rs[i]), None));
    }
    assert rs[..|rs|] == rs;
  }

  /** The second loop of getCalendarEvents: each settlement is attached to the
      event in its day's slot, or fills an empty slot with an event of its
      own. */
  method AttachSettlements(slots: array<Option<CalendarEvent>>, rs: seq<DailyRecord>, ss: seq<Settlement>,
                           firstDayIndex: int)
    requires 0 <= firstDayIndex < 7 && slots.Length >= 1 && slots[0] == None
    requires forall d :: 1 <= d < slots.Length ==> slots[d] == EventOn(rs, [], d, firstDayIndex)
    requires forall j :: 0 <= j < |ss| ==> 1 <= ss[j].dayDate < slots.Length
    modifies slots
    ensures slots[0] == None
    ensures forall d :: 1 <= d < slots.Length ==> slots[d] == EventOn(rs, ss, d, firstDayIndex)
  {
    for j := 0 to |ss|
      invariant slots[0] == None
      invariant forall d :: 1 <= d < slots.Length ==> slots[d] == EventOn(rs, ss[..j], d, firstDayIndex)
    {
      forall d | 1 <= d < slots.Length {
        AttachSettlementStep(rs, ss, j, d, firstDayIndex);
      }
      var s := ss[j];
      if slots[s.dayDate].Some? {
        slots[s.dayDate] := Some(slots[s.dayDate].value.(settlement := Some(s)));
      } else {
        slots[s.dayDate] := Some(CalendarEvent(s.dayDate, Days[WeekdayOf(s.dayDate, firstDayIndex)], None, Some(s)));
      }
    }
    assert ss[..|ss|] == ss;
  }

  /** getCalendarEvents' layout: entries are put in day slots, each settlement
      is attached to its day's entry or becomes its own event named by the
      counted weekday, and the empty slots are dropped. A month's entries and
      settlements lie inside the month and no two settlements share a day, as
      the record's invariant keeps them. */
  method CalendarEvents(rs: seq<DailyRecord>, ss: seq<Settlement>, numberOfDays: int, firstDayIndex: int)
    returns (events: seq<CalendarEvent>)
    requires 1 <= numberOfDays && 0 <= firstDayIndex < 7
    requires EntriesWf(rs, numberOfDays) && SettlementsWf(ss, numberOfDays)
    ensures events == Layout(rs, ss, numberOfDays, firstDayIndex)
  {
    var slots := new Option<CalendarEvent>[numberOfDays + 1](_ => None);
    assert forall i :: 0 <= i < |rs| ==> EntryWf(rs[i], numberOfDays);
    PlaceEntries(slots, rs, firstDayIndex);
    AttachSettlements(slots, rs, ss, firstDayIndex);
    events := FilledSlots(slots, rs, ss, firstDayIndex);
  }

  /** The last loop of getCalendarEvents: the filled slots, in day order. */
  method FilledSlots(slots: array<Option<CalendarEvent>>, rs: seq<DailyRecord>, ss: seq<Settlement>,
                     firstDayIndex: int)
    returns (events: seq<CalendarEvent>)
    requires 0 <= firstDayIndex < 7 && slots.Length >= 1 && slots[0] == None
    requires forall d :: 1 <= d < slots.Length ==> slots[d] == EventOn(rs, ss, d, firstDayIndex)
    ensures events == LayoutUpTo(rs, ss, firstDayIndex, slots.Length)
  {
    events := [];
    for d := 0 to slots.Length
      invariant events == if d == 0 then [] else LayoutUpTo(rs, ss, firstDayIndex, d)
    {
      if slots[d].Some? {
        events := events + [slots[d].value];
      }
    }
  }
}

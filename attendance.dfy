/** Daily attendance entries of a monthly record: what a well-formed list of
    entries is, how an entry is built or updated from a request, and how adding,
    replacing or removing one entry changes the list and its window sums. */
module Attendance {
  import opened Common
  import opened Utility

  /** An entry inside a month of numberOfDays days, with a valid presence and
      non-negative amounts. */
  predicate EntryWf(e: DailyRecord, numberOfDays: int) {
    && 1 <= e.dayDate <= numberOfDays
    && e.presence in Presences
    && e.wagesOfDay >= 0
    && AdvanceOf(e) >= 0
  }

  /** At most one entry per day, every entry well formed. */
  ghost predicate EntriesWf(rs: seq<DailyRecord>, numberOfDays: int) {
    DaysUnique(rs) && forall i :: 0 <= i < |rs| ==> EntryWf(rs[i], numberOfDays)
  }

  /** The purpose of an advance: the one given, trimmed, or "General Work"
      when none or a blank one is given. */
  function PurposeOr(purpose: Option<string>): (p: string)
    ensures p != ""
    ensures purpose.Some? && Trim(purpose.value) != "" ==> p == Trim(purpose.value)
    ensures purpose.None? || Trim(purpose.value) == "" ==> p == DefaultPurpose
  {
    if purpose.Some? && Trim(purpose.value) != "" then Trim(purpose.value) else DefaultPurpose
  }

  /** The advance an add request records: present only for a given, non-zero
      amount. */
  function AdvanceFrom(amount: Option<int>, purpose: Option<string>): (a: Option<Advance>)
    ensures a.Some? <==> amount.Some? && amount.value != 0
    ensures a.Some? ==> a.value == Advance(amount.value, PurposeOr(purpose))
  {
    if amount.Some? && amount.value != 0 then Some(Advance(amount.value, PurposeOr(purpose))) else None
  }

  /** An entry after an update request: each given field replaces the stored
      one, a given non-empty presence trimmed; a given advance amount (zero
      included) replaces the advance together with its purpose, and without
      one the stored advance, purpose included, is kept. Day and weekday name
      stay. */
  function UpdatedEntry(e: DailyRecord, presence: Option<string>, wagesOfDay: Option<int>,
                        advanceAmount: Option<int>, advancePurpose: Option<string>): (u: DailyRecord)
    ensures u.dayDate == e.dayDate && u.day == e.day
    ensures u.presence == if presence.Some? && presence.value != "" then Trim(presence.value) else e.presence
    ensures u.wagesOfDay == if wagesOfDay.Some? then wagesOfDay.value else e.wagesOfDay
    ensures AdvanceOf(u) == if advanceAmount.Some? then advanceAmount.value else AdvanceOf(e)
    ensures advanceAmount.Some? ==> u.advance == Some(Advance(advanceAmount.value, PurposeOr(advancePurpose)))
    ensures advanceAmount.None? ==> u.advance == e.advance
  {
    var p := if presence.Some? && presence.value != "" then Trim(presence.value) else e.presence;
    var w := if wagesOfDay.Some? then wagesOfDay.value else e.wagesOfDay;
    var a := if advanceAmount.Some? then Some(Advance(advanceAmount.value, PurposeOr(advancePurpose))) else e.advance;
    DailyRecord(e.dayDate, e.day, p, w, a)
  }

  /** An update that gives a valid presence (or none), and non-negative
      amounts, leaves a well-formed entry well formed. */
  lemma UpdatedEntryWf(e: DailyRecord, n: int, presence: Option<string>, wagesOfDay: Option<int>,
                       advanceAmount: Option<int>, advancePurpose: Option<string>)
    requires EntryWf(e, n)
    requires !(presence.Some? && presence.value != "" && Trim(presence.value) !in Presences)
    requires (wagesOfDay.Some? ==> wagesOfDay.value >= 0) && (advanceAmount.Some? ==> advanceAmount.value >= 0)
    ensures EntryWf(UpdatedEntry(e, presence, wagesOfDay, advanceAmount, advancePurpose), n)
  {
  }

  /** What updateAttendence adds to the running advance when an advance is
      given: the given amount, less the day's old advance when it had a
      non-zero one. This is the given amount minus the old advance counted as
      0 when absent. */
  function AdvanceIncrement(e: DailyRecord, amount: int): (d: int)
    ensures d == amount - AdvanceOf(e)
  {
    if e.advance.Some? && e.advance.value.amount != 0 then amount - e.advance.value.amount else amount
  }

  /** The running totals agree with the window sums over (last, numberOfDays]. */
  predicate TotalsAgree(rs: seq<DailyRecord>, last: int, numberOfDays: int, wages: int, advance: int) {
    wages == Sum(rs, last, numberOfDays, Wages) && advance == Sum(rs, last, numberOfDays, Advances)
  }

  /** Appending an entry for a day not yet present keeps the list well formed
      and adds the entry's amounts to every window that holds its day. */
  lemma AppendEntry(rs: seq<DailyRecord>, n: int, e: DailyRecord, from: int, to: int)
    requires EntriesWf(rs, n) && EntryWf(e, n) && !HasDay(rs, e.dayDate)
    ensures EntriesWf(rs + [e], n)
    ensures Sum(rs + [e], from, to, Wages) == Sum(rs, from, to, Wages) + (if InWindow(e, from, to) then e.wagesOfDay else 0)
    ensures Sum(rs + [e], from, to, Advances) == Sum(rs, from, to, Advances) + (if InWindow(e, from, to) then AdvanceOf(e) else 0)
  {
    var ts := rs + [e];
    assert ts[..|rs|] == rs;
    forall i, j | 0 <= i < j < |ts|
      ensures ts[i].dayDate != ts[j].dayDate
    {
      if j == |rs| {
        assert ts[i] == rs[i];
      }
    }
  }

  /** Removing the entry at k keeps the list well formed, and removes its
      amounts from every window that holds its day. */
  lemma RemoveEntry(rs: seq<DailyRecord>, n: int, k: nat, from: int, to: int)
    requires EntriesWf(rs, n) && k < |rs|
    ensures WithoutDay(rs, rs[k].dayDate) == rs[..k] + rs[k + 1..]
    ensures EntriesWf(WithoutDay(rs, rs[k].dayDate), n)
    ensures !HasDay(WithoutDay(rs, rs[k].dayDate), rs[k].dayDate)
    ensures Sum(rs, from, to, Wages) == Sum(WithoutDay(rs, rs[k].dayDate), from, to, Wages) + (if InWindow(rs[k], from, to) then rs[k].wagesOfDay else 0)
    ensures Sum(rs, from, to, Advances) == Sum(WithoutDay(rs, rs[k].dayDate), from, to, Advances) + (if InWindow(rs[k], from, to) then AdvanceOf(rs[k]) else 0)
  {
    WithoutDayDropsOne(rs, k);
    DropEntry(rs, n, k);
    RemoveDay(rs, k, from, to, Wages);
    RemoveDay(rs, k, from, to, Advances);
  }

  /** Removing the entry for a day inside the window (last, n] keeps the
      entries well formed and the running totals, less that entry's amounts,
      equal to the window sums. */
  lemma RemoveFromTotals(rs: seq<DailyRecord>, n: int, d: int, last: int, wages: int, advance: int)
    requires EntriesWf(rs, n) && TotalsAgree(rs, last, n, wages, advance)
    requires HasDay(rs, d) && last < d
    ensures
      var k := FindDay(rs, d);
      && WithoutDay(rs, d) == rs[..k] + rs[k + 1..]
      && EntriesWf(WithoutDay(rs, d), n)
      && !HasDay(WithoutDay(rs, d), d)
      && TotalsAgree(WithoutDay(rs, d), last, n, wages - rs[k].wagesOfDay, advance - AdvanceOf(rs[k]))
  {
    var k := FindDay(rs, d);
    RemoveEntry(rs, n, k, last, n);
    assert EntryWf(rs[k], n) && InWindow(rs[k], last, n);
  }

  /** The list without its entry at k is well formed and has no entry for
      that entry's day. */
  lemma DropEntry(rs: seq<DailyRecord>, n: int, k: nat)
    requires EntriesWf(rs, n) && k < |rs|
    ensures EntriesWf(rs[..k] + rs[k + 1..], n)
    ensures !HasDay(rs[..k] + rs[k + 1..], rs[k].dayDate)
  {
    var ts := rs[..k] + rs[k + 1..];
    assert forall i :: 0 <= i < |ts| ==> ts[i] == rs[if i < k then i else i + 1];
    forall i, j | 0 <= i < j < |ts|
      ensures ts[i].dayDate != ts[j].dayDate
    {
      var i', j' := if i < k then i else i + 1, if j < k then j else j + 1;
      assert ts[i] == rs[i'] && ts[j] == rs[j'] && i' < j';
    }
    forall i | 0 <= i < |ts|
      ensures ts[i].dayDate != rs[k].dayDate
    {
      var i' := if i < k then i else i + 1;
      assert ts[i] == rs[i'] && i' != k;
    }
  }

  // ---- Adding an entry: the checks as written and as corrected

  /** The day check of addAttendanceForLeftDays as written: the day must lie
      after the last settlement and not after today. The record's own length is
      never consulted. */
  predicate LeftDayOpenAsWritten(last: int, todayDate: int, dayDate: int) {
    !(dayDate > todayDate || dayDate <= last)
  }

  /** The corrected day check: also inside the record's month. */
  predicate LeftDayOpen(last: int, numberOfDays: int, todayDate: int, dayDate: int) {
    LeftDayOpenAsWritten(last, todayDate, dayDate) && dayDate <= numberOfDays
  }

  /** For a record of a 30-day month that is still open on day 31 of the
      current month, the day check as written lets day 31 through, and no
      settlement window of the record counts an entry for it. Whether the entry
      is then added rests on the day-name lookup that follows the check
      answering for day 31 of the record's month, which the calendar code of
      src/nep_dates/index.js refuses; the check alone does not keep the day
      out. */
  lemma LeftDayPastMonthEnd()
    ensures LeftDayOpenAsWritten(0, 31, 31)
    ensures !LeftDayOpen(0, 30, 31, 31)
    ensures forall from, to | to <= 30 :: !InWindow(DailyRecord(31, "monday", "present", 500, None), from, to)
  {
  }

  /** Under the corrected check the new entry lies in the open window, so the
      running totals grow by exactly its amounts and still agree. */
  lemma LeftDayCounted(rs: seq<DailyRecord>, last: int, n: int, todayDate: int, e: DailyRecord, wages: int, advance: int)
    requires EntriesWf(rs, n) && EntryWf(e, n) && !HasDay(rs, e.dayDate)
    requires LeftDayOpen(last, n, todayDate, e.dayDate)
    requires TotalsAgree(rs, last, n, wages, advance)
    ensures TotalsAgree(rs + [e], last, n, wages + e.wagesOfDay, advance + AdvanceOf(e))
  {
    AppendEntry(rs, n, e, last, n);
  }

  /** The checks of addAttendenceSingle as written: only that no entry exists
      for the day. Neither the settlement boundary nor the month length is
      consulted. */
  predicate SingleDayOpenAsWritten(rs: seq<DailyRecord>, dayDate: int) {
    !HasDay(rs, dayDate)
  }

  /** The corrected checks: also after the last settlement and inside the month. */
  predicate SingleDayOpen(rs: seq<DailyRecord>, last: int, numberOfDays: int, dayDate: int) {
    SingleDayOpenAsWritten(rs, dayDate) && last < dayDate <= numberOfDays
  }

  /** A record settled up to today (day 5) with no entry for today accepts
      today's attendance as written; the totals grow by 500 although the window
      (5, 30] does not hold the entry, so the totals stop agreeing. */
  lemma SingleAfterSettlement()
    ensures SingleDayOpenAsWritten([], 5)
    ensures !SingleDayOpen([], 5, 30, 5)
    ensures TotalsAgree([], 5, 30, 0, 0)
    ensures !TotalsAgree([DailyRecord(5, "sunday", "present", 500, None)], 5, 30, 500, 0)
  {
    var e := DailyRecord(5, "sunday", "present", 500, None);
    assert [e][..0] == [];
  }

  /** Under the corrected checks the batch entry is counted in the open window. */
  lemma SingleCounted(rs: seq<DailyRecord>, last: int, n: int, e: DailyRecord, wages: int, advance: int)
    requires EntriesWf(rs, n) && EntryWf(e, n)
    requires SingleDayOpen(rs, last, n, e.dayDate)
    requires TotalsAgree(rs, last, n, wages, advance)
    ensures TotalsAgree(rs + [e], last, n, wages + e.wagesOfDay, advance + AdvanceOf(e))
  {
    AppendEntry(rs, n, e, last, n);
  }
}

/** A worker's monthly record and the handlers that change it in place:
    attendance added, updated and deleted, accounts settled up to a day or up
    to the month's end, and cash given on the settlement day. The record keeps
    its running totals incrementally; Valid() says they always equal the
    window sums of the entries after the last settlement. */
module MonthlyRecords {
  import opened Common
  import opened Utility
  import opened Settlements
  import opened Attendance
  import opened Ledgers

  /** What closing a month hands to the next record: the balances carried and
      the month-end settlement. */
  datatype CarryResponse = CarryResponse(prevWages: int, prevAdvance: int, response: Option<Settlement>)

  /** Whether a settlement was performed today, and if so the latest one with
      the days it covers. */
  datatype SettlementCheck = NotSettled | AlreadySettled(settlement: Settlement, fromDate: int, toDate: int)

  // ---- The checks each handler makes before it changes anything, in order

  /** settleAccount's checks: a day is given, lies after the last settlement
      and inside the month, and is not in the future. */
  function SettleRefusal(dayDate: int, last: int, numberOfDays: int, todayDate: int): (r: Option<ApiError>)
    ensures r.None? <==> dayDate != 0 && last < dayDate <= numberOfDays && dayDate <= todayDate
    ensures dayDate == 0 ==> r == Some(DateRequired)
    ensures dayDate != 0 && !(last < dayDate <= numberOfDays) ==> r == Some(InvalidSettlementDate)
    ensures dayDate != 0 && last < dayDate <= numberOfDays && dayDate > todayDate ==> r == Some(FutureSettlement)
  {
    if dayDate == 0 then Some(DateRequired)
    else if !(dayDate <= numberOfDays && dayDate > last) then Some(InvalidSettlementDate)
    else if dayDate > todayDate then Some(FutureSettlement)
    else None
  }

  /** addAttendanceForLeftDays' checks: a presence valid once trimmed, a day open for
      attendance (corrected: inside the month as well), no entry for it yet. */
  function LeftDayRefusal(presence: string, rs: seq<DailyRecord>, last: int, numberOfDays: int,
                          todayDate: int, dayDate: int): (r: Option<ApiError>)
    ensures r.None? <==> Trim(presence) in Presences && LeftDayOpen(last, numberOfDays, todayDate, dayDate) && !HasDay(rs, dayDate)
    ensures Trim(presence) !in Presences ==> r == Some(InvalidPresence)
    ensures Trim(presence) in Presences && !LeftDayOpen(last, numberOfDays, todayDate, dayDate) ==> r == Some(InvalidDayDate)
    ensures (Trim(presence) in Presences && LeftDayOpen(last, numberOfDays, todayDate, dayDate) && HasDay(rs, dayDate))
            ==> r == Some(AttendanceExists)
  {
    if Trim(presence) !in Presences then Some(InvalidPresence)
    else if dayDate > todayDate || dayDate <= last || dayDate > numberOfDays then Some(InvalidDayDate)
    else if HasDay(rs, dayDate) then Some(AttendanceExists)
    else None
  }

  /** addAttendenceSingle's checks: no entry for today yet, and (corrected)
      today lies after the last settlement and inside the month. */
  function SingleRefusal(rs: seq<DailyRecord>, last: int, numberOfDays: int, todayDate: int): (r: Option<ApiError>)
    ensures r.None? <==> SingleDayOpen(rs, last, numberOfDays, todayDate)
    ensures HasDay(rs, todayDate) ==> r == Some(AttendanceExists)
    ensures !HasDay(rs, todayDate) && !SingleDayOpen(rs, last, numberOfDays, todayDate) ==> r == Some(InvalidDayDate)
  {
    if HasDay(rs, todayDate) then Some(AttendanceExists)
    else if todayDate <= last || todayDate > numberOfDays then Some(InvalidDayDate)
    else None
  }

  /** deleteAttendence's checks: a day after the last settlement, a record of
      today's month index, an entry for the day. */
  function DeleteRefusal(rs: seq<DailyRecord>, last: int, monthIndex: int, todayMonthIndex: int, dayDate: int)
    : (r: Option<ApiError>)
    ensures r.None? <==> last < dayDate && todayMonthIndex == monthIndex && HasDay(rs, dayDate)
    ensures dayDate <= last || todayMonthIndex != monthIndex ==> r == Some(InvalidDayDate)
    ensures last < dayDate && todayMonthIndex == monthIndex && !HasDay(rs, dayDate) ==> r == Some(AttendanceNotFound)
  {
    if dayDate <= last || todayMonthIndex != monthIndex then Some(InvalidDayDate)
    else if !HasDay(rs, dayDate) then Some(AttendanceNotFound)
    else None
  }

  /** updateAttendence's checks: those of deleteAttendence, then a given,
      non-empty presence must be valid once trimmed. */
  function UpdateRefusal(rs: seq<DailyRecord>, last: int, monthIndex: int, todayMonthIndex: int, dayDate: int,
                         presence: Option<string>): (r: Option<ApiError>)
    ensures r.None? <==> last < dayDate && todayMonthIndex == monthIndex && HasDay(rs, dayDate)
                         && !(presence.Some? && presence.value != "" && Trim(presence.value) !in Presences)
    ensures DeleteRefusal(rs, last, monthIndex, todayMonthIndex, dayDate).Some? ==>
              r == DeleteRefusal(rs, last, monthIndex, todayMonthIndex, dayDate)
    ensures (DeleteRefusal(rs, last, monthIndex, todayMonthIndex, dayDate).None?
             && presence.Some? && presence.value != "" && Trim(presence.value) !in Presences) ==> r == Some(InvalidPresence)
  {
    if dayDate <= last || todayMonthIndex != monthIndex then Some(InvalidDayDate)
    else if !HasDay(rs, dayDate) then Some(AttendanceNotFound)
    else if presence.Some? && presence.value != "" && Trim(presence.value) !in Presences then Some(InvalidPresence)
    else None
  }

  /** adjustGivenAmountOnSettlement's checks: a settlement day and a non-zero
      amount are given, the month has a settlement, and the given day is the
      latest settlement's day, performed today. */
  function AdjustRefusal(settlementDayDate: int, givenAmount: int, last: int, performedOn: int, todayDate: int)
    : (r: Option<ApiError>)
    ensures r.None? <==> settlementDayDate != 0 && givenAmount != 0 && last != 0
                         && settlementDayDate == last && performedOn == todayDate
    ensures settlementDayDate == 0 ==> r == Some(SettledDateRequired)
    ensures settlementDayDate != 0 && givenAmount == 0 ==> r == Some(AmountRequired)
    ensures settlementDayDate != 0 && givenAmount != 0 && last == 0 ==> r == Some(NoSettlement)
    ensures (settlementDayDate != 0 && givenAmount != 0 && last != 0
             && (settlementDayDate != last || performedOn != todayDate)) ==> r == Some(AdjustmentWindowClosed)
  {
    if settlementDayDate == 0 then Some(SettledDateRequired)
    else if givenAmount == 0 then Some(AmountRequired)
    else if last == 0 then Some(NoSettlement)
    else if settlementDayDate != last || performedOn != todayDate then Some(AdjustmentWindowClosed)
    else None
  }

  class MonthlyRecord {
    const id: RecordId
    const workerId: WorkerId
    const year: int
    const monthIndex: int
    const numberOfDays: int
    var dailyRecords: seq<DailyRecord>
    var settlements: seq<Settlement>
    var lastSettlementDate: Option<LastSettlement>
    var prevWages: int
    var prevAdvance: int
    var currentWages: int
    var currentAdvance: int

    /** The fields the handlers change, as one value. */
    function Fields(): Ledger
      reads this
    {
      Ledger(dailyRecords, settlements, lastSettlementDate, prevWages, prevAdvance, currentWages, currentAdvance)
    }

    /** The day settled up to, 0 when the month has no settlement yet. */
    function LastDay(): (d: int)
      reads this
      ensures d == LastDayOf(lastSettlementDate)
    {
      LastDayOf(lastSettlementDate)
    }

    /** The day the latest settlement was performed on, 0 when there is none. */
    function PerformedOn(): (d: int)
      reads this
      ensures lastSettlementDate.None? ==> d == 0
      ensures lastSettlementDate.Some? ==> d == lastSettlementDate.value.performedOn
    {
      if lastSettlementDate.Some? then lastSettlementDate.value.performedOn else 0
    }

    /** The ledger invariant holds of the record's fields. */
    ghost predicate Valid()
      reads this
    {
      LedgerWf(numberOfDays, Fields())
    }

    /** A new record: no entries, no settlement, zero running totals and the
        balances carried from the month before. */
    constructor (id: RecordId, workerId: WorkerId, year: int, monthIndex: int, numberOfDays: int,
                 prevWages: int, prevAdvance: int)
      requires 1 <= numberOfDays && Carry(prevWages, prevAdvance)
      ensures Valid()
      ensures this.id == id && this.workerId == workerId && this.year == year
      ensures this.monthIndex == monthIndex && this.numberOfDays == numberOfDays
      ensures Fields() == Ledger([], [], None, prevWages, prevAdvance, 0, 0)
    {
      this.id, this.workerId, this.year := id, workerId, year;
      this.monthIndex, this.numberOfDays := monthIndex, numberOfDays;
      dailyRecords, settlements, lastSettlementDate := [], [], None;
      this.prevWages, this.prevAdvance := prevWages, prevAdvance;
      currentWages, currentAdvance := 0, 0;
      FreshLedger(numberOfDays, prevWages, prevAdvance);
    }

    /** Writes back all the fields the handlers change. */
    method Store(l: Ledger)
      modifies this
      ensures Fields() == l
    {
      dailyRecords, settlements, lastSettlementDate := l.dailyRecords, l.settlements, l.lastSettlementDate;
      prevWages, prevAdvance, currentWages, currentAdvance := l.prevWages, l.prevAdvance, l.currentWages, l.currentAdvance;
    }

    /** settleAccount: settles the entries in (last settlement, dayDate] against
        the carried balances, appends the settlement, moves the boundary to
        dayDate and takes the settled sums off the running totals. */
    method SettleAccount(dayDate: int, today: Today) returns (r: Result<SettleResponse>)
      requires Valid() && today.Valid()
      modifies this
      ensures Valid()
      ensures SettleRefusal(dayDate, old(LastDay()), numberOfDays, today.dayDate).Some? ==>
        && r == Error(SettleRefusal(dayDate, old(LastDay()), numberOfDays, today.dayDate).value)
        && unchanged(this)
      ensures SettleRefusal(dayDate, old(LastDay()), numberOfDays, today.dayDate).None? ==>
        && r == Ok(SettleResponseOf(old(Fields()), dayDate))
        && Fields() == Settled(old(Fields()), dayDate, today.dayDate, Days[today.dayIndex])
    {
      var last := LastDay();
      var refusal := SettleRefusal(dayDate, last, numberOfDays, today.dayDate);
      if refusal.Some? {
        return Error(refusal.value);
      }
      var l := Fields();
      SettleKeepsLedger(numberOfDays, l, dayDate, today.dayDate, Days[today.dayIndex]);
      var m, resp := ApplySettle(l, dayDate, today.dayDate, Days[today.dayIndex]);
      Store(m);
      r := Ok(resp);
    }

    /** settlePreviousMonth: closes the month at its last day. A month already
        settled up to its last day is left as it is and answers its stored
        balances and month-end settlement, so closing twice answers the same. */
    method SettlePreviousMonth(today: Today) returns (r: CarryResponse)
      requires Valid() && today.Valid()
      modifies this
      ensures Valid()
      ensures LastDay() == numberOfDays && settlements != []
      ensures r == CarryResponse(prevWages, prevAdvance, Some(settlements[|settlements| - 1]))
      ensures old(LastDay()) == numberOfDays ==> unchanged(this)
      ensures old(LastDay()) != numberOfDays ==>
        Fields() == Settled(old(Fields()), numberOfDays, today.dayDate, Days[today.dayIndex])
    {
      var last := LastDay();
      if last == numberOfDays {
        LatestSettlement(settlements, numberOfDays);
        return CarryResponse(prevWages, prevAdvance, FindSettlement(settlements, last));
      }
      var l := Fields();
      SettleKeepsLedger(numberOfDays, l, numberOfDays, today.dayDate, Days[today.dayIndex]);
      MonthEndClearsTotals(numberOfDays, l, today.dayDate, Days[today.dayIndex]);
      var amount := l.prevWages + l.currentWages - (l.prevAdvance + l.currentAdvance);
      var settlement := NewSettlement(numberOfDays, amount);
      if amount > 0 {
        l := l.(prevWages := amount, prevAdvance := 0);
      } else if amount < 0 {
        l := l.(prevWages := 0, prevAdvance := -amount);
      } else {
        l := l.(prevWages := 0, prevAdvance := 0);
      }
      l := l.(settlements := l.settlements + [settlement]);
      l := l.(lastSettlementDate := Some(LastSettlement(numberOfDays, today.dayDate, Days[today.dayIndex])));
      l := l.(currentWages := 0, currentAdvance := 0);
      Store(l);
      r := CarryResponse(l.prevWages, l.prevAdvance, Some(settlement));
    }

    /** addAttendanceForLeftDays: records attendance for a day after the last
        settlement and not after today, once per day, with the presence trimmed. dayName is the calendar's
        weekday name for the day. The day is also checked against the record's
        own month. */
    method AddAttendanceForLeftDays(dayDate: int, presence: string, wagesOfDay: int,
                                    advanceAmount: Option<int>, purposeOfAdvance: Option<string>,
                                    dayName: string, today: Today)
      returns (r: Result<DailyRecord>)
      requires Valid()
      requires wagesOfDay >= 0 && (advanceAmount.Some? ==> advanceAmount.value >= 0)
      modifies this
      ensures Valid()
      ensures LeftDayRefusal(presence, old(dailyRecords), old(LastDay()), numberOfDays, today.dayDate, dayDate).Some? ==>
        && r == Error(LeftDayRefusal(presence, old(dailyRecords), old(LastDay()), numberOfDays, today.dayDate, dayDate).value)
        && unchanged(this)
      ensures LeftDayRefusal(presence, old(dailyRecords), old(LastDay()), numberOfDays, today.dayDate, dayDate).None? ==>
        var e := DailyRecord(dayDate, dayName, Trim(presence), wagesOfDay, AdvanceFrom(advanceAmount, purposeOfAdvance));
        && r == Ok(e)
        && Fields() == WithEntry(old(Fields()), e)
    {
      var refusal := LeftDayRefusal(presence, dailyRecords, LastDay(), numberOfDays, today.dayDate, dayDate);
      if refusal.Some? {
        return Error(refusal.value);
      }
      var advance := AdvanceFrom(advanceAmount, purposeOfAdvance);
      var record := DailyRecord(dayDate, dayName, Trim(presence), wagesOfDay, advance);
      var l := Fields();
      AddKeepsLedger(numberOfDays, l, record);
      var m := ApplyAdd(l, record);
      Store(m);
      r := Ok(record);
    }

    /** addAttendenceSingle: today's attendance for one worker of a batch; the
        batch has already checked the trimmed presence, which is stored. The day is also checked
        against the settlement boundary and the record's own month. */
    method AddAttendanceSingle(presence: string, wagesOfDay: int, advanceAmount: Option<int>,
                               purposeOfAdvance: Option<string>, today: Today)
      returns (r: Result<DailyRecord>)
      requires Valid() && today.Valid() && Trim(presence) in Presences
      requires wagesOfDay >= 0 && (advanceAmount.Some? ==> advanceAmount.value >= 0)
      modifies this
      ensures Valid()
      ensures SingleRefusal(old(dailyRecords), old(LastDay()), numberOfDays, today.dayDate).Some? ==>
        && r == Error(SingleRefusal(old(dailyRecords), old(LastDay()), numberOfDays, today.dayDate).value)
        && unchanged(this)
      ensures SingleRefusal(old(dailyRecords), old(LastDay()), numberOfDays, today.dayDate).None? ==>
        var e := DailyRecord(today.dayDate, Days[today.dayIndex], Trim(presence), wagesOfDay, AdvanceFrom(advanceAmount, purposeOfAdvance));
        && r == Ok(e)
        && Fields() == WithEntry(old(Fields()), e)
    {
      var refusal := SingleRefusal(dailyRecords, LastDay(), numberOfDays, today.dayDate);
      if refusal.Some? {
        return Error(refusal.value);
      }
      var advance := AdvanceFrom(advanceAmount, purposeOfAdvance);
      var record := DailyRecord(today.dayDate, Days[today.dayIndex], Trim(presence), wagesOfDay, advance);
      var l := Fields();
      AddKeepsLedger(numberOfDays, l, record);
      var m := ApplyAdd(l, record);
      Store(m);
      r := Ok(record);
    }

    /** updateAttendence: changes the given fields of the entry for a day after
        the last settlement, in a record of today's month index, adjusting the
        running totals by the change. The entry is moved to the end. */
    method UpdateAttendance(dayDate: int, presence: Option<string>, wagesOfDay: Option<int>,
                            advanceAmount: Option<int>, advancePurpose: Option<string>, today: Today)
      returns (r: Result<DailyRecord>)
      requires Valid()
      requires (wagesOfDay.Some? ==> wagesOfDay.value >= 0) && (advanceAmount.Some? ==> advanceAmount.value >= 0)
      modifies this
      ensures Valid()
      ensures UpdateRefusal(old(dailyRecords), old(LastDay()), monthIndex, today.monthIndex, dayDate, presence).Some? ==>
        && r == Error(UpdateRefusal(old(dailyRecords), old(LastDay()), monthIndex, today.monthIndex, dayDate, presence).value)
        && unchanged(this)
      ensures UpdateRefusal(old(dailyRecords), old(LastDay()), monthIndex, today.monthIndex, dayDate, presence).None? ==>
        var u := UpdatedEntry(old(dailyRecords)[FindDay(old(dailyRecords), dayDate)], presence, wagesOfDay, advanceAmount, advancePurpose);
        && r == Ok(u)
        && Fields() == Replaced(old(Fields()), dayDate, u)
    {
      var refusal := UpdateRefusal(dailyRecords, LastDay(), monthIndex, today.monthIndex, dayDate, presence);
      if refusal.Some? {
        return Error(refusal.value);
      }
      var l := Fields();
      var record := l.dailyRecords[FindDay(l.dailyRecords, dayDate)];
      assert EntryWf(record, numberOfDays);
      var m, updated := ApplyUpdate(l, dayDate, presence, wagesOfDay, advanceAmount, advancePurpose);
      UpdatedEntryWf(record, numberOfDays, presence, wagesOfDay, advanceAmount, advancePurpose);
      UpdateKeepsLedger(numberOfDays, l, dayDate, updated);
      Store(m);
      r := Ok(updated);
    }

    /** deleteAttendence: removes the entry for a day after the last settlement,
        in a record of today's month index, taking its positive amounts off the
        running totals. */
    method DeleteAttendance(dayDate: int, today: Today) returns (r: Result<()>)
      requires Valid()
      modifies this
      ensures Valid()
      ensures DeleteRefusal(old(dailyRecords), old(LastDay()), monthIndex, today.monthIndex, dayDate).Some? ==>
        && r == Error(DeleteRefusal(old(dailyRecords), old(LastDay()), monthIndex, today.monthIndex, dayDate).value)
        && unchanged(this)
      ensures DeleteRefusal(old(dailyRecords), old(LastDay()), monthIndex, today.monthIndex, dayDate).None? ==>
        && r == Ok(())
        && Fields() == WithoutEntry(old(Fields()), dayDate)
    {
      var refusal := DeleteRefusal(dailyRecords, LastDay(), monthIndex, today.monthIndex, dayDate);
      if refusal.Some? {
        return Error(refusal.value);
      }
      var l := Fields();
      assert EntryWf(l.dailyRecords[FindDay(l.dailyRecords, dayDate)], numberOfDays);
      DeleteKeepsLedger(numberOfDays, l, dayDate);
      var m := ApplyDelete(l, dayDate);
      Store(m);
      r := Ok(());
    }

    /** adjustGivenAmountOnSettlement: cash handed over against the latest
        settlement, only on the day it was performed. The settlement is
        replaced, not added, and the carried balances follow its new
        transferred amounts. */
    method AdjustGivenAmountOnSettlement(settlementDayDate: int, givenAmount: int, today: Today)
      returns (r: Result<Settlement>)
      requires Valid() && givenAmount >= 0
      modifies this
      ensures Valid()
      ensures AdjustRefusal(settlementDayDate, givenAmount, old(LastDay()), old(PerformedOn()), today.dayDate).Some? ==>
        && r == Error(AdjustRefusal(settlementDayDate, givenAmount, old(LastDay()), old(PerformedOn()), today.dayDate).value)
        && unchanged(this)
      ensures AdjustRefusal(settlementDayDate, givenAmount, old(LastDay()), old(PerformedOn()), today.dayDate).None? ==>
        && old(settlements) != []
        && r == Ok(Adjust(old(settlements)[|old(settlements)| - 1], givenAmount).settlement)
        && Fields() == Adjusted(old(Fields()), givenAmount)
    {
      var refusal := AdjustRefusal(settlementDayDate, givenAmount, LastDay(), PerformedOn(), today.dayDate);
      if refusal.Some? {
        return Error(refusal.value);
      }
      var l := Fields();
      LatestSettlement(l.settlements, numberOfDays);
      AdjustKeepsLedger(numberOfDays, l, givenAmount);
      var settlement := FindSettlement(l.settlements, settlementDayDate).value;
      var adjustment := Adjust(settlement, givenAmount);
      l := l.(prevWages := adjustment.prevWages, prevAdvance := adjustment.prevAdvance);
      l := l.(settlements := WithoutSettlementDay(l.settlements, settlement.dayDate) + [adjustment.settlement]);
      Store(l);
      r := Ok(adjustment.settlement);
    }

    /** checkForSettlement: when the latest settlement was performed today, it
        and the days it covers: from day 1 for the month's first settlement,
        otherwise from the previous settlement's day. The settlements are
        sorted by day, latest first; they are kept in increasing day order, so
        the first two after sorting are the last two kept. */
    function CheckForSettlement(today: Today): (r: SettlementCheck)
      reads this
      requires Valid() && today.Valid()
      ensures r.AlreadySettled? <==> PerformedOn() == today.dayDate
      ensures r.AlreadySettled? ==>
        && r.settlement in settlements
        && r.toDate == r.settlement.dayDate == LastDay()
        && (forall s :: s in settlements ==> s.dayDate <= r.toDate)
        && 1 <= r.fromDate <= r.toDate
        && (|settlements| > 1 ==> r.fromDate < r.toDate && (forall s :: s in settlements && s.dayDate < r.toDate ==> s.dayDate <= r.fromDate))
      ensures r.AlreadySettled? ==>
        && r.settlement == settlements[|settlements| - 1]
        && r.fromDate == if |settlements| == 1 then 1 else settlements[|settlements| - 2].dayDate
    {
      if PerformedOn() == today.dayDate then
        var n := |settlements|;
        var latest := settlements[n - 1];
        assert forall s :: s in settlements ==> s.dayDate <= latest.dayDate by {
          forall s | s in settlements
            ensures s.dayDate <= latest.dayDate
          {
            var i :| 0 <= i < n && settlements[i] == s;
          }
        }
        assert n > 1 ==> forall s :: s in settlements && s.dayDate < latest.dayDate ==> s.dayDate <= settlements[n - 2].dayDate by {
          if n > 1 {
            forall s | s in settlements && s.dayDate < latest.dayDate
              ensures s.dayDate <= settlements[n - 2].dayDate
            {
              var i :| 0 <= i < n && settlements[i] == s;
            }
          }
        }
        AlreadySettled(latest, if n == 1 then 1 else settlements[n - 2].dayDate, latest.dayDate)
      else
        NotSettled
    }
  }

  /** deleteMonthlyRecord's filter: the requested ids other than the worker's
      current and previous records, in order. A null current record id fails
      once the filter looks at an id; nothing left to delete is refused. */
  function DeletableRecords(recordIds: seq<RecordId>, current: Option<RecordId>, previous: Option<RecordId>)
    : (r: Result<seq<RecordId>>)
    ensures recordIds != [] && current.None? ==> r == Error(NoCurrentRecord)
    ensures r.Ok? ==> r.value != [] && current.Some?
    ensures r.Ok? ==> forall id :: id in r.value <==> id in recordIds && Some(id) != current && Some(id) != previous
    ensures r.Error? ==> r.error in {NoCurrentRecord, NoRecordsToDelete}
    ensures current.Some? && (exists id :: id in recordIds && Some(id) != current && Some(id) != previous) ==> r.Ok?
  {
    if recordIds != [] && current.None? then Error(NoCurrentRecord)
    else
      var kept := Unprotected(recordIds, current, previous);
      if kept == [] then Error(NoRecordsToDelete) else Ok(kept)
  }

  /** The ids that are neither the current nor the previous record id, in order. */
  function Unprotected(ids: seq<RecordId>, current: Option<RecordId>, previous: Option<RecordId>): (r: seq<RecordId>)
    ensures forall id :: id in r <==> id in ids && Some(id) != current && Some(id) != previous
  {
    if ids == [] then []
    else
      var rest := Unprotected(ids[..|ids| - 1], current, previous);
      var id := ids[|ids| - 1];
      assert forall x :: x in ids <==> x in ids[..|ids| - 1] || x == id by {
        assert ids == ids[..|ids| - 1] + [id];
      }
      if Some(id) != current && Some(id) != previous then rest + [id] else rest
  }
}

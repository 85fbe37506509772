/** The mutable part of a monthly record as one value, the invariant that ties
    its running totals to its entries and its carried balance to its latest
    settlement, and what each handler does to it. Every handler keeps the
    invariant. */
module Ledgers {
  import opened Common
  import opened Utility
  import opened Settlements
  import opened Attendance

  /** The fields of a monthly record that the handlers change. */
  datatype Ledger = Ledger(dailyRecords: seq<DailyRecord>, settlements: seq<Settlement>,
                           lastSettlementDate: Option<LastSettlement>,
                           prevWages: int, prevAdvance: int, currentWages: int, currentAdvance: int)

  /** The day settled up to, 0 when the month has no settlement yet. */
  function LastDayOf(lastSettlementDate: Option<LastSettlement>): (d: int)
    ensures lastSettlementDate.None? ==> d == 0
    ensures lastSettlementDate.Some? ==> d == lastSettlementDate.value.dayDate
  {
    if lastSettlementDate.Some? then lastSettlementDate.value.dayDate else 0
  }

  /** The ledger invariant for a month of numberOfDays days: well-formed
      entries, running totals equal to the window sums after the last
      settlement, a carried balance that is never both wages and advance,
      ordered settlements, the latest of which sits on the boundary and
      transfers exactly the carried balance. */
  ghost predicate LedgerWf(numberOfDays: int, l: Ledger) {
    var last := LastDayOf(l.lastSettlementDate);
    && 1 <= numberOfDays
    && 0 <= last <= numberOfDays
    && EntriesWf(l.dailyRecords, numberOfDays)
    && TotalsAgree(l.dailyRecords, last, numberOfDays, l.currentWages, l.currentAdvance)
    && Carry(l.prevWages, l.prevAdvance)
    && SettlementsWf(l.settlements, numberOfDays)
    && (l.lastSettlementDate.None? <==> l.settlements == [])
    && (l.settlements != [] ==>
          && l.settlements[|l.settlements| - 1].dayDate == last
          && l.settlements[|l.settlements| - 1].wagesTransferred == l.prevWages
          && l.settlements[|l.settlements| - 1].advanceTransferred == l.prevAdvance)
  }

  /** A fresh month: no entries, no settlement, zero running totals and the
      balance carried in. */
  lemma FreshLedger(numberOfDays: int, prevWages: int, prevAdvance: int)
    requires 1 <= numberOfDays && Carry(prevWages, prevAdvance)
    ensures LedgerWf(numberOfDays, Ledger([], [], None, prevWages, prevAdvance, 0, 0))
  {
  }

  // ---- Settling

  /** The answer of a settlement: the balances carried in, the window sums,
      the running totals left after it and the net amount settled. */
  datatype SettleResponse = SettleResponse(prevWages: int, prevAdvance: int,
                                           calculatedWages: int, calculatedAdvance: int,
                                           newCurrentWages: int, newCurrentAdvance: int,
                                           amount: int)

  /** The answer of settling l up to dayDate: the window (last settlement,
      dayDate] is summed and netted against the carried balance. */
  function SettleResponseOf(l: Ledger, dayDate: int): (r: SettleResponse)
    ensures r.prevWages == l.prevWages && r.prevAdvance == l.prevAdvance
    ensures r.calculatedWages == Sum(l.dailyRecords, LastDayOf(l.lastSettlementDate), dayDate, Wages)
    ensures r.calculatedAdvance == Sum(l.dailyRecords, LastDayOf(l.lastSettlementDate), dayDate, Advances)
    ensures r.amount == (r.prevWages - r.prevAdvance) + (r.calculatedWages - r.calculatedAdvance)
    ensures r.newCurrentWages == l.currentWages - r.calculatedWages
    ensures r.newCurrentAdvance == l.currentAdvance - r.calculatedAdvance
  {
    var last := LastDayOf(l.lastSettlementDate);
    var wages := Sum(l.dailyRecords, last, dayDate, Wages);
    var advance := Sum(l.dailyRecords, last, dayDate, Advances);
    SettleResponse(l.prevWages, l.prevAdvance, wages, advance,
                   l.currentWages - wages, l.currentAdvance - advance,
                   l.prevWages + wages - (l.prevAdvance + advance))
  }

  /** The ledger after settling up to dayDate, performed on day performedOn:
      the settlement of the net amount is appended, the boundary moves to
      dayDate, the settled sums leave the running totals and the settlement's
      transferred amounts are carried. */
  function Settled(l: Ledger, dayDate: int, performedOn: int, dayName: string): Ledger {
    var resp := SettleResponseOf(l, dayDate);
    var s := NewSettlement(dayDate, resp.amount);
    l.(settlements := l.settlements + [s],
       lastSettlementDate := Some(LastSettlement(dayDate, performedOn, dayName)),
       prevWages := s.wagesTransferred, prevAdvance := s.advanceTransferred,
       currentWages := resp.newCurrentWages, currentAdvance := resp.newCurrentAdvance)
  }

  /** Settling up to a day after the boundary and inside the month keeps the
      invariant, moves the boundary there, leaves the entries alone, and
      carries the old net balance plus the net of the settled window. The
      running totals are then the sums of what remains after dayDate. */
  lemma SettleKeepsLedger(n: int, l: Ledger, dayDate: int, performedOn: int, dayName: string)
    requires LedgerWf(n, l) && LastDayOf(l.lastSettlementDate) < dayDate <= n
    ensures LedgerWf(n, Settled(l, dayDate, performedOn, dayName))
    ensures LastDayOf(Settled(l, dayDate, performedOn, dayName).lastSettlementDate) == dayDate
    ensures Settled(l, dayDate, performedOn, dayName).dailyRecords == l.dailyRecords
    ensures Settled(l, dayDate, performedOn, dayName).prevWages - Settled(l, dayDate, performedOn, dayName).prevAdvance
         == l.prevWages - l.prevAdvance
            + Sum(l.dailyRecords, LastDayOf(l.lastSettlementDate), dayDate, Wages)
            - Sum(l.dailyRecords, LastDayOf(l.lastSettlementDate), dayDate, Advances)
    ensures Settled(l, dayDate, performedOn, dayName).currentWages == Sum(l.dailyRecords, dayDate, n, Wages)
    ensures Settled(l, dayDate, performedOn, dayName).currentAdvance == Sum(l.dailyRecords, dayDate, n, Advances)
  {
    var last := LastDayOf(l.lastSettlementDate);
    var s := NewSettlement(dayDate, SettleResponseOf(l, dayDate).amount);
    WindowSplit(l.dailyRecords, last, dayDate, n, Wages);
    WindowSplit(l.dailyRecords, last, dayDate, n, Advances);
    AppendSettlement(l.settlements, n, s);
  }

  /** Settling up to the month's last day leaves nothing in the running
      totals, and the net settled is the carried net plus the running totals,
      which is how the month-end settlement computes it. */
  lemma MonthEndClearsTotals(n: int, l: Ledger, performedOn: int, dayName: string)
    requires LedgerWf(n, l) && LastDayOf(l.lastSettlementDate) < n
    ensures Settled(l, n, performedOn, dayName).currentWages == 0
    ensures Settled(l, n, performedOn, dayName).currentAdvance == 0
    ensures SettleResponseOf(l, n).amount == l.prevWages + l.currentWages - (l.prevAdvance + l.currentAdvance)
  {
    EmptyWindow(l.dailyRecords, n, n, Wages);
    EmptyWindow(l.dailyRecords, n, n, Advances);
    SettleKeepsLedger(n, l, n, performedOn, dayName);
  }

  /** The steps of settleAccount on a ledger: the window is summed in one
      pass, the net becomes the settlement and the carried balance, the
      boundary moves and the settled sums leave the running totals. */
  method ApplySettle(l: Ledger, dayDate: int, performedOn: int, dayName: string)
    returns (m: Ledger, resp: SettleResponse)
    ensures resp == SettleResponseOf(l, dayDate)
    ensures m == Settled(l, dayDate, performedOn, dayName)
  {
    var wages, advance := CalculateAmounts(l.dailyRecords, LastDayOf(l.lastSettlementDate), dayDate);
    var amount := l.prevWages + wages - (l.prevAdvance + advance);
    resp := SettleResponse(l.prevWages, l.prevAdvance, wages, advance, l.currentWages - wages, l.currentAdvance - advance, amount);
    var settlement := NewSettlement(dayDate, amount);
    m := l;
    if amount > 0 {
      m := m.(prevWages := amount, prevAdvance := 0);
    } else if amount < 0 {
      m := m.(prevWages := 0, prevAdvance := -amount);
    } else {
      m := m.(prevWages := 0, prevAdvance := 0);
    }
    m := m.(lastSettlementDate := Some(LastSettlement(dayDate, performedOn, dayName)));
    m := m.(settlements := m.settlements + [settlement]);
    m := m.(currentWages := m.currentWages - wages, currentAdvance := m.currentAdvance - advance);
  }

  // ---- Entries

  /** A ledger with the settlement part of a well-formed one, and well-formed
      entries whose window sums are its running totals, is well formed. */
  lemma SameSettlements(n: int, l: Ledger, m: Ledger)
    requires LedgerWf(n, l)
    requires m.settlements == l.settlements && m.lastSettlementDate == l.lastSettlementDate
    requires m.prevWages == l.prevWages && m.prevAdvance == l.prevAdvance
    requires EntriesWf(m.dailyRecords, n)
    requires TotalsAgree(m.dailyRecords, LastDayOf(l.lastSettlementDate), n, m.currentWages, m.currentAdvance)
    ensures LedgerWf(n, m)
  {
  }

  /** The ledger after appending entry e: its wages and its advance join the
      running totals. */
  function WithEntry(l: Ledger, e: DailyRecord): Ledger {
    l.(dailyRecords := l.dailyRecords + [e],
       currentWages := l.currentWages + e.wagesOfDay, currentAdvance := l.currentAdvance + AdvanceOf(e))
  }

  /** Adding a well-formed entry for a new day after the boundary keeps the
      invariant. */
  lemma AddKeepsLedger(n: int, l: Ledger, e: DailyRecord)
    requires LedgerWf(n, l)
    requires EntryWf(e, n) && !HasDay(l.dailyRecords, e.dayDate) && LastDayOf(l.lastSettlementDate) < e.dayDate
    ensures LedgerWf(n, WithEntry(l, e))
  {
    AppendEntry(l.dailyRecords, n, e, LastDayOf(l.lastSettlementDate), n);
  }

  /** The steps of the add handlers on a ledger: the entry's advance, when it
      has one, joins the running advance, the entry is appended and its wages
      join the running wages. */
  method ApplyAdd(l: Ledger, record: DailyRecord) returns (m: Ledger)
    ensures m == WithEntry(l, record)
  {
    m := l;
    if record.advance.Some? {
      m := m.(currentAdvance := m.currentAdvance + record.advance.value.amount);
    }
    m := m.(dailyRecords := m.dailyRecords + [record]);
    m := m.(currentWages := m.currentWages + record.wagesOfDay);
  }

  /** The ledger after removing the entry for day d: its wages and its
      advance leave the running totals. */
  function WithoutEntry(l: Ledger, d: int): Ledger
    requires HasDay(l.dailyRecords, d)
  {
    var e := l.dailyRecords[FindDay(l.dailyRecords, d)];
    l.(dailyRecords := WithoutDay(l.dailyRecords, d),
       currentWages := l.currentWages - e.wagesOfDay, currentAdvance := l.currentAdvance - AdvanceOf(e))
  }

  /** Removing the entry for a day after the boundary keeps the invariant,
      removes exactly that entry, and leaves no entry for the day. */
  lemma DeleteKeepsLedger(n: int, l: Ledger, d: int)
    requires LedgerWf(n, l) && HasDay(l.dailyRecords, d) && LastDayOf(l.lastSettlementDate) < d
    ensures LedgerWf(n, WithoutEntry(l, d))
    ensures
      var k := FindDay(l.dailyRecords, d);
      WithoutEntry(l, d).dailyRecords == l.dailyRecords[..k] + l.dailyRecords[k + 1..]
    ensures !HasDay(WithoutEntry(l, d).dailyRecords, d)
  {
    RemoveFromTotals(l.dailyRecords, n, d, LastDayOf(l.lastSettlementDate), l.currentWages, l.currentAdvance);
    SameSettlements(n, l, WithoutEntry(l, d));
  }

  /** The steps of deleteAttendence on a ledger: the entry's wages and its
      advance leave the running totals when positive, and the entry is
      filtered out. Amounts are never negative in a well-formed ledger, so
      this is the removal of the entry. */
  method ApplyDelete(l: Ledger, dayDate: int) returns (m: Ledger)
    requires HasDay(l.dailyRecords, dayDate)
    requires l.dailyRecords[FindDay(l.dailyRecords, dayDate)].wagesOfDay >= 0
    requires AdvanceOf(l.dailyRecords[FindDay(l.dailyRecords, dayDate)]) >= 0
    ensures m == WithoutEntry(l, dayDate)
  {
    var record := l.dailyRecords[FindDay(l.dailyRecords, dayDate)];
    m := l;
    if record.wagesOfDay > 0 {
      m := m.(currentWages := m.currentWages - record.wagesOfDay);
    }
    if record.advance.Some? && record.advance.value.amount > 0 {
      m := m.(currentAdvance := m.currentAdvance - record.advance.value.amount);
    }
    m := m.(dailyRecords := WithoutDay(m.dailyRecords, dayDate));
  }

  /** The ledger after replacing the entry for day d by u, which goes to the
      end: the running totals move by the difference. */
  function Replaced(l: Ledger, d: int, u: DailyRecord): Ledger
    requires HasDay(l.dailyRecords, d)
  {
    var e := l.dailyRecords[FindDay(l.dailyRecords, d)];
    l.(dailyRecords := WithoutDay(l.dailyRecords, d) + [u],
       currentWages := l.currentWages - e.wagesOfDay + u.wagesOfDay,
       currentAdvance := l.currentAdvance - AdvanceOf(e) + AdvanceOf(u))
  }

  /** Replacing the entry for day d is removing it and appending the new one. */
  lemma ReplacedIsDeleteThenAdd(l: Ledger, d: int, u: DailyRecord)
    requires HasDay(l.dailyRecords, d)
    ensures Replaced(l, d, u) == WithEntry(WithoutEntry(l, d), u)
  {
  }

  /** Replacing the entry for a day after the boundary by a well-formed entry
      for the same day keeps the invariant; the other entries keep their
      order. */
  lemma UpdateKeepsLedger(n: int, l: Ledger, d: int, u: DailyRecord)
    requires LedgerWf(n, l) && HasDay(l.dailyRecords, d) && LastDayOf(l.lastSettlementDate) < d
    requires u.dayDate == d && EntryWf(u, n)
    ensures LedgerWf(n, Replaced(l, d, u))
    ensures
      var k := FindDay(l.dailyRecords, d);
      Replaced(l, d, u).dailyRecords == l.dailyRecords[..k] + l.dailyRecords[k + 1..] + [u]
  {
    var w := WithoutEntry(l, d);
    DeleteKeepsLedger(n, l, d);
    assert LastDayOf(w.lastSettlementDate) < u.dayDate;
    AddKeepsLedger(n, w, u);
    ReplacedIsDeleteThenAdd(l, d, u);
  }

  /** The steps of updateAttendence on a ledger: the entry for dayDate is
      rebuilt from the given fields, a given wage replaces the old one in the
      running wages, a given advance adds its increment to the running
      advance, and the rebuilt entry moves to the end. The result is the
      replacement of the old entry by the rebuilt one. */
  method ApplyUpdate(l: Ledger, dayDate: int, presence: Option<string>, wagesOfDay: Option<int>,
                     advanceAmount: Option<int>, advancePurpose: Option<string>)
    returns (m: Ledger, updated: DailyRecord)
    requires HasDay(l.dailyRecords, dayDate)
    ensures updated.dayDate == dayDate
    ensures updated == UpdatedEntry(l.dailyRecords[FindDay(l.dailyRecords, dayDate)],
                                    presence, wagesOfDay, advanceAmount, advancePurpose)
    ensures m == Replaced(l, dayDate, updated)
  {
    var record := l.dailyRecords[FindDay(l.dailyRecords, dayDate)];
    updated := UpdatedEntry(record, presence, wagesOfDay, advanceAmount, advancePurpose);
    var wages := l.currentWages;
    if wagesOfDay.Some? {
      wages := wages - record.wagesOfDay + wagesOfDay.value;
    }
    assert wages == l.currentWages - record.wagesOfDay + updated.wagesOfDay;
    var advance := l.currentAdvance;
    if advanceAmount.Some? {
      advance := advance + AdvanceIncrement(record, advanceAmount.value);
    }
    assert advance == l.currentAdvance - AdvanceOf(record) + AdvanceOf(updated);
    m := l.(dailyRecords := WithoutDay(l.dailyRecords, dayDate) + [updated],
            currentWages := wages, currentAdvance := advance);
  }

  // ---- Cash given on the settlement day

  /** The ledger after cash given against the latest settlement: the
      settlement is replaced by its adjustment, whose carry becomes the
      carried balance. */
  function Adjusted(l: Ledger, given: int): Ledger
    requires l.settlements != []
  {
    var adj := Adjust(l.settlements[|l.settlements| - 1], given);
    l.(settlements := l.settlements[..|l.settlements| - 1] + [adj.settlement],
       prevWages := adj.prevWages, prevAdvance := adj.prevAdvance)
  }

  /** Cash given against the latest settlement keeps the invariant and lowers
      the carried net balance by exactly the cash given. */
  lemma AdjustKeepsLedger(n: int, l: Ledger, given: int)
    requires LedgerWf(n, l) && l.settlements != [] && given >= 0
    ensures LedgerWf(n, Adjusted(l, given))
    ensures Adjusted(l, given).prevWages - Adjusted(l, given).prevAdvance == l.prevWages - l.prevAdvance - given
  {
    var s := l.settlements[|l.settlements| - 1];
    AdjustLowersBalance(s, given);
    ReplaceLatest(l.settlements, n, Adjust(s, given).settlement);
  }
}

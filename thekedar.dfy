/** The thekedar (the contractor who employs the workers) and the month
    rollover. The thekedar remembers the month its records are running in;
    when the calendar has moved past it, every active worker of the thekedar
    lets go of its current record, so that a new one can be created. */
module Thekedars {
  import opened Common
  import opened Workers

  /** The month a thekedar's records are running in. */
  datatype RunningDate = RunningDate(year: int, monthIndex: int)

  /** A month counted from year 0, for comparing months across years. */
  function MonthNumber(year: int, monthIndex: int): int {
    year * 12 + monthIndex
  }

  /** newMonthArrival's test: a later month of the same year, or a later year.
      On an advance, the running date to set: the year stays in the same-year
      case and becomes the new year otherwise, so it is today's month. */
  function MonthAdvance(running: RunningDate, year: int, monthIndex: int): (r: Option<RunningDate>)
    ensures r.Some? <==> (year == running.year && monthIndex > running.monthIndex) || year > running.year
    ensures r.Some? ==> r.value == RunningDate(year, monthIndex)
  {
    if year == running.year && monthIndex - running.monthIndex > 0 then Some(RunningDate(running.year, monthIndex))
    else if year > running.year then Some(RunningDate(year, monthIndex))
    else None
  }

  /** With month indices in 0..11, a month advance is exactly a later month. */
  lemma MonthAdvanceIsLaterMonth(running: RunningDate, year: int, monthIndex: int)
    requires 0 <= running.monthIndex < 12 && 0 <= monthIndex < 12
    ensures MonthAdvance(running, year, monthIndex).Some? <==>
      MonthNumber(year, monthIndex) > MonthNumber(running.year, running.monthIndex)
  {
    if year > running.year {
      assert MonthNumber(year, monthIndex) >= MonthNumber(running.year + 1, 0);
    } else if year < running.year {
      assert MonthNumber(running.year, running.monthIndex) >= MonthNumber(year + 1, 0);
    }
  }

  /** The answer of newMonthArrival: the workers waiting for a new record,
      and the flag the answer carries (always true). */
  datatype MonthArrival = MonthArrival(workers: seq<Worker>, isInitialCall: bool)

  /** Whether the rollover touches a worker: an active worker of the thekedar. */
  predicate RollsOver(w: Worker, thekedarId: ThekedarId)
    reads w
  {
    w.thekedarId == thekedarId && w.isActive
  }

  /** The active workers of the thekedar without a current record, in the
      collection's order. */
  function WaitingForRecord(workers: seq<Worker>, thekedarId: ThekedarId): (r: seq<Worker>)
    reads workers
    ensures forall w :: w in r ==> w in workers && RollsOver(w, thekedarId) && w.currentRecordId.None?
    ensures forall w :: w in workers && RollsOver(w, thekedarId) && w.currentRecordId.None? ==> w in r
  {
    if workers == [] then []
    else
      var init := workers[..|workers| - 1];
      var w := workers[|workers| - 1];
      var rest := WaitingForRecord(init, thekedarId);
      assert (forall x :: x in workers ==> x in init || x == w) && (forall x :: x in init ==> x in workers) by {
        assert workers == init + [w];
      }
      if RollsOver(w, thekedarId) && w.currentRecordId.None? then rest + [w] else rest
  }

  class Thekedar {
    const id: ThekedarId
    var runningDate: RunningDate

    /** register: a new thekedar runs in the current month. */
    constructor (id: ThekedarId, today: Today)
      ensures this.id == id && runningDate == RunningDate(today.year, today.monthIndex)
    {
      this.id := id;
      runningDate := RunningDate(today.year, today.monthIndex);
    }

    /** newMonthArrival: without a month advance nothing changes. On an
        advance, every active worker of this thekedar lets go of its current
        record, no other worker changes, and the running date becomes today's
        month. The answer lists the active workers of this thekedar without a
        current record, which after an advance are all of them. */
    method NewMonthArrival(workers: seq<Worker>, today: Today) returns (r: MonthArrival)
      modifies this, workers
      ensures MonthAdvance(old(runningDate), today.year, today.monthIndex).None? ==>
        runningDate == old(runningDate) && forall w :: w in workers ==> unchanged(w)
      ensures MonthAdvance(old(runningDate), today.year, today.monthIndex).Some? ==>
        && runningDate == RunningDate(today.year, today.monthIndex)
        && (forall w :: w in workers && old(RollsOver(w, id)) ==>
              && w.isActive
              && w.currentRecordId == None
              && w.previousRecordId == ShiftedPrevious(old(w.currentRecordId), old(w.previousRecordId)))
        && (forall w :: w in workers && !old(RollsOver(w, id)) ==> unchanged(w))
      ensures r == MonthArrival(WaitingForRecord(workers, id), true)
      ensures MonthAdvance(old(runningDate), today.year, today.monthIndex).Some? ==>
        forall w :: w in workers && RollsOver(w, id) ==> w in r.workers
    {
      var next := MonthAdvance(runningDate, today.year, today.monthIndex);
      if next.Some? {
        for i := 0 to |workers|
          invariant forall w :: w in workers[..i] && old(RollsOver(w, id)) ==>
            && w.isActive
            && w.currentRecordId == None
            && w.previousRecordId == ShiftedPrevious(old(w.currentRecordId), old(w.previousRecordId))
          invariant forall w :: w in workers && !(w in workers[..i] && old(RollsOver(w, id))) ==> unchanged(w)
          invariant unchanged(this)
        {
          var w := workers[i];
          assert forall x :: x in workers[..i + 1] <==> x in workers[..i] || x == w by {
            assert workers[..i + 1] == workers[..i] + [w];
          }
          if w.thekedarId == id && w.isActive {
            ShiftTwice(old(w.currentRecordId), old(w.previousRecordId));
            w.ShiftRecords();
          }
        }
        runningDate := next.value;
      }
      r := MonthArrival(WaitingForRecord(workers, id), true);
    }
  }
}

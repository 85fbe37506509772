/** What the worker lists show of each worker's current record: the highest
    day with an entry, whether there is something to settle, whether today is
    marked, and which active workers still need today's attendance. A record
    is looked up by the worker's current record id; a null id or a missing
    record looks up nothing. */
module WorkerListing {
  import opened Common
  import opened Utility
  import opened Ledgers
  import opened Workers

  /** The highest day with an entry, 0 for a record without entries: the
      reduce over the entries that keeps the larger day. */
  function HighestDay(rs: seq<DailyRecord>): (h: int)
    ensures h >= 0
    ensures forall i :: 0 <= i < |rs| ==> rs[i].dayDate <= h
    ensures h == 0 || HasDay(rs, h)
  {
    if rs == [] then 0
    else
      var init := rs[..|rs| - 1];
      var h := HighestDay(init);
      assert forall i :: 0 <= i < |init| ==> init[i] == rs[i];
      if rs[|rs| - 1].dayDate > h then rs[|rs| - 1].dayDate else h
  }

  /** What the list projects of a current record. */
  datatype RecordSummary = RecordSummary(lastSettlementDate: int, highestDayRecord: int)

  /** The summary of a record's fields: its settlement boundary (0 when never
      settled) and its highest entry day. */
  function SummaryOf(l: Ledger): (s: RecordSummary)
    ensures s.lastSettlementDate == LastDayOf(l.lastSettlementDate)
    ensures s.highestDayRecord == HighestDay(l.dailyRecords)
  {
    RecordSummary(LastDayOf(l.lastSettlementDate), HighestDay(l.dailyRecords))
  }

  /** The record a current record id finds among the stored records. */
  function CurrentRecord(current: Option<RecordId>, records: map<RecordId, Ledger>): (r: Option<Ledger>)
    ensures r.Some? <==> current.Some? && current.value in records
    ensures r.Some? ==> r.value == records[current.value]
  {
    if current.Some? && current.value in records then Some(records[current.value]) else None
  }

  /** readyForSettlement: the record has an entry after its boundary, and the
      boundary is before today. Without a record both comparisons fail. */
  predicate ReadyForSettlement(records: Option<RecordSummary>, todayDate: int) {
    && records.Some?
    && records.value.highestDayRecord > records.value.lastSettlementDate
    && records.value.lastSettlementDate < todayDate
  }

  /** markedToday: the highest entry day is not before today. Without a record
      the missing day compares below every day. */
  predicate MarkedToday(records: Option<RecordSummary>, todayDate: int) {
    records.Some? && records.value.highestDayRecord >= todayDate
  }

  /** A record is ready for settlement exactly when one of its entries lies
      after the settlement boundary and the boundary lies before today. */
  lemma {:induction false} ReadyMeansUnsettledEntry(l: Ledger, todayDate: int)
    requires LastDayOf(l.lastSettlementDate) >= 0
    ensures ReadyForSettlement(Some(SummaryOf(l)), todayDate) <==>
      && (exists i :: 0 <= i < |l.dailyRecords| && l.dailyRecords[i].dayDate > LastDayOf(l.lastSettlementDate))
      && LastDayOf(l.lastSettlementDate) < todayDate
  {
    var h := HighestDay(l.dailyRecords);
    if h > LastDayOf(l.lastSettlementDate) {
      var i := FindDay(l.dailyRecords, h);
    }
  }

  /** On any day of the month, a record is marked today exactly when it has an
      entry for today or a later day. */
  lemma {:induction false} MarkedMeansEntryFromToday(rs: seq<DailyRecord>, last: int, todayDate: int)
    requires 1 <= todayDate
    ensures MarkedToday(Some(RecordSummary(last, HighestDay(rs))), todayDate) <==>
      exists i :: 0 <= i < |rs| && rs[i].dayDate >= todayDate
  {
    var h := HighestDay(rs);
    if h >= todayDate {
      var i := FindDay(rs, h);
    }
  }

  /** One row of getAllWorkers. */
  datatype Listing = Listing(workerId: WorkerId, records: Option<RecordSummary>, readyForSettlement: bool,
                             markedToday: bool)

  /** A worker's row: its current record's summary and the two flags. */
  function ListingOf(w: Worker, records: map<RecordId, Ledger>, todayDate: int): (row: Listing)
    reads w
    ensures row.workerId == w.id
    ensures row.records.Some? <==> CurrentRecord(w.currentRecordId, records).Some?
    ensures row.records.Some? ==> row.records.value == SummaryOf(CurrentRecord(w.currentRecordId, records).value)
    ensures row.readyForSettlement == ReadyForSettlement(row.records, todayDate)
    ensures row.markedToday == MarkedToday(row.records, todayDate)
    ensures row.records.None? ==> !row.readyForSettlement && !row.markedToday
  {
    var rec := CurrentRecord(w.currentRecordId, records);
    var summary := if rec.Some? then Some(SummaryOf(rec.value)) else None;
    Listing(w.id, summary, ReadyForSettlement(summary, todayDate), MarkedToday(summary, todayDate))
  }

  /** getAllWorkers: one row per worker of the thekedar whose active flag is
      the requested status, in the collection's order. */
  function AllWorkers(workers: seq<Worker>, thekedarId: ThekedarId, status: bool, records: map<RecordId, Ledger>,
                      todayDate: int): (rows: seq<Listing>)
    reads workers
    ensures |rows| <= |workers|
    ensures forall row :: row in rows ==>
      exists w :: w in workers && w.thekedarId == thekedarId && w.isActive == status
                  && row == ListingOf(w, records, todayDate)
    ensures forall w :: w in workers && w.thekedarId == thekedarId && w.isActive == status ==>
      ListingOf(w, records, todayDate) in rows
  {
    if workers == [] then []
    else
      var init := workers[..|workers| - 1];
      var w := workers[|workers| - 1];
      var rows := AllWorkers(init, thekedarId, status, records, todayDate);
      assert (forall x :: x in workers ==> x in init || x == w) && (forall x :: x in init ==> x in workers) by {
        assert workers == init + [w];
      }
      if w.thekedarId == thekedarId && w.isActive == status then rows + [ListingOf(w, records, todayDate)] else rows
  }

  /** The entries on or after a day (the filter inside the attendance query). */
  function FromDay(rs: seq<DailyRecord>, d: int): (r: seq<DailyRecord>)
    ensures forall e :: e in r <==> e in rs && e.dayDate >= d
  {
    if rs == [] then []
    else
      var rest := FromDay(rs[..|rs| - 1], d);
      var e := rs[|rs| - 1];
      assert forall x :: x in rs <==> x in rs[..|rs| - 1] || x == e by {
        assert rs == rs[..|rs| - 1] + [e];
      }
      if e.dayDate >= d then rest + [e] else rest
  }

  /** The size the attendance query compares with 0: the number of entries
      from today on, or 1 when there is no record to look into (the
      placeholder list that stands in for a missing one). */
  function PendingSize(dailyRecords: Option<seq<DailyRecord>>, todayDate: int): (n: nat)
    ensures dailyRecords.None? ==> n == 1
    ensures dailyRecords.Some? ==>
      (n == 0 <==> forall i :: 0 <= i < |dailyRecords.value| ==> dailyRecords.value[i].dayDate < todayDate)
  {
    if dailyRecords.None? then |["ok"]|
    else
      var rs := dailyRecords.value;
      var r := FromDay(rs, todayDate);
      assert r == [] <==> forall i :: 0 <= i < |rs| ==> rs[i].dayDate < todayDate by {
        if r != [] {
          assert r[0] in r;
        }
        if exists i :: 0 <= i < |rs| && rs[i].dayDate >= todayDate {
          var i :| 0 <= i < |rs| && rs[i].dayDate >= todayDate;
          assert rs[i] in r;
        }
      }
      |r|
  }

  /** The entries of a worker's current record, if it has one. */
  function CurrentEntries(w: Worker, records: map<RecordId, Ledger>): (r: Option<seq<DailyRecord>>)
    reads w
    ensures r.Some? <==> CurrentRecord(w.currentRecordId, records).Some?
    ensures r.Some? ==> r.value == CurrentRecord(w.currentRecordId, records).value.dailyRecords
  {
    var rec := CurrentRecord(w.currentRecordId, records);
    if rec.Some? then Some(rec.value.dailyRecords) else None
  }

  /** The attendance query's test: an active worker of the thekedar whose
      lookup size is 0. */
  predicate NeedsAttendance(w: Worker, thekedarId: ThekedarId, records: map<RecordId, Ledger>, todayDate: int)
    reads w
    ensures NeedsAttendance(w, thekedarId, records, todayDate) <==>
      && w.thekedarId == thekedarId && w.isActive && CurrentRecord(w.currentRecordId, records).Some?
      && forall i :: 0 <= i < |CurrentRecord(w.currentRecordId, records).value.dailyRecords| ==>
           CurrentRecord(w.currentRecordId, records).value.dailyRecords[i].dayDate < todayDate
  {
    w.thekedarId == thekedarId && w.isActive && PendingSize(CurrentEntries(w, records), todayDate) == 0
  }

  /** getWorkerForAttendance: the active workers of the thekedar whose current
      record exists and has no entry for today or a later day, in the
      collection's order. */
  function WorkersForAttendance(workers: seq<Worker>, thekedarId: ThekedarId, records: map<RecordId, Ledger>,
                                todayDate: int): (r: seq<Worker>)
    reads workers
    ensures forall w :: w in r ==> w in workers && NeedsAttendance(w, thekedarId, records, todayDate)
    ensures forall w :: w in workers && NeedsAttendance(w, thekedarId, records, todayDate) ==> w in r
    ensures forall w :: w in r ==>
      && w.thekedarId == thekedarId && w.isActive && CurrentRecord(w.currentRecordId, records).Some?
      && forall i :: 0 <= i < |CurrentRecord(w.currentRecordId, records).value.dailyRecords| ==>
           CurrentRecord(w.currentRecordId, records).value.dailyRecords[i].dayDate < todayDate
  {
    if workers == [] then []
    else
      var init := workers[..|workers| - 1];
      var w := workers[|workers| - 1];
      var rest := WorkersForAttendance(init, thekedarId, records, todayDate);
      assert (forall x :: x in workers ==> x in init || x == w) && (forall x :: x in init ==> x in workers) by {
        assert workers == init + [w];
      }
      if NeedsAttendance(w, thekedarId, records, todayDate) then rest + [w] else rest
  }

  /** On any day of the month, an active worker with a current record needs
      attendance exactly when its row is not marked today; a worker without
      one is never listed for attendance. */
  lemma NeedsAttendanceUnlessMarked(w: Worker, thekedarId: ThekedarId, records: map<RecordId, Ledger>,
                                    todayDate: int)
    requires 1 <= todayDate
    requires w.thekedarId == thekedarId && w.isActive
    ensures CurrentRecord(w.currentRecordId, records).None? ==> !NeedsAttendance(w, thekedarId, records, todayDate)
    ensures CurrentRecord(w.currentRecordId, records).Some? ==>
      (NeedsAttendance(w, thekedarId, records, todayDate) <==> !ListingOf(w, records, todayDate).markedToday)
  {
    var rec := CurrentRecord(w.currentRecordId, records);
    if rec.Some? {
      var l := rec.value;
      MarkedMeansEntryFromToday(l.dailyRecords, LastDayOf(l.lastSettlementDate), todayDate);
    }
  }
}

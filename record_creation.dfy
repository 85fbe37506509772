/** Starting a worker's month: the worker's current record is created, or the
    previous record is taken over when it belongs to the same month. A
    previous record of an earlier month is closed at its last day first, and
    the new record starts with the balances that closing carried forward. */
module RecordCreation {
  import opened Common
  import opened Ledgers
  import opened MonthlyRecords
  import opened Workers

  /** createMonthlyRecord's checks: the worker exists and has no current
      record, and a previous record it names exists. */
  function CreationRefusal(workerFound: bool, current: Option<RecordId>, previous: Option<RecordId>,
                           previousFound: bool): (r: Option<ApiError>)
    ensures r.None? <==> workerFound && current.None? && (previous.Some? ==> previousFound)
    ensures !workerFound ==> r == Some(WorkerNotFound)
    ensures workerFound && current.Some? ==> r == Some(RecordAlreadyCreated)
    ensures workerFound && current.None? && previous.Some? && !previousFound ==> r == Some(RecordNotFound)
  {
    if !workerFound then Some(WorkerNotFound)
    else if current.Some? then Some(RecordAlreadyCreated)
    else if previous.Some? && !previousFound then Some(RecordNotFound)
    else None
  }

  /** createMonthlyRecord. worker and previous are what looking up the
      requested worker and its previous record id found (null when nothing);
      newId is the id a created record is stored under. On success the worker
      points at its record for this month and at no previous record:
      - without a previous record, a new empty record with nothing carried;
      - with a previous record of this month and year, that record itself,
        unchanged;
      - with a previous record of another month, that record closed at its
        last day (left as it is when already closed), and a new empty record
        carrying the closed record's balances; the answer is the month-end
        settlement. */
  method CreateMonthlyRecord(worker: Worker?, previous: MonthlyRecord?, newId: RecordId, today: Today)
    returns (r: Result<MonthlyRecord>, settlementResponse: Option<Settlement>)
    requires today.Valid()
    requires worker != null && previous != null ==> worker.previousRecordId == Some(previous.id)
    requires previous != null ==> previous.Valid()
    modifies worker, previous
    ensures CreationRefusal(worker != null, if worker == null then None else old(worker.currentRecordId),
                            if worker == null then None else old(worker.previousRecordId), previous != null).Some? ==>
      && r == Error(CreationRefusal(worker != null, if worker == null then None else old(worker.currentRecordId),
                                    if worker == null then None else old(worker.previousRecordId), previous != null).value)
      && settlementResponse == None
      && (worker != null ==> unchanged(worker))
      && (previous != null ==> unchanged(previous))
    ensures r.Ok? ==>
      && worker != null
      && worker.currentRecordId == Some(r.value.id) && worker.previousRecordId == None
      && worker.isActive == old(worker.isActive)
      && r.value.Valid()
      && r.value.year == today.year && r.value.monthIndex == today.monthIndex
    ensures r.Ok? && previous == null ==>
      && fresh(r.value) && r.value.id == newId && r.value.workerId == worker.id
      && r.value.numberOfDays == today.numberOfDays
      && r.value.Fields() == Ledger([], [], None, 0, 0, 0, 0)
      && settlementResponse == None
    ensures r.Ok? && previous != null && previous.year == today.year && previous.monthIndex == today.monthIndex ==>
      r.value == previous && unchanged(previous) && settlementResponse == None
    ensures r.Ok? && previous != null && !(previous.year == today.year && previous.monthIndex == today.monthIndex) ==>
      && previous.Valid() && previous.LastDay() == previous.numberOfDays
      && (old(previous.LastDay()) == previous.numberOfDays ==> unchanged(previous))
      && (old(previous.LastDay()) != previous.numberOfDays ==>
            previous.Fields() == Settled(old(previous.Fields()), previous.numberOfDays, today.dayDate, Days[today.dayIndex]))
      && fresh(r.value) && r.value.id == newId && r.value.workerId == worker.id
      && r.value.numberOfDays == today.numberOfDays
      && r.value.Fields() == Ledger([], [], None, previous.prevWages, previous.prevAdvance, 0, 0)
      && settlementResponse == Some(previous.settlements[|previous.settlements| - 1])
    ensures worker != null && old(worker.currentRecordId).None? && (old(worker.previousRecordId).Some? ==> previous != null)
            ==> r.Ok?
  {
    if worker == null {
      return Error(WorkerNotFound), None;
    }
    if worker.currentRecordId.Some? {
      return Error(RecordAlreadyCreated), None;
    }
    var record: MonthlyRecord;
    settlementResponse := None;
    if worker.previousRecordId.None? {
      record := new MonthlyRecord(newId, worker.id, today.year, today.monthIndex, today.numberOfDays, 0, 0);
    } else {
      if previous == null {
        return Error(RecordNotFound), None;
      }
      if previous.year == today.year && previous.monthIndex == today.monthIndex {
        record := previous;
      } else {
        var carried := previous.SettlePreviousMonth(today);
        assert LedgerWf(previous.numberOfDays, previous.Fields());
        record := new MonthlyRecord(newId, worker.id, today.year, today.monthIndex, today.numberOfDays,
                                    carried.prevWages, carried.prevAdvance);
        settlementResponse := carried.response;
      }
    }
    worker.currentRecordId, worker.previousRecordId := Some(record.id), None;
    r := Ok(record);
  }
}

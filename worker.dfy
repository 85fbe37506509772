/** A thekedar's worker: created together with its first monthly record,
    switched between active and inactive, and, at a month's rollover, moved
    off its current record. A worker points at up to two monthly records: the
    current month's and the previous one still to be carried forward. */
module Workers {
  import opened Common
  import opened Ledgers
  import opened MonthlyRecords

  /** The roles a worker may have. */
  const Roles: set<string> := {"mistri", "labour", "general"}

  /** createWorker's checks, in order: a name that is not blank, a known role,
      and wages per day that are given and not zero (zero is falsy). */
  function WorkerRefusal(name: string, role: string, wagesPerDay: Option<int>): (r: Option<ApiError>)
    ensures r.None? <==> !Blank(name) && role in Roles && wagesPerDay.Some? && wagesPerDay.value != 0
    ensures Blank(name) ==> r == Some(NameRequired)
    ensures !Blank(name) && role !in Roles ==> r == Some(InvalidRole)
    ensures !Blank(name) && role in Roles && (wagesPerDay.None? || wagesPerDay.value == 0) ==> r == Some(WagesRequired)
  {
    if Trim(name) == "" then Some(NameRequired)
    else if role !in Roles then Some(InvalidRole)
    else if wagesPerDay.None? || wagesPerDay.value == 0 then Some(WagesRequired)
    else None
  }

  /** The previous record id after the current record is let go: the
      current record when there is one, otherwise the old previous record. */
  function ShiftedPrevious(current: Option<RecordId>, previous: Option<RecordId>): (p: Option<RecordId>)
    ensures p.Some? <==> current.Some? || previous.Some?
    ensures p.Some? ==> p == current || p == previous
    ensures current.Some? ==> p == current
  {
    if current.Some? then current else previous
  }

  /** Letting go of the current record a second time changes nothing: the
      record ids after two shifts are those after one. */
  lemma ShiftTwice(current: Option<RecordId>, previous: Option<RecordId>)
    ensures ShiftedPrevious(None, ShiftedPrevious(current, previous)) == ShiftedPrevious(current, previous)
  {
  }

  /** The day a worker joined. */
  datatype JoiningDate = JoiningDate(year: int, monthIndex: int, dayDate: int)

  class Worker {
    const id: WorkerId
    const thekedarId: ThekedarId
    const name: string
    const role: string
    const wagesPerDay: int
    const joiningDate: JoiningDate
    var isActive: bool
    var currentRecordId: Option<RecordId>
    var previousRecordId: Option<RecordId>

    /** A new worker: active, and pointing at no record yet. */
    constructor (id: WorkerId, thekedarId: ThekedarId, name: string, role: string, wagesPerDay: int,
                 joiningDate: JoiningDate)
      ensures this.id == id && this.thekedarId == thekedarId && this.name == name && this.role == role
      ensures this.wagesPerDay == wagesPerDay && this.joiningDate == joiningDate
      ensures isActive && currentRecordId == None && previousRecordId == None
    {
      this.id, this.thekedarId, this.name, this.role := id, thekedarId, name, role;
      this.wagesPerDay, this.joiningDate := wagesPerDay, joiningDate;
      isActive, currentRecordId, previousRecordId := true, None, None;
    }

    /** Lets go of the current record: it becomes the previous record when
        there is one, and the current record id is cleared. */
    method ShiftRecords()
      modifies this
      ensures currentRecordId == None
      ensures previousRecordId == ShiftedPrevious(old(currentRecordId), old(previousRecordId))
      ensures isActive == old(isActive)
    {
      if currentRecordId.Some? {
        previousRecordId := currentRecordId;
      }
      currentRecordId := None;
    }

    /** toggleActiveStatus: refuses the status the worker already has;
        otherwise lets go of the current record and takes the new status. */
    method ToggleActiveStatus(activeStatus: bool) returns (r: Result<()>)
      modifies this
      ensures old(isActive) == activeStatus ==> r == Error(StatusUnchanged) && unchanged(this)
      ensures old(isActive) != activeStatus ==>
        && r == Ok(())
        && isActive == activeStatus
        && currentRecordId == None
        && previousRecordId == ShiftedPrevious(old(currentRecordId), old(previousRecordId))
    {
      if isActive == activeStatus {
        return Error(StatusUnchanged);
      }
      ShiftRecords();
      isActive := activeStatus;
      r := Ok(());
    }
  }

  /** createWorker: after the checks, a new active worker of the thekedar,
      joined today, with its trimmed name, and a first monthly record for the
      current month with nothing carried in; the worker's current record is
      that record. recordId is the id the new record is stored under. */
  method CreateWorker(id: WorkerId, recordId: RecordId, thekedarId: ThekedarId, name: string, role: string,
                      wagesPerDay: Option<int>, today: Today)
    returns (r: Result<Worker>, record: Option<MonthlyRecord>)
    requires today.Valid()
    ensures WorkerRefusal(name, role, wagesPerDay).Some? ==>
      r == Error(WorkerRefusal(name, role, wagesPerDay).value) && record == None
    ensures WorkerRefusal(name, role, wagesPerDay).None? ==>
      && r.Ok? && record.Some? && fresh(r.value) && fresh(record.value)
      && r.value.id == id && r.value.thekedarId == thekedarId
      && r.value.name == Trim(name) && r.value.role == role && r.value.wagesPerDay == wagesPerDay.value
      && r.value.joiningDate == JoiningDate(today.year, today.monthIndex, today.dayDate)
      && r.value.isActive && r.value.currentRecordId == Some(recordId) && r.value.previousRecordId == None
      && record.value.id == recordId && record.value.workerId == id
      && record.value.year == today.year && record.value.monthIndex == today.monthIndex
      && record.value.numberOfDays == today.numberOfDays
      && record.value.Valid() && record.value.Fields() == Ledger([], [], None, 0, 0, 0, 0)
  {
    var refusal := WorkerRefusal(name, role, wagesPerDay);
    if refusal.Some? {
      return Error(refusal.value), None;
    }
    var trimmed, joined := Trim(name), JoiningDate(today.year, today.monthIndex, today.dayDate);
    var worker := new Worker(id, thekedarId, trimmed, role, wagesPerDay.value, joined);
    var monthly := new MonthlyRecord(recordId, id, today.year, today.monthIndex, today.numberOfDays, 0, 0);
    worker.currentRecordId := Some(recordId);
    r, record := Ok(worker), Some(monthly);
  }
}

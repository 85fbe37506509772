/** Today's attendance for many workers at once: the presence is checked once,
    the workers are cut into groups of ten, and every worker's entry is added
    to its own monthly record, each with its own outcome. The handlers work on
    record objects; what they do is stated against a value-level account of
    the request over the records' states. */
module AttendanceBatch {
  import opened Common
  import opened Utility
  import opened Batching
  import opened Attendance
  import opened Ledgers
  import opened MonthlyRecords

  /** One worker's part of the request. */
  datatype WorkerData = WorkerData(workerId: WorkerId, recordId: RecordId, wagesOfDay: int,
                                   advanceAmount: Option<int>, purposeOfAdvance: Option<string>)

  /** What the request sees of a monthly record: its month's length and its ledger. */
  datatype RecordState = RecordState(numberOfDays: int, ledger: Ledger)

  ghost function StateOf(rec: MonthlyRecord): RecordState
    reads rec
  {
    RecordState(rec.numberOfDays, rec.Fields())
  }

  /** The states of all records the request may name, by id. */
  ghost function Snapshot(records: map<RecordId, MonthlyRecord>): (m: map<RecordId, RecordState>)
    reads records.Values
    ensures m.Keys == records.Keys
  {
    map id | id in records :: StateOf(records[id])
  }

  /** Distinct ids name distinct records, as distinct documents do. */
  ghost predicate Separate(records: map<RecordId, MonthlyRecord>) {
    forall a, b :: a in records && b in records && a != b ==> records[a] != records[b]
  }

  /** Items that name pairwise distinct records. */
  predicate DistinctRecords(items: seq<WorkerData>) {
    forall i, j :: 0 <= i < j < |items| ==> items[i].recordId != items[j].recordId
  }

  /** Appending an entry keeps every day that had an entry, and adds its own. */
  lemma HasDayAppend(rs: seq<DailyRecord>, e: DailyRecord, d: int)
    ensures HasDay(rs, d) ==> HasDay(rs + [e], d)
    ensures HasDay(rs + [e], e.dayDate)
  {
    if HasDay(rs, d) {
      var i :| 0 <= i < |rs| && rs[i].dayDate == d;
      assert (rs + [e])[i] == rs[i];
    }
    assert (rs + [e])[|rs|] == e;
  }

  /** The entry addAttendenceSingle builds for an item: today's day and
      weekday, the presence word (the request's presence, trimmed), the item's
      wages and advance. */
  function TodayEntry(item: WorkerData, word: string, today: Today): DailyRecord
    requires today.Valid()
  {
    DailyRecord(today.dayDate, Days[today.dayIndex], word, item.wagesOfDay,
                AdvanceFrom(item.advanceAmount, item.purposeOfAdvance))
  }

  /** What addAttendenceSingle refuses on a record's state, if anything. */
  function RefusalOn(s: RecordState, today: Today): Option<ApiError> {
    SingleRefusal(s.ledger.dailyRecords, LastDayOf(s.ledger.lastSettlementDate), s.numberOfDays, today.dayDate)
  }

  /** One item on its own record's state: it succeeds exactly when the record
      refuses nothing, and the record then gains exactly today's entry for
      it; a refused item leaves the record as it was. */
  function AttendState(item: WorkerData, word: string, today: Today, s: RecordState)
    : (r: (Result<WorkerId>, RecordState))
    requires today.Valid()
    ensures r.0.Ok? <==> RefusalOn(s, today).None?
    ensures r.0.Ok? ==> r.0.value == item.workerId
                        && r.1 == s.(ledger := WithEntry(s.ledger, TodayEntry(item, word, today)))
    ensures r.0.Error? ==> r.0.error == RefusalOn(s, today).value && r.1 == s
  {
    var refusal := RefusalOn(s, today);
    if refusal.Some? then (Error(refusal.value), s)
    else (Ok(item.workerId), s.(ledger := WithEntry(s.ledger, TodayEntry(item, word, today))))
  }

  /** One item on the states of all records: a missing record fails the item
      alone; otherwise the item's own record answers it, and no other record
      changes. */
  function AttendItem(item: WorkerData, word: string, today: Today, state: map<RecordId, RecordState>)
    : (r: (Result<WorkerId>, map<RecordId, RecordState>))
    requires today.Valid()
    ensures r.1.Keys == state.Keys
    ensures item.recordId !in state ==> r.0 == Error(RecordNotFound) && r.1 == state
    ensures item.recordId in state ==> (r.0, r.1[item.recordId]) == AttendState(item, word, today, state[item.recordId])
    ensures forall id :: id in state && id != item.recordId ==> r.1[id] == state[id]
  {
    if item.recordId !in state then (Error(RecordNotFound), state)
    else
      var s := AttendState(item, word, today, state[item.recordId]);
      (s.0, state[item.recordId := s.1])
  }

  /** The items in order, each on the states the items before it left: the
      outcomes in the items' order, and the final states. */
  function AttendAll(items: seq<WorkerData>, word: string, today: Today, state: map<RecordId, RecordState>)
    : (r: (seq<Result<WorkerId>>, map<RecordId, RecordState>))
    requires today.Valid()
    ensures |r.0| == |items| && r.1.Keys == state.Keys
    decreases |items|
  {
    if items == [] then ([], state)
    else
      var before := AttendAll(items[..|items| - 1], word, today, state);
      var last := AttendItem(items[|items| - 1], word, today, before.1);
      (before.0 + [last.0], last.1)
  }

  /** Two runs of items one after the other are the first run, then the
      second on what the first left. */
  lemma {:induction false} AttendAllConcat(items: seq<WorkerData>, more: seq<WorkerData>, word: string,
                                           today: Today, state: map<RecordId, RecordState>)
    requires today.Valid()
    ensures var first := AttendAll(items, word, today, state);
            var second := AttendAll(more, word, today, first.1);
            AttendAll(items + more, word, today, state) == (first.0 + second.0, second.1)
    decreases |more|
  {
    if more == [] {
      assert items + more == items;
      var first := AttendAll(items, word, today, state);
      assert first.0 + [] == first.0;
    } else {
      var init := more[..|more| - 1];
      assert (items + more)[..|items + more| - 1] == items + init;
      assert (items + more)[|items + more| - 1] == more[|more| - 1];
      AttendAllConcat(items, init, word, today, state);
      var first := AttendAll(items, word, today, state);
      var second := AttendAll(init, word, today, first.1);
      var last := AttendItem(more[|more| - 1], word, today, second.1);
      assert (first.0 + second.0) + [last.0] == first.0 + (second.0 + [last.0]);
    }
  }

  /** The outcome a worker's item may have. */
  predicate ItemOutcome(item: WorkerData, res: Result<WorkerId>, known: bool) {
    && (res == Error(RecordNotFound) <==> !known)
    && (res.Ok? ==> res.value == item.workerId)
    && (res.Error? ==> res.error in {RecordNotFound, AttendanceExists, InvalidDayDate})
  }

  /** Every item's outcome is one a missing record or addAttendenceSingle can
      give: RecordNotFound exactly when the record is missing. An item that
      succeeded leaves its record with an entry for today, whatever the items
      after it do. */
  lemma {:induction false} AttendAllOutcomes(items: seq<WorkerData>, word: string, today: Today,
                                             state: map<RecordId, RecordState>)
    requires today.Valid()
    ensures var r := AttendAll(items, word, today, state);
      forall k :: 0 <= k < |items| ==>
        && ItemOutcome(items[k], r.0[k], items[k].recordId in state)
        && (r.0[k].Ok? ==> HasDay(r.1[items[k].recordId].ledger.dailyRecords, today.dayDate))
    decreases |items|
  {
    if items != [] {
      var init, item := items[..|items| - 1], items[|items| - 1];
      AttendAllOutcomes(init, word, today, state);
      var before := AttendAll(init, word, today, state);
      var r := AttendAll(items, word, today, state);
      var entry := TodayEntry(item, word, today);
      forall k | 0 <= k < |items|
        ensures ItemOutcome(items[k], r.0[k], items[k].recordId in state)
        ensures r.0[k].Ok? ==> HasDay(r.1[items[k].recordId].ledger.dailyRecords, today.dayDate)
      {
        var id := items[k].recordId;
        if id == item.recordId && id in state {
          HasDayAppend(before.1[id].ledger.dailyRecords, entry, today.dayDate);
        }
        if k < |items| - 1 {
          assert items[k] == init[k] && r.0[k] == before.0[k];
        }
      }
    }
  }

  /** Each item on the states before the whole request: a missing record
      fails it, every other item gets what its own record alone gives it, and
      a record no item names stays as it was. */
  predicate EachOnItsOwn(items: seq<WorkerData>, word: string, today: Today, before: map<RecordId, RecordState>,
                         results: seq<Result<WorkerId>>, after: map<RecordId, RecordState>)
    requires today.Valid()
  {
    && |results| == |items| && after.Keys == before.Keys
    && (forall k :: 0 <= k < |items| && items[k].recordId !in before ==> results[k] == Error(RecordNotFound))
    && (forall k :: 0 <= k < |items| && items[k].recordId in before ==>
          (results[k], after[items[k].recordId]) == AttendState(items[k], word, today, before[items[k].recordId]))
    && (forall id :: id in before && (forall k :: 0 <= k < |items| ==> items[k].recordId != id) ==>
          after[id] == before[id])
  }

  /** When the items name distinct records, no item sees another's change:
      each succeeds exactly when its own record refused nothing before the
      request, that record gains exactly the item's entry, and records no
      item names are untouched. */
  lemma {:induction false} AttendAllDistinct(items: seq<WorkerData>, word: string, today: Today,
                                             state: map<RecordId, RecordState>)
    requires today.Valid() && DistinctRecords(items)
    ensures var r := AttendAll(items, word, today, state);
      EachOnItsOwn(items, word, today, state, r.0, r.1)
    decreases |items|
  {
    if items != [] {
      var init, item := items[..|items| - 1], items[|items| - 1];
      assert DistinctRecords(init);
      AttendAllDistinct(init, word, today, state);
      var before := AttendAll(init, word, today, state);
      var r := AttendAll(items, word, today, state);
      assert forall k :: 0 <= k < |init| ==> init[k].recordId != item.recordId;
      forall k | 0 <= k < |items| && items[k].recordId in state
        ensures (r.0[k], r.1[items[k].recordId]) == AttendState(items[k], word, today, state[items[k].recordId])
      {
        if k < |items| - 1 {
          assert items[k] == init[k] && r.0[k] == before.0[k];
        }
      }
      forall k | 0 <= k < |items| && items[k].recordId !in state
        ensures r.0[k] == Error(RecordNotFound)
      {
        if k < |items| - 1 {
          assert items[k] == init[k] && r.0[k] == before.0[k];
        }
      }
      forall id | id in state && (forall k :: 0 <= k < |items| ==> items[k].recordId != id)
        ensures r.1[id] == state[id]
      {
        assert forall k :: 0 <= k < |init| ==> init[k] == items[k];
      }
    }
  }

  /** addAttendenceSingle on the item's own record: the item succeeds exactly
      when the record refused nothing, the record then gains exactly today's
      entry for the item, and a refused item changes nothing. */
  method AttendRecord(item: WorkerData, word: string, rec: MonthlyRecord, today: Today)
    returns (res: Result<WorkerId>)
    requires today.Valid() && word in Presences && rec.Valid()
    requires item.wagesOfDay >= 0 && (item.advanceAmount.Some? ==> item.advanceAmount.value >= 0)
    modifies rec
    ensures rec.Valid()
    ensures res.Ok? <==> old(SingleRefusal(rec.dailyRecords, rec.LastDay(), rec.numberOfDays, today.dayDate)).None?
    ensures res.Ok? ==> res.value == item.workerId
                        && rec.Fields() == WithEntry(old(rec.Fields()), TodayEntry(item, word, today))
    ensures res.Error? ==> unchanged(rec)
    ensures (res, StateOf(rec)) == AttendState(item, word, today, old(StateOf(rec)))
  {
    PresencesTrimmed(word);
    var r := rec.AddAttendanceSingle(word, item.wagesOfDay, item.advanceAmount, item.purposeOfAdvance, today);
    if r.Error? {
      return Error(r.error);
    }
    res := Ok(item.workerId);
  }

  /** A map that agrees with m everywhere except at id, where it holds v, is
      m with id set to v. */
  lemma MapUpdateExt(m: map<RecordId, RecordState>, m': map<RecordId, RecordState>, id: RecordId, v: RecordState)
    requires id in m && m'.Keys == m.Keys && m'[id] == v
    requires forall other :: other in m && other != id ==> m'[other] == m[other]
    ensures m' == m[id := v]
  {
  }

  /** One item: a missing record fails the item alone; otherwise the item's
      record is attended and no other record changes. */
  method AttendOne(item: WorkerData, word: string, records: map<RecordId, MonthlyRecord>, today: Today)
    returns (res: Result<WorkerId>)
    requires today.Valid() && word in Presences
    requires Separate(records) && forall id :: id in records ==> records[id].Valid()
    requires item.wagesOfDay >= 0 && (item.advanceAmount.Some? ==> item.advanceAmount.value >= 0)
    modifies records.Values
    ensures forall id :: id in records ==> records[id].Valid()
    ensures (res, Snapshot(records)) == AttendItem(item, word, today, old(Snapshot(records)))
  {
    if item.recordId !in records {
      return Error(RecordNotFound);
    }
    var rec := records[item.recordId];
    ghost var before := Snapshot(records);
    ghost var step := AttendState(item, word, today, before[item.recordId]);
    res := AttendRecord(item, word, rec, today);
    ghost var after := Snapshot(records);
    forall other | other in records && other != item.recordId
      ensures after[other] == before[other]
    {
      assert records[other] != rec;
    }
    MapUpdateExt(before, after, item.recordId, step.1);
  }

  /** The items of one group, in order, each on what the items before it left. */
  method AttendGroup(group: seq<WorkerData>, word: string, records: map<RecordId, MonthlyRecord>, today: Today)
    returns (results: seq<Result<WorkerId>>)
    requires today.Valid() && word in Presences
    requires Separate(records) && forall id :: id in records ==> records[id].Valid()
    requires forall i :: 0 <= i < |group| ==>
      group[i].wagesOfDay >= 0 && (group[i].advanceAmount.Some? ==> group[i].advanceAmount.value >= 0)
    modifies records.Values
    ensures forall id :: id in records ==> records[id].Valid()
    ensures (results, Snapshot(records)) == AttendAll(group, word, today, old(Snapshot(records)))
  {
    results := [];
    for j := 0 to |group|
      invariant forall id :: id in records ==> records[id].Valid()
      invariant (results, Snapshot(records)) == AttendAll(group[..j], word, today, old(Snapshot(records)))
    {
      assert group[..j + 1][..j] == group[..j];
      var res := AttendOne(group[j], word, records, today);
      results := results + [res];
    }
    assert group[..|group|] == group;
  }

  /** The groups in order: the groups' items laid end to end, each on what
      the items before it left. */
  method AttendBatches(batch: seq<seq<WorkerData>>, word: string, records: map<RecordId, MonthlyRecord>,
                       today: Today)
    returns (response: seq<Result<WorkerId>>)
    requires today.Valid() && word in Presences
    requires Separate(records) && forall id :: id in records ==> records[id].Valid()
    requires forall g, i :: 0 <= g < |batch| && 0 <= i < |batch[g]| ==>
      batch[g][i].wagesOfDay >= 0 && (batch[g][i].advanceAmount.Some? ==> batch[g][i].advanceAmount.value >= 0)
    modifies records.Values
    ensures forall id :: id in records ==> records[id].Valid()
    ensures (response, Snapshot(records)) == AttendAll(Flatten(batch), word, today, old(Snapshot(records)))
  {
    response := [];
    for g := 0 to |batch|
      invariant forall id :: id in records ==> records[id].Valid()
      invariant (response, Snapshot(records)) == AttendAll(Flatten(batch[..g]), word, today, old(Snapshot(records)))
    {
      assert Flatten(batch[..g + 1]) == Flatten(batch[..g]) + batch[g] by {
        assert batch[..g + 1] == batch[..g] + [batch[g]];
        FlattenAppend(batch[..g], batch[g]);
      }
      AttendAllConcat(Flatten(batch[..g]), batch[g], word, today, old(Snapshot(records)));
      var results := AttendGroup(batch[g], word, records, today);
      response := response + results;
    }
    assert batch[..|batch|] == batch;
  }

  /** createAttendance: a presence that is not valid once trimmed refuses the
      whole request and changes nothing. Otherwise the workers are grouped by
      ten, the groups are handled in order, and the answer holds one outcome
      per worker in the request's order, as the items would have in turn:
      RecordNotFound exactly for a worker whose record is missing, success
      only for a worker whose record now has an entry for today. When the
      workers name distinct records, each succeeds exactly when its record
      refused nothing, that record gains exactly its entry, and records no
      worker names are untouched. */
  method CreateAttendance(workersData: seq<WorkerData>, presence: string, records: map<RecordId, MonthlyRecord>,
                          today: Today)
    returns (r: Result<seq<Result<WorkerId>>>)
    requires today.Valid()
    requires Separate(records) && forall id :: id in records ==> records[id].Valid()
    requires forall i :: 0 <= i < |workersData| ==>
      workersData[i].wagesOfDay >= 0 && (workersData[i].advanceAmount.Some? ==> workersData[i].advanceAmount.value >= 0)
    modifies records.Values
    ensures forall id :: id in records ==> records[id].Valid()
    ensures Trim(presence) !in Presences ==> r == Error(InvalidPresence) && unchanged(records.Values)
    ensures Trim(presence) in Presences ==>
      r.Ok? && (r.value, Snapshot(records)) == AttendAll(workersData, Trim(presence), today, old(Snapshot(records)))
    ensures Trim(presence) in Presences ==> forall i :: 0 <= i < |workersData| ==>
      && ItemOutcome(workersData[i], r.value[i], workersData[i].recordId in records)
      && (r.value[i].Ok? ==> HasDay(records[workersData[i].recordId].dailyRecords, today.dayDate))
    ensures Trim(presence) in Presences && DistinctRecords(workersData) ==>
      EachOnItsOwn(workersData, Trim(presence), today, old(Snapshot(records)), r.value, Snapshot(records))
  {
    var word := Trim(presence);
    if word !in Presences {
      return Error(InvalidPresence);
    }
    var batch: seq<seq<WorkerData>> := MakeBatches(workersData);
    forall g, i | 0 <= g < |batch| && 0 <= i < |batch[g]|
      ensures batch[g][i].wagesOfDay >= 0 && (batch[g][i].advanceAmount.Some? ==> batch[g][i].advanceAmount.value >= 0)
    {
      FlattenMember(batch, g, i);
    }
    var response := AttendBatches(batch, word, records, today);
    r := Ok(response);
    AttendAllOutcomes(workersData, word, today, old(Snapshot(records)));
    if DistinctRecords(workersData) {
      AttendAllDistinct(workersData, word, today, old(Snapshot(records)));
    }
  }
}

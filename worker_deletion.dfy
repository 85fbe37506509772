/** Deleting many workers at once: the ids are cut into groups of ten and the
    groups are handled in order; each id deletes one worker of the thekedar
    together with all of that worker's monthly records, or fails on its own. */
module WorkerDeletion {
  import opened Common
  import opened Batching

  /** A worker stored under id that belongs to the thekedar. */
  predicate Owned(owners: map<WorkerId, ThekedarId>, id: WorkerId, thekedarId: ThekedarId) {
    id in owners && owners[id] == thekedarId
  }

  /** The workers left after deleting ids: those not named, or not the thekedar's. */
  function Remaining(owners: map<WorkerId, ThekedarId>, ids: seq<WorkerId>, thekedarId: ThekedarId)
    : (m: map<WorkerId, ThekedarId>)
    ensures forall w :: w in m <==> w in owners && !(w in ids && owners[w] == thekedarId)
    ensures forall w :: w in m ==> m[w] == owners[w]
  {
    map w | w in owners && !(w in ids && owners[w] == thekedarId) :: owners[w]
  }

  /** The workers deleting ids removes. */
  function Deleted(owners: map<WorkerId, ThekedarId>, ids: seq<WorkerId>, thekedarId: ThekedarId): (s: set<WorkerId>)
    ensures forall w :: w in s <==> w in ids && Owned(owners, w, thekedarId)
  {
    set w | w in ids && Owned(owners, w, thekedarId)
  }

  /** The monthly records left once the workers in gone are deleted. */
  function KeptRecords(recordOwners: map<RecordId, WorkerId>, gone: set<WorkerId>): (m: map<RecordId, WorkerId>)
    ensures forall r :: r in m <==> r in recordOwners && recordOwners[r] !in gone
    ensures forall r :: r in m ==> m[r] == recordOwners[r]
  {
    map r | r in recordOwners && recordOwners[r] !in gone :: recordOwners[r]
  }

  /** The answer for each id, in order: deleted when it names a worker of the
      thekedar not already deleted by an earlier id, not found otherwise. */
  function Outcomes(owners: map<WorkerId, ThekedarId>, ids: seq<WorkerId>, thekedarId: ThekedarId)
    : (r: seq<Result<WorkerId>>)
    ensures |r| == |ids|
    ensures forall i :: 0 <= i < |ids| ==>
      r[i] == if Owned(owners, ids[i], thekedarId) && ids[i] !in ids[..i] then Ok(ids[i]) else Error(WorkerNotFound)
  {
    seq(|ids|, i requires 0 <= i < |ids| =>
      if Owned(owners, ids[i], thekedarId) && ids[i] !in ids[..i] then Ok(ids[i]) else Error(WorkerNotFound))
  }

  /** Deleting a then b removes the same workers as deleting a + b. */
  lemma RemainingConcat(owners: map<WorkerId, ThekedarId>, a: seq<WorkerId>, b: seq<WorkerId>, thekedarId: ThekedarId)
    ensures Remaining(Remaining(owners, a, thekedarId), b, thekedarId) == Remaining(owners, a + b, thekedarId)
    ensures Deleted(owners, a + b, thekedarId)
            == Deleted(owners, a, thekedarId) + Deleted(Remaining(owners, a, thekedarId), b, thekedarId)
  {
    assert forall w :: w in a + b <==> w in a || w in b;
  }

  /** Records kept after two rounds of deletion are those kept after one round
      for both sets of workers. */
  lemma KeptRecordsConcat(recordOwners: map<RecordId, WorkerId>, gone: set<WorkerId>, more: set<WorkerId>)
    ensures KeptRecords(KeptRecords(recordOwners, gone), more) == KeptRecords(recordOwners, gone + more)
  {
  }

  /** The answers for a + b are those for a followed by those for b against
      the workers a left. */
  lemma OutcomesConcat(owners: map<WorkerId, ThekedarId>, a: seq<WorkerId>, b: seq<WorkerId>, thekedarId: ThekedarId)
    ensures Outcomes(owners, a + b, thekedarId)
            == Outcomes(owners, a, thekedarId) + Outcomes(Remaining(owners, a, thekedarId), b, thekedarId)
  {
    var ab := a + b;
    var left := Remaining(owners, a, thekedarId);
    forall i | 0 <= i < |ab|
      ensures Outcomes(owners, ab, thekedarId)[i]
              == (Outcomes(owners, a, thekedarId) + Outcomes(left, b, thekedarId))[i]
    {
      if i < |a| {
        assert ab[..i] == a[..i];
      } else {
        var k := i - |a|;
        assert ab[i] == b[k];
        assert ab[..i] == a + b[..k];
        assert forall w :: w in a + b[..k] <==> w in a || w in b[..k];
      }
    }
  }

  /** The stored workers and monthly records, as deletion sees them: each
      worker's thekedar and each record's worker. */
  class Directory {
    var owners: map<WorkerId, ThekedarId>
    var recordOwners: map<RecordId, WorkerId>

    constructor (owners: map<WorkerId, ThekedarId>, recordOwners: map<RecordId, WorkerId>)
      ensures this.owners == owners && this.recordOwners == recordOwners
    {
      this.owners, this.recordOwners := owners, recordOwners;
    }

    /** deleteOneWorker: a worker of the thekedar is deleted with all its
        monthly records; any other id is not found and changes nothing. */
    method DeleteOneWorker(workerId: WorkerId, thekedarId: ThekedarId) returns (r: Result<WorkerId>)
      modifies this
      ensures r == Outcomes(old(owners), [workerId], thekedarId)[0]
      ensures owners == Remaining(old(owners), [workerId], thekedarId)
      ensures recordOwners == KeptRecords(old(recordOwners), Deleted(old(owners), [workerId], thekedarId))
    {
      if !(workerId in owners && owners[workerId] == thekedarId) {
        r := Error(WorkerNotFound);
        assert KeptRecords(recordOwners, {}) == recordOwners;
        assert Deleted(owners, [workerId], thekedarId) == {};
        return;
      }
      recordOwners := map id | id in recordOwners && recordOwners[id] != workerId :: recordOwners[id];
      owners := owners - {workerId};
      assert Deleted(old(owners), [workerId], thekedarId) == {workerId};
      r := Ok(workerId);
    }

    /** One group's ids, in order. */
    method DeleteGroup(group: seq<WorkerId>, thekedarId: ThekedarId) returns (results: seq<Result<WorkerId>>)
      modifies this
      ensures results == Outcomes(old(owners), group, thekedarId)
      ensures owners == Remaining(old(owners), group, thekedarId)
      ensures recordOwners == KeptRecords(old(recordOwners), Deleted(old(owners), group, thekedarId))
    {
      results := [];
      for j := 0 to |group|
        invariant results == Outcomes(old(owners), group[..j], thekedarId)
        invariant owners == Remaining(old(owners), group[..j], thekedarId)
        invariant recordOwners == KeptRecords(old(recordOwners), Deleted(old(owners), group[..j], thekedarId))
      {
        assert group[..j + 1] == group[..j] + [group[j]];
        RemainingConcat(old(owners), group[..j], [group[j]], thekedarId);
        OutcomesConcat(old(owners), group[..j], [group[j]], thekedarId);
        KeptRecordsConcat(old(recordOwners), Deleted(old(owners), group[..j], thekedarId),
                          Deleted(owners, [group[j]], thekedarId));
        var r := DeleteOneWorker(group[j], thekedarId);
        results := results + [r];
      }
      assert group[..|group|] == group;
    }

    /** deleteWorkerMultiple: an empty list is refused and changes nothing.
        Otherwise every id is answered in order, the workers of the thekedar
        named in the list are deleted with all their monthly records, and
        nothing else is. */
    method DeleteWorkerMultiple(workerIds: seq<WorkerId>, thekedarId: ThekedarId)
      returns (r: Result<seq<Result<WorkerId>>>)
      modifies this
      ensures workerIds == [] ==> r == Error(NoWorkerIds) && unchanged(this)
      ensures workerIds != [] ==> r == Ok(Outcomes(old(owners), workerIds, thekedarId))
      ensures owners == Remaining(old(owners), workerIds, thekedarId)
      ensures recordOwners == KeptRecords(old(recordOwners), Deleted(old(owners), workerIds, thekedarId))
    {
      if workerIds == [] {
        assert Remaining(owners, workerIds, thekedarId) == owners;
        assert KeptRecords(recordOwners, Deleted(owners, workerIds, thekedarId)) == recordOwners;
        return Error(NoWorkerIds);
      }
      var batch := MakeBatches(workerIds);
      var response: seq<Result<WorkerId>> := [];
      assert Remaining(owners, [], thekedarId) == owners;
      assert KeptRecords(recordOwners, Deleted(owners, [], thekedarId)) == recordOwners;
      for g := 0 to |batch|
        invariant response == Outcomes(old(owners), Flatten(batch[..g]), thekedarId)
        invariant owners == Remaining(old(owners), Flatten(batch[..g]), thekedarId)
        invariant recordOwners == KeptRecords(old(recordOwners), Deleted(old(owners), Flatten(batch[..g]), thekedarId))
      {
        var done := Flatten(batch[..g]);
        assert Flatten(batch[..g + 1]) == done + batch[g] by {
          assert batch[..g + 1] == batch[..g] + [batch[g]];
          FlattenAppend(batch[..g], batch[g]);
        }
        RemainingConcat(old(owners), done, batch[g], thekedarId);
        OutcomesConcat(old(owners), done, batch[g], thekedarId);
        KeptRecordsConcat(old(recordOwners), Deleted(old(owners), done, thekedarId),
                          Deleted(owners, batch[g], thekedarId));
        var results := DeleteGroup(batch[g], thekedarId);
        response := response + results;
      }
      assert batch[..|batch|] == batch;
      r := Ok(response);
    }
  }
}

/**
 * What a batch run leaves in the index: for each id, the last record of the
 * batch that writes that id decides its entry, and ids no record writes keep
 * theirs. From this follows that running a batch again, after it completed
 * or after it threw part-way, converges on the same index, provided that a
 * delete of an id that is already gone succeeds, as `Remove` has it.
 */
module SyncProperties {
  import opened Wrappers
  import opened StreamRecords
  import opened Documents
  import opened SearchIndex
  import opened StreamSync

  /** The document stored under `k`, if any. */
  function Lookup(m: map<string, Document>, k: string): Option<Document>
  {
    if k in m then Some(m[k]) else None
  }

  /** The index of the last record in `rs` that writes id `k`, if one does. */
  function LastTarget(rs: seq<StreamRecord>, k: string): (j: Option<nat>)
    ensures j.Some? ==> j.value < |rs| && Target(rs[j.value]) == Some(k)
    ensures j.Some? ==> forall i :: j.value < i < |rs| ==> Target(rs[i]) != Some(k)
    ensures j.None? <==> forall i :: 0 <= i < |rs| ==> Target(rs[i]) != Some(k)
  {
    if rs == [] then None
    else if Target(rs[|rs| - 1]) == Some(k) then Some(|rs| - 1)
    else LastTarget(rs[..|rs| - 1], k)
  }

  /** A record that indexes a document always names its id (its `NewImage` carries `id.S`). */
  predicate Keyed(r: StreamRecord)
  {
    IsUpsertEvent(r.eventName) && r.newImage.Some? ==> Project(r.newImage.value).id.Some?
  }

  /** One successful record changes at most the entry of the id it writes. */
  lemma StepEntry(s: IndexState, r: StreamRecord, k: string)
    requires Step(s, r).Success?
    ensures Lookup(Step(s, r).value.docs, k) == if Target(r) == Some(k) then Written(r) else Lookup(s.docs, k)
  {
  }

  /**
   * In a batch that completes, the entry under `k` is what the last record
   * writing `k` left there, and is untouched when no record writes `k`.
   */
  lemma {:induction false} FinalEntry(s: IndexState, rs: seq<StreamRecord>, k: string)
    requires RunBatch(s, rs).outcome == Completed
    ensures Lookup(RunBatch(s, rs).state.docs, k) ==
      if LastTarget(rs, k).Some? then Written(rs[LastTarget(rs, k).value]) else Lookup(s.docs, k)
  {
    if rs != [] {
      var front := rs[..|rs| - 1];
      var r := rs[|rs| - 1];
      var prev := RunBatch(s, front);
      assert prev.outcome == Completed;
      FinalEntry(s, front, k);
      StepEntry(prev.state, r, k);
      if Target(r) != Some(k) {
        assert LastTarget(rs, k) == LastTarget(front, k);
        if LastTarget(front, k).Some? {
          assert rs[LastTarget(front, k).value] == front[LastTarget(front, k).value];
        }
      }
    }
  }

  /** A batch whose upserts all carry an id adds no document under a generated id. */
  lemma {:induction false} KeyedBatchKeepsUnkeyed(s: IndexState, rs: seq<StreamRecord>)
    requires forall i :: 0 <= i < |rs| ==> Keyed(rs[i])
    ensures RunBatch(s, rs).state.unkeyed == s.unkeyed
  {
    if rs != [] {
      KeyedBatchKeepsUnkeyed(s, rs[..|rs| - 1]);
    }
  }

  /** Whether a record throws does not depend on the index: the same record throws the same error anywhere. */
  lemma StepFaultIgnoresState(s: IndexState, t: IndexState, r: StreamRecord)
    ensures Step(s, r).Failure? <==> Step(t, r).Failure?
    ensures Step(s, r).Failure? ==> Step(s, r).error == Step(t, r).error
  {
  }

  /** Where a batch throws, and why, does not depend on the index it starts from. */
  lemma {:induction false} OutcomeIgnoresState(s: IndexState, t: IndexState, rs: seq<StreamRecord>)
    ensures RunBatch(s, rs).outcome == RunBatch(t, rs).outcome
  {
    if rs != [] {
      var front := rs[..|rs| - 1];
      OutcomeIgnoresState(s, t, front);
      StepFaultIgnoresState(RunBatch(s, front).state, RunBatch(t, front).state, rs[|rs| - 1]);
    }
  }

  /** Every prefix of a batch that completes also completes. */
  lemma {:induction false} PrefixCompletes(s: IndexState, rs: seq<StreamRecord>, n: nat)
    requires n <= |rs|
    requires RunBatch(s, rs).outcome == Completed
    ensures RunBatch(s, rs[..n]).outcome == Completed
  {
    if n < |rs| {
      var front := rs[..|rs| - 1];
      assert front[..n] == rs[..n];
      PrefixCompletes(s, front, n);
    } else {
      assert rs[..n] == rs;
    }
  }

  lemma MapsEqualByLookup(a: map<string, Document>, b: map<string, Document>)
    requires forall k :: Lookup(a, k) == Lookup(b, k)
    ensures a == b
  {
    assert forall k :: k in a <==> Lookup(a, k).Some?;
  }

  /**
   * Redelivery converges when deletes of absent ids succeed: when a batch
   * of keyed records is delivered again after its first `n` records were
   * applied (all of them, or up to the write that failed), the index ends as
   * if it had been applied once.
   */
  lemma RetryConverges(s: IndexState, rs: seq<StreamRecord>, n: nat)
    requires n <= |rs|
    requires forall i :: 0 <= i < |rs| ==> Keyed(rs[i])
    requires RunBatch(s, rs).outcome == Completed
    ensures RunBatch(RunBatch(s, rs[..n]).state, rs) == RunBatch(s, rs)
  {
    PrefixCompletes(s, rs, n);
    var p := RunBatch(s, rs[..n]).state;
    OutcomeIgnoresState(p, s, rs);
    forall k
      ensures Lookup(RunBatch(p, rs).state.docs, k) == Lookup(RunBatch(s, rs).state.docs, k)
    {
      FinalEntry(p, rs, k);
      FinalEntry(s, rs, k);
      if LastTarget(rs, k).None? {
        assert LastTarget(rs[..n], k).None?;
        FinalEntry(s, rs[..n], k);
      }
    }
    MapsEqualByLookup(RunBatch(p, rs).state.docs, RunBatch(s, rs).state.docs);
    KeyedBatchKeepsUnkeyed(p, rs);
    KeyedBatchKeepsUnkeyed(s, rs);
    KeyedBatchKeepsUnkeyed(s, rs[..n]);
  }

  /** Delivering a completed batch of keyed records a second time changes nothing. */
  lemma RedeliveryIdempotent(s: IndexState, rs: seq<StreamRecord>)
    requires forall i :: 0 <= i < |rs| ==> Keyed(rs[i])
    requires RunBatch(s, rs).outcome == Completed
    ensures RunBatch(RunBatch(s, rs).state, rs) == RunBatch(s, rs)
  {
    assert rs[..|rs|] == rs;
    RetryConverges(s, rs, |rs|);
  }

  /**
   * The same `INSERT`/`MODIFY` record applied twice gives the index it gives
   * applied once, since an upsert by id replaces the whole document.
   */
  lemma UpsertTwiceSameAsOnce(s: IndexState, r: StreamRecord)
    requires IsUpsertEvent(r.eventName) && r.newImage.Some? && Keyed(r)
    ensures RunBatch(s, [r, r]) == RunBatch(s, [r])
  {
  }

  /** Without an id the same record indexes a second copy: an upsert is idempotent only when keyed. */
  lemma UnkeyedUpsertDuplicates(s: IndexState, r: StreamRecord)
    requires IsUpsertEvent(r.eventName) && r.newImage.Some? && !Keyed(r)
    ensures RunBatch(s, [r, r]).state == s.(unkeyed := s.unkeyed + [Project(r.newImage.value), Project(r.newImage.value)])
    ensures RunBatch(s, [r, r]) != RunBatch(s, [r])
  {
    var d := Project(r.newImage.value);
    assert [r, r][..1] == [r];
    assert [r][..0] == [];
    assert RunBatch(s, [r]).state == s.(unkeyed := s.unkeyed + [d]);
  }
}

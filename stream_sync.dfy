/**
 * The stream-sync handler: it walks a batch of change-stream records in
 * order, upserting the projected document for `INSERT` and `MODIFY`,
 * deleting by `OldImage.id.S` for `REMOVE`, and ignoring any other event
 * name. Nothing is caught: the first error thrown, by a missing image, by
 * a delete without an id or by a failing write, ends the batch, and the
 * writes made before it stay in the index.
 */
module StreamSync {
  import opened Wrappers
  import opened StreamRecords
  import opened Documents
  import opened SearchIndex

  /** Why the handler threw part-way through a batch. */
  datatype Fault =
    | MissingNewImage   // `dbRecord.NewImage` is undefined, so reading `item.id` throws
    | MissingOldImage   // `dbRecord.OldImage` is undefined, so reading `oldItem.id` throws
    | MissingDeleteId   // `OldImage.id.S` is undefined; the client cannot build the delete request
    | WriteFailed       // the `index` or `delete` call itself failed

  /** How a batch ended: every record handled, or an error thrown at record `at`. */
  datatype Outcome = Completed | Threw(at: nat, fault: Fault)

  datatype Run = Run(state: IndexState, outcome: Outcome)

  predicate IsUpsertEvent(eventName: string)
  {
    eventName == "INSERT" || eventName == "MODIFY"
  }

  /** The effect of one record on the index when its write succeeds, or the error it throws first. */
  function Step(s: IndexState, r: StreamRecord): (res: Result<IndexState, Fault>)
    ensures IsUpsertEvent(r.eventName) && r.newImage.Some? && Project(r.newImage.value).id.Some? ==>
      var k := Project(r.newImage.value).id.value;
      res.Success? && res.value.docs == s.docs[k := Project(r.newImage.value)] && res.value.unkeyed == s.unkeyed
    ensures IsUpsertEvent(r.eventName) && r.newImage.Some? && Project(r.newImage.value).id.None? ==>
      res == Success(s.(unkeyed := s.unkeyed + [Project(r.newImage.value)]))
    ensures r.eventName == "REMOVE" && r.oldImage.Some? && StringAttr(r.oldImage.value, "id").Some? ==>
      var k := StringAttr(r.oldImage.value, "id").value;
      res.Success? && res.value.docs == s.docs - {k} && res.value.unkeyed == s.unkeyed
    ensures !IsUpsertEvent(r.eventName) && r.eventName != "REMOVE" ==> res == Success(s)
    ensures res.Failure? <==>
      (IsUpsertEvent(r.eventName) && r.newImage.None?) ||
      (r.eventName == "REMOVE" && (r.oldImage.None? || StringAttr(r.oldImage.value, "id").None?))
    ensures res.Failure? ==> res.error != WriteFailed
  {
    if IsUpsertEvent(r.eventName) then
      match r.newImage
      case None => Failure(MissingNewImage)
      case Some(item) =>
        var document := Project(item);
        Success(Upsert(s, document.id, document))
    else if r.eventName == "REMOVE" then
      match r.oldImage
      case None => Failure(MissingOldImage)
      case Some(oldItem) =>
        match StringAttr(oldItem, "id")
        case None => Failure(MissingDeleteId)
        case Some(documentId) => Success(Remove(s, documentId))
    else
      Success(s)
  }

  /** The id a record writes under, if it writes one: a keyed upsert or a delete. */
  function Target(r: StreamRecord): Option<string>
  {
    if IsUpsertEvent(r.eventName) && r.newImage.Some? then Project(r.newImage.value).id
    else if r.eventName == "REMOVE" && r.oldImage.Some? then StringAttr(r.oldImage.value, "id")
    else None
  }

  /** What a targeting record leaves under its id: the projected document, or nothing after a delete. */
  function Written(r: StreamRecord): Option<Document>
  {
    if IsUpsertEvent(r.eventName) && r.newImage.Some? then Some(Project(r.newImage.value)) else None
  }

  /**
   * The batch run against an index whose writes all succeed: records are
   * applied in order until the first one that throws.
   */
  function RunBatch(s: IndexState, rs: seq<StreamRecord>): (run: Run)
    ensures run.outcome.Threw? ==> run.outcome.at < |rs| && run.outcome.fault != WriteFailed
    ensures rs == [] ==> run == Run(s, Completed)
  {
    if rs == [] then Run(s, Completed)
    else
      var prev := RunBatch(s, rs[..|rs| - 1]);
      if prev.outcome.Threw? then prev
      else
        match Step(prev.state, rs[|rs| - 1])
        case Failure(f) => Run(prev.state, Threw(|rs| - 1, f))
        case Success(s') => Run(s', Completed)
  }

  /** Once a record throws, the rest of the batch is never looked at. */
  lemma {:induction false} FaultEndsRun(s: IndexState, rs: seq<StreamRecord>, i: nat, t: IndexState, f: Fault)
    requires i < |rs|
    requires RunBatch(s, rs[..i]) == Run(t, Completed)
    requires Step(t, rs[i]) == Failure(f)
    ensures RunBatch(s, rs) == Run(t, Threw(i, f))
  {
    var last := |rs| - 1;
    if last == i {
      assert rs[..last] == rs[..i];
    } else {
      var front := rs[..last];
      assert front[..i] == rs[..i];
      FaultEndsRun(s, front, i, t, f);
    }
  }

  /**
   * `exports.handler`: applies `records` in order through `sink`. It ends
   * with the index in the state `RunBatch` leaves after the records before
   * the one that threw, and reports which record threw and why.
   */
  method Handle(sink: Sink, records: seq<StreamRecord>) returns (outcome: Outcome)
    modifies sink
    ensures outcome.Completed? ==> RunBatch(old(sink.State()), records) == Run(sink.State(), Completed)
    ensures outcome.Threw? ==>
      && outcome.at < |records|
      && RunBatch(old(sink.State()), records[..outcome.at]) == Run(sink.State(), Completed)
    ensures outcome.Threw? && outcome.fault == WriteFailed ==> Step(sink.State(), records[outcome.at]).Success?
    ensures outcome.Threw? && outcome.fault != WriteFailed ==>
      Step(sink.State(), records[outcome.at]) == Failure(outcome.fault)
    ensures outcome.Completed? || outcome.fault != WriteFailed ==>
      RunBatch(old(sink.State()), records) == Run(sink.State(), outcome)
  {
    ghost var s0 := sink.State();
    var i := 0;
    while i < |records|
      invariant 0 <= i <= |records|
      invariant RunBatch(s0, records[..i]) == Run(sink.State(), Completed)
    {
      var record := records[i];
      assert records[..i + 1][..i] == records[..i];
      if record.eventName == "INSERT" || record.eventName == "MODIFY" {
        if record.newImage.None? {
          FaultEndsRun(s0, records, i, sink.State(), MissingNewImage);
          return Threw(i, MissingNewImage);
        }
        var document := Project(record.newImage.value);
        var ok := sink.Index(document.id, document);
        if !ok {
          return Threw(i, WriteFailed);
        }
      } else if record.eventName == "REMOVE" {
        if record.oldImage.None? {
          FaultEndsRun(s0, records, i, sink.State(), MissingOldImage);
          return Threw(i, MissingOldImage);
        }
        var documentId := StringAttr(record.oldImage.value, "id");
        if documentId.None? {
          FaultEndsRun(s0, records, i, sink.State(), MissingDeleteId);
          return Threw(i, MissingDeleteId);
        }
        var ok := sink.Delete(documentId.value);
        if !ok {
          return Threw(i, WriteFailed);
        }
      }
      i := i + 1;
    }
    assert records[..i] == records;
    return Completed;
  }
}

# Profile search sync, modelled in Dafny

The backend keeps user profiles in a DynamoDB table and mirrors them into an
OpenSearch index, `user-profiles`, so that the profiles can be searched by
keyword. The mirroring is done by a Lambda function that receives batches of
the table's stream records. For each record, in order:

- `INSERT` or `MODIFY`: it projects the record's `NewImage` into an
  eight-field search document and indexes it under the document's `id`
  (a full replace);
- `REMOVE`: it deletes the document whose id is `OldImage.id.S`;
- any other event name: it does nothing.

Nothing is caught. A missing image, a delete without an id or a failing
`index` or `delete` call throws, which ends the batch with the earlier writes left in
place. The search resolver asks the index for one page of hits, 50 hits from
position 0 unless the query says otherwise.

The project models:

- `wrappers.dfy`: `Option` (JavaScript's `undefined`) and `Result` (a thrown error).
- `stream_records.dfy`: stream records and item images with tagged attribute
  values (`S`, `SS`, `N`, `BOOL`, `NULL`), and the `?.S` / `?.SS` reads.
- `documents.dfy`: the search document and its projection from an image.
- `search_index.dfy`: the index as a `Sink` class. It holds a map from id to
  document, plus the documents indexed without an id, which the search engine
  stores under ids it generates. Its `Index` and `Delete` methods may fail.
  Pure functions `Upsert` and `Remove` state what a successful call does.
- `stream_sync.dfy`: the handler as a looping method over the sink, proved
  against `RunBatch`. `RunBatch` is the run of the batch against an index
  whose writes all succeed.
- `sync_properties.dfy`: what a batch leaves in the index (last write per id
  wins, unwritten ids untouched), and that delivering a batch again converges
  as long as re-sending a delete for an id that is already gone succeeds.
- `search_request.dfy`: the search request's paging defaults and searched fields.

The handler does not group records by key, isolate failures per record,
retry writes or report a per-record outcome: it applies every record in batch
order and stops at the first error.

## Model

| member | source | states |
|---|---|---|
| `StreamRecords.StringAttr` | backend/lib/backend-stack.ts:117-122 | `item.x?.S` yields a string exactly when the image holds attribute `x` under tag `S`, and then it is that string |
| `StreamRecords.StringSetAttr` | backend/lib/backend-stack.ts:123-124 | `item.x?.SS` yields strings exactly when the image holds attribute `x` under tag `SS`, and then they are those strings |
| `Documents.Project` | backend/lib/backend-stack.ts:116-125 | each of `id`, `userId`, `fullName`, `department`, `position`, `bio` is present exactly when the image holds that attribute under tag `S`, and is then that string; `skills` and `hobbies` are the `SS` strings when the attribute has that tag, and `[]` otherwise |
| `Documents.ProjectReadsOnlyFields` | backend/lib/backend-stack.ts:116-125 | two images that agree on the eight projected attributes give the same document |
| `Documents.ProjectDropsOtherAttributes` | backend/lib/backend-stack.ts:116-125 | adding or changing any attribute outside the eight leaves the document unchanged |
| `Documents.ProjectImageOf` | backend/lib/backend-stack.ts:116-125 | every document is the projection of the image that holds exactly its fields, so projection loses nothing a document can hold and an absent list reads as `[]` |
| `SearchIndex.Upsert` | backend/lib/backend-stack.ts:127-132 | indexing with an id makes that id map to the new document, keeps every other id's document, and adds no unkeyed document; indexing without an id adds one unkeyed document and changes no keyed one |
| `SearchIndex.Remove` | backend/lib/backend-stack.ts:141-145 | a delete removes exactly the given id; every other document stays as it was |
| `SearchIndex.Sink.Index` | backend/lib/backend-stack.ts:127-132 | the call either succeeds, with the index changed as `Upsert` says, or fails with the index unchanged |
| `SearchIndex.Sink.Delete` | backend/lib/backend-stack.ts:141-145 | the call either succeeds, with the index changed as `Remove` says, or fails with the index unchanged |
| `StreamSync.Step` | backend/lib/backend-stack.ts:111-148 | `INSERT`/`MODIFY` with an id maps that id to the projected document and changes nothing else; without an id it adds one unkeyed document; `REMOVE` drops `OldImage.id.S` and nothing else; any other event name leaves the index as it was; a record throws exactly when its needed image, or the delete id, is missing |
| `StreamSync.RunBatch` | backend/lib/backend-stack.ts:110-149 | a run that throws names a record inside the batch, and never for a write failure; the empty batch completes with the index unchanged |
| `StreamSync.FaultEndsRun` | backend/lib/backend-stack.ts:110-149 | once record `i` throws after the records before it were applied, the batch ends there: no later record is applied |
| `StreamSync.Handle` | backend/lib/backend-stack.ts:107-150 | when the handler completes, the index is what applying every record in order gives; when it throws at record `i`, the index is what applying records `0..i-1` gives, and record `i` either could not be read or its write failed; without a failed write its result is exactly `RunBatch` |
| `SyncProperties.LastTarget` | backend/lib/backend-stack.ts:110-149 | finds the last record of the batch that writes a given id, or says that no record does |
| `SyncProperties.StepEntry` | backend/lib/backend-stack.ts:113-146 | one record changes at most the entry of the id it writes: that entry becomes its document, or nothing after a delete |
| `SyncProperties.FinalEntry` | backend/lib/backend-stack.ts:110-149 | after a batch that completes, each id holds what the last record writing it left (its projected document, or no document after a `REMOVE`), and an id no record writes keeps its old entry |
| `SyncProperties.KeyedBatchKeepsUnkeyed` | backend/lib/backend-stack.ts:116-132 | a batch whose indexed images all carry `id.S` adds no document under a generated id |
| `SyncProperties.StepFaultIgnoresState` | backend/lib/backend-stack.ts:113-146 | whether a record throws, and which error it throws, does not depend on the index |
| `SyncProperties.OutcomeIgnoresState` | backend/lib/backend-stack.ts:110-149 | where a batch throws, and why, does not depend on the index it starts from |
| `SyncProperties.PrefixCompletes` | backend/lib/backend-stack.ts:110-149 | every prefix of a batch that completes also completes |
| `SyncProperties.RetryConverges` | backend/lib/backend-stack.ts:110-149 | a batch of keyed records delivered again after any prefix of it was applied (a run that stopped at a failed write) leaves the index that one complete run leaves |
| `SyncProperties.RedeliveryIdempotent` | backend/lib/backend-stack.ts:110-149 | delivering a completed batch of keyed records a second time changes nothing |
| `SyncProperties.UpsertTwiceSameAsOnce` | backend/lib/backend-stack.ts:127-132 | the same keyed `INSERT`/`MODIFY` record applied twice gives the index it gives applied once |
| `SyncProperties.UnkeyedUpsertDuplicates` | backend/lib/backend-stack.ts:116-132 | an `INSERT`/`MODIFY` whose image has no `id.S`, applied twice, adds the projected document twice under generated ids and leaves the keyed documents unchanged, so applying it twice gives a different index than applying it once: such an upsert is not idempotent |
| `SearchRequest.BuildSearch` | backend/lib/backend-stack.ts:208-219 | the request matches the keyword against the six searched fields; `size` is the given limit or 50, and `from` is the given offset or 0 |
| `SearchRequest.Paging` | backend/lib/backend-stack.ts:217-218 | a present argument is used as given; an absent one gives the default |
| `SearchRequest.SearchedFieldsAreIndexed` | backend/lib/backend-stack.ts:212 | every searched field is one the handler projects into the index, and the projected fields that are never searched are `id` and `userId` |

## Left out

- The search client's construction, AWS credentials, the network and `console.log`. The index is the `Sink` class, and every call to it may fail.
- `SearchIndex.Sink.Index` and `SearchIndex.Sink.Delete`: a failed call leaves the index unchanged. A write that reached the search engine and then timed out is not modelled.
- `SearchIndex.Sink.Delete`: the client library's own answer to deleting an id that is not in the index is not part of this model. It is covered only by "the call may fail"; otherwise the delete succeeds with nothing removed.
- The index name `user-profiles` and the document type `_doc` are fixed in every call. The model has one index and does not carry them as values.
- An empty string under `id.S` is treated as an ordinary id.
- A record without its `dynamodb` part is treated like a record whose images are both missing.
- Attribute tags other than `S`, `SS`, `N`, `BOOL` and `NULL` (such as `L`, `M`, `NS`, `B`) are not represented. The handler never reads them.
- Redelivery of a batch after the handler throws is done by the Lambda runtime, outside the handler. `RetryConverges` states what such a redelivery yields when every delete in it succeeds.
- SyncProperties.RetryConverges: holds only when re-sending a delete for an id that is already gone succeeds, as `Remove` models it. The `elasticsearch` client the handler loads may instead reject such a delete as not found. Take the batch `[REMOVE k, INSERT m]` where the INSERT's write fails: each redelivery would then throw at record 0, and m would never be indexed.
- SyncProperties.RedeliveryIdempotent: holds only under the same condition as `RetryConverges`: a re-sent delete for an id that is already gone must succeed.
- The table's partition key is `id`, of type string, and its stream carries new and old images (backend/lib/backend-stack.ts:58, 60). So every record the table emits carries its image and `id.S`. The `Keyed` requirement of `RetryConverges`, `RedeliveryIdempotent` and `UpsertTwiceSameAsOnce` therefore excludes no record the table produces.
- `SearchRequest.BuildSearch`: a present `limit` or `offset` is used as given, including 0 and negative values. This follows the template's `#if` being true for any present value. The keyword is inserted into the JSON body without escaping, and that quoting is not modelled.
- The search response template, the CDK resource declarations (user pool, API, table, domain, policies, event source, schedule, outputs), the audit Lambda and the front end are not part of this model.

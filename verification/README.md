# A verified model of the collaboration ledger

This project models the content-addressed ledger of rickydata-git in Dafny 4.11 and proves what
it is built to keep. `dafny verify dfyconfig.toml` checks all of it.

- **Identity** (`Numbers`, `Json`, `Printing`, `Reading`, `Identity`). JSON normalisation, number
  folding and the compact text that is hashed. A reader of RFC 8259 texts, defined apart from the
  printer, reads back whatever is printed, so an object id, a signature message and the canonical
  bytes of an object each say, and decide, exactly what they stand for.
- **Object store** (`ObjectStore`). A cache of files in front of Git refs: writes that may stop
  between the two, read-through repair, deletion of cache files, and the verifier.
- **Signed ref updates** (`SignedRefs`). Compare-and-swap with a read step and a transaction step,
  any number at once.
- **Relay** (`Relay`, `FileRelay`, `GcsRelay`, `KfdbIndex`). Bundle validation, the file store
  with a crash at any write, the bucket store as a concurrent protocol of single requests, and the
  ordered graph projection that may be cut short.
- **Client** (`RelayPush`, `RelayRetries`, `RelayPull`, `Attempts`, `Patches`, `Notes`). Chunked push with
  retry, paged pull, the attempt lifecycle over replicas, patch evidence, the note inbox.
- **Secret filter** (`SecretFilter`). Clean and smudge as an inverse pair.

How to read it. Code that changes state is a class whose methods are proved equal to a function on
values (`FileRelay.Push`, `ObjectStore.Write`, ...); the lemmas are about those functions and
about runs of them. A run is a list of operations or steps, so a statement about every run
covers every order, crash and interleaving the steps allow.

What is assumed, and where it is written down:

- `Reading.Undoes`: reading the spelling of a float gives the float. `Reading.FloatReaderExists`
  proves that every sound spelling has such a reader.
- `Identity.Primitives.Sound`: SHA-256 is injective on texts, and the spelling of non-integral
  floats is injective and uses number characters with a point or an exponent. Bytes are modelled as
  characters; UTF-8 is a one-to-one encoding, so nothing is lost.
- `ObjectStore.Codec.Faithful`: reading canonical bytes gives the object with its body in
  canonical form. `ObjectStore.FaithfulCodecExists` proves that there is such a reader.
- `Patches.Names.Sound`: object ids and the digest of raw bytes are injective.
- The ref transaction is one atomic step. Git's "must not exist" is modelled both ways, refusing
  every ref that exists or letting one through that is already at the new id.
- `RelayRetries.PlainDigests`: digests are spelled without a colon, as hex digits are.

Results that go against what a reader might expect:

- `canonical_number` maps the float 2^63 to 2^63 - 1 (`Numbers.FloatTwo63LosesOne`).
- A write with different bytes after its cache file was deleted leaves the cache and the ref
  disagreeing although the write fails (`ObjectStore.DifferentBytesDiverge`);
  `ObjectStore.StepCoherent` says that nothing else does.
- Retrying a push with a larger chunk size that gives the same number of chunks, two or more, can
  complete without sending every object; no other change of size can
  (`RelayRetries.SizeChangeSafety`).
- `patch prepare` repeated with another signing choice fails with a conflict although the evidence
  is in order (`Patches.PrepareAgain`).
- An `INTENT_CHAIN` edge does not in general reach the intent's own node
  (`KfdbIndex.IntentEdgeMissesIntent`), and the indexed store projects objects that a replayed
  push never stored (`KfdbIndex.ProjectedObjectsStored`).
- A note that arrives with a time at or below the addressee's marker is never shown
  (`Notes.ShownExactlyWhenNewer`), and agents whose names differ only in replaced characters, such
  as `a/b` and `a_b`, can hide notes from one another (`Notes.HidingNeedsOneFile`).
- If Git lets a creation through that finds the ref already at its id, two creations can report
  different ids once an update came in between (`SignedRefs.CreatorsMayDiffer`).
- A signed update reports its new id as given, while the ref keeps it in lower case
  (`SignedRefs.ReportedOidCase`).

## Model

| member | source | states |
|---|---|---|
| Numbers.CanonicalNumberPreservesValue | crates/rickydata-git-core/src/lib.rs:547-567 | folding is idempotent, and keeps the numeric value of a JSON number if and only if it is not the float 2^63 |
| Numbers.FloatTwo63LosesOne | crates/rickydata-git-core/src/lib.rs:555-561 | the exception exists: 1.0 * 2^63 passes the range guard, which is itself rounded up to 2^63, and becomes the integer 2^63 - 1 |
| Numbers.CanonicalNumberEqual | crates/rickydata-git-core/src/lib.rs:547-567 | two numbers fold to one form exactly when they carry one value and both fold to integers or both stay floats |
| Numbers.OneFormPerInteger | crates/rickydata-git-core/src/lib.rs:547-567 | every u64, i64 and float spelling of an integer below 2^63 in magnitude has the same form |
| Json.CanonicalDecides | crates/rickydata-git-core/src/lib.rs:529-545 | two JSON values have one canonical form exactly when they differ only in member order at any depth and in the spelling of folded numbers |
| Json.CanonicalIdempotent | crates/rickydata-git-core/src/lib.rs:529-545 | normalising twice is normalising once |
| Json.CanonicalMeans | crates/rickydata-git-core/src/lib.rs:529-545 | the canonical form of a value is the one equivalent value whose members ascend by key and whose numbers are folded at every depth; it is the value itself exactly when that has this form already |
| Reading.PrintedRead | crates/rickydata-git-core/src/lib.rs:522-525 | a reader with its own literals, escapes and base-ten evaluation (RFC 8259, sections 4 to 7) finds in any printed text, whatever ends it, the value that was printed, and what follows |
| Reading.ReadPrint | crates/rickydata-git-core/src/lib.rs:522-525 | a whole printed text reads as its value |
| Reading.EscapeIsShortest | crates/rickydata-git-core/src/lib.rs:522-525 | each character of a string is written in its shortest escape and, of several that short, the one in lower case |
| Reading.IntegerIsShortest | crates/rickydata-git-core/src/lib.rs:522-525 | integers are written in the one shortest way, with no leading zero and no sign but a minus |
| Reading.PrintInjective | crates/rickydata-git-core/src/lib.rs:522-525 | equal texts come from equal values |
| Reading.CanonicalTextDecides | crates/rickydata-git-core/src/lib.rs:522-545 | canonical texts are equal exactly for equivalent values |
| Identity.StableHashDecides | crates/rickydata-git-core/src/lib.rs:522-527 | with an injective hash, stable hashes are equal exactly for equivalent values |
| Identity.ObjectIdDecides | crates/rickydata-git-core/src/lib.rs:160-170 | object ids are equal exactly when kind and schema version are equal and the bodies equivalent |
| Identity.SigningMessageIsPreimage | crates/rickydata-git-core/src/lib.rs:160-183 | the signed message is, character for character, the text whose hash is the object id |
| Identity.SigningMessageSays | crates/rickydata-git-core/src/lib.rs:160-183 | the signed message, and the text hashed into the id, read as an object of exactly kind, schema version and canonical body, each under its name, in the order of the names |
| Identity.RefMessageSays | crates/rickydata-git-core/src/lib.rs:238-249 | the message of a ref update reads as exactly the ref, the expected id or null, and the new id, each under its name |
| Identity.BundleHashSays | crates/rickydata-git-relay/src/lib.rs:1241-1245 | a bundle hash is of the list of ids in order, under its name |
| Identity.RefMessageInjective | crates/rickydata-git-core/src/lib.rs:238-249 | the message of a signed ref update fixes the ref, the expected previous id (or its absence) and the new id |
| Identity.BundleHashInjective | crates/rickydata-git-relay/src/lib.rs:1241-1245 | a bundle hash fixes the list of ids with its order and repetitions |
| Identity.ObjectBytesDecide | crates/rickydata-git-relay/src/lib.rs:1236-1239 | canonical object bytes agree exactly on objects equal in every field, signatures included, with equivalent bodies |
| Identity.ObjectBytesSay | crates/rickydata-git-relay/src/lib.rs:1236-1239 | the canonical bytes read as an object with each field under its name; signatures that are set appear in order, each with its own fields, and an unset field or an empty list is left out |
| Identity.GetMeans | crates/rickydata-git-relay/src/lib.rs:1593-1599 | looking a name up in a JSON object finds its member and nothing else |
| Relay.ValidObjectMeaning | crates/rickydata-git-relay/src/lib.rs:1160-1234 | an object is accepted exactly when both hashes recompute and, under enforcement, every signature verifies and a non-legacy repository has at least one |
| Relay.FaultMeaning | crates/rickydata-git-relay/src/lib.rs:1160-1234 | which fault is reported: hashes first, then a missing signature, then the first signature that does not hold, with the reason of that one |
| Relay.ValidObjectsAgree | crates/rickydata-git-relay/src/lib.rs:1181-1234 | two accepted objects with one id agree on kind, schema version, body hash and, up to equivalence, body |
| Relay.NoFault | crates/rickydata-git-relay/src/lib.rs:1083-1104 | validation of a bundle finds no fault exactly when each object is valid by itself |
| Relay.FirstFaultMeans | crates/rickydata-git-relay/src/lib.rs:1083-1104 | the error names the first object that is not valid, with its fault |
| Relay.ValidatedObjectIds | crates/rickydata-git-relay/src/lib.rs:1083-1104 | the loop stops with the first faulty object's id and reason, or returns the distinct ids in order of first occurrence; it succeeds exactly on valid bundles |
| GcsRelay.StepKeepsInv | crates/rickydata-git-relay/src/lib.rs:809-853 | each request to the bucket, by any of any number of pushers, heard or unheard, keeps: stored objects valid under their names, records true of their key and backed by stored objects, finished pushers holding the stored record |
| GcsRelay.StepGrows | crates/rickydata-git-relay/src/lib.rs:669-689 | no step replaces or removes a stored object or record |
| GcsRelay.ReturnedReportsAgree | crates/rickydata-git-relay/src/lib.rs:809-853 | for every interleaving, all calls that returned for one repository and key returned the same report, which is the stored record |
| GcsRelay.ReturnedReportIsPermanent | crates/rickydata-git-relay/src/lib.rs:809-853 | once a call has returned, its report stays the stored record in every continuation |
| GcsRelay.RecordsNameStoredObjects | crates/rickydata-git-relay/src/lib.rs:816-852 | in every reachable state a record names only valid objects stored under those ids, its counts add up to its ids, and nothing stored before was changed |
| GcsRelay.StepConserves | crates/rickydata-git-relay/src/lib.rs:816-838 | each step creates as many objects as it adds to some pusher's accepted count or leaves unreported |
| GcsRelay.AcceptedIsConserved | crates/rickydata-git-relay/src/lib.rs:669-689 | the accepted counts of all pushers, finished, failed or in flight, never exceed the objects created, and equal them exactly when no applied put went unheard |
| GcsRelay.RecordsReportPushers | crates/rickydata-git-relay/src/lib.rs:840-852 | over every run each record not there at the start reports one pusher of its key that is through its objects: the ids it was sent, how many it created and how many it found there |
| GcsRelay.RecordedCountsAreCovered | crates/rickydata-git-relay/src/lib.rs:816-852 | the accepted counts of any records made in a run, each taken once, sum to at most the objects created |
| GcsRelay.LonePushReports | crates/rickydata-git-relay/src/lib.rs:809-853 | a push alone under an unused key, every write heard, reports the number of distinct names of its bundle that the bucket did not hold, the rest as duplicates, and leaves exactly those names added |
| GcsRelay.OwnBundleStored | crates/rickydata-git-relay/src/lib.rs:820-852 | a call that returned its own report has every object of its bundle in the bucket, even objects skipped because of an old listing |
| FileRelay.FileRelayStore.FindClash | crates/rickydata-git-relay/src/lib.rs:936-948 | the conflict loop finds the first object whose file exists with other bytes and writes nothing |
| FileRelay.FileRelayStore.WriteBundle | crates/rickydata-git-relay/src/lib.rs:950-960 | the write loop leaves the files and counts that the specification of a push cut off after any number of file writes gives |
| FileRelay.FileRelayStore.PushBundle | crates/rickydata-git-relay/src/lib.rs:926-973 | validation, replay, conflict check, object writes and record in that order; new state and result are those of the specification, with a crash at any write |
| FileRelay.PushAllOrNothing | crates/rickydata-git-relay/src/lib.rs:926-973 | a push that runs to its end fails exactly on an invalid bundle or, under a new key, a conflict; failing or replaying it changes nothing; otherwise it adds exactly the bundle and its report is fixed: the request's repository and key, the number of distinct new ids, the rest of the bundle, the distinct ids and their hash |
| FileRelay.PushErrors | crates/rickydata-git-relay/src/lib.rs:926-948 | the error names the first object that is not valid or, in a valid bundle under a new key, the first whose file has other bytes |
| FileRelay.PutAllGrows | crates/rickydata-git-relay/src/lib.rs:950-960 | old files keep their bytes and exactly the names of the bundle are added |
| FileRelay.PutAllBytes | crates/rickydata-git-relay/src/lib.rs:950-960 | a new file holds the canonical bytes of the first object in the bundle with its id |
| FileRelay.WriteObjectsPrefix | crates/rickydata-git-relay/src/lib.rs:950-960 | a write loop cut short leaves what writing some leading part of the bundle would |
| FileRelay.PushOutcome | crates/rickydata-git-relay/src/lib.rs:926-973 | whatever stops a push, it has put some leading part of the bundle, and its record appears only after all of it |
| FileRelay.PushSafe | crates/rickydata-git-relay/src/lib.rs:950-972 | one push stopped anywhere replaces no file and no record and leaves every record naming stored objects only |
| FileRelay.PushAllSafe | crates/rickydata-git-relay/src/lib.rs:950-972 | so does every sequence of pushes, each stopped anywhere |
| RelayPush.DerivedKeyInjective | crates/rickydata-git-cli/src/main.rs:3139-3149 | derived keys are equal exactly for the same repository and the same id list |
| RelayPush.DerivedKeySays | crates/rickydata-git-cli/src/main.rs:3139-3149 | a derived key is the hash of the repository and the ids in order, each under its name |
| RelayPush.JobMeans | crates/rickydata-git-cli/src/main.rs:3139-3150 | a given key is used as it is and a missing one derived; a chunk size of zero is one |
| RelayPush.ChunkKeySays | crates/rickydata-git-cli/src/main.rs:3151-3164 | a list that fits one chunk goes under the plain key; otherwise each key ends in the chunk's place and the rounded-up number of chunks, as numerals of four digits or more |
| RelayPush.ChunkIs | crates/rickydata-git-cli/src/main.rs:3156 | chunk c is the list from c times the size on, of that size or to the end |
| RelayPush.ChunkKeysDiffer | crates/rickydata-git-cli/src/main.rs:3157-3164 | two chunks of one push never share an idempotency key |
| RelayPush.SendChunks | crates/rickydata-git-cli/src/main.rs:3156-3184 | the loop over the chunks leaves the relay, and the counts and ids, that sending them one by one until the first failure gives |
| RelayPush.RunPush | crates/rickydata-git-cli/src/main.rs:3130-3195 | the whole command: derived or given key, chunk size of zero taken as one, and a final report of the summed counts, the joined ids and the hash of the full list |
| RelayPush.AttemptProgresses | crates/rickydata-git-cli/src/main.rs:3156-3184 | an attempt, however it ends, leaves exactly the files that putting some longer leading part of the list would |
| RelayPush.RetriedPushCompletes | crates/rickydata-git-cli/src/main.rs:3143-3184 | after any number of interrupted attempts one completed attempt leaves every local object on the relay and exactly the files of one put of the whole list |
| RelayPush.RetriedPushEqualsOneBundle | crates/rickydata-git-relay/src/lib.rs:929-934 | that file set equals the one a single whole-bundle push under a new key leaves |
| RelayPush.CompletedPushReport | crates/rickydata-git-cli/src/main.rs:3181-3194 | the report of the completed attempt adds up to the length of the list and names exactly its ids, replayed chunks included |
| RelayPush.FreshPushReport | crates/rickydata-git-cli/src/main.rs:3181-3194 | a completed push none of whose chunks was pushed before reports as accepted the files the relay gained, as duplicate the rest, and the ids in order when none repeats |
| RelayPush.SizesShareKeys | crates/rickydata-git-cli/src/main.rs:3151-3164 | chunk keys carry the number of chunks and not their size: two sizes with the same number of chunks share every key |
| RelayRetries.SizeChangeSafety | crates/rickydata-git-cli/src/main.rs:3150-3164 | for a new list and two chunk sizes: every run of attempts at the first and then the second leaves every object once one completes, if and only if the second is not larger with the same number of chunks, two or more |
| RelayRetries.SafeChangeCompletes | crates/rickydata-git-cli/src/main.rs:3150-3184 | where the change is safe, the completed attempt leaves exactly the files of one put of the whole list, whatever earlier attempts at either size did |
| RelayRetries.UnsafeChangeSkips | crates/rickydata-git-cli/src/main.rs:3150-3164 | for every other pair of sizes: send one chunk, stop, complete at the larger size; the object just after the first smaller chunk is never sent |
| RelayRetries.CountsKeepKeysApart | crates/rickydata-git-cli/src/main.rs:3157-3164 | under one key, jobs with different numbers of chunks share no chunk key |
| RelayRetries.DerivedChunkKeys | crates/rickydata-git-cli/src/main.rs:3139-3164 | chunk keys of pushes with derived keys agree only for the same repository, the same id list and the same chunk |
| RelayRetries.ReachableRecordsTrue | crates/rickydata-git-cli/src/main.rs:3139-3184 | in every relay reached from empty by pushes with derived keys and one chunk size, of any lists and stopped anywhere, a record under a chunk key of any list means that chunk is stored |
| RelayRetries.PushAmongOthersCompletes | crates/rickydata-git-cli/src/main.rs:3130-3195 | so a push that completes after any such pushes, its own interrupted attempts among them, leaves every one of its objects on the relay |
| RelayPush.ReportsListAlike | crates/rickydata-git-relay/src/lib.rs:822-846 | for one request the file store's report and the bucket's list the same ids, and have the same bundle hash, exactly when the request repeats no id |
| RelayPull.WriteObjects | crates/rickydata-git-cli/src/main.rs:3219-3231 | the client's write loop learns exactly the returned ids; `written` counts the new cache files and `written + duplicate` the returned objects |
| RelayPull.PullOnce | crates/rickydata-git-cli/src/main.rs:3196-3241 | one pull learns exactly what the relay returned, and written, duplicate and remaining add up to the number missing before |
| RelayPull.PullAccounts | crates/rickydata-git-relay/src/lib.rs:975-998 | a pull returns distinct ids, none known, at most the limit; returned plus remaining is the number missing; it is empty exactly when nothing is missing or the limit is zero |
| RelayPull.AfterPulls | crates/rickydata-git-relay/src/lib.rs:855-884 | after n pulls of L exactly the first n * L missing ids have been learned, in the relay's order |
| RelayPull.PullsTerminate | crates/rickydata-git-relay/src/lib.rs:855-884 | with a limit L of at least one, pull number n is non-empty exactly while n is below missing / L rounded up, and from then on the client knows every listed id |
| RelayPull.UnlimitedPull | crates/rickydata-git-relay/src/lib.rs:983-985 | without a limit one pull brings everything |
| RelayPull.ZeroLimit | crates/rickydata-git-relay/src/lib.rs:983-985 | a limit of zero never brings anything, however often it is repeated |
| KfdbIndex.Strings | crates/rickydata-git-relay/src/lib.rs:1601-1611 | the string elements of a body array and nothing else |
| KfdbIndex.OperationLog.AppendSignatures | crates/rickydata-git-relay/src/lib.rs:1440-1484 | appends an actor node and a SIGNED_BY edge per signature, in order |
| KfdbIndex.OperationLog.AppendProjection | crates/rickydata-git-relay/src/lib.rs:1354-1411 | appends the projection of a projected kind and, for changes and patches, its files |
| KfdbIndex.OperationLog.AppendLineage | crates/rickydata-git-relay/src/lib.rs:1558-1591 | appends one target node and one lineage edge per key |
| KfdbIndex.OperationLog.AppendProvenance | crates/rickydata-git-relay/src/lib.rs:1486-1556 | appends the lineage of attempts, runs, changes and patches, lists before single fields |
| KfdbIndex.OperationLog.AppendObject | crates/rickydata-git-relay/src/lib.rs:1306-1346 | appends everything one object contributes, in the order of the code |
| KfdbIndex.IndexBatch | crates/rickydata-git-relay/src/lib.rs:1273-1352 | builds the specified batch, and fails exactly when some object's hashes do not recompute |
| KfdbIndex.BatchClosed | crates/rickydata-git-relay/src/lib.rs:1273-1352 | for all kinds and bodies, each edge of a batch joins nodes created by earlier operations of it, and every object's mirror node is created |
| KfdbIndex.Deliver | crates/rickydata-git-relay/src/lib.rs:447-458 | pieces of 100 in order, the first failure ends the loop: exactly the pieces before it are delivered, and of the failing piece as much as was applied |
| KfdbIndex.CutDeliveryStaysClosed | crates/rickydata-git-relay/src/lib.rs:447-458 | however delivery is cut, a graph without dangling edges stays without dangling edges |
| KfdbIndex.EveryObjectIsLinked | crates/rickydata-git-relay/src/lib.rs:1306-1346 | exactly which edges a batch has: each object hangs off its repository, its bundle, each of its signers and, for each of the eight projected kinds, the node of its label, the repository and the text that names it, which leads to the files a change or patch lists and to the objects it names; there are no other edges |
| KfdbIndex.BatchMeans | crates/rickydata-git-relay/src/lib.rs:1273-1352 | exactly which operations a batch has: the repository node and, for each of those links, its labelled node and its edge under an id made of edge type, ends and, for a signature, its text |
| KfdbIndex.ProjectsMeans | crates/rickydata-git-relay/src/lib.rs:1613-1650 | label, edge type and naming text of each kind, with the fallbacks of a run trace (trace, run, attempt, object id) in that order, are what the table and the loop over the fields give |
| KfdbIndex.ProjectionEdge | crates/rickydata-git-relay/src/lib.rs:1354-1381 | a batch joins the mirror of each projected object to the node of its label, the repository and its naming text |
| KfdbIndex.OneNodeMeans | crates/rickydata-git-relay/src/lib.rs:1363-1364 | with ids one-to-one, two objects are projected to one node exactly when label and naming text agree |
| KfdbIndex.TracesApart | crates/rickydata-git-relay/src/lib.rs:1632 | two run traces with different trace ids are projected to different nodes, whatever attempt they share |
| KfdbIndex.LineageMeetsProjection | crates/rickydata-git-relay/src/lib.rs:1486-1591 | a run's, change's or patch's lineage edge runs between its own projection node and the very node to which the object it names is projected |
| KfdbIndex.IntentEdgeMissesIntent | crates/rickydata-git-relay/src/lib.rs:1486-1502 | in a batch holding an attempt and its intent, the attempt's edge goes to a node keyed by the intent's id and the intent's own to one keyed by its objective; the two are one node exactly when these are the same text |
| KfdbIndex.AcceptedIsIndexable | crates/rickydata-git-relay/src/lib.rs:444-446 | a push to the file store that returns a report never fails in the projection that follows |
| KfdbIndex.BucketAcceptedIsIndexable | crates/rickydata-git-relay/src/lib.rs:444-446 | nor does any push to the bucket, in any interleaving |
| KfdbIndex.ProjectedObjectsStored | crates/rickydata-git-relay/src/lib.rs:444-446 | the projection takes the request's objects: in the file store they are all stored exactly when the push was no replay or the store had them already |
| KfdbIndex.BucketProjectedObjectsStored | crates/rickydata-git-relay/src/lib.rs:444-446 | in the bucket they are all stored unless the call merely replayed a record, and then it stored nothing itself |
| KfdbIndex.BucketReplayStoresNothing | crates/rickydata-git-relay/src/lib.rs:811-814 | every valid non-empty bundle has a run in which its push returns a report, so that it is projected, and none of it is stored |
| ObjectStore.RickydataStore.WriteCacheBytes | crates/rickydata-git-git/src/lib.rs:345-377 | creates the cache file, accepts equal bytes and refuses others |
| ObjectStore.RickydataStore.WriteObjectRef | crates/rickydata-git-git/src/lib.rs:785-817 | creates the ref once, accepts the same blob and refuses another |
| ObjectStore.RickydataStore.PutObject | crates/rickydata-git-git/src/lib.rs:325-330 | cache file first, ref second, with a stop possible in between |
| ObjectStore.RickydataStore.WriteObject | crates/rickydata-git-git/src/lib.rs:306-343 | refuses an object whose own fields do not check, before anything is written |
| ObjectStore.RickydataStore.WriteBody | crates/rickydata-git-git/src/lib.rs:273-303 | writes the object made from a body; skipping validation changes nothing, since it would pass |
| ObjectStore.RickydataStore.ReadFromCacheOrRef | crates/rickydata-git-git/src/lib.rs:515-543 | answers from the cache, else from a ref whose object checks, and then restores the cache file |
| ObjectStore.RickydataStore.VerifyObject | crates/rickydata-git-git/src/lib.rs:434-513 | the verifier's report, and its cache repair, are those of the specification |
| ObjectStore.ReportOnFields | crates/rickydata-git-git/src/lib.rs:565-646 | the diagnostics and signature loops compute the specified codes and counts |
| ObjectStore.WriteOutcome | crates/rickydata-git-git/src/lib.rs:305-377 | a write succeeds exactly for an object whose hashes recompute, under a well-formed id, where neither tier holds other bytes, and if nothing stops it; the bytes are then in both tiers and nothing else changed; each other case has its own error, and only a stop or a ref conflict leaves the cache file behind |
| ObjectStore.ReadOutcome | crates/rickydata-git-git/src/lib.rs:515-543 | a read gives what is in the cache or else what the ref holds, if that checks, and only then fills in the cache file; each other case has its own error and changes nothing |
| ObjectStore.NewObjectIs | crates/rickydata-git-git/src/lib.rs:273-303 | the object made from a body has the id and hash of the body, the default schema version, time zero, no signatures, and the body in canonical form |
| ObjectStore.ObjectHexMeans | crates/rickydata-git-git/src/lib.rs:758-766 | the place of an id in the store is its hex part in lower case, digit for digit, and names the id back exactly when that was in lower case |
| ObjectStore.LowerCaseIdsKeepApart | crates/rickydata-git-git/src/lib.rs:758-766 | lower-case ids never share a place in the store, though ids differing in case do |
| ObjectStore.StepCoherent | crates/rickydata-git-git/src/lib.rs:305-377 | from a coherent store a write, read, verification or deletion leaves cache and refs agreeing if and only if it is not a write of other bytes for a ref-backed id whose cache file is missing |
| ObjectStore.RefsStay | crates/rickydata-git-git/src/lib.rs:785-817 | no operation changes or removes a ref |
| ObjectStore.RunWritten | crates/rickydata-git-git/src/lib.rs:305-377 | in every run both tiers hold only bytes that some write of the run brought to that id |
| ObjectStore.SameBytesCoherent | crates/rickydata-git-git/src/lib.rs:345-377 | if writes to one id always carry the same bytes, cache and refs agree after every run, crashes and deletions included |
| ObjectStore.WithoutDropsCoherent | crates/rickydata-git-git/src/lib.rs:345-377 | if no cache file is deleted they agree with no assumption on the bytes, and every ref has its cache file |
| ObjectStore.CoherentRead | crates/rickydata-git-git/src/lib.rs:515-543 | a coherent store reads a ref-backed id as the object its ref holds; only `source` tells the tiers apart; the cache then holds exactly the ref's bytes |
| ObjectStore.ReadRestoresCache | crates/rickydata-git-git/src/lib.rs:520-542 | deleting a cache file and reading its id restores the store exactly |
| ObjectStore.RunReads | crates/rickydata-git-git/src/lib.rs:515-543 | over every run of either kind each ref holds an object that was written, and reading its id gives that object back, its body in canonical form |
| ObjectStore.WrittenIsRead | crates/rickydata-git-git/src/lib.rs:305-343 | in those runs an object whose write succeeded is read back at the end as that object, whatever happened since |
| ObjectStore.BodyWritesSameBytes | crates/rickydata-git-git/src/lib.rs:273-303 | runs that write only objects made from bodies need no assumption: their ids decide their bytes |
| ObjectStore.DifferentBytesDiverge | crates/rickydata-git-git/src/lib.rs:288-291 | the assumption is needed: after a deletion, writing the same id with other bytes fails but leaves those bytes in the cache |
| ObjectStore.StoppedWriteCompletes | crates/rickydata-git-git/src/lib.rs:305-343 | a write stopped between the tiers and run again ends in the store, and the success, of one uninterrupted write |
| ObjectStore.VerifyMeaning | crates/rickydata-git-git/src/lib.rs:434-592 | `valid` exactly when an object was read with the requested id, its id and body hash recompute, and a cached object has the bytes of its ref if there is one |
| ObjectStore.DiagnosticsMean | crates/rickydata-git-git/src/lib.rs:434-592 | each of the diagnostics OBJECT001 to OBJECT007 is reported exactly in its own case, and the source is told right |
| ObjectStore.VerifyCountsSignatures | crates/rickydata-git-git/src/lib.rs:619-646 | a report warns once for each signature of another algorithm and once for each ed25519 signature that does not check, counts those that do, and the three numbers make up the number of signatures |
| ObjectStore.SignaturesNeverDecide | crates/rickydata-git-git/src/lib.rs:600-646 | replacing the verdict on every signature leaves `valid` as it was |
| ObjectStore.ValidClonesAgree | crates/rickydata-git-git/src/lib.rs:434-592 | two clones that report one id valid hold the same kind, schema version, body hash and canonical body |
| ObjectStore.VerifierFindsDivergence | crates/rickydata-git-git/src/lib.rs:545-563 | a ref-backed id is reported valid exactly when its cache file, if any, agrees with its ref |
| ObjectStore.FaithfulCodecExists | crates/rickydata-git-git/src/lib.rs:774-783 | the assumed reader exists: canonical bytes can be read back unambiguously |
| SignedRefs.GitRefs.WriteRefWithExpectation | crates/rickydata-git-git/src/lib.rs:835-919 | signature check, read, mismatch and already-there cases, then the ref transaction |
| SignedRefs.UninterruptedIsAlone | crates/rickydata-git-git/src/lib.rs:835-919 | the three interleavable steps, run without interruption, are that call |
| SignedRefs.UpdateOutcome | crates/rickydata-git-git/src/lib.rs:835-919 | when an uninterrupted update is created, updated, already there or refused, and with which error, by its signature, the value of the ref and the two ids; only the first two set the ref, to the new id in lower case |
| SignedRefs.NoLostUpdate | crates/rickydata-git-git/src/lib.rs:852-919 | for every interleaving of updates the successful ones form, ref by ref, a chain from the starting value to the present one, each expecting exactly what the one before left (but for creations let through at the id already there) |
| SignedRefs.NeighboursMeet | crates/rickydata-git-git/src/lib.rs:852-919 | of two successive updates of one ref the later expected exactly the id the earlier wrote, or is a creation let through because the ref is already at its id |
| SignedRefs.AtMostOneCreator | crates/rickydata-git-git/src/lib.rs:888-905 | where "must not exist" refuses every existing ref, at most one update ever reports creating a ref, and none if the ref was there at the start |
| SignedRefs.CreatorsAgree | crates/rickydata-git-git/src/lib.rs:888-905 | where it lets through a ref already at the new id as well, two creators reported one new id unless an update from an expected id moved the ref to the later one's id in between |
| SignedRefs.CreatorsMayDiffer | crates/rickydata-git-git/src/lib.rs:888-905 | and with such an update in between they can report different ids |
| SignedRefs.EveryMoveWasSigned | crates/rickydata-git-git/src/lib.rs:841-852 | every change of a ref carries out one signed intent: that ref, from that id, to that id |
| SignedRefs.ReportedOidCase | crates/rickydata-git-git/src/lib.rs:883-919 | the reported new id is the id the ref holds exactly when it was given in lower case |
| Attempts.TransitionIdInjective | crates/rickydata-git-cli/src/main.rs:1796-1808 | a transition's object id fixes every field of it |
| Attempts.TransitionIdSays | crates/rickydata-git-cli/src/main.rs:1796-1808 | the id is the hash of kind, schema version and a body with each field under its name, the status as its text and a missing reason or author as null |
| Attempts.AttemptIdDecides | crates/rickydata-git-cli/src/main.rs:5104-5113 | attempt ids are equal exactly for the same intent, agent, base commit and key, a missing key being the key "default" |
| Attempts.AttemptIdSays | crates/rickydata-git-cli/src/main.rs:5104-5113 | an attempt id is the hash of intent, agent, base commit and key, each under its name, a missing key being "default" |
| Attempts.FindAttemptFinds | crates/rickydata-git-cli/src/main.rs:2008-2014 | finds the attempt object with this attempt id and the smallest object id, if there is any |
| Attempts.Clone.EffectiveStatus | crates/rickydata-git-cli/src/main.rs:1845-1868 | collecting, sorting and taking the last computes the specified status |
| Attempts.Clone.WriteAttemptTransition | crates/rickydata-git-cli/src/main.rs:1779-1816 | adds a transition exactly when the effective status is running or planned |
| Attempts.Clone.SubmitAttempt | crates/rickydata-git-cli/src/main.rs:1711-1725 | needs a prepared patch, then writes the transition |
| Attempts.EffectiveMeaning | crates/rickydata-git-cli/src/main.rs:1845-1868 | the status is the one set by the held transition that no other is newer than, ties going to the object id that is later in the order of code points; with no transition it is the attempt's own |
| Attempts.ArrivalOrderIsIrrelevant | crates/rickydata-git-cli/src/main.rs:1845-1868 | replicas holding the same objects report the same status, whatever the order of arrival |
| Attempts.NeverReopened | crates/rickydata-git-cli/src/main.rs:1876-1883 | across any number of replicas, clocks and exchanges: once a replica holds a transition it never reports the attempt running or planned again, so no later run starts there |
| Attempts.ExecExactlyWhenOpen | crates/rickydata-git-cli/src/main.rs:1876-1883 | in every reachable state a run starts exactly where the attempt is known and no transition of it is |
| Attempts.CloseOutcome | crates/rickydata-git-cli/src/main.rs:1711-1816 | in every reachable state submit and abandon add a transition, each with its own status, exactly where the attempt is known and none is held (submit: and a patch is prepared); otherwise they change nothing |
| Attempts.AloneOneEach | crates/rickydata-git-cli/src/main.rs:1785-1795 | a replica that never pulls transitions holds at most one per attempt |
| Attempts.ConcurrentClosesConverge | crates/rickydata-git-cli/src/main.rs:1845-1868 | two clones that close one attempt differently agree, once both hold both transitions, on the one with the later time, or on equal times the later id |
| Patches.EncodeHex | crates/rickydata-git-cli/src/main.rs:5694-5702 | the loop computes the hex text |
| Patches.EncodeMeans | crates/rickydata-git-cli/src/main.rs:5694-5702 | each byte becomes two lower-case digits, the high one first |
| Patches.DecodeHex | crates/rickydata-git-cli/src/main.rs:5704-5715 | the loop computes the decoding, failing on an odd number of bytes or a bad pair, and panics exactly when the pairs before some place decode and the next ends inside a character |
| Patches.DecodeMeans | crates/rickydata-git-cli/src/main.rs:5704-5715 | a text decodes exactly when it is made of pairs of hex digits of either case, or a plus sign and a digit, and gives the bytes they spell in order |
| Patches.AsciiNeverPanics | crates/rickydata-git-cli/src/main.rs:5704-5715 | no text in ASCII makes the decoder panic |
| Patches.DecodeEncode | crates/rickydata-git-cli/src/main.rs:5694-5715 | decoding what was encoded gives the bytes back |
| Patches.EncodeDecode | crates/rickydata-git-cli/src/main.rs:5704-5715 | encoding what was decoded gives the text back exactly when the text has lower-case digits only; the decoder also takes upper case and a leading plus sign |
| Patches.EvidenceFor | crates/rickydata-git-cli/src/main.rs:2291-2295 | the filter keeps the changes of the attempt in order |
| Patches.PatchLedger.PreparePatch | crates/rickydata-git-cli/src/main.rs:2287-2384 | the checks, the two signed or unsigned object writes in order, each cache first and ref second, with a stop at any point between |
| Patches.PutOutcome | crates/rickydata-git-cli/src/main.rs:1210-1225 | a write succeeds exactly when neither tier holds its id with other bytes, signatures included, and it is not stopped; it touches its own id only |
| Patches.PrepareOutcome | crates/rickydata-git-cli/src/main.rs:2287-2384 | prepare succeeds exactly when it is not stopped, some change of the attempt recorded the digest of the worktree's diff, and neither of its two ids is stored in either tier with other bytes; it adds its two objects and changes nothing stored |
| Patches.PrepareErrors | crates/rickydata-git-cli/src/main.rs:2287-2342 | which check fails: no change of the attempt, no worktree, no change that recorded its diff, in that order, with nothing written |
| Patches.PrepareAgain | crates/rickydata-git-cli/src/main.rs:1210-1225 | preparing once more from the same evidence succeeds exactly when both objects are signed as before; with a key where there was none, or another key or label, it conflicts and changes nothing |
| Patches.DeletedCacheDoesNotHelp | crates/rickydata-git-cli/src/main.rs:1210-1225 | with the diff's cache file deleted the ref refuses instead, and the other bytes are then in the cache |
| Patches.NoWorktreeNoPatch | crates/rickydata-git-cli/src/main.rs:2333 | without a worktree prepare fails and changes nothing |
| Patches.PreparedPatchResolves | crates/rickydata-git-cli/src/main.rs:2678-2748 | a prepared patch resolves, in every later state and on every clone holding its diff object in either tier and under whatever signatures, with or without a worktree, to exactly the raw bytes, length, hash and paths seen when it was prepared |
| Patches.PreparedPatchSummary | crates/rickydata-git-cli/src/main.rs:2303-2374 | the patch carries its attempt's fields, its id is computed from its own change ids, and each of its lists is sorted, without repetition, and holds exactly what the attempt's changes say |
| Patches.ResolveOutcome | crates/rickydata-git-cli/src/main.rs:2678-2766 | a patch resolves exactly to the bytes of its first diff object, when that names the same patch, attempt and base, is in hex, and the digest of its bytes is both recorded and listed and their number is right; a patch without one resolves to the worktree, if its digest is listed |
| Patches.ResolvedIsListed | crates/rickydata-git-cli/src/main.rs:2678-2766 | whatever resolves has a listed hash that is the digest of its bytes, and the right length |
| Patches.SameHashSameBytes | crates/rickydata-git-cli/src/main.rs:2678-2766 | any two resolutions, anywhere, that report one diff hash give the same bytes |
| Patches.PatchIdDecides | crates/rickydata-git-cli/src/main.rs:2344-2347 | patch ids are equal exactly for the same attempt and the same set of change ids |
| Patches.PatchIdSays | crates/rickydata-git-cli/src/main.rs:2344-2347 | a patch id is the hash of the attempt id and the change ids, each under its name |
| Notes.NoteBox.Inbox | crates/rickydata-git-cli/src/main.rs:1505-1549 | the loop shows, and marks, what the specification says, for every combination of flags |
| Notes.InboxMeaning | crates/rickydata-git-cli/src/main.rs:1505-1549 | a read shows, by time and then object id, exactly the notes to the agent or to all, not its own unless asked for, that are newer than the marker, or than `--since-ms` instead, or any with the whole history, each as often as it is held |
| Notes.MarkerMeaning | crates/rickydata-git-cli/src/main.rs:1519-1544 | the marker a read leaves is the newest time of a note to the agent or to all, its own included, or the old marker when that is newer |
| Notes.MarkerNeverDecreases | crates/rickydata-git-cli/src/main.rs:1519-1544 | no arrival and no read lowers any agent's marker |
| Notes.NeverShownTwice | crates/rickydata-git-cli/src/main.rs:1505-1549 | over every run no note is shown twice to an agent |
| Notes.ShownExactlyWhenNewer | crates/rickydata-git-cli/src/main.rs:1526-1544 | after a note from another agent arrived and the addressee has read, it has been shown exactly once if its time was above the marker on arrival, and never otherwise |
| Notes.SharedMarkerFileHides | crates/rickydata-git-cli/src/main.rs:1400-1423 | for any two agents with one marker file there is a run in which a read by the one hides a newer note from the other |
| Notes.HidingNeedsOneFile | crates/rickydata-git-cli/src/main.rs:1400-1431 | another agent's reads can hide a note from an agent if and only if their names have one marker file |
| Notes.OneFileMeans | crates/rickydata-git-cli/src/main.rs:1400-1411 | two names have one marker file exactly when, place by place, they have the same character or neither has a letter, a digit, a hyphen or a point |
| SecretFilter.LongestFirst | scripts/secret-filter.py:53 | the entries are taken longest value first |
| SecretFilter.ApplyReplacements | scripts/secret-filter.py:51-63 | the loop rewrites the text entry by entry; for a map as below a clean leaves no configured value, and smudge undoes it exactly for texts without placeholders |
| SecretFilter.CleanThenSmudgeInOrder | scripts/secret-filter.py:51-63 | the same for the entries in any order |
| SecretFilter.CleanThenSmudge | scripts/secret-filter.py:51-63 | for a map whose keys and values have no angle brackets and whose keys contain no configured value, and any text: clean leaves no configured value, and smudge gives the text back if and only if the text held no placeholder of a configured value |
| SecretFilter.CleanWrites | scripts/secret-filter.py:51-63 | what clean writes is the text with some configured values put as their keys in angle brackets and nothing else changed |
| SecretFilter.KeyHoldingValue | scripts/secret-filter.py:55-62 | the condition on keys cannot be dropped: of any two entries, if the key of the longer value holds the shorter value, the bare longer value is not given back |
| SecretFilter.PlaceholderInText | scripts/secret-filter.py:55-62 | a text that already holds a placeholder of a configured value is never given back |
| Text.AscendingUnique | crates/rickydata-git-cli/src/main.rs:2303-2332 | a sorted, deduplicated list is determined by its set of elements |
| Text.AtMostMeans | crates/rickydata-git-core/src/lib.rs:529-545 | the order used for keys, ids and lists: a begins b, or has the smaller character at the first place they differ |
| Text.FirstOccurrencesOrder | crates/rickydata-git-relay/src/lib.rs:1083-1104 | the deduplicated ids: each is taken where it is new, after all that come before that place |
| Text.DecimalDenotes | crates/rickydata-git-core/src/lib.rs:522-525 | a numeral evaluates in base ten to its number and has no leading zero |
| Text.Padded4Denotes | crates/rickydata-git-cli/src/main.rs:3160-3163 | padding to four digits keeps the number and adds zeros to short numerals only |
| Text.PieceExists | crates/rickydata-git-cli/src/main.rs:3151 | piece k exists exactly when k full pieces do not use up the list |
| Text.ChunksOfRoundsUp | crates/rickydata-git-cli/src/main.rs:3151 | the number of pieces is the length over the size, rounded up |

## Left out

- Ed25519, AES-GCM and SHA-256 themselves: signature checking is an arbitrary predicate, hashing an injective function.
- HTTP routing, bearer tokens, bucket URLs, token caching and the timing of retries; a retried or lost request appears as a step applied without its caller hearing of it.
- `fs::write` is atomic: torn files are not modelled, nor are two file-store pushes running at once.
- GcsRelay.StepKeepsInv: objects are kept as values, not as serialised bytes, and a repository id containing "/objects/" (whose listing could overlap another's) is not modelled.
- GcsRelay: modelled as steps over values rather than as a class, because its pushes run concurrently; the local variables of one call are the fields of `Pusher`.
- Reading.ReadPrint: the reader takes compact texts, without white space and without escaped surrogate pairs, neither of which the printer writes.
- KfdbIndex.BatchClosed: node and edge properties are not modelled, only ids, labels and edge types; an id is an arbitrary function of the joined parts.
- KfdbIndex.IntentEdgeMissesIntent: like OneNodeMeans and TracesApart, takes ids of distinct parts to be distinct, which holds when no part contains the separator character.
- ObjectStore.RunReads: writes are not interleaved with other processes between the existence check and the rename; git fetch of refs is not an operation of the model.
- ObjectStore.BodyWritesSameBytes: for ids in lower case, which every id made by the program is.
- SignedRefs.AtMostOneCreator: the ref is changed only by signed updates.
- RelayPush.RetriedPushCompletes: against the file store, for a fixed object list and keys not used for other bundles (RelayRetries derives the latter for derived keys and one size, and says which changes of size are safe).
- RelayPull.PullsTerminate: against a fixed relay; a local write that fails stops the pull and is not modelled.
- Attempts.NeverReopened: status objects written by hand with `object write` are outside the model, and so are the conflicts between objects signed differently (Patches has them for prepared patches); preparing a patch is any addition to the list of patched attempts.
- Patches.PreparedPatchResolves: about the patch object itself; when several prepared patches share a patch id, which one the command picks is not modelled. The diff is what Git printed.
- SecretFilter.CleanThenSmudge: the map is taken as loaded; reading and normalising the map file is not modelled.
- Notes.ShownExactlyWhenNewer: for plain reads; flags are covered by the statement about one read.
- `repo_status` hashes, `build_sync_status`, run and change recording, patch apply and checkout, worktrees, temporary indexes and file permissions.
- `crates/rickydata-git-rdl`, `crates/rickydata-git-agent`, argument parsing, risk and test suggestions, the symbol scan, shell scripts and `scripts/secret-guard.py`.

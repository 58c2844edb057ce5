# Cupel: the audit log, evidence, promotions and names, verified

This project models the parts of Cupel that other people have to be able to rely on, in Dafny, and
proves what they promise. `dafny verify dfyconfig.toml` checks all of it.

**The audit log** (`internal/audit`) is the main subject. Any number of writers append to a hash
chain without a lock: each finds the head, seals its record onto it, and creates an object whose
name is derived from the sequence number. One archiver moves the front of the chain out to a sink.
Appends move the head of a shared checkpoint object and the archiver moves its boundary, both by
reading it and writing over the revision they read. Anybody can stop between two API calls, and any
call can land without its answer arriving.

| file | what it holds |
|---|---|
| `Text.dfy`, `Records.dfy` | byte order, sorting, decimal rendering; records and their canonical form |
| `Preimages.dfy` | which records share a preimage, exactly |
| `Chain.dfy` | sealing, verification, what validity means, tamper evidence |
| `AuditNames.dfy` | names of records and segments |
| `Protocol.dfy`, `ProtocolSafety.dfy` | the log as a state machine over API calls, its invariant, every run |
| `Guarantees.dfy` | what the invariant gives readers, writers and the archiver |
| `Cluster.dfy` | the API server and the sink as an object: every mutating call is a step of the machine |
| `Recorder.dfy`, `Archiver.dfy` | the recorder and the archiver, call by call, with others running in between |
| `Maintenance.dfy` | the loop of archive runs, and what its directory is worth |
| `Limits.dfy`, `PromotionLimits.dfy` | concrete runs that show where assumptions are needed and promises end |
| `Offline.dfy` | `ReadArchive` and `cupel audit verify` |
| `Evidence.dfy` | evidence bundles (`internal/evidence`) |
| `Signing.dfy`, `Gating.dfy` | the promotion signer and the admission gate's decision (`internal/webhook`) |
| `Promotions.dfy`, `PromotionHistory.dfy`, `PromotionController.dfy` | promotions as a state machine, what its runs keep, the controller as it runs |
| `Naming.dfy` | object names from registry identifiers (`internal/naming`) |

How the claims are put:

- The protocols are state machines whose steps are single API calls that change something. `Execute`
  runs a sequence of steps, any interleaving of any actors, and theorems are about every such
  sequence. The imperative classes (`Cluster`, `Recorder`, `Archiver`, `Loop`, `Reconciler`) keep a trace of
  the steps taken, and their `Valid()` says that the current state is what the trace leads to; so every
  theorem about runs applies at every point of every method, including the points where it stops.
- A claim under `!overrun` is for runs in which no writer has created a record at a position the
  archive boundary had already passed. `CreateIsSafeIff` says exactly when one does,
  `TimelyRunsNeverOverrun` and `FoundHeadIsSafe` give conditions under which none does, and
  `StaleWriterForks` is a run in which one does.
- Contracts that hold under any interleaving say little about what a call gets done. So each cluster also
  counts how often it was disturbed: somebody else took a step, a call failed or was not answered, or the
  sink kept other bytes than it was given. A method that says it failed was disturbed, or gives the reason;
  and what it does undisturbed is stated exactly.
- SHA-256 is a parameter. Nothing is assumed of it except, where stated, that its output holds no
  newline. Where the source rests on collision resistance, the conclusion is "the same records, or
  here are two preimages among those compared that collide".
- The JSON codec is a pair of functions. The protocol assumes nothing of it; `KeepsHashes` (a decoded
  segment has as many records, with the same hash strings) is named where it is used.

Where the code does something other than its documentation says, the code is what is modelled:

- `internal/audit/chain.go:139-143` says that escaping keeps two records from sharing a preimage. The
  event type and the link are not escaped, and a record shares its preimage with another exactly when
  one of the two spells out the lines between a type and a link (`AmbiguousIff`). A clash takes the type
  of one record and the link of the other (`ClashSpells`), so links without a newline, which every valid
  chain has, rule it out, and so do a type and a link of one line on the honest record alone
  (`OneLineTypeAndLinkSuffice`).
- `internal/audit/recorder.go:244` says that `Verify` checks the stored chain. It starts from the
  beginning of the log whatever has been archived: `VerifyIgnoresTheAnchor`, `VerifyFailsOnceArchived`.
- `internal/audit/archive.go:146-150` says that a crash leaves records merely duplicated in the
  archive. No record is lost (`NoRecordIsLost`), but the file a crash leaves before its boundary is
  published is never overwritten by a later run that cuts further, and the directory then fails
  `cupel audit verify`: `InterruptedRunSpoilsTheDirectory`, exactly characterised by
  `SinkVerifiesIffNoOrphans`. Runs that complete leave no such file: `Maintenance.Loop.Start`.
- `Chain` reads the listing and the checkpoint in two calls, so an append that lands and is published
  in between makes a sound log look truncated: `TornSnapshotVerifiesIff`, `TornReadLooksTruncated`.
- `cmd/cupel/audit.go:128-129` prints the first and the last sequence number without looking whether there
  is a record: `CrashesIff`, `EmptyArchiveCrashes`.
- `internal/webhook/promotion.go:69-78` says that a decision is a signature and that the target cannot move
  under it. The model and the version can: `ModelIsWhateverWasLastSent`, `SignatureMovesToAnotherModel`, and,
  for exactly which promotions are of the model that was signed for, `PromotedForTheSignedModelIff`.
- `internal/controller/names.go:36-40` says that checking a report's contents makes the old, ambiguous names
  safe to read. A report that does not say who it is about passes every such check:
  `UnnamedReportServesEveryModel`.

## Model

| member | source | states |
|---|---|---|
| `Records.RenderCanonical` | internal/audit/chain.go:108-137 | The builder loop writes exactly seven `key=value` lines, spelled out label by label, in the frozen order, the detail map in key order, so the order the map is walked in cannot reach the result |
| `Records.DetailLayout` | internal/audit/chain.go:123-134 | The detail is cut into one `key:value;` piece for each key, both escaped, every key once and in byte order |
| `Records.EscapesEachCharacter` | internal/audit/chain.go:139-153 | Escaping goes character by character and changes exactly the five of the format, each to its own pair |
| `Records.Rfc3339Layout` | internal/audit/chain.go:111-112 | Year, month, day, hour, minute and second stand in decimal at the places that section 5.6 of RFC 3339 gives them |
| `Records.UnescapeInvertsEscape` | internal/audit/chain.go:144-153 | Escaping has a left inverse, so no two strings escape alike |
| `Records.EscapedHasNoDelimiter` | internal/audit/chain.go:139-153 | An escaped string holds none of the delimiters of the canonical form |
| `Records.SortedDetailInjective` | internal/audit/chain.go:123-134 | The rendered detail can be parsed in one way: two maps render alike if and only if they are equal, for every map |
| `Records.Rfc3339Injective` | internal/audit/chain.go:111-112 | Two instants render alike (section 5.6 of RFC 3339) if and only if they agree to the second |
| `Preimages.CanonicalInjective` | internal/audit/chain.go:108-153 | On records whose link holds no newline, preimages are equal if and only if everything but the hash agrees, times to the second |
| `Preimages.SamePreimageIff` | internal/audit/chain.go:108-137 | Two records share a preimage if and only if number, instant to the second and detail agree and type, subject, actor and link are written as one and the same text |
| `Preimages.AmbiguousIff` | internal/audit/chain.go:113-120 | Exactly which records are ambiguous: another record shares the preimage if and only if the type or the link spells out, lines and all, a type, a subject, an actor and a link |
| `Preimages.ClashSpells` | internal/audit/chain.go:139-153 | Two different records share a preimage only if the type of one and the link of the other both do |
| `Preimages.OneLineTypeAndLinkSuffice` | internal/audit/chain.go:139-153 | A record with a type and a link of one line has its preimage to itself, whatever the other record holds |
| `Preimages.AmbiguousWithoutCleanLink` | internal/audit/chain.go:113-120 | One such pair, concretely: an ordinary link on one side and an ordinary type on the other |
| `Text.SortOfEnumeration` | internal/audit/chain.go:123-127 | Whatever order a set of keys is collected in, sorting gives one and the same sequence |
| `Chain.DigestGivesHash` | internal/audit/chain.go:155-159 | Hashing the canonical form ignores the field the hash is stored in, and prints no newline if the digest prints none |
| `Chain.SealOnto` | internal/audit/chain.go:162-173 | The sealed record has the type, subject, actor and detail of the event and its time to the second; it is numbered after its predecessor, links to its hash, and carries the hash of its own contents |
| `Chain.VerifyFrom` | internal/audit/chain.go:259-313 | A problem is reported if and only if it is wrong with some record (its number, its link or its contents, with the values on both sides) or the checkpoint is missed, short or rewritten; valid means none; length, anchored count and head |
| `Chain.ProblemsInOrder` | internal/audit/chain.go:271-293 | Problems come record by record in chain order, for one record in the order of its three tests, each once and none left out |
| `Chain.ValidIffLinked` | internal/audit/chain.go:253-313 | A list is accepted if and only if every record is numbered, linked and unmodified from the anchor on and the checkpoint is reached, with its head when the lengths are equal |
| `Chain.VerifySplitJoin` | internal/audit/chain.go:259-295 | Verifying a concatenation is verifying the first part and then the second from the anchor the first ends on: same problems in order, valid iff both are, same length and head |
| `Chain.UniqueHistory` | internal/audit/chain.go:155-173 | Two valid chains from one anchor with the same length and head are the same records to the second, or a hash collision between them is exhibited |
| `Chain.CheckpointCatchesRewriting` | internal/audit/chain.go:304-322 | Among chains of the checkpointed length, the checkpoint accepts exactly the one it was taken over, unless the hash collides |
| `Chain.CheckpointAllowsGrowth` | internal/audit/chain.go:162-173 | Every extension of a chain by sealing any events is still accepted against its checkpoint |
| `AuditNames.RecordNameInjective` | internal/audit/recorder.go:386-388 | Object names tell records apart, for all sequence numbers |
| `AuditNames.RecordNameLayout` | internal/audit/recorder.go:386-388 | The name is the prefix and the number, padded to twelve digits and read back from them |
| `AuditNames.SegmentNameInjective` | internal/audit/archive.go:137-140 | File names tell segments apart, for all first and last numbers |
| `AuditNames.SegmentNameLayout` | internal/audit/archive.go:137-140 | The name is the prefix, both numbers padded to twelve digits with a dash between them, and the suffix |
| `AuditNames.SegmentNameOrder` | internal/audit/archive.go:358-360 | Below 10^12, byte order of file names is numeric order of the (first, last) pairs |
| `ProtocolSafety.RunsAreSafe` | internal/audit/archive.go:142-150 | After every run (any interleaving of writers and the archiver, stopping anywhere, with any sink) the whole protocol invariant holds, unless a writer has overrun the boundary |
| `ProtocolSafety.CreateIsSafeIff` | internal/audit/recorder.go:63-101 | The assumption on writer lag is exact: a create sealed onto an observed head keeps the invariant if and only if it collides or the writer had seen at least as much as is archived |
| `ProtocolSafety.TimelyRunsNeverOverrun` | internal/audit/archive.go:105-108 | A run in which no writer lags by more than `Retain` records never overruns and keeps the invariant |
| `ProtocolSafety.PublishHeadKeepsCore` | internal/audit/recorder.go:303-341 | Publishing a head, however stale what it was based on, keeps the invariant and leaves the boundary where it is |
| `ProtocolSafety.PublishBoundaryKeepsCore` | internal/audit/recorder.go:267-300 | Publishing a boundary over a segment that was read back keeps the invariant |
| `ProtocolSafety.RunsEvolve` | internal/audit/recorder.go:303-341 | Histories, checkpoint revisions and published segments are only ever extended |
| `ProtocolSafety.WritersLeaveTheArchiveAlone` | internal/audit/archive.go:225-233 | While only writers run, nothing is deleted, the sink is untouched and the boundary stays |
| `Guarantees.HistoryIsOneChain` | internal/audit/recorder.go:27-42 | The history of every run verifies from the beginning, position n holds record n, and everything stored is what was appended there |
| `Guarantees.EveryRecordWasAppended` | internal/audit/recorder.go:63-101 | Every record of the history of every run landed by a creation in it, and says what the event of that creation says |
| `Guarantees.LandingsOwnTheirPositions` | internal/audit/recorder.go:63-101 | Creations that landed own different positions, in the order they landed |
| `Guarantees.ListingIsSuffix` | internal/audit/recorder.go:154-165 | What is stored, sorted, is a suffix of the history that reaches at least down to the boundary |
| `Guarantees.SnapshotVerifies` | internal/audit/recorder.go:168-201 | In every reachable state, between publishing and deleting included, listing and checkpoint taken together verify from the checkpoint's anchor, and are the whole history above the boundary |
| `Guarantees.TornSnapshotVerifiesIff` | internal/audit/recorder.go:168-201 | With others running between the list and the get, the result verifies if and only if the checkpoint read reaches no further than the listing or the boundary |
| `Guarantees.VerifyIgnoresTheAnchor` | internal/audit/recorder.go:244-251 | An untouched log passes `Recorder.Verify` if and only if nothing has been archived |
| `Guarantees.CheckpointRegister` | internal/audit/recorder.go:267-341 | Over all revisions of the checkpoint, length and boundary never decrease, boundary ≤ length ≤ log, and both hashes are those of the records at those positions |
| `Guarantees.NeitherWriterErasesTheOther` | internal/audit/recorder.go:327-339 | From one revision to the next, either the archive fields or the head fields are untouched |
| `Guarantees.SizeDoesNotWrap` | internal/audit/recorder.go:239-241 | The unsigned subtraction never wraps |
| `Guarantees.HeadIndexAgrees` | internal/audit/recorder.go:506-545 | `head` finds the last record of the history when the checkpoint lags by at most 1000, an earlier record whose successor is stored (so the create collides) when it lags more, and never nothing |
| `Guarantees.FoundHeadIsSafe` | internal/audit/recorder.go:506-545 | However long before the create `head` looked, appending to what it found keeps the invariant without overrunning, as long as the boundary has not passed the length that the checkpoint then had |
| `Guarantees.ColdHeadAgrees` | internal/audit/recorder.go:509-521 | Without a checkpoint nothing has been archived and the last record listed is the head |
| `Guarantees.SweepReadDecides` | internal/audit/archive.go:255-282 | The record at the boundary is gone if and only if nothing the boundary covers is left |
| `Guarantees.ReadBackSuffices` | internal/audit/archive.go:205-223 | With a codec that only keeps the count and the hash strings, a decoded segment that verifies from its anchor is the segment that was encoded, or a collision is exhibited |
| `Guarantees.NoRecordIsLost` | internal/audit/archive.go:142-150 | In every reachable state each appended record is stored unchanged or lies in a published segment whose file decodes to it, and only what the boundary covers is ever missing from the store |
| `Recording.Recorder.Load` | internal/audit/recorder.go:154-165 | Whatever order the API lists in, the result is every stored record once, in sequence order |
| `Recording.Recorder.RecordAt` | internal/audit/recorder.go:547-565 | The record with that number, or none; what it returns is a record of the history |
| `Recording.Recorder.Head` | internal/audit/recorder.go:506-545 | Returns a record really appended whatever runs meanwhile, and exactly the indexed head when nothing does; it is no earlier than the checkpoint was when called, unless the boundary has passed that since; it fails only if a call did |
| `Recording.Recorder.WalkForward` | internal/audit/recorder.go:526-544 | The bounded loop computes the forward walk from the checkpointed record, and comes at least that far unless the boundary has passed it |
| `Recording.Recorder.Append` | internal/audit/recorder.go:40-108 | A success made the creation by which its record landed, at a position after everything that was there when it was called; the record has the type, subject, actor, detail and time to the second of the event and links to the record before it; that creation overran nothing unless the boundary had by then passed the length checkpointed when called; the only failures are the API's and losing 4096 times. With nothing else going on and a checkpoint that a walk reaches the head from, it succeeds, adds that one record at the end and one revision of the checkpoint that describes it, and changes nothing else |
| `Recording.Recorder.PutCheckpoint` | internal/audit/recorder.go:303-341 | On success the newest revision is the new head with the archive fields of the revision before it, which was no longer; it is refused only if a longer one had been published; with nothing else going on it is written, as that one revision, unless it is refused |
| `Recording.Recorder.WriteCheckpoint` | internal/audit/recorder.go:572-578 | On success the newest revision has the length, head and time of the record and the archive fields it had |
| `Recording.Recorder.Chain` | internal/audit/recorder.go:168-201 | The history as it was listed, above the boundary as it is when the checkpoint is read |
| `Recording.Recorder.Verify` | internal/audit/recorder.go:245-251 | The verification of what was listed above the boundary, without an anchor; valid if and only if nothing is archived and the checkpoint reaches no further than the listing |
| `Recording.Recorder.Size` | internal/audit/recorder.go:223-242 | The checkpoint's length and what it leaves above the boundary, or, without a checkpoint, the length of the log twice |
| `Recording.Recorder.AdvanceBoundary` | internal/audit/recorder.go:267-300 | On success the newest revision is the one before it with the anchor's boundary, one segment is published, the sink is untouched and nothing was deleted; it refuses only to pass the published head, or when a writer has overrun; undisturbed it fails only if there is no checkpoint or it says less than the boundary would, or more already |
| `Archiving.Archiver.Run` | internal/audit/archive.go:151-245 | On success nothing covered is left in the cluster, the boundary moved by exactly the count returned over one published segment or not at all, and every file in the sink was there before or has its boundary published; the last also when a rejected segment was removed; it archives whenever the checkpointed chain had outgrown both threshold and retention and only past the threshold; a refusal or rejection moves nothing; an untouched chain is never refused; what it moves leaves exactly what is to be retained of the chain as it was listed, which had outgrown the threshold; undisturbed, and with a codec that gives back what it was given, it fails only if the checkpoint lags by more than is retained |
| `Archiving.Archiver.Sweep` | internal/audit/archive.go:262-304 | On success nothing the boundary covers is stored; the boundary, the published segments and the sink stay |
| `Archiving.Archiver.DeleteThrough` | internal/audit/archive.go:306-328 | Deletes everything up to `last` in ascending order and counts exactly the records that were there |
| `Archiving.Archiver.WriteAndReadBack` | internal/audit/archive.go:200-223 | On success the segment is ready to be published: the file is the encoding and what decodes from it verifies in place; on failure nothing was deleted or published |
| `Archiving.Archiver.ReadBack` | internal/audit/archive.go:205-223 | No fault is found only if the stored bytes are the bytes written, decode, and verify from the anchor; undisturbed, something is found wrong only if the file or the codec is |
| `Archiving.Archiver.Reject` | internal/audit/archive.go:36-51 | Keeps the cause, deletes no record and touches no other file; a sink that cannot remove is not asked to, and otherwise removal is reported only if the file is gone; the file is left only if removing it was tried and failed |
| `Maintenance.Loop.Start` | internal/maintenance/loop.go:38-91 | Any number of rounds with writers in between: if every run completed, or failed without leaving a file, nothing in the sink lacks a published boundary, and every copy of the sink's files is approved by the offline check |
| `Maintenance.Loop.Once` | internal/maintenance/loop.go:63-91 | A round that is settled leaves no new file without a published boundary; undisturbed, and with a checkpoint that keeps up, it completes and leaves nothing to sweep |
| `Maintenance.CompletedRunsVerify` | internal/audit/archive.go:142-150 | In every reachable state without such a file, and with something archived, every directory of the sink's files is approved |
| `Limits.StaleWriterForks` | internal/audit/recorder.go:63-101 | The lag assumption is needed: a concrete run in which a delayed first writer creates a second record number one and the history no longer verifies |
| `Limits.InterruptedRunSpoilsTheDirectory` | internal/audit/archive.go:147-149 | A concrete run interrupted after its Put: the log is intact and every directory holding the sink's files fails the offline check |
| `Limits.TornReadLooksTruncated` | internal/audit/recorder.go:168-201 | A concrete run in which `Chain` lists an empty log, two records are appended and published, and what it returns does not verify |
| `Limits.VerifyFailsOnceArchived` | internal/audit/recorder.go:244-251 | A concrete run after which `Recorder.Verify` fails on an untouched log |
| `Limits.EmptyArchiveCrashes` | cmd/cupel/audit.go:128-129 | A directory with one empty segment file crashes the command in text mode |
| `Offline.ReadArchive` | internal/audit/archive.go:347-375 | The names are those of the files, not directories, that end in `.jsonl`, in byte order; everything is read if and only if every one can be read and parses, and otherwise the error is about the first that does not; an error and no names when the directory cannot be listed |
| `Offline.CheckAgainstCheckpoint` | cmd/cupel/audit.go:163-200 | Nothing is reported if and only if count and end agree with the boundary, or without one the archive is longer than the checkpoint or as long and ends on its head; otherwise exactly the differences, with the values on both sides, count before end |
| `Offline.AuditVerify` | cmd/cupel/audit.go:74-161 | For any directory, with or without a checkpoint file: failed if and only if a file cannot be read or parsed, there is no segment, or the checkpoint file is unusable; otherwise a crash on text output without records, approved if and only if the records are numbered, linked and unmodified from the beginning and fit the checkpoint, if there is one, and quarantined if not |
| `Offline.CrashesIff` | cmd/cupel/audit.go:128-129 | It crashes if and only if it prints text, the checkpoint file is usable, the directory can be listed, there are segment files and none of them holds a record |
| `Offline.OfflineCheckIsExact` | cmd/cupel/audit.go:99-108 | A directory holding the published segments is approved against the published checkpoint if and only if every other segment file is readable and holds no records |
| `Offline.SinkVerifiesIffNoOrphans` | internal/audit/archive.go:137-140 | For the archiver's own directory: approved if and only if no segment without a published boundary holds records |
| `Offline.ApprovedArchiveIsThePrefix` | cmd/cupel/audit.go:163-188 | Any directory at all that is approved against a published checkpoint holds the archived prefix of the history, to the second, or a collision is exhibited |
| `Offline.ArchiveContinuesInTheCluster` | cmd/cupel/audit.go:147-151 | An approved archive followed by the records still in the cluster is one chain that verifies from the beginning against the checkpoint |
| `Offline.SplitPositional` | cmd/cupel/audit.go:15-39 | The loop lifts out the first bare argument and keeps everything else in order, skipping a flag's value |
| `Offline.FlagsInEitherOrder` | cmd/cupel/audit.go:66-70 | Flags before or after the directory, and anything else after it, all reach the flag parser, in order |
| `Offline.LiftedIsTheFirstBare` | cmd/cupel/audit.go:15-39 | What is lifted out is the first argument that is neither a flag nor the value of one, and nothing else; without one, everything is passed on |
| `Evidence.ExcerptFor` | internal/evidence/bundle.go:192-200 | The loop computes the excerpt |
| `Evidence.ExcerptIsTheSubsequence` | internal/evidence/bundle.go:191-200 | The excerpt is exactly the subject's records: an order-preserving subsequence that omits none and adds none |
| `Evidence.ValidChainHasIntactExcerpts` | internal/evidence/bundle.go:202-211 | A chain that verifies as a whole forces every excerpt of it to be intact |
| `Evidence.IntactRecordsAreTheChains` | internal/evidence/bundle.go:374-387 | Checking hashes without links is enough: an intact record carrying the hash of a record of a valid chain with a one-line type is that record, to the second, or the hash collides between the two |
| `Evidence.BuildCoverage` | internal/evidence/bundle.go:292-307 | How many scanners were asked for, how many of them completed, and the names of exactly the others, as often as they occur, in byte order |
| `Evidence.CoverageAccountsForEveryScanner` | internal/evidence/bundle.go:292-307 | Completed plus incomplete is requested, and the incomplete are the same names as often, in order |
| `Evidence.BuildControls` | internal/evidence/bundle.go:309-340 | A technique is claimed, once and in order, if and only if it is in scope and a scanner that was asked for and completed is named as evidence for it |
| `Evidence.Build` | internal/evidence/bundle.go:229-269 | The records about the subject (`model/version`, or the model alone), in order and all of them; whether each carries its own hash; whether the whole chain is intact and reaches the checkpoint; coverage, techniques, and the digest over everything else |
| `Evidence.Verify` | internal/evidence/bundle.go:360-421 | Valid if and only if the digest is that of the contents, every record carries its own hash and the producer found the chain valid; the doubts are exactly what there is to weigh, record by record and in source order |
| `Evidence.EvidenceRoundTrip` | internal/evidence/bundle.go:246-421 | For every input, the bundle built verifies if and only if the whole chain did |
| `Evidence.ValidBundleWarnsExactly` | internal/evidence/bundle.go:401-417 | A valid built bundle warns if and only if nothing was recorded about the subject or a scanner did not complete |
| `Evidence.LiveLogMakesValidEvidence` | internal/evidence/bundle.go:242-259 | A bundle built from a snapshot of any reachable state verifies |
| `Signing.Handle` | internal/webhook/promotion.go:35-120 | Allowed if and only if it is a deletion, an error if and only if nothing decodes, and denied if and only if the model, version or target is missing, a rejection has no reason, or a decided request would change its decision or target, for the first of these in order; what it admits differs from what was sent in the requestor and the signature only, names the creator on creation and otherwise whatever requestor could be decoded from the old object, is signed by the sender if nobody had decided, and by whoever had if somebody had |
| `Signing.DecisionIsFrozen` | internal/webhook/promotion.go:74-109 | Once decided, no sequence of updates by anybody changes decision, decider, groups, moment or target; the requestor never changes |
| `Signing.DeciderIsTheSender` | internal/webhook/promotion.go:105-109 | If an undecided request ends up decided, one edit set that decision for that target, and the recorded decider, groups and moment are its sender's |
| `Signing.ModelIsWhateverWasLastSent` | internal/webhook/promotion.go:69-82 | Model and version are not part of the signature: they are what the last admitted edit names |
| `PromotionHistory.ReadBefore` | internal/controller/promotion_controller.go:62-65 | Every promotion acted on what its request held at some earlier point of the run |
| `PromotionLimits.SignatureMovesToAnotherModel` | internal/webhook/promotion.go:69-82 | A concrete run in which a user signs for one model, somebody else renames the request, and the other model is promoted on that signature and admitted |
| `PromotionLimits.UnnamedReportServesEveryModel` | internal/webhook/gate.go:254-275 | A concrete run in which a report without an identity is promoted on an Approve of one model, after which the gate takes it for any other and admits that |
| `Gating.Evaluate` | internal/webhook/gate.go:302-376 | Each refusal if and only if its own condition holds and none before it, with the values it shows; none if and only if the verdict is Approved, the scan recent, the digests compatible and the environment promoted, undeclared or exempt |
| `Gating.PromotionKeepsAdmissionsIff` | internal/webhook/gate.go:348-373 | One more promotion keeps an admission, except exactly when promotions are ignored, nothing was promoted, and the added environment is another one |
| `Gating.FindReport` | internal/webhook/gate.go:225-252 | The two loops find what the first decisive place says; nothing if and only if, in the workload's namespace and the gate's own, every name was read and held nothing or a report that says it is about something else |
| `Gating.FirstFoundIff` | internal/webhook/gate.go:231-252 | What is found is at the first place with a report about this model or an error, whatever other reports derive the same name; nothing is found if and only if every place was read and none has a report about it |
| `Gating.WorkloadNamespaceFirst` | internal/webhook/gate.go:83-88 | A report beside the workload wins; the gate's own namespace is looked in only when the workload's was read without finding one |
| `Promotions.RunsAreGood` | internal/controller/promotion_controller.go:59-139 | The invariant of promotions holds after every run of users, scans, reconciles and reports left by others |
| `Promotions.NextStatusIff` | internal/controller/promotion_controller.go:81-119 | What a reconcile computes is the one status with every field as it has to be: phase, verdict, observed time, reviewer, review time and message, each from its own condition |
| `PromotionHistory.SettledStaysSettled` | internal/controller/promotion_controller.go:67-72 | Over every run, one request's signature and requestor do not change and a terminal status is final |
| `PromotionHistory.EnvironmentsOnlyGrow` | internal/controller/promotion_controller.go:175-184 | The environments of one report stay strictly sorted and only grow |
| `PromotionHistory.AtMostOneRecordAttempt` | internal/controller/promotion_controller.go:132-137 | No request's decision is put on record twice |
| `PromotionHistory.FinalPhaseIsAPersonsDecision` | internal/controller/promotion_controller.go:84-113 | Approved means a signed Approve and Rejected a signed, explained Reject; either way a report that was stored beside the request, under a name of the very model and version the request named when it was decided and about no other, had an Approved verdict, and an approval put the environment on that report |
| `PromotionHistory.StatusInTrace` | internal/controller/promotion_controller.go:81-119 | Whatever a request says of itself at any point of any run, a reconcile concluded from what the request asked for and what the report found for it said: blocked if and only if there was no Approved verdict, and otherwise what a person had decided, or pending |
| `PromotionHistory.RequestorInTrace` | internal/webhook/promotion.go:83-90 | The requestor on whatever a request object ever held is the authenticated user whose admitted creation made that very object |
| `PromotionHistory.CreatedOnce` | internal/webhook/promotion.go:83-90 | That creation is the only one with the object's uid |
| `PromotionHistory.SignatureInTrace` | internal/webhook/promotion.go:92-109 | A decision an object ever held was set, where there was none, by an admitted submission that landed in that object, and its signature is that sender's |
| `PromotionHistory.AdmissionImpliesPromotion` | internal/webhook/gate.go:348-373 | If a workload that declares an environment is admitted on a report about its model, the verdict is Approved now, and earlier in the run a reconcile that saw that report object Approved promoted the environment for a request naming this very model and version (or the report does not say who it is about, or two model versions share a report name), on an Approve that an authenticated user's admitted submission had set in that request for that environment |
| `PromotionHistory.PromotedForTheSignedModelIff` | internal/webhook/promotion.go:69-109 | In any run, what a promotion promoted is the model version its signer named if and only if the last admitted submission to land in the request before the reconcile read it names that version, whoever sent it |
| `PromotionController.Reconciler.Reconcile` | internal/controller/promotion_controller.go:59-139 | Without an error the request was absent, settled, said it already, or had just come to say what has to be concluded from the request and the report as they were read at points of this call: blocked if and only if there was no report with an Approved verdict, rejected or approved if and only if a person had decided so, pending if nobody had, with verdict, times, reviewer and message; an approval had its environment added to that report first; a decision that landed here had its one attempt at a record. It fails only if somebody else stepped in or a call failed |
| `PromotionController.Reconciler.SecurityReport` | internal/controller/promotion_controller.go:143-167 | Under any interleaving: the report found was there and about the model, under the current name, or under the old one when the current one held none about it at some point of the call; nothing only if neither held one; it fails only if a call did |
| `PromotionController.Reconciler.ApplyEnvironment` | internal/controller/promotion_controller.go:175-184 | On success the environment is among those ever promoted on that report |
| `Naming.Sanitize` | internal/naming/naming.go:27-38 | The rewriting ends, and equals the normal form: maximal [a-z0-9] runs joined by single dashes, or `unnamed` |
| `Naming.RunsAreMaximal` | internal/naming/naming.go:24-38 | The runs that the normal form joins are the maximal stretches of `a` to `z` and `0` to `9`, all of them and in order |
| `Naming.SanitizeIdempotent` | internal/naming/naming.go:27-38 | Sanitizing twice is sanitizing once |
| `Naming.SameSlugIff` | internal/naming/naming.go:45-55 | Two identifiers flatten to one name if and only if they have the same runs |
| `Naming.Stable` | internal/naming/naming.go:56-69 | The readable form, whole if it fits and otherwise cut to 52 characters and stripped of dashes at its end, a dash, and ten characters of the digest; the branch for an empty readable part is never taken |
| `Naming.JoinSnoc` | internal/naming/naming.go:56-69 | Joined parts have the separator between each and the next and nowhere else |
| `Naming.StableIsALabel` | internal/naming/naming.go:45-69 | Every stable name is a label by section 2.1 of RFC 1123, of at most 63 characters |
| `Naming.StableSeparates` | internal/naming/naming.go:45-55 | Equal names mean equal fingerprints, whatever the readable parts |
| `Naming.FingerprintSeesEveryPart` | internal/naming/naming.go:93-98 | Lists of one length without zero bytes that are hashed alike are equal |
| `Naming.SharedNameIsACollision` | internal/naming/naming.go:45-69 | Two model versions share a report name only if the digest agrees on two different texts in its first ten characters |
| `Naming.LegacyStable` | internal/naming/naming.go:77-91 | The readable form when it fits and otherwise the stable name: in both cases a valid label of at most 63 characters |
| `Naming.LegacyCollidesIff` | internal/naming/naming.go:45-55 | Within the limit, legacy names are equal if and only if the identifiers have the same runs |
| `Naming.SanitizeLabel` | internal/naming/naming.go:40-43 | A valid label: the sanitized text when it fits, and otherwise its first 63 characters without dashes at their end |

## Corollaries

Stated and proved beside the results above, from which or from the definitions they follow at once:
`Chain.CheckpointCatchesTruncation`, `ProtocolSafety.DeleteKeepsCore`, `Evidence.EditedBundleIsRejected`,
`Protocol.CheckpointRoundTrip`, `Signing.CreationSigns`, `Gating.AgeNeverRescues`, `Naming.LegacyIsALabel`,
`Naming.SlugExamples`.

## Left out

- Back-off, jitter, contexts, deadlines and real time: a wait is a point at which others run; the retry
  bounds (4096 appends, 5 boundary writes, 1000 records walked) are kept.
- The Kubernetes client, JSON, the filesystem and SHA-256: calls on a shared state that may fail, a
  codec, a sink and a digest given as functions. Records are keyed by sequence number and segments by
  their run of records, which `RecordNameInjective` and `SegmentNameInjective` justify.
- A failure to encode a segment or a bundle: encoding is total here.
- Reads served from an informer cache that lags the API server: a read here is of the state at the time
  of the call, though everything may change before what was read is used.
- Integer widths: sequence numbers and lengths are unbounded, except in `Size`, where the 64-bit
  subtraction is modelled. The conversions to and from signed 64 bits at the API are not.
- Encodings: a character is a byte where text is compared, hashed or measured (`Text`, `Records`, `Preimages`,
  `Naming`'s lengths and fingerprints) and a code point where it is classified (`Signing.IsSpace`, the runs in
  `Naming`); the two agree on valid UTF-8 for everything that is claimed. Years before 1 are not representable.
- Problem texts and status messages: one datatype constructor for each kind, with the values it shows.
- More than one archiver at a time, which leader election rules out (internal/maintenance/loop.go:35),
  and a change of `Retain` between runs of one log.
- A checkpoint written by anything but appends and the archiver, including the unused `checkpoint` method
  (internal/audit/recorder.go:254-256).
- A checkpoint shorter than the log: heads are compared only when lengths are equal, so nothing is claimed
  about how a longer log relates to the checkpointed one.
- Offline.AuditVerify: does not model what is printed, the parsing of flags beyond `splitPositional`, or the
  error branch of encoding the report, whose strings, numbers and booleans always encode.
- Signing.Handle: model name and version are not claimed frozen, because the code does not freeze them.
- Environments that an older operator had already put on a report it left: a report starts with none.
- Changes to stored requests and reports by anyone but signed users, scans and the controller: a cluster
  role that allows editing a report's status can add an environment.
- The gate's handler around `evaluate`: skip annotations, model discovery, enforcement modes and metrics.
- How a verdict is computed, scan scheduling, exceptions, compliance catalogs, the console API, sessions,
  registry connectors and metrics.
- Lower-casing, `strings.EqualFold` and the hexadecimal digest in `Naming` and `Gating` are parameters.
- Wrapper functions that only fix a prefix (`ModelReport`, `Scan`, `ScanJob`, `ScanReport`).

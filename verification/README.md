# Anva: restart-safe protocols and canonical forms

This project models the parts of Anva that must not go wrong quietly, and proves what they are for.

- **The acceptance run** (`SecretHandoff`, `ResumeRecord`, `AcceptanceWorld`, `AcceptanceRun`). Four commands drive a
  saved record through eight statuses. Between processes only the state file, two handoff files, the sealed output and
  the server remain. A command is given a budget of effects and is gone when it is used up; without a budget it is left
  alone and the server cooperates. The handoff protocol has a disk model of its own, with names, inodes, link counts,
  failing operations, kills in the middle of a write, and power losses.
- **The operator drill** (`DrillEvents`, `DrillScript`, `DrillLedger`). A hash-chained ledger file with one header,
  locked appends, one closing anchor and one script that completes it.
- **Corpus canonicalisation** (`CorpusInventory`, `CorpusManifest`, `CanonicalCorpus`, `CorpusCopy`,
  `CorpusRoundTrip`). A worklist walk over a tree, a copier with tracked rollback, and a verifier written apart from it.
- **Transformations** (`RefInlining`, `SchemaMeaning`, `SchemaKeywords`, `Json`, `JsonText`, `ScanReport`,
  `ScanFindings`, `PackageDigest`). Scoped reference inlining, the order-independent form of a scan report, and the
  length-prefixed package stream.
- **Sealed results** (`SealedResults`, `SealVerification`, `SealedContents`). Publishing a tree by one rename and
  verifying it again.
- **Release closure** (`ReleaseManifest`, `ReleaseContents`, `WorktreeStatus`). Manifest and checksum file against the
  release directory, and the parser of NUL-delimited Git status.

`Ordering`, `Text` and `Options` hold what several of them use.

Hashing is a function that the models are given. Where a result needs two texts with different meaning to have
different digests, it says "or they collide" and names the two texts. Regular expressions, UTF-8, JSON parsing and
external attestations are functions or predicates the models are given, too; what is asked of them is the `Faithful`
(or `Sane`, `DigestsMatch`, `RoundTrips`) predicate of the module. The JSON printer is not assumed: it is defined in
`Json` and proved injective there. Texts stand for byte strings, one character per byte, wherever lengths or hashes are
taken.

## What turned out not to hold

Each of these is kept as the code has it, with a member that says exactly when the code does what it is for.

- A handoff over 1,500,000 bytes is published and then discarded or refused (`src/anva/acceptance/runner.py:316`):
  `SecretHandoff.RecoverAndRetry`; at the level of a run, `AcceptanceWorld.Completable`.
- A start killed between ingesting the newer head of the stale probe and saving `AWAITING_EXTERNAL_REVIEW` can never be
  finished, because the repeated request is answered 200 while only 201 is accepted
  (`src/anva/acceptance/runner.py:1604`); neither can one whose sixteen upload authorisations were all interrupted
  (`src/anva/acceptance/runner.py:1214`): `AcceptanceRun.BlockedByProbe` and `AcceptanceRun.BlockedByUploads` are
  the two histories, `AcceptanceRun.RunHistory` says that such a run stays so, and `AcceptanceRun.CompleteRun` is the
  exact condition.
- A record that saves can be too large to load (`src/anva/acceptance/state.py:179`), because an identity may carry any
  number of hyphens and still be a UUID: `ResumeRecord.LargeRecordIsLost`, and `ResumeRecord.StateFile.LoadsWhatWasSaved`
  for the exact condition.
- A record whose version is written `true` or `1.0` is read (`src/anva/acceptance/state.py:121`):
  `ResumeRecord.OnlyRecordsRead`.
- A sealed file over 2,000,000 bytes is published and not accepted again (`src/anva/acceptance/export.py:390`):
  `SealVerification.SealVerifies`; `SealVerification.LongReportRefused` is such a report.
- A canonical manifest over 1,000,000 bytes, or a source commit followed by a newline (which the schema of the input
  lets pass), is published and not accepted again (`src/anva/acceptance/corpus.py:641`,
  `src/anva/acceptance/corpus.py:683`): `CorpusRoundTrip.CanonicalRoundTrip`.
- A ledger file that was touched by hand (a blank line or carriage returns are enough) can be finalised and then fails
  the final validation, which hashes the events rendered again and not the bytes; and without its last newline the
  anchor comes to stand on the line of the last event: `DrillLedger.TouchedFails`, and `DrillLedger.Reverifies` for the
  exact condition.
- Inlining can manufacture an exact reference, rewrites data under `const` that looks like a reference, and takes a
  property called `$defs` for a scope: `RefInlining.RefCanBeManufactured`, `SchemaMeaning.DataIsRewritten`,
  `SchemaMeaning.PropertyCapturesScope`, and `SchemaMeaning.InliningDecides` for the exact condition.
- A release manifest over 8,000,000 bytes (its image reference has no bound) is built and not accepted:
  `ReleaseManifest.BuildVerifies`; `ReleaseManifest.LongReferenceRefused` is such a reference.
- A checksum file rewritten with carriage returns is accepted, because it is read in text mode
  (`src/anva/release.py:241`): `ReleaseManifest.ReturnsAccepted`, and `ReleaseManifest.ChecksumsDerived` for the exact
  condition.
- A finding whose severity or identifier is an array, or an object of two members, is not protected from being sorted:
  `ScanReport.ArrayLabelChanges` shows a report whose counts change. `ScanReport.SanitizingKeepsClassification` is the
  exact condition for all renderings of labels, `ScanReport.RenderedClassification` for one.

## Model

| member | source | states |
|---|---|---|
| SecretHandoff.RunHistory | src/anva/acceptance/runner.py:239-395 | After any sequence of interrupted or failing writers, loaders and power losses, whatever bears the final name, on disk or in memory, is one of the complete texts that were to be written; each event does what it must: a loss of power yields the disk it leaves, and a writer or loader left alone publishes or discards |
| SecretHandoff.RecoverAndRetry | src/anva/acceptance/runner.py:307-388 | After any such history recovery finds a written text whole, or nothing and the retry succeeds; what was written is returned exactly when it is within the size limit; no state of the protocol is reported unsafe; what recovery returns is a function of the disk the history left |
| SecretHandoff.PowerLossSafe | src/anva/acceptance/runner.py:345-388 | Losing power, each name surviving in its old or its new form and unsynchronised files turning into anything, keeps the final name complete |
| SecretHandoff.SyncedSurvives | src/anva/acceptance/runner.py:259-266 | Once file and directory are synchronised, losing power undoes nothing |
| SecretHandoff.HandoffDirectory.WriteHandoff | src/anva/acceptance/runner.py:345-388 | The link is the only commit point: the final name stays what it was or names the whole payload; an existing handoff is never replaced; after an error the pending file is withdrawn |
| SecretHandoff.HandoffDirectory.LoadHandoff | src/anva/acceptance/runner.py:307-335 | Loading returns what is published or discards only what is too large, and leaves neither name behind when it finds nothing |
| SecretHandoff.HandoffDirectory.CleanupPending | src/anva/acceptance/runner.py:277-298 | The pending name is removed whatever a killed writer left, and the final one is left alone |
| ResumeRecord.RecordRoundTrip | src/anva/acceptance/state.py:86-163 | A record is read back from its JSON as itself exactly when it is valid, and otherwise refused |
| ResumeRecord.OnlyRecordsRead | src/anva/acceptance/state.py:108-163 | A JSON value is read as a record exactly when it is, member by member, the JSON of that record, but for a version that Python finds equal to 1, and passes the tests on texts |
| ResumeRecord.OnlyClosedRecordsRead | src/anva/acceptance/state.py:14-163 | What is read has the eight members, one of the eight statuses, no identity and no digest of another name, each a text of its form, and both reviewer identities or neither, both once the run is bootstrapped |
| ResumeRecord.RecordFiled | src/anva/acceptance/state.py:14-104 | A saved record holds its status, every identity and every digest under the very name of that status, identity or digest |
| ResumeRecord.StateFile.Save | src/anva/acceptance/state.py:190-211 | Validity and text are those of the record; the file is replaced whole or not at all, wherever the process is killed, and a save that succeeds survives a loss of power; an invalid record leaves the file alone; which of these, and whether on stable storage too, is a function of the kill point |
| ResumeRecord.StateFile.RunHistory | src/anva/acceptance/state.py:190-211 | After any saves, killed anywhere, and any losses of power, the file is missing or is the whole text of a valid record that was saved; which one, now and on stable storage, is a function of the history |
| ResumeRecord.StateFile.LoadsWhatWasSaved | src/anva/acceptance/state.py:166-211 | Loading after a save returns the same record exactly when its text fits the limit of the loader |
| ResumeRecord.LargeRecordIsLost | src/anva/acceptance/state.py:86-211 | A record with a padded identity is valid, exceeds the limit and is not loaded again |
| AcceptanceWorld.WriteAhead | src/anva/acceptance/runner.py:1398-1932 | In every reachable state a bootstrap, claim or submission on the server was announced by the saved record under the same key, and there is at most one; the credential handoff names the run and its request, the review handoff the run, task, reviewer and granted claim, the submission that task and token; a claimed review has a handoff with the saved digest; a sealed tree bears exactly the identity of the run, with the saved digest once the run is complete |
| AcceptanceWorld.ResumeDecides | src/anva/acceptance/runner.py:692-798 | Exactly which inputs resume a run at any later point: those that would have started the same run at its reference time, with every pinned digest the same and none left out, or two named texts collide |
| AcceptanceWorld.ResumedInputs | src/anva/acceptance/runner.py:692-798 | Inputs that resume a run have the same product commit, image, build input, package and launch manifest, the same corpus id, manifest, fingerprint, commit and canonical digest as the inputs it was started with, and the same case file or none, unless two named texts collide |
| AcceptanceWorld.NewRecordMembers | src/anva/acceptance/runner.py:692-744 | The first record names the corpus, the run derived from the reference time, the time and the version |
| AcceptanceWorld.CorpusPins | src/anva/acceptance/runner.py:699-713 | The four digests of the corpus are pinned each under its own name |
| AcceptanceWorld.ProductPins | src/anva/acceptance/runner.py:699-713 | Product commit, image, build input, package and launch manifest are pinned each under its own name |
| AcceptanceWorld.NewRecordDerives | src/anva/acceptance/runner.py:711-744 | Reference time, bootstrap key and bootstrap request are pinned by the digests of their texts |
| AcceptanceWorld.CaseMembers | src/anva/acceptance/runner.py:713-731 | With a case file the record pins its digest, the digest of corpus and case together, and its commits |
| AcceptanceWorld.DerivedMembers | src/anva/acceptance/runner.py:507-525 | Without a case file base, head and newer head are the first forty digits of the digests of the fingerprint with ":base", ":head" and ":new-head" |
| AcceptanceWorld.MatchesAfter | src/anva/acceptance/runner.py:785-798 | No later step overwrites what the start pinned, so the inputs that resumed a run resume it later |
| AcceptanceWorld.KeyAfterUsed | src/anva/acceptance/runner.py:1205-1240 | Following the chain from the evidence, the key tried after n used keys is the next used one |
| AcceptanceWorld.NextTried | src/anva/acceptance/runner.py:1205-1240 | A used key leads to the following key of the chain, or back into the chain |
| AcceptanceWorld.UsedAgainCollides | src/anva/acceptance/runner.py:1205-1240 | If the key after all used ones is used as well, two named texts have the same digest (or the evidence spells out its own key) |
| AcceptanceWorld.ExtendChain | src/anva/acceptance/runner.py:1205-1240 | A fresh authorisation extends the one chain of upload keys by its next key |
| AcceptanceWorld.NewRecordKeepsInv | src/anva/acceptance/runner.py:692-744 | The first record satisfies the invariant with nothing on the server, and its own inputs resume it |
| AcceptanceWorld.BootstrappedKeepsInv | src/anva/acceptance/runner.py:1032-1087 | Taking up the organisation's identities keeps the invariant and the origin of the run |
| AcceptanceWorld.LearntKeepsInv | src/anva/acceptance/runner.py:1423-1613 | Saving the answer of any import keeps the invariant, the pinned inputs and what was learnt before |
| AcceptanceWorld.ClaimingKeepsInv | src/anva/acceptance/runner.py:1652-1661 | The claim key is saved before anything is claimed |
| AcceptanceWorld.ClaimedKeepsInv | src/anva/acceptance/runner.py:1706-1710 | The saved digest is that of the handoff that is there |
| AcceptanceWorld.ReviewedKeepsInv | src/anva/acceptance/runner.py:1821-1825 | The saved result is the one the server holds |
| AcceptanceWorld.CompleteKeepsInv | src/anva/acceptance/runner.py:1837-1841 | The saved digest is that of the sealed tree, also when it is adopted |
| AcceptanceWorld.ReviewIsTheClaim | src/anva/acceptance/runner.py:1637-1651 | Until the submission the handoff carries the one claim the server granted |
| AcceptanceWorld.PreparedKnowsAll | src/anva/acceptance/runner.py:1423-1617 | A run that awaits its review or is past that has saved all sixteen identities and both digests the server answered with, and the run of its stale probe if there is one |
| AcceptanceWorld.KeysSpelt | src/anva/acceptance/runner.py:1205-1661 | Every upload key is "acceptance-upload-" and the digest of the evidence, or of the key before it, a colon and its authorisation; the claim key is the digest of the run, the task, the reviewer and its token |
| AcceptanceRun.Runner.Bootstrap | src/anva/acceptance/runner.py:951-1030 | One request under the saved key, a credential handoff for exactly this request, and a record that takes up its identities, in exactly three effects; killed anywhere, the record is still the prepared one |
| AcceptanceRun.Runner.Reconcile | src/anva/acceptance/runner.py:1032-1087 | A complete credential handoff is taken up without asking the server again, one that is too large is removed, each in one effect |
| AcceptanceRun.Runner.AuthorizeUpload | src/anva/acceptance/runner.py:1205-1245 | With n used keys, fewer than sixteen, the next attempt gets a token in exactly n+1 requests if the key after them is unused, and otherwise stops after sixteen |
| AcceptanceRun.Runner.SubmitEvidence | src/anva/acceptance/runner.py:1197-1332 | The blob and the evidence manifest are recorded exactly when the blob is there or an authorisation can be had and the process lives through the requests this takes |
| AcceptanceRun.Runner.StaleProbe | src/anva/acceptance/runner.py:1574-1613 | The probe run is recorded before the newer head is ingested, and a newer head that is already there is an error; exact for every kill |
| AcceptanceRun.Runner.Prepare | src/anva/acceptance/runner.py:1423-1617 | A preparation reaches the external review with every import recorded exactly when it can and the process lives through what is left to do |
| AcceptanceRun.Runner.Start | src/anva/acceptance/runner.py:1398-1617 | Killed anywhere, start keeps the invariant, moves the record only forward, asks for no further bootstrap once a complete credential handoff is there, and refuses foreign inputs without changing anything; it gets to the review exactly when it can and the process lives through the effects that are left, which are counted |
| AcceptanceRun.Runner.RequestReview | src/anva/acceptance/runner.py:1619-1710 | Intent before claim, claim before handoff, handoff before digest; a recovered handoff is accepted instead of a new claim; it succeeds exactly when it can and the process lives through the effects that are left |
| AcceptanceRun.Runner.ReviewInputsValid | src/anva/acceptance/runner.py:1712-1746 | The inputs of a submission are accepted exactly when the result is acceptable and the handoff can be read back |
| AcceptanceRun.Runner.SubmitReview | src/anva/acceptance/runner.py:1712-1826 | An unacceptable result is refused before anything is saved or sent; the submission is made once, with an acceptable result, and repeated only with the same one; the handoff goes only after the submission is saved; exact for every kill |
| AcceptanceRun.Runner.Finalize | src/anva/acceptance/runner.py:1828-1932 | A seal left by a killed finalize is adopted with its own digest; it refuses exactly when the output is unreadable or the stage or the inputs are wrong, and completes exactly when it does not refuse and the process lives |
| AcceptanceRun.RunHistory | src/anva/acceptance/runner.py:1398-1932 | Under every sequence of commands with any inputs, each killed anywhere, the invariant holds, the status never moves back, pinned inputs, claim, submission and output stay, no bootstrap is repeated once its handoff is complete, a blocked run stays blocked, and what the server holds as the submission is an acceptable result that one of the commands was given; from each moment to the next every command that can succeed does |
| AcceptanceRun.Perform | src/anva/acceptance/runner.py:1398-1932 | Each command succeeds exactly when it can and its process lives through the effects left to it, and then the record stands where that command leaves it; foreign inputs change nothing |
| AcceptanceRun.CompleteRun | src/anva/acceptance/runner.py:1398-1932 | From every reachable state the four commands left alone complete the run exactly when it is completable; for a run not yet submitted that needs an acceptable result |
| AcceptanceRun.BlockedByProbe | src/anva/acceptance/runner.py:1574-1617 | One start of any run with a stale probe, killed after twenty-four effects, leaves a run that no inputs and no result complete |
| AcceptanceRun.BlockedByUploads | src/anva/acceptance/runner.py:1205-1245 | Sixteen starts, each killed just after its upload was authorised, leave a run that no inputs and no result complete |
| DrillEvents.ValidateEvidence | src/anva/operator_drill.py:363-440 | The loop with its running previous hash accepts exactly the ledgers in which every event is chained, numbered, closed and in its place |
| DrillEvents.AcceptedEvent | src/anva/operator_drill.py:363-440 | An event of an accepted ledger has its six members, its number, the hash of the event before it and the hash of its own other members |
| DrillEvents.AcceptedHeader | src/anva/operator_drill.py:392-432 | An accepted header is closed at every level, and eligible exactly when the product carries the operator tool of its own source at version 0.1.7 |
| DrillEvents.AcceptedAnchor | src/anva/operator_drill.py:327-350 | A payload is accepted as an anchor exactly when it has the seven members, each of its form, and no forbidden text |
| DrillEvents.AcceptedMetrics | src/anva/operator_drill.py:83-112 | The check of the metrics token reports 404, 404 and 200 and at least one sample |
| DrillEvents.AcceptedRestore | src/anva/operator_drill.py:83-165 | The check of the restore fault reports exit code 44, its marker and no running writer |
| DrillEvents.AcceptedRetry | src/anva/operator_drill.py:83-165 | The check of the decommission retry reports one more attempt, from the storage failure to completion |
| DrillEvents.AcceptedDecision | src/anva/operator_drill.py:310-320 | A proposal is accepted for a decision of the drill only in the role that decision asks for |
| DrillEvents.SafeMeans | src/anva/operator_drill.py:284-303 | A payload is safe exactly when no text anywhere in it is forbidden, but for identifiers, digests, codes and versions |
| DrillEvents.PaddedText | src/anva/operator_drill.py:399 | An event number is written with twenty digits |
| DrillEvents.ExtensionValid | src/anva/operator_drill.py:450-473 | A sealed event extends an open valid ledger to a valid one exactly when its payload is acceptable |
| DrillEvents.PrefixValid | src/anva/operator_drill.py:363-440 | Every earlier version of a valid ledger is valid and open |
| DrillEvents.TailDeterminesLedger | src/anva/operator_drill.py:358-440 | Two accepted ledgers with the same tail hash are the same event for event, or the hashed texts of two of their events collide |
| DrillScript.CompletedIsTheScript | src/anva/operator_drill.py:485-519 | For a valid ledger the completion check amounts to the codes being the twelve-step script |
| DrillScript.CompletedTranscript | src/anva/operator_drill.py:485-519 | A valid ledger passes the completion check exactly when between header and anchor stand the five checks, the six decisions with their roles and the cleanup, each under its own name |
| DrillScript.CompletedLength | src/anva/operator_drill.py:485-519 | A complete ledger has thirteen events, and fourteen once it is anchored |
| DrillScript.CompletableOnScript | src/anva/operator_drill.py:450-519 | An open ledger can still be completed by accepted appends exactly when its events are the first steps of the script |
| DrillLedger.CreateEvidence | src/anva/operator_drill.py:244-281 | A file is created exactly when the header inputs are well formed, and it holds a valid ledger of one event |
| DrillLedger.NewLedgerValid | src/anva/operator_drill.py:222-281 | A new ledger is valid, and eligible exactly when the product carries the operator tool of its own source at this version |
| DrillLedger.NewLedgerMembers | src/anva/operator_drill.py:244-281 | A new ledger has one event, a header of schema 3 that names the drill, the image and revision of the runtime, and the boundary |
| DrillLedger.BoundarySpelt | src/anva/operator_drill.py:222-241 | A boundary names product and operator commit, version and inclusion, each under its own name, and the status and binding these decide |
| DrillLedger.LedgerFile.Append | src/anva/operator_drill.py:450-473 | An append succeeds exactly when the file is a valid open ledger and the payload is acceptable, and then adds exactly the sealed line |
| DrillLedger.LedgerFile.Finalize | src/anva/operator_drill.py:590-629 | Finalising succeeds exactly when the ledger is eligible, complete, open and bound by an attested anchor, and then adds exactly the anchor; an anchor that passes has the drill, the commits, the tail hash and the file digest of this ledger and the digest of the six decisions |
| DrillLedger.CompletedCodes | src/anva/operator_drill.py:476-482 | The decision codes hashed for a complete ledger are ROTATE_CREDENTIAL, REVOKE_CREDENTIAL, ESCALATE_PERMISSION_LEAK, ABORT_FAILED_RESTORE, RESUME_STORAGE and ESCALATE_METRICS_PROXY, in this order |
| DrillLedger.BindsMembers | src/anva/operator_drill.py:603-612 | An anchor binds a complete ledger exactly when its six members are the drill and two commits of the header, the digest of the file, the hash of the last event and the digest of those codes |
| DrillLedger.LedgerFile.ValidateFinal | src/anva/operator_drill.py:632-660 | The final validation accepts exactly when the ledger is anchored, complete and eligible and its anchor binds the events before it, member by member as for finalising; the ledger then has fourteen events |
| DrillLedger.ReadRendered | src/anva/operator_drill.py:443-447 | What the tool writes is read back as the same events |
| DrillLedger.RunHistory | src/anva/operator_drill.py:443-629 | After any interleaving of appends and finalisations the file holds a valid ledger that extends every earlier version, with one header and at most one anchor, which is last; once finalised it is eligible, complete and fourteen events long; the ledger is a function of the history |
| DrillLedger.FinalisableOnScript | src/anva/operator_drill.py:450-629 | A ledger the tool holds can still be finalised, by accepted appends and an attested anchor, exactly when it is eligible and its events are the first steps of the script |
| DrillLedger.Reverifies | src/anva/operator_drill.py:590-660 | Any finalised file verifies again exactly when the digest of its bytes is that of its events rendered again and nothing but white space stands before the anchor on its line |
| DrillLedger.WrittenReverifies | src/anva/operator_drill.py:590-660 | A file that only this tool wrote always verifies again |
| DrillLedger.TouchedFails | src/anva/operator_drill.py:443-660 | A complete, eligible ledger with a blank line or with carriage returns can be finalised like the ledger itself, and then verifies again only by a collision |
| CorpusInventory.Walk | src/anva/acceptance/corpus.py:293-431 | The stack walk ends, visits each directory once, and accepts in whatever scan order exactly when the regular files are the listed ones, directories are expected, nothing else is there and the counts are in bound |
| CorpusInventory.ScanDirectory | src/anva/acceptance/corpus.py:311-359 | One directory scanned in any order adds exactly its entries, each counted once |
| CorpusInventory.NoFileBelowAnother | src/anva/acceptance/corpus.py:293-365 | In an accepted tree no listed file lies below another |
| CorpusInventory.InventoryDetermines | src/anva/acceptance/corpus.py:368-431 | The directories of an accepted tree are exactly those of the listed paths and `payload`, which may be missing only when no file is below it |
| CorpusManifest.ManifestFiles | src/anva/acceptance/corpus.py:223-290 | The loop accepts exactly the lists that are within declared and operator limits, admissible, not repeated and sorted; so one control part, control name, climbing part, backslash or NUL makes it answer false |
| CorpusManifest.CheckRecords | src/anva/acceptance/corpus.py:249-290 | Running total, seen paths and the final order check decide exactly whether every path is admissible, none repeated, sizes within the limits and the order that of the paths |
| CorpusManifest.PathOkMeans | src/anva/acceptance/corpus.py:249-272 | The tests of a path accept exactly the admissible ones: below `payload`, no part empty, "." or "..", no backslash or NUL, not too deep, no part below `payload` one of the nine control parts and no file one of the three control names, compared folded |
| CorpusManifest.LimitsMean | src/anva/acceptance/corpus.py:53-75 | The ceilings on files, bytes, file size and depth |
| CorpusManifest.WithinHard | src/anva/acceptance/corpus.py:692-745 | What a manifest may list passes the verifier's own, fixed limits |
| CorpusManifest.SameFilesSameList | src/anva/acceptance/corpus.py:288-289 | Accepted lists of the same files are the same list |
| CanonicalCorpus.VerifyCanonical | src/anva/acceptance/corpus.py:622-775 | Verification answers an identity exactly when the root holds what its pinned, self-consistent manifest lists; nothing in such a root, directories included, could climb or control, and the identity is that of the pins and of the files |
| CanonicalCorpus.VerifiedIdentity | src/anva/acceptance/corpus.py:622-775 | What an accepted root holds is harmless, and its identity has the three pins, the count, the total and the fingerprint of the listed files |
| CanonicalCorpus.VerifiedContents | src/anva/acceptance/corpus.py:622-775 | An accepted root holds `canonical-manifest.json`, at most 1,000,000 bytes of the pinned digest, each listed file with its size and digest, no other file and at most 20,000 entries |
| CanonicalCorpus.CheckManifest | src/anva/acceptance/corpus.py:646-757 | The manifest is accepted exactly when it is the pinned one, well formed and bears its own fingerprint |
| CorpusCopy.CanonicalRoot.WriteAtomic | src/anva/acceptance/corpus.py:444-470 | Under partial writes and failures a destination is absent or whole at every step, everything created is tracked, and success leaves no temporary |
| CorpusCopy.CanonicalRoot.WriteContent | src/anva/acceptance/corpus.py:452-458 | Pieces of any size add up to the content |
| CorpusCopy.CanonicalRoot.MakeParents | src/anva/acceptance/corpus.py:553-561 | Exactly the missing directories are made, from the top, each tracked before it exists |
| CorpusCopy.CanonicalRoot.Cleanup | src/anva/acceptance/corpus.py:473-515 | The root is empty whenever the cleanup says so, and it says so exactly when none of its own operations fails |
| CorpusCopy.NothingInside | src/anva/acceptance/corpus.py:503-509 | Removing tracked directories from the last removes children before parents |
| CorpusCopy.CanonicalRoot.CopyFiles | src/anva/acceptance/corpus.py:544-563 | The copy fails only for an operation that fails, a file that does not match its record, or lists that overlap |
| CorpusRoundTrip.CanonicalizeCorpus | src/anva/acceptance/corpus.py:518-619 | It succeeds exactly when the input is acceptable (if nothing fails), then shows exactly the canonical tree, write-protected, in which nothing could climb or control, and answers its identity; a failed copy leaves the root empty unless the cleanup failed too, and it says which |
| CorpusRoundTrip.CanonicalHarmless | src/anva/acceptance/corpus.py:223-290 | No path of a canonical tree, directory or file, has a control part, a control name or a part that climbs |
| CorpusRoundTrip.PreparedContents | src/anva/acceptance/corpus.py:518-563 | What is copied is `acceptance-corpus.json` of the pinned digest and exactly the files it lists, each with its size and digest, within the limits of the manifest, which are within those of the operator and the ceilings |
| CorpusRoundTrip.CopiedContents | src/anva/acceptance/corpus.py:544-600 | The canonical tree holds each file with the content it had and a manifest that names the corpus, the pin and the fingerprint |
| CorpusRoundTrip.CanonicalRoundTrip | src/anva/acceptance/corpus.py:518-775 | What was canonicalised verifies under its own identity and as the same corpus exactly when its manifest fits the read limit and its source commit is a bare commit |
| CorpusRoundTrip.CopyThenVerify | src/anva/acceptance/corpus.py:518-775 | Calling the verifier with the three identities the copier returned gives back an equal identity, under that same condition |
| CorpusRoundTrip.FingerprintDecides | src/anva/acceptance/corpus.py:434-441 | Two corpora have the same fingerprint exactly when they are the same set of files, or their two identity texts collide |
| RefInlining.ResolvePointer | src/anva/contracts/acceptance.py:2215-2224 | The loop over the components follows a pointer exactly as the recursive lookup does |
| RefInlining.InliningTerminates | src/anva/contracts/acceptance.py:2226-2249 | Inlining ends without an error exactly when every reference that can be met resolves and none is met behind itself |
| RefInlining.ComponentReference | src/anva/contracts/acceptance.py:2226-2249 | A reference to a component is inlined, in any scope or none, to the component inlined with itself as the scope if it is an object, and is an error exactly when there is no such component |
| RefInlining.DefinitionReference | src/anva/contracts/acceptance.py:2226-2249 | A reference to a definition of the scope is inlined to the definition, inlined in that scope |
| RefInlining.BadReference | src/anva/contracts/acceptance.py:2226-2249 | A reference that is no pointer, or that names no component where there is no scope, is an error |
| RefInlining.DepthIrrelevant | src/anva/contracts/acceptance.py:2226-2249 | The result does not depend on the depth allowed |
| RefInlining.InlineLeavesNoRef | src/anva/contracts/acceptance.py:2226-2249 | The result holds an exact reference exactly when a `$ref` member that was not a text turned into one |
| RefInlining.InlinedIsRefFree | src/anva/contracts/acceptance.py:2226-2249 | No exact reference is left when no reference leads to a bare text |
| RefInlining.RefCanBeManufactured | src/anva/contracts/acceptance.py:2226-2249 | An input whose result is an exact reference |
| SchemaMeaning.InliningKeepsMeaning | src/anva/contracts/acceptance.py:2226-2249 | A schema whose references stand alone where schemas stand is inlined to one that, read anywhere, accepts the same values, under every applicator of the standard and any assertions |
| SchemaMeaning.ComponentAccepts | src/anva/contracts/acceptance.py:2226-2249 | A reference to a component accepts what the component accepts |
| SchemaMeaning.DefinitionAccepts | src/anva/contracts/acceptance.py:2226-2249 | A reference to a definition accepts what the definition accepts in its scope |
| SchemaKeywords.SchemaAccepts | src/anva/contracts/acceptance.py:2215-2249 | The meaning that inlining keeps is that of JSON Schema 2020-12: each applicator of the standard demands what the standard says of the value, its members or its items |
| SchemaMeaning.InliningDecides | src/anva/contracts/acceptance.py:2226-2249 | For every schema that can be inlined: the inlined schema alone accepts the same values as the original, whatever the keywords mean, exactly when data is left alone, no reference becomes a list of subschemas and maps taken for references or scopes keep their members' shapes |
| SchemaMeaning.ShapeDecides | src/anva/contracts/acceptance.py:2226-2249 | Two schemas mean the same under every vocabulary exactly when they are the same once their references are followed |
| SchemaMeaning.DataIsRewritten | src/anva/contracts/acceptance.py:2226-2249 | A constant that looks like a reference is rewritten and another value is then demanded |
| SchemaMeaning.PropertyCapturesScope | src/anva/contracts/acceptance.py:2226-2249 | A property called `$defs` makes a reference beside it unresolvable |
| Json.PrintInjective | scripts/classify_release_source_scan.py:39-49 | The compact text of a JSON value determines the value |
| JsonText.PrintMeans | scripts/classify_release_source_scan.py:39-49 | Constants, numbers, quoted texts and arrays, the items separated by commas |
| JsonText.PrintObjectMeans | scripts/classify_release_source_scan.py:39-49 | An object is its quoted names and values in the order of the names |
| JsonText.EscapeMeans | scripts/classify_release_source_scan.py:39-49 | Every character is written as itself, by its short escape, or by its code units in hexadecimal |
| JsonText.NumeralMeans | scripts/classify_release_source_scan.py:39-49 | The numbers that values may hold are those of section 6 of RFC 8259: a sign or none, an integer without a needless zero, a fraction or none, an exponent or none |
| Ordering.StrLeMeans | scripts/classify_release_source_scan.py:39-49 | The order of texts is by the first character that differs, a prefix coming first |
| Json.PrintPrintable | src/anva/operator_drill.py:443-470 | The text of a value is one printable line |
| ScanReport.CanonicalFormDecides | scripts/classify_release_source_scan.py:39-49 | Two values have the same canonical form exactly when they differ only in the order of arrays, at any depth |
| ScanReport.CanonicalizeIdempotent | scripts/classify_release_source_scan.py:39-49 | Canonicalising twice is canonicalising once |
| ScanReport.CanonicalizeOnlyReorders | scripts/classify_release_source_scan.py:39-49 | The canonical form is the value with its arrays permuted |
| ScanReport.Findings | scripts/classify_release_source_scan.py:102-128 | The counting loops give the counts and the sorted blocked list of the findings of the report |
| ScanFindings.ReportShapeMeans | scripts/classify_release_source_scan.py:62-78 | A report is classified exactly when it is of schema version 2 and its results are objects whose three arrays, where present, hold objects |
| ScanFindings.BlockedMeans | scripts/classify_release_source_scan.py:102-128 | A finding is listed as blocking exactly when it is an entry of one of the three arrays, each with its own kind and identifying member, whose severity is rendered HIGH or CRITICAL |
| ScanFindings.CountedMeans | scripts/classify_release_source_scan.py:102-128 | A severity is counted for a kind exactly when a finding of that kind has it |
| ScanFindings.BlockedOrder | scripts/classify_release_source_scan.py:102-128 | The blocked list is ordered by kind, then identifier, then severity |
| ScanReport.SanitizingKeepsFindings | scripts/classify_release_source_scan.py:52-59 | Sanitising keeps every finding as often as it occurs |
| ScanReport.SanitizingKeepsClassification | scripts/classify_release_source_scan.py:52-128 | Raw and sanitised reports are classified alike, same counts and same blocked list however labels are rendered, exactly when no label is written otherwise after sanitising |
| ScanReport.DisorderShows | scripts/classify_release_source_scan.py:52-128 | A label that sanitising changes makes the sanitised report be classified differently under some renderings |
| ScanReport.RenderedClassification | scripts/classify_release_source_scan.py:52-128 | With renderings that tell every changed label from the sanitised ones, the two are classified alike exactly when the severities of all findings and the identifiers of the blocking ones are not changed |
| ScanReport.TextLabelsKeep | scripts/classify_release_source_scan.py:52-128 | A report whose labels are texts, as the scanner writes them, is classified like its sanitised form |
| ScanReport.SanitizingRemovesMatches | scripts/classify_release_source_scan.py:52-59 | No matched secret text and no scan time is left |
| ScanFindings.SanitizingRemovesOnly | scripts/classify_release_source_scan.py:52-59 | Sanitising takes away the time of the scan and the two match members of secrets, keeps everything else in its place and then only reorders arrays |
| ScanReport.ArrayLabelChanges | scripts/classify_release_source_scan.py:52-128 | A report of schema version 2 that the validator accepts, and whose counts change when it is sanitised, with the text Python gives its severity |
| PackageDigest.PackageSha256 | src/anva/acceptance/provenance.py:38-50 | The digest is that of the framed files in path order, whatever order the walk yields, with the errors of the source |
| PackageDigest.StreamDecodes | src/anva/acceptance/provenance.py:43-49 | The framed stream decodes to one list of files |
| PackageDigest.FrameLayout | src/anva/acceptance/provenance.py:43-49 | A frame is four bytes that count the path, the path, eight bytes that count the content, and the content, most significant byte first |
| PackageDigest.PathLeMeans | src/anva/acceptance/provenance.py:38-42 | Files are ordered by the first part of the path that differs, a directory before what is in it |
| PackageDigest.StreamDecides | src/anva/acceptance/provenance.py:38-50 | Two packages give the same stream exactly when they hold the same files with the same contents |
| SealedResults.OutputDirectory.Seal | src/anva/acceptance/export.py:159-387 | Killed anywhere the output is what it was or the complete tree; it is published exactly when nothing raises and the process lives through the rename |
| SealedContents.PublishedTree | src/anva/acceptance/export.py:159-357 | A published tree holds each normalised answer at its own path, metadata that names product, corpus, run and reviewer member by member, and an envelope that names the completion and records each artifact by kind, path, digest and size |
| SealedContents.SealDemands | src/anva/acceptance/export.py:189-357 | Nothing in sealing raises exactly when fourteen values are digests, the image reference is not empty and at most 255 long, the reviewer ids are UUIDs, the envelope fits its schema and no file holds a private marker |
| SealedResults.OutputDirectory.WriteArtifacts | src/anva/acceptance/export.py:324-335 | The loop writes and records exactly the six artifacts |
| SealedResults.OutputDirectory.WriteEnvelope | src/anva/acceptance/export.py:336-357 | Envelope and sums follow from the artifacts |
| SealedResults.OutputDirectory.SealOkParts | src/anva/acceptance/export.py:193-357 | Sealing raises exactly when provenance, schema or the private-marker check of one of the eight files does |
| SealVerification.VerifySealed | src/anva/acceptance/export.py:390-526 | The verifier, in whatever order it enumerates its sets, accepts exactly the trees that satisfy the declarative condition |
| SealedContents.AcceptedTree | src/anva/acceptance/export.py:404-526 | An accepted tree is the eight files by name, each public and at most 2,000,000 bytes; its metadata and envelope name the run member by member, its records are those of the six artifacts, and its sums are the seven lines in path order |
| SealVerification.SealVerifies | src/anva/acceptance/export.py:159-526 | What is published is accepted with the digest returned exactly when every file fits the verifier's limit and the run ended at its reference time |
| SealVerification.LongReportRefused | src/anva/acceptance/export.py:159-526 | A report with a summary of two million letters is published and not accepted again |
| SealVerification.SealThenAdopt | src/anva/acceptance/runner.py:1837-1932 | A seal killed anywhere leaves nothing or a tree adopted with the digest that would have been saved |
| SealVerification.DigestBindsTree | src/anva/acceptance/export.py:404-526 | Two accepted trees with the same digest are the same eight files, or the two contents of one of them collide |
| SealVerification.NormalizedSearchRecords | src/anva/acceptance/export.py:79-109 | Results keep the server's order, are ranked from one and hold only public fields |
| ReleaseManifest.Verify | src/anva/release.py:149-243 | The verifier with its growing lines and names accepts exactly when the declarative condition holds |
| ReleaseManifest.AcceptedIsBijection | src/anva/release.py:66-86 | Acceptance is a bijection between records and publishable files, with equal sizes and digests |
| ReleaseContents.PublishableMeans | src/anva/release.py:66-76 | What is published is what the directory holds besides the two generated files, temporaries and three files of the tools |
| ReleaseContents.ArtifactFilesMean | src/anva/release.py:66-86 | A directory is taken as a release exactly when it publishes one to a hundred safely named regular files, one of each of the nine required kinds among them |
| ReleaseContents.AcceptedManifest | src/anva/release.py:149-202 | An accepted manifest is of schema 2, kind, status, version 0.1.7 and limitations of a generated one, and names the commit, the image and the time of the candidate |
| ReleaseContents.AcceptedLines | src/anva/release.py:206-242 | An accepted checksum file is read as one line for each record in their order, a line for the manifest and no other, each a digest, two blanks and a name |
| ReleaseManifest.ChecksumsDetermined | src/anva/release.py:240-242 | For one manifest file all accepted checksum files are read as the same text, and those without a carriage return are the same file |
| ReleaseManifest.ChecksumsDerived | src/anva/release.py:240-242 | An accepted checksum file is the derived one exactly when it holds no carriage return |
| ReleaseManifest.ReturnsAccepted | src/anva/release.py:149-243 | Every accepted directory is accepted as well with its checksum file rewritten with carriage returns |
| ReleaseManifest.BuildVerifies | src/anva/release.py:103-243 | A directory just built is accepted for the same candidate exactly when its manifest fits the read limit |
| ReleaseManifest.LongReferenceRefused | src/anva/release.py:103-243 | An image reference beyond the read limit is built into a manifest that is not accepted |
| ReleaseManifest.ArtifactNames | src/anva/release.py:66-86 | The artifacts are the publishable names, each once, whatever the listing |
| WorktreeStatus.VerifyStatus | src/anva/release.py:246-282 | The index loop accepts exactly when the entries parse and every record is of an ignored release file |
| WorktreeStatus.ParseInvertsRender | src/anva/release.py:262-277 | Any list of status records, renames and copies included, is recovered from its rendering |
| WorktreeStatus.RenderedStatusOk | src/anva/release.py:246-282 | A rendered status passes exactly when it is within the limit and every record is of an ignored release file, so that no rename or copy does |
| WorktreeStatus.StatusMeans | src/anva/release.py:246-282 | Any status, malformed ones included, passes exactly when it is at most 8,000,000 bytes, the release directory lies inside the worktree, and every entry is empty or is "!! " and the path of a recorded artifact, the manifest or the sums |

## Left out

- HTTP, MCP and the server's own logic: the server is a store of keys, claims and one submission, and answers a repeated request as it answered the first, but for the newer head of the stale probe, which it answers 201 and then 200; that a request fails is the same as being killed before it.
- The waits, searches and semantic checks between the imports of a start, and the credential checks before a credential handoff is taken up: they change nothing that is saved.
- That an evaluator result fits its schema and names the request, organisation and head commit of the run: given as one answer, `acceptable`, to a submission.
- Foreign credential or review handoffs: only the run's own are modelled, because nothing else writes those names.
- Clocks, randomness and identifiers: the reference time, claim tokens, upload identifiers and the names of temporaries are arbitrary; a temporary is never named like a listed file.
- Ownership, mode bits, symbolic-link races and files that change while they are read; link counts are modelled where the code branches on them.
- A kill during a ledger write and during the corpus copy: the source claims nothing about the first and discards the volume after the second.
- The limits of Python's JSON parser on nesting and on the digits of an integer, and the numbers NaN and Infinity; a number is carried as the text that Python writes for it.
- Strings with lone surrogates: JSON texts are sequences of Unicode scalar values.
- Regular expressions, JSON Schema validation of whole manifests, UTF-8, UUID syntax and the GitHub proof: given as functions. `SchemaMeaning` covers every applicator of JSON Schema 2020-12 with arbitrary assertions, but not `unevaluatedProperties`, `unevaluatedItems` and `$dynamicRef`, which the shipped schemas do not use.
- JSON Pointer escapes in references: the source does not decode them, and neither does the model.
- Directories and special files below a sealed output: the verifier does not look at them, so neither does the model.
- The normalisers of context, canvas, report and findings: their results are arbitrary texts in a seal.
- The release exception baseline, expiry dates, scanner ignore files and the removal of build leftovers in `src/anva/release.py`.
- Network preflight, the command-line entry points, and the comparison of fixed drill constants with the outside world.
- SchemaMeaning.InliningKeepsMeaning: asks for references that stand alone and for no property called `$defs`, because the inlined schema may be read in any document; `SchemaMeaning.InliningDecides` asks nothing.
- SchemaMeaning.InliningDecides: takes a `$ref` beside other members for data, as the inlining does; JSON Schema 2020-12 would follow it.
- SealedResults.OutputDirectory.Seal: says nothing about the randomly named directory a killed process leaves behind, because a later seal never looks at it.
- CorpusCopy.CanonicalRoot.Restrict: models the write protection of the whole root as one fact, because no mode bits are modelled.

# A verified model of the file and object storage SDK

The Dafny files beside this one model the parts of the SDK whose correctness is not visible from one
function, and prove what those parts are for. `dafny verify dfyconfig.toml` checks all of it.

SQLite is modelled as typed tables (maps, sets and sequences) held in one value, so that a
transaction is the saved value and a rollback restores it. Code that changes things step by step is
imperative: classes with the source's fields, arrays changed in place, loops with invariants. Each
such method is proved against a function or relation of the old state, and the lemmas speak about
those. Hash functions, document sizes, Unicode folding, profile and URL validation are parameters;
the theorems hold for every choice of them, under the laws written in `Env` or `Container`.

| files | what they model |
|---|---|
| `OntologyModel`, `OntologyBatch`, `OntologyEffects`, `OntologyConsistency`, `OntologyJournal`, `OntologyFileSystem`, `OntologyTraversal`, `OntologyQueries` | the typed graph over the objects: batches of edits, the local re-check, the journal, traversal, keyset pages |
| `ObjectModel`, `ObjectHistory`, `ObjectStore`, `ObjectFacts`, `ObjectRuns` | revision chains, chunks, the trigger-maintained index and journal, RAW originals, diffs, the integrity checker |
| `Fips180`, `Fips180Laws`, `Sha256` | SHA-256 as FIPS 180-4 defines it, what its functions and constants are, and the two streaming hashers |
| `BlobPatch`, `BlobRanges` | in-place BLOB patches, and the compare-and-exchange of ranges under a savepoint |
| `JsonTree`, `JsonText`, `MetadataDiff` | documents, their compact text, and the metadata diff |
| `Calendar`, `Decimals`, `Timestamp`, `TimeOrder`, `LedgerModel`, `LedgerHistory`, `LedgerReader`, `LedgerWriter`, `LedgerRuns`, `LedgerEffects`, `LedgerTimes`, `Ledger` | change times and the authorship ledger |
| `CatalogModel`, `CatalogEffects`, `CatalogInvariants`, `CatalogRuns`, `CatalogSearch`, `Catalog` | the catalog, its side tables and its companion files |
| `LockProtocol`, `WorkerQueue`, `BatchWorkers` | the concurrent protocols, as interleaved steps |
| `Graph`, `Keyset`, `Orders`, `ByteOrder`, `LogicalPath`, `Wrappers` | reachability, pages, least elements, byte order, paths, options |

## What the proofs found

- **The output lock is safe exactly as long as no creator loses its lock.** `FileWriteLock` creates the
  guard and locks it by two system calls (`Compatibility/src/Compatibility.cpp:201-214`). Between them a
  reclaimer that opened the path earlier may lock the new file; the creator then throws, and its
  destructor removes a path it never locked, although the reclaimer has already compared it.
  `LockProtocol.RunIsSafe` proves every run safe in which this does not happen, with every other
  system call a step of its own. `LostLockAlwaysBreaks` proves that from every reachable state in
  which it happens there is a continuation to two live owners; `ExactlyLostLocksBreak` joins the two
  into one equivalence, and `LostLockBreaksExclusion` is a run from the start.
  `LockedAtOnceIsSafe` is the form a caller would ask for: with creation and lock taken as one step,
  every run is safe.
- **The ledger reads back what it wrote exactly when its stored times have four-digit years.**
  `timestamp` accepts times whose UTC form leaves the years 0000 to 9999, for example the first
  minute of year 0000 one minute east of UTC; it then prints a text that its own shape check
  refuses. `Timestamp.ShapeIffFourDigitYear` gives the condition, `Timestamp.YearBeforeZero` the
  inputs, and `LedgerReader.RoundTrip` says for every well-formed ledger what the reader returns in
  both cases.
- **Stored times never go back, but beyond the year 9999 only as texts.** The ledger compares times as
  strings (`Native/src/Core/Authorship.cpp:640`). `LedgerTimes.TimelyRunKeepsInstants` proves that with
  change times in four-digit years no stored instant goes back. `LedgerTimes.GoesBackExactly` gives the
  exact exception: a stored time of the year 10000 and a new one of the years 1001 to 9999. A change at
  `9999-12-31T23:59:59.999-00:01` followed by one at `9999-12-31T00:00:00Z` is `PairGoesBack`.
- **A cancelled root can still be prepared below by a scan.** `cancel` erases watches at or below its
  root only (`Native/src/Presentation/Presentation.cpp:636-638`), and a scan prepares files nobody asked
  for (line 580). After a cancellation of `/a/b` has returned, a watch on `/a` may prepare `/a/b/x`
  (`WorkerQueue.ScannedAfterReturn`); while it still waits, so may a slice of `/a/b` that is under way
  (`ScannedWhileCancelling`). `AfterCancelled` and `AfterCancelReturned` give the exact conditions over
  every run, `ScansBelowExactly` the condition at any reachable state, and `CancelIsClean` says what
  holds where they do not: everything prepared below the root was asked for after the cancellation.

## Model

| member | source | states |
|---|---|---|
| OntologyFileSystem.FileSystem.HasTypeRow | src/Objects/OntologyFileSystem.cpp:176-183 | the recursive lineage query finds a class exactly when a type of the node reaches it along parent edges |
| OntologyFileSystem.FileSystem.ClosesCycle | src/Objects/OntologyFileSystem.cpp:218-222 | the recursive query over one property answers whether the statement's target reaches back to its subject |
| OntologyFileSystem.FileSystem.CountValues | src/Objects/OntologyFileSystem.cpp:214-217 | the count exceeds one exactly when another statement has the same subject and property |
| OntologyFileSystem.FileSystem.CheckStatement | src/Objects/OntologyFileSystem.cpp:206-222 | with its caches, the check of one row decides all of the property's rules: kind, domain, range, single value, acyclic |
| OntologyFileSystem.FileSystem.ValidateStatements | src/Objects/OntologyFileSystem.cpp:192-224 | true exactly when every statement selected by the batch (all of them after a hierarchy edit) meets its property's rules |
| OntologyFileSystem.FileSystem.Record | src/Objects/OntologyFileSystem.cpp:297-302 | an unchanged document leaves no event; otherwise the event is appended while the batch stays within its byte budget |
| OntologyFileSystem.FileSystem.OwnAncestor | src/Objects/OntologyFileSystem.cpp:316-317 | true exactly when the class lies on a cycle of the parent edges |
| OntologyFileSystem.FileSystem.ApplyClass | src/Objects/OntologyFileSystem.cpp:307-319 | accepted exactly when the text rules hold, all parents exist and no class becomes its own ancestor; then rows, event and hierarchy mark are those of the edit |
| OntologyFileSystem.FileSystem.ApplyProperty | src/Objects/OntologyFileSystem.cpp:320-325 | accepted exactly when the definition is well-formed and its classes exist; the property is replaced and marked as changed |
| OntologyFileSystem.FileSystem.ApplyEntity | src/Objects/OntologyFileSystem.cpp:326-331 | the entity's node is inserted or replaced, with one event when it differs |
| OntologyFileSystem.FileSystem.ApplyType | src/Objects/OntologyFileSystem.cpp:332-337 | assigning needs a live resource, withdrawing any; the row, the event and the changed node appear only when the row changes |
| OntologyFileSystem.FileSystem.ApplyStatement | src/Objects/OntologyFileSystem.cpp:338-346 | asserting checks kind and resources, retracting only existence; the row, the event and the changed nodes appear only when the row changes |
| OntologyFileSystem.FileSystem.ApplyDirectory | src/Objects/OntologyFileSystem.cpp:347-354 | a saved query is stored only if valid, with the index of the properties it uses |
| OntologyFileSystem.FileSystem.ApplyRemoval | src/Objects/OntologyFileSystem.cpp:355-358 | removing a directory removes its rows and records the document it had |
| OntologyFileSystem.FileSystem.ApplyChange | src/Objects/OntologyFileSystem.cpp:303-360 | every kind of edit is refused exactly when its rule says so and otherwise steps the batch |
| OntologyFileSystem.FileSystem.ValidateDirectories | src/Objects/OntologyFileSystem.cpp:363-366 | true exactly when every saved query that uses a redefined property is valid |
| OntologyFileSystem.FileSystem.RunChanges | src/Objects/OntologyFileSystem.cpp:303-360 | the edits in order give the batch's result, or none when one is refused; a cancellation may stop it |
| OntologyFileSystem.FileSystem.Apply | src/Objects/OntologyFileSystem.cpp:287-370 | success means the batch relation holds and the ontology is consistent; failure changes nothing; without cancellation a writable ontology refuses only what the batch relation refuses |
| OntologyConsistency.LocalCheckIsComplete | src/Objects/OntologyFileSystem.cpp:192-224 | after any accepted edits to a consistent ontology, checking the selected statements and affected directories decides the consistency of the whole |
| OntologyConsistency.UnselectedStatementOk | src/Objects/OntologyFileSystem.cpp:193-196 | a statement the local check skips still meets every rule of its property |
| OntologyConsistency.UnaffectedDirectoryOk | src/Objects/OntologyFileSystem.cpp:363-366 | a saved query that uses no redefined property is still valid |
| OntologyConsistency.RunTracks | src/Objects/OntologyFileSystem.cpp:294-360 | along any batch, everything that differs from the consistent start is recorded in the changed nodes, properties or the hierarchy mark |
| OntologyConsistency.NoEventsNoChange | src/Objects/OntologyFileSystem.cpp:361 | a batch without events has changed no table, so returning without the check is sound |
| OntologyConsistency.ApplyKeepsConsistency | src/Objects/OntologyFileSystem.cpp:287-370 | every committed batch leaves an acyclic hierarchy, every statement valid and every saved query valid |
| OntologyConsistency.ApplyRefusesExactlyTheInconsistent | src/Objects/OntologyFileSystem.cpp:361-369 | a batch whose edits were accepted commits exactly when the ontology it leads to is consistent |
| OntologyConsistency.EmptyConsistent | src/Objects/OntologyFileSystem.cpp:263-283 | an ontology without rows is consistent over any files |
| OntologyJournal.EffectView | src/Objects/OntologyFileSystem.cpp:297-358 | the after-document of an effective edit's event is exactly what the edit does to the described tables |
| OntologyJournal.RunReplayable | src/Objects/OntologyFileSystem.cpp:303-360 | along a batch, replaying the journal gives the tables and every before-document is the replayed value at that point |
| OntologyJournal.ApplyKeepsJournal | src/Objects/OntologyFileSystem.cpp:295-369 | the journal only grows, replays to the tables, numbers its events by revision, and the revision grows by one exactly when there were events |
| OntologyModel.NodeKeyInjective | src/Objects/OntologyFileSystem.cpp:23-30 | two resources with the same node key are equal |
| OntologyEffects.EffectDone | src/Objects/OntologyFileSystem.cpp:307-358 | after an edit the rows say what it asked for: the definition, the node, the type or statement present or absent, the directory with its properties, or none |
| OntologyEffects.EffectKeeps | src/Objects/OntologyFileSystem.cpp:307-358 | an edit changes only the table of its kind, there only rows of its own key, and adds only the nodes it names |
| OntologyEffects.ClassCommits | src/Objects/OntologyFileSystem.cpp:307-319 | in a consistent ontology any new class below known classes is committed as a batch of one, which makes it, keeps every other row and raises the revision by one |
| OntologyEffects.PropertyCommits | src/Objects/OntologyFileSystem.cpp:320-325 | so is any new property over known classes |
| OntologyEffects.EntityCommits | src/Objects/OntologyFileSystem.cpp:326-331 | so is any entity |
| OntologyEffects.TypeCommits | src/Objects/OntologyFileSystem.cpp:332-337 | so is any known class given to a live resource |
| OntologyEffects.StatementCommits | src/Objects/OntologyFileSystem.cpp:338-346 | so is any statement between live resources with an unrestricted property of its kind |
| OntologyEffects.DirectoryCommits | src/Objects/OntologyFileSystem.cpp:347-354 | so is any saved query over known classes and properties |
| OntologyEffects.RemovalCommits | src/Objects/OntologyFileSystem.cpp:355-358 | so is the removal of any directory |
| OntologyEffects.CommitNeeds | src/Objects/OntologyFileSystem.cpp:289-294 | a committed batch had 1 to 256 edits, the current revision and a session that has not ended |
| OntologyEffects.AbsentFileRefused | src/Objects/OntologyFileSystem.cpp:332-346 | no type or statement is added about an unknown or deleted file |
| Graph.NewCycleUsesAddedEdge | src/Objects/OntologyFileSystem.cpp:218-222 | a cycle in an edited acyclic relation runs through an edge the edit added |
| Graph.Closure | src/Objects/OntologyFileSystem.cpp:178-181 | the recursive query ends on cyclic graphs and returns exactly the nodes reached from its roots |
| OntologyTraversal.Reach | src/Objects/OntologyFileSystem.cpp:411-413 | the (key, depth) worklist ends with at most the row limit, and empty unless the limit was met, for any choice among equal depths |
| OntologyTraversal.RowIsDistance | src/Objects/OntologyFileSystem.cpp:411-413 | a node's least depth in a truncated or complete sweep is its shortest distance |
| OntologyTraversal.FirstRows | src/Objects/OntologyFileSystem.cpp:413-414 | the rows least by depth and then key, in that order |
| OntologyTraversal.ManyRowsShowAnotherNode | src/Objects/OntologyFileSystem.cpp:413-415 | more rows than the limit always include another node than the start, so the truncation flag is raised by some row |
| OntologyTraversal.ReportIsNearest | src/Objects/OntologyFileSystem.cpp:411-416 | the reported nodes are at their true distances and no unreported node within the depth is nearer than a reported one |
| OntologyTraversal.ReportIsComplete | src/Objects/OntologyFileSystem.cpp:411-416 | a sweep that ran to its end reports every node within the depth |
| OntologyTraversal.EdgeIsStatement | src/Objects/OntologyFileSystem.cpp:409-412 | an edge is a statement of the property, read from subject to target outgoing and from target to subject incoming, into a node that exists and is live |
| OntologyTraversal.WalkIsChain | src/Objects/OntologyFileSystem.cpp:409-413 | every walk of the recursive query is a chain of such statements of the same length |
| OntologyTraversal.ChainIsWalk | src/Objects/OntologyFileSystem.cpp:409-413 | and every chain a walk |
| OntologyTraversal.ReportOverStatements | src/Objects/OntologyFileSystem.cpp:405-416 | the report in terms of chains: each depth is that of a shortest chain, and an untruncated report holds the end of every chain within the depth |
| OntologyTraversal.NeighboursReported | src/Objects/OntologyFileSystem.cpp:409-411 | an untruncated report shows the target of each statement of the start outgoing, and the subject of each statement naming the start incoming, and nothing else, at depth 1 |
| OntologyTraversal.Traverse | src/Objects/OntologyFileSystem.cpp:405-417 | refused exactly for bad text, bounds, resource or property; otherwise each node ends a shortest chain of statements of the property, subject to target outgoing and target to subject incoming, through live resources (or any, if deleted ones are asked for); unless truncated every chain within the depth ends in the report; truncated exactly when there are more rows than the query extracts or the full report lacks a node |
| OntologyQueries.SelectClasses | src/Objects/OntologyFileSystem.cpp:235-239 | the downward recursive selection gives exactly the query's class and, if asked, everything below it |
| OntologyQueries.SelectionIsLineage | src/Objects/OntologyFileSystem.cpp:176-183 | the downward selection agrees with the upward lineage of each node |
| OntologyQueries.ConditionCandidates | src/Objects/OntologyFileSystem.cpp:244-251 | the candidate objects of a condition are exactly the files with such a statement |
| OntologyQueries.Select | src/Objects/OntologyFileSystem.cpp:235-251 | the restrictions one after another leave exactly the index rows that match the query |
| OntologyQueries.QueryOverObjects | src/Objects/OntologyFileSystem.cpp:235-252 | the query lists an index key exactly when it is that of an object that is live (or deleted ones are asked for), has the class and satisfies every condition: stated on the object rows, not on the index |
| OntologyQueries.PlainQueryLists | src/Objects/OntologyFileSystem.cpp:242-243 | without class and conditions exactly the live objects are listed, or all of them |
| OntologyQueries.QueryFiles | src/Objects/OntologyFileSystem.cpp:225-260 | a page is refused exactly for a bad limit, query or cursor; it holds the first matches after the cursor and a next cursor exactly when more follow |
| OntologyQueries.ListAll | src/Objects/OntologyFileSystem.cpp:225-260 | following the cursors gives every match exactly once, in ascending order |
| OntologyQueries.RunHealthy | src/Objects/OntologyFileSystem.cpp:287-370 | over every interleaving of store operations and batches, the store stays sound, the ontology consistent, and its journal rebuilds it |
| OntologyQueries.StepVersion | src/Objects/OntologyFileSystem.cpp:227-231 | neither part of the version decreases, and a step that keeps both keeps everything a query reads |
| OntologyQueries.VersionDeterminesAnswers | src/Objects/OntologyFileSystem.cpp:227-231 | two states of a run with the same ontology revision and file sequence give the same answer to every query |
| ObjectStore.Package.StoreChunk | src/Objects/ObjectStore.cpp:202-210 | the bytes end up under their digest, nothing stored is changed, and it fails only on a digest collision |
| ObjectStore.Package.Ingest | src/Objects/ObjectStore.cpp:211-245 | the parts are full-size but the last and concatenate to the content |
| ObjectStore.Package.InsertRows | src/Objects/ObjectStore.cpp:251-263 | revision, journal row, RAW document and part rows of one revision, nothing else |
| ObjectStore.Package.Publish | src/Objects/ObjectStore.cpp:246-265 | the signed revision becomes the head with index and journal maintained, unless another live object has the path |
| ObjectStore.Package.ValidateChain | src/Objects/ObjectStore.cpp:277-287 | true exactly when revisions 1 to the version exist, are linked by their parents' keys and carry the keys of their contents |
| ObjectStore.Package.ValidatePayload | src/Objects/ObjectStore.cpp:288-302 | true exactly when the parts have the right number and sizes, match their digests, and together give the recorded size and hash |
| ObjectStore.Package.Validate | src/Objects/ObjectStore.cpp:277-303 | the checker accepts exactly a version in range with a valid chain and, if asked, a valid payload |
| ObjectStore.Package.Require | src/Objects/ObjectStore.cpp:190-194 | returns the head exactly when the object is live, at the expected version and can be revised |
| ObjectStore.Package.BeginSession | src/Objects/ObjectStore.cpp:441-450 | a new key gets one session row; nothing else changes |
| ObjectStore.Package.EndSession | src/Objects/ObjectStore.cpp:451-454 | only an active session ends, and only its end time changes |
| ObjectStore.Package.ImportFile | src/Objects/ObjectStore.cpp:266-276 | one new object whose first revision holds the content, or nothing; it fails only for a bad session, path or key or a collision |
| ObjectStore.Package.WrapRaw | src/Objects/ObjectStore.cpp:506-509 | the same for a RAW envelope, whose document must also be well-formed |
| ObjectStore.Package.ImportDocument | src/Objects/ObjectStore.cpp:519-543 | both objects or neither: a RAW original under its reserved path and a working object over the same chunks; it fails only for an unmet condition of the call or a collision |
| ObjectStore.Package.ReviseFile | src/Objects/ObjectStore.cpp:597-605 | a new revision with the content, never of a RAW object, only at the expected version |
| ObjectStore.Package.Move | src/Objects/ObjectStore.cpp:609-616 | succeeds exactly for a live head at the expected version, an active session and a valid free path, and keeps content |
| ObjectStore.Package.Erase | src/Objects/ObjectStore.cpp:617-620 | succeeds exactly for a live head at the expected version and an active session |
| ObjectStore.Package.ReviseMetadata | src/Objects/ObjectStore.cpp:549-558 | succeeds exactly for a RAW head; equal annotations change nothing, others publish a revision over the same parts |
| ObjectStore.Package.Original | src/Objects/ObjectStore.cpp:544-548 | finds the live RAW object at the reserved path exactly when there is one |
| ObjectStore.Package.Extract | src/Objects/ObjectStore.cpp:659-672 | succeeds exactly for an existing revision that is not deleted, with the bytes whose digest it records |
| ObjectStore.PartCount | src/Objects/ObjectStore.cpp:292-293 | content cut into full parts has exactly the number of parts its size calls for |
| ObjectStore.ReachableRevisionsValidate | src/Objects/ObjectStore.cpp:277-303 | in a sound package the checker accepts every revision of every object, with its payload |
| ObjectFacts.IndexRowOf | src/Objects/ObjectStore.cpp:394-400 | in a sound package each object has an index row whose head, path and deleted mark are its own, and whose hash, size, validation key, session and author are those of its head revision |
| ObjectFacts.ObjectOfIndexRow | src/Objects/ObjectStore.cpp:394-400 | and each index row is that of exactly one object |
| ObjectFacts.MoveFacts | src/Objects/ObjectStore.cpp:609-616 | a moved object is live at the new path and no longer at the old one; hash, size, parts, RAW document and authorship are kept, the operation is move, the parent the old validation key, every other row unchanged |
| ObjectFacts.MoveKeepsContent | src/Objects/ObjectStore.cpp:609-616 | the new version gives the bytes of the old one |
| ObjectFacts.ReviseFacts | src/Objects/ObjectStore.cpp:597-605 | a revised object stays at its path; its new version holds the content, its digest and size, the stamp, and the given authorship or else the old one; every other row unchanged |
| ObjectFacts.EraseFacts | src/Objects/ObjectStore.cpp:617-620 | an erased object is live nowhere, keeps its path, hash and authorship columns, and has no parts; every other row unchanged |
| ObjectFacts.AnnotateFacts | src/Objects/ObjectStore.cpp:549-558 | equal annotations change nothing; others become the new version's, which keeps name, media type, parts, hash, path, authorship and stamp |
| ObjectFacts.ImportFacts | src/Objects/ObjectStore.cpp:266-276 | an imported object is live at its path under a new index key, with one revision that holds the content, authorship, stamp, RAW document and author of the session |
| ObjectFacts.HeadKeySealsChain | src/Objects/ObjectStore.cpp:277-287 | if validation keys never collide, two valid chains with the same head key, in whatever packages, are of the same object and length and agree in every revision and RAW document |
| ObjectHistory.PublishSound | src/Objects/ObjectStore.cpp:246-265 | publication keeps all of: contiguous linked revisions, keys, stored payloads, index as projection of the heads, journal, unique live paths, shared RAW parts |
| ObjectHistory.CreateSound | src/Objects/ObjectStore.cpp:272-273 | a new object row without revisions keeps the invariant |
| ObjectHistory.AddChunkSound | src/Objects/ObjectStore.cpp:202-210 | a new chunk keeps the invariant |
| ObjectHistory.SessionsSound | src/Objects/ObjectStore.cpp:441-454 | beginning and ending sessions keeps the invariant, including every validation key |
| ObjectModel.EmptySound | src/Objects/ObjectStore.cpp:356-358 | an empty package is sound |
| ObjectRuns.StepSound | src/Objects/ObjectStore.cpp:246-303 | every committed operation keeps the invariant |
| ObjectRuns.RunSound | src/Objects/ObjectStore.cpp:285-303 | every reachable package satisfies the invariant, so the checker accepts all of it |
| ObjectRuns.ImportIsStep | src/Objects/ObjectStore.cpp:567-570 | what the import method promises is a step of the runs |
| ObjectRuns.RevisionIsStep | src/Objects/ObjectStore.cpp:597-605 | what the revision method promises is a step of the runs |
| ObjectRuns.MoveIsStep | src/Objects/ObjectStore.cpp:609-616 | what the move method promises is a step of the runs |
| ObjectRuns.EraseIsStep | src/Objects/ObjectStore.cpp:617-620 | what the erase method promises is a step of the runs |
| ObjectRuns.AnnotateIsStep | src/Objects/ObjectStore.cpp:549-558 | what the annotation method promises is a step of the runs, or no change at all |
| ObjectRuns.StepJournal | src/Objects/ObjectStore.cpp:421-423 | the journal only grows, and a step that does not grow it changes neither objects nor index |
| ObjectRuns.JournalIsVersion | src/Objects/ObjectStore.cpp:394-423 | two states of a run with journals of the same length have the same objects and index |
| ObjectRuns.StepKeepsCapture | src/Objects/ObjectStore.cpp:549-558 | a captured original survives any operation on other objects and any annotation of itself |
| ObjectRuns.OriginalSurvives | src/Objects/ObjectStore.cpp:519-548 | along any run in which only annotations name the RAW key, the original is still found from the working key and every revision of it gives the captured bytes |
| ObjectRuns.Diff | src/Objects/ObjectStore.cpp:644-654 | reports exactly the positions whose chunks differ, with both chunks and the byte offset |
| ObjectRuns.DiffVersion | src/Objects/ObjectStore.cpp:644-654 | refused exactly for a version that does not exist; otherwise the diff from the version before, or from nothing |
| ObjectRuns.DiffIsExact | src/Objects/ObjectStore.cpp:644-654 | applying the diff to either chunk list gives the other, and an empty diff means equal lists |
| Sha256.Transform | Native/src/Crypto/Sha256.cpp:23-61 | the in-place rounds compute the compression function of section 6.2.2 of FIPS 180-4 |
| Sha256.Finalize | Native/src/Crypto/Sha256.cpp:89-103 | marking, padding and compressing what is pending gives the hash of the padded message, in one block or two |
| Sha256.FinishedIsHash | Native/src/Crypto/Sha256.cpp:94-103 | the two ways of ending a partial block are the padding of section 5.1.1 |
| Sha256.NativeHash.Update | Native/src/Crypto/Sha256.cpp:63-87 | appends the input to the message, or refuses it untouched exactly when the bit length would leave 64 bits |
| Sha256.NativeHash.Digest | Native/src/Crypto/Sha256.cpp:89-109 | returns SHA-256 of everything appended so far and changes nothing |
| Sha256.NativeHash.HexDigest | Native/src/Crypto/Sha256.cpp:111-122 | the same as lower-case hexadecimal text |
| Sha256.OneShot | Native/src/Crypto/Sha256.cpp:123-127 | hexadecimal SHA-256 of the input |
| Sha256.StoreHash.Update | src/Objects/ObjectHash.cpp:47-55 | the other buffering style appends the same message under the same limit |
| Sha256.StoreHash.Finish | src/Objects/ObjectHash.cpp:56-66 | returns hexadecimal SHA-256 of everything appended |
| Sha256.HashBlob | Native/src/Database/Database.cpp:230-258 | a digest is SHA-256 of the whole BLOB, and a BLOB over the limit has none |
| Fips180.PadShortTail | Native/src/Crypto/Sha256.cpp:94-103 | with room for the length, the padded message ends in one block |
| Fips180.PadLongTail | Native/src/Crypto/Sha256.cpp:95-103 | without room, it ends in two |
| Fips180Laws.PaddedIs | Native/src/Crypto/Sha256.cpp:89-103 | the padded message is the message, a one bit, zeros and its bit length as a 64-bit big-endian number, in the fewest blocks |
| Fips180Laws.WordIsNumber | Native/src/Crypto/Sha256.cpp:25-30 | a word of the block is the big-endian number of its four bytes |
| Fips180Laws.WordsBack | Native/src/Crypto/Sha256.cpp:105-108 | words written as the digest's bytes are read back |
| Fips180Laws.HexIs | Native/src/Crypto/Sha256.cpp:111-122 | the text shows each byte's high and low hexadecimal digit in turn |
| Fips180Laws.ChBit | Native/src/Crypto/Sha256.cpp:40 | each bit of the choice is that of the second word where the first has a one, else of the third |
| Fips180Laws.MajBit | Native/src/Crypto/Sha256.cpp:43 | each bit of the majority is the one that at least two of the words have |
| Fips180Laws.BigSigma0Bit | Native/src/Crypto/Sha256.cpp:42 | exclusive or of the bits 2, 13 and 22 places up, around the word |
| Fips180Laws.BigSigma1Bit | Native/src/Crypto/Sha256.cpp:39 | of the bits 6, 11 and 25 places up |
| Fips180Laws.SmallSigma0Bit | Native/src/Crypto/Sha256.cpp:33 | of the bits 7 and 18 places up around the word, and 3 places up within it |
| Fips180Laws.SmallSigma1Bit | Native/src/Crypto/Sha256.cpp:34 | of the bits 17 and 19 places up around the word, and 10 places up within it |
| Fips180Laws.MaskTurns | Native/src/Crypto/Sha256.cpp:33-42 | the mask of bit i turned by each of these amounts is that of bit i plus the amount modulo 32, and shifted vanishes beyond bit 31 |
| Fips180Laws.RoundIs | Native/src/Crypto/Sha256.cpp:39-51 | one round on unbounded sums: whatever order its 32-bit additions take, only their sum modulo 2^32 matters |
| Fips180Laws.ScheduleIs | Native/src/Crypto/Sha256.cpp:31-36 | the message schedule on unbounded sums |
| Fips180Laws.PrimesAreTheFirst | Native/src/Crypto/Sha256.cpp:10-20 | the table used below holds exactly the primes up to 311, of which there are sixty-four |
| Fips180Laws.ConstantsAreCubeRoots | Native/src/Crypto/Sha256.cpp:10-20 | the j-th constant is c modulo 2^32 where c is the largest number with c^3 <= p * 2^96 for the j-th prime p |
| Fips180Laws.InitialAreSquareRoots | Native/src/Crypto/Sha256_p.h:18-19 | the initial words are those of c^2 <= p * 2^64 for the first eight primes |
| BlobPatch.PatchCoalesced | src/Catalog/Database.cpp:80-108 | the BLOB becomes the replacement; with h differing bytes it writes between h and 32h-31 bytes, none if h is 0; interrupted, it leaves a prefix of the replacement before the old bytes |
| BlobPatch.RunEnd | src/Catalog/Database.cpp:92-98 | a run ends where 32 equal bytes or the chunk's end follow, and joins closer differences |
| BlobPatch.CoalescedCost | src/Catalog/Database.cpp:90-102 | runs joined across fewer than 32 equal bytes, chunk by chunk, cost at least h and at most 32h-31 |
| BlobPatch.PatchExact | Native/src/Database/Database.cpp:181-206 | the BLOB becomes the replacement and the count is exactly the number of differing bytes |
| BlobRanges.OverlayUnique | Native/src/Database/Database.cpp:259-352 | at most one content is the overlay of given ranges |
| BlobRanges.OrderIrrelevant | Native/src/Database/Database.cpp:281-282 | neither acceptance nor the overlay depends on the order of the ranges |
| BlobRanges.SpliceAllIsOverlay | Native/src/Database/Database.cpp:321-333 | writing disjoint ranges one after another gives their overlay |
| BlobRanges.CheckSizes | Native/src/Database/Database.cpp:272-280 | passes exactly when every range keeps its size and the total is within the limit, and counts the total |
| BlobRanges.CheckLayout | Native/src/Database/Database.cpp:286-296 | comparing neighbours in offset order decides bounds and pairwise disjointness, with empty ranges ignored |
| BlobRanges.Connection.Compare | Native/src/Database/Database.cpp:297-307 | agrees exactly when every range's expected bytes are the current ones, and writes nothing |
| BlobRanges.Connection.Exchange | Native/src/Database/Database.cpp:312-350 | under the savepoint the ranges are written and released, or the BLOB is restored, the transaction rolled back, or the connection closed |
| BlobRanges.Connection.RollbackSavepoint | Native/src/Database/Database.cpp:70-82 | a sound rollback restores the savepoint's content or finds the transaction gone; otherwise the connection is closed |
| BlobRanges.Connection.Invalidate | Native/src/Database/Database.cpp:89-94 | closing discards whatever was uncommitted |
| BlobRanges.Connection.BeginTransaction | Native/src/Database/Database.cpp:455-459 | a new transaction has a larger number than any before and starts from the committed content |
| BlobRanges.Connection.Commit | Native/src/Database/Database.cpp:461-465 | only the current transaction commits, and it commits what the connection sees |
| BlobRanges.Connection.CompareExchange | Native/src/Database/Database.cpp:259-352 | success means ranges in bounds, disjoint and matching, leaves exactly their overlay and counts exactly the differing bytes; each error says which condition failed; after a failure the BLOB is unchanged, rolled back, or the connection is closed |
| MetadataDiff.UnescapeEscape | src/Objects/ObjectMetadataCodec.cpp:58-62 | escaping a reference token is undone by unescaping |
| MetadataDiff.EscapesAre | src/Objects/ObjectMetadataCodec.cpp:58-62 | a tilde becomes ~0, a slash ~1, and any other character stands for itself |
| MetadataDiff.EscapeJoins | src/Objects/ObjectMetadataCodec.cpp:58-62 | and escaping goes character by character |
| MetadataDiff.ParseRender | src/Objects/ObjectMetadataCodec.cpp:63-73 | a rendered pointer parses back to its keys |
| MetadataDiff.DiffPatches | src/Objects/ObjectMetadataCodec.cpp:63-73 | applying the changes to the document before gives the document after |
| MetadataDiff.PutSets | src/Objects/ObjectMetadataCodec.cpp:63-73 | applying a change sets the value at its pointer |
| MetadataDiff.PutKeeps | src/Objects/ObjectMetadataCodec.cpp:63-73 | and leaves the value at every pointer neither above nor below it |
| MetadataDiff.EmptyIffEqual | src/Objects/ObjectMetadataCodec.cpp:64 | nothing is reported exactly when the documents are equal |
| MetadataDiff.DiffReports | src/Objects/ObjectMetadataCodec.cpp:69-72 | every change states the two documents' own values at its pointer, and they differ |
| MetadataDiff.PointersPrefixFree | src/Objects/ObjectMetadataCodec.cpp:63-73 | no pointer of a diff lies at or below another |
| MetadataDiff.PutsCommute | src/Objects/ObjectMetadataCodec.cpp:63-73 | changes at such pointers can be applied in any order |
| MetadataDiff.DiffInverts | src/Objects/ObjectMetadataCodec.cpp:63-73 | the diff the other way is the same list with its values exchanged |
| MetadataDiff.PointerToken | src/Objects/ObjectMetadataCodec.cpp:58-62 | the loop escapes the token |
| MetadataDiff.Differences | src/Objects/ObjectMetadataCodec.cpp:63-73 | appends exactly the diff, each pointer rendered under the given path |
| MetadataDiff.MetadataChanges | src/Objects/ObjectMetadataCodec.cpp:111-115 | the reported pointers decode to prefix-free changes that lead from the first document to the second and back, an absent one counting as empty |
| Calendar.DayNumberOrders | Native/src/Core/Authorship.cpp:139-143 | day numbers are ordered as dates are, and only equal dates share one |
| Calendar.NextDay | Native/src/Core/Authorship.cpp:162-164 | the next date of the proleptic Gregorian calendar has the next number |
| Calendar.Gregorian | Native/src/Core/Authorship.cpp:162-164 | 400 years have 146097 days, 1970 begins 719528 days after year 0, and February has its leap day in every fourth year but three centuries of four |
| Calendar.CivilOfDate | Native/src/Core/Authorship.cpp:163-164 | converting a day number back to a date undoes the numbering |
| Timestamp.TimestampShape | Native/src/Core/Authorship.cpp:107-135 | the one-pass check accepts exactly the grammar: date, T, time, optional fraction of one to three digits, Z or offset |
| Timestamp.FractionCounts | Native/src/Core/Authorship.cpp:145-155 | one digit of a fraction counts tenths, two hundredths, three thousandths of a second |
| Timestamp.FormatReads | Native/src/Core/Authorship.cpp:136-174 | for a four-digit UTC year the printed text passes the check and denotes the instant it was printed from |
| Timestamp.YearBounds | Native/src/Core/Authorship.cpp:163-168 | bounds on an instant's day are bounds on its UTC year |
| Timestamp.CanonicalKeepsInstant | Native/src/Core/Authorship.cpp:136-174 | for such an input the canonical text denotes the same instant, passes the check and is its own canonical text |
| Timestamp.ShapeIffFourDigitYear | Native/src/Core/Authorship.cpp:165-173 | a printed instant passes the check exactly when its UTC year has four digits |
| Timestamp.CanonicalShape | Native/src/Core/Authorship.cpp:136-174 | so does the canonical text of any accepted input |
| Timestamp.YearBeforeZero | Native/src/Core/Authorship.cpp:157-173 | a family of accepted inputs whose canonical text fails the check: the first minute of year 0000, one minute east of UTC |
| Timestamp.FormatOrders | Native/src/Core/Authorship.cpp:640 | comparing canonical texts as strings is comparing instants |
| TimeOrder.GreaterTextEarlierTime | Native/src/Core/Authorship.cpp:640 | for all accepted times, the earlier one has the greater text exactly in those years |
| TimeOrder.AcceptedYears | Native/src/Core/Authorship.cpp:136-174 | the UTC year of an accepted time lies between -1 and 10000 |
| JsonText.ParsePrint | Native/src/Core/Authorship.cpp:701 | parsing undoes compact printing, for every document |
| JsonText.EscapesAre | Native/src/Core/Authorship.cpp:701 | the escapes are those of section 7 of RFC 8259, and a character that needs none stands for itself |
| JsonText.QuoteJoins | Native/src/Core/Authorship.cpp:701 | and a text is quoted character by character |
| LedgerHistory.RecordedWellFormed | Native/src/Core/Authorship.cpp:634-652 | recording a prepared change gives a well-formed ledger that extends the old one, as far as its text is within bounds |
| LedgerHistory.StampedAt | Native/src/Core/Authorship.cpp:643-649 | only the active author's record is stamped, and its first time only once |
| LedgerHistory.RegisteredAt | Native/src/Core/Authorship.cpp:662-674 | a known author keeps place and times, an unknown one is appended |
| LedgerReader.AcceptedIsWellFormed | Native/src/Core/Authorship.cpp:698-765 | whatever the reader accepts, of any schema, is a well-formed ledger without active author |
| LedgerReader.TimeBack | Native/src/Core/Authorship.cpp:175-190 | a stored time is read back exactly when it passes the shape check |
| LedgerReader.RoundTrip | Native/src/Core/Authorship.cpp:543-633 | reading a printed well-formed ledger gives it back without its active author exactly when all its times have four-digit years, and nothing otherwise |
| LedgerWriter.Quoted | Native/src/Core/Authorship.cpp:548-584 | the hand-written quoting is the library's |
| LedgerWriter.BuildText | Native/src/Core/Authorship.cpp:543-629 | the hand-assembled text is the library's compact text of the ledger's document, keys in order |
| Ledger.Authorship.Commit | Native/src/Core/Authorship.cpp:634-652 | a rejected change leaves the ledger as it was; an accepted one becomes the prepared state with revision, time and stamps |
| Ledger.Authorship.RecordChange | Native/src/Core/Authorship.cpp:634-652 | accepted exactly when the time is readable, the revision not exhausted and the text within bounds |
| Ledger.Authorship.SetLinks | Native/src/Core/Authorship.cpp:679-688 | rejected exactly for bad links or an unrecordable change, unchanged exactly for equal links |
| Ledger.Authorship.SetAuthor | Native/src/Core/Authorship.cpp:656-678 | unchanged exactly for the same profile and links, and then only the active author moves; rejected changes nothing |
| Ledger.Authorship.FromDump | Native/src/Core/Authorship.cpp:698-765 | the object read is exactly the specification reader's state, or none |
| Ledger.ValidateLinks | Native/src/Core/Authorship.cpp:452-462 | the validated links, distinct and within the limit, or none |
| Ledger.ReadDocument | Native/src/Core/Authorship.cpp:702-761 | the field-by-field reader is the specification reader, for schemas 1 to 3 |
| LedgerRuns.StepKeeps | Native/src/Core/Authorship.cpp:634-697 | every call keeps the ledger well-formed, never moves a first-change time, never lowers the revision or, as a text, a time, and only appends to the roster |
| LedgerEffects.RecordChangeStores | Native/src/Core/Authorship.cpp:634-652 | a recorded change raises the revision, moves the time to the later text, names the active author as the last, stamps only that author's record and keeps everything else |
| LedgerEffects.SetLinksStores | Native/src/Core/Authorship.cpp:679-688 | where setting links changes the ledger, the links are the given ones validated, and the rest is a recorded change |
| LedgerEffects.SetAuthorStores | Native/src/Core/Authorship.cpp:656-678 | where setting an author records a change, the links are the given ones, the author is active and last, its record holds the profile and the stamp, and every other record is kept |
| LedgerRuns.RunKeeps | Native/src/Core/Authorship.cpp:634-765 | every reachable ledger is well-formed, and if its change times stayed within four-digit years its text is accepted and gives it back without the active author |
| LedgerRuns.RunExtends | Native/src/Core/Authorship.cpp:634-697 | any later point of a run extends any earlier one, times compared as texts |
| LedgerTimes.TimelyRunKeepsInstants | Native/src/Core/Authorship.cpp:634-652 | along a run whose change times stay within four-digit years, no stored time ever goes back as an instant |
| LedgerTimes.GoesBackExactly | Native/src/Core/Authorship.cpp:640-641 | recording a change takes the ledger's time back exactly when the stored one lies in the year 10000 and the new one in the years 1001 to 9999 |
| LedgerTimes.PairGoesBack | Native/src/Core/Authorship.cpp:634-652 | two accepted changes after which the ledger's time is earlier than after the first |
| CatalogInvariants.AnnotatedAgrees | src/Catalog/FileCatalog.cpp:453-465 | after the side tables are rewritten they agree with the row's metadata, and only that file's rows changed |
| CatalogEffects.AnnotateStores | src/Catalog/FileCatalog.cpp:453-465 | annotating stores exactly the given metadata, in the row and in every side table, keeps the file's own columns and touches no other file |
| CatalogEffects.UpdateStores | src/Catalog/FileCatalog.cpp:630-640 | an edit stores the normalised metadata in row and side tables, raises the revision by one, keeps the file's own columns, marks it pending and touches no other file |
| CatalogEffects.RegisterStores | src/Catalog/FileCatalog.cpp:515-556 | a registration's row takes the file's own columns from disk and the metadata given, kept, or adopted from a companion at least as recent, whose memberships stand for collections of the same key or folded name; no other file is touched |
| CatalogEffects.CreateStores | src/Catalog/FileCatalog.cpp:688-692 | a created collection is a new key with the name; files, members and marks are kept |
| CatalogEffects.RenameStores | src/Catalog/FileCatalog.cpp:693-701 | a renamed collection has the new name, every file keeps its metadata, and exactly the members are raised and marked |
| CatalogEffects.RemoveStores | src/Catalog/FileCatalog.cpp:702-708 | a removed collection is gone from the metadata of its members, which are raised and marked, and nothing else of any file changes |
| CatalogEffects.RestoreMeans | src/Catalog/FileCatalog.cpp:499-514 | a companion's collection stands for the row with its key, else for one with its folded name, else for a new row |
| CatalogEffects.PublishStores | src/Catalog/FileCatalog.cpp:472-494 | a published companion names its file, path and revision and holds its metadata and its collections' names; no other companion, file or row changes |
| CatalogInvariants.UpdateKeeps | src/Catalog/FileCatalog.cpp:630-640 | an annotation edit keeps the catalog's invariant |
| CatalogInvariants.CreateKeeps | src/Catalog/FileCatalog.cpp:688-692 | so does creating a collection |
| CatalogInvariants.RenameKeeps | src/Catalog/FileCatalog.cpp:693-701 | so does renaming one, which marks every member pending |
| CatalogInvariants.RemoveKeeps | src/Catalog/FileCatalog.cpp:702-708 | so does removing one, with its memberships |
| CatalogInvariants.CompanionsNotNewer | src/Catalog/FileCatalog.cpp:472-494 | no companion belongs to an unknown file or to a later revision than its row's |
| CatalogRuns.RestoreGrows | src/Catalog/FileCatalog.cpp:499-514 | restoring a companion's collections only adds collection rows |
| CatalogRuns.RegisterKeeps | src/Catalog/FileCatalog.cpp:515-556 | registering a file, new, moved, adopted from its companion or kept, keeps the invariant |
| CatalogRuns.BatchRefused | src/Catalog/FileCatalog.cpp:562-571 | one refused request refuses the whole batch: no other outcome of it exists |
| CatalogRuns.BatchUnique | src/Catalog/FileCatalog.cpp:562-571 | a batch has at most one outcome |
| CatalogRuns.PublishKeeps | src/Catalog/FileCatalog.cpp:472-494 | publication keeps the invariant, also when it stops between rename and commit |
| CatalogRuns.PublishAgain | src/Catalog/FileCatalog.cpp:472-494 | publishing again after such a stop gives what the undisturbed publication gives |
| CatalogRuns.RunKeeps | src/Catalog/FileCatalog.cpp:472-571 | in every run, crashes included, a file not marked pending has on disk a companion equal to its current document, and the side tables agree |
| CatalogRuns.StepVersion | src/Catalog/FileCatalog.cpp:562-571 | the catalog revision never decreases, and a step that keeps it keeps every searched row |
| CatalogSearch.PathRangeIsBelow | src/Catalog/FileCatalog.cpp:666 | the range test on paths selects exactly the prefix itself and what starts with the prefix and a slash |
| CatalogSearch.SelectedIsMatching | src/Catalog/FileCatalog.cpp:663-674 | selecting by columns and side tables is matching by the stored metadata |
| CatalogSearch.Search | src/Catalog/FileCatalog.cpp:659-686 | a page is refused exactly for a bad limit or a stale or foreign cursor; it holds the first matches after the cursor and a next cursor exactly when more follow |
| CatalogSearch.SearchAll | src/Catalog/FileCatalog.cpp:659-686 | following the cursors gives every match exactly once, in ascending order |
| CatalogSearch.VersionDeterminesAnswers | src/Catalog/FileCatalog.cpp:661-662 | as long as the catalog revision stands, so does the answer to every filter |
| Catalog.FileCatalog.Publish | src/Catalog/FileCatalog.cpp:472-494 | refused exactly when file, version, companion or size forbid it; a crash leaves the file pending; success leaves the companion current |
| Catalog.FileCatalog.PublishMetadata | src/Catalog/FileCatalog.cpp:733-737 | refuses exactly a limit of 0 or above the page maximum; otherwise publishes the first pending files in order, up to the first failure, and changes nothing else |
| Catalog.FileCatalog.UpdateMetadata | src/Catalog/FileCatalog.cpp:630-640 | succeeds exactly as the specification says, or changes nothing |
| Catalog.FileCatalog.CreateCollection | src/Catalog/FileCatalog.cpp:688-692 | succeeds exactly below the limit with a new folded name |
| Catalog.FileCatalog.RenameCollection | src/Catalog/FileCatalog.cpp:693-701 | succeeds exactly as the specification says, or changes nothing |
| Catalog.FileCatalog.RemoveCollection | src/Catalog/FileCatalog.cpp:702-708 | succeeds exactly for a known collection, or changes nothing; publication follows as its own call |
| Catalog.FileCatalog.RegisterFiles | src/Catalog/FileCatalog.cpp:562-571 | all requests or none, one new revision if anything was written, refused exactly when no outcome exists |
| Catalog.Registration | src/Catalog/FileCatalog.cpp:515-556 | the registration relation's outcome, refused exactly when it has none |
| Catalog.WriteAnnotations | src/Catalog/FileCatalog.cpp:453-465 | the loops over keywords, fields and members give the annotated tables, or nothing for unknown collections or an oversized companion |
| LockProtocol.InvIsSafe | Compatibility/src/Compatibility.cpp:182-231 | the protocol's invariant means at most one live owner, whose guard is still at the path |
| LockProtocol.StepKeeps | Compatibility/src/Compatibility.cpp:112-231 | every system call of every process, and every exit, keeps the invariant unless a creator finds its fresh guard locked |
| LockProtocol.RunIsSafe | Compatibility/src/Compatibility.cpp:112-231 | no run without such a lost lock gives two live processes the guard or takes a live one's away |
| LockProtocol.RemovesNobodys | Compatibility/src/Compatibility.cpp:157-180 | whoever unlinks the path removes no live owner's guard |
| LockProtocol.LockedAtOnceIsSafe | Compatibility/src/Compatibility.cpp:201-214 | if every creation is followed at once by its creator's lock, no lock is lost and the run is safe |
| LockProtocol.LostLockAlwaysBreaks | Compatibility/src/Compatibility.cpp:201-214 | from every reachable state, a lost lock can be continued, losing no further lock, to two live owners |
| LockProtocol.ExactlyLostLocksBreak | Compatibility/src/Compatibility.cpp:201-214 | an event can be continued to two live owners without losing a lock afterwards exactly when it loses a lock itself |
| LockProtocol.LostLockBreaksExclusion | Compatibility/src/Compatibility.cpp:182-231 | such a run exists from the start |
| LockProtocol.Recovers | Compatibility/src/Compatibility.cpp:112-147 | an undisturbed attempt removes a dead owner's unlocked guard and creates its own |
| WorkerQueue.StepStructured | Native/src/Presentation/Presentation.cpp:591-650 | after every critical section the queued set is exactly the queue, without duplicates and within 4096, and activity matches the worker's phase |
| WorkerQueue.RunKeeps | Native/src/Presentation/Presentation.cpp:591-650 | every reachable state is structured and honours its log of promises |
| WorkerQueue.ExitSettlesAll | Native/src/Presentation/Presentation.cpp:593-599 | the worker exits only with an empty queue, every accepted path prepared or cancelled after it was accepted |
| WorkerQueue.MovesForward | Native/src/Presentation/Presentation.cpp:594-598 | a queued path never moves back, and each taking brings it forward |
| WorkerQueue.QueuedIsSettled | Native/src/Presentation/Presentation.cpp:594-598 | in every continuation with more takings than paths in front, a queued path has been taken or cancelled |
| WorkerQueue.WorkerCanTake | Native/src/Presentation/Presentation.cpp:591-598 | while anything is queued the worker can finish its job or take the next |
| WorkerQueue.CancelIsClean | Native/src/Presentation/Presentation.cpp:628-641 | in a run without a slice in progress that could reach below the cancelled root, without a watch above it (unless the worker stops) and without a related one set later, whatever is prepared below the root is taken from the queue and was asked for after the cancellation |
| WorkerQueue.TakenAfterCancel | Native/src/Presentation/Presentation.cpp:594-641 | whatever is taken from the queue below a cancelled root was promised after the cancellation |
| WorkerQueue.ScansBelowExactly | Native/src/Presentation/Presentation.cpp:550-614 | from any reachable state, a path below a root can be prepared unasked, with no related watch set, exactly when a slice in progress may still reach it or the worker is not stopping and a related watch stands |
| WorkerQueue.ScansBelowAtAll | Native/src/Presentation/Presentation.cpp:550-614 | if watches may be set, exactly when the worker is not stopping or a slice in progress may still reach it |
| WorkerQueue.AfterCancelled | Native/src/Presentation/Presentation.cpp:628-640 | between a cancellation and its return: exactly with such a slice in progress, or with a watch strictly above the root and no stop |
| WorkerQueue.AfterCancelReturned | Native/src/Presentation/Presentation.cpp:628-641 | after its return, if no related watch was set meanwhile: exactly with a watch strictly above the root and no stop |
| WorkerQueue.SetAgainScans | Native/src/Presentation/Presentation.cpp:642-649 | setting a watch at, above or below the root makes it possible again |
| WorkerQueue.ScannedAfterReturn | Native/src/Presentation/Presentation.cpp:579-583 | a run: the watch above survives the cancellation of a branch, and its slice prepares below it after the return |
| WorkerQueue.ScannedWhileCancelling | Native/src/Presentation/Presentation.cpp:579-583 | a run: a slice under way when its own root is cancelled still prepares its file |
| WorkerQueue.CancelReturnsClear | Native/src/Presentation/Presentation.cpp:639-640 | a cancellation returns only with nothing active under its root or above it |
| WorkerQueue.Worker.Add | Native/src/Presentation/Presentation.cpp:619-626 | refuses only when stopping, waits only at capacity, and otherwise queues a path once |
| WorkerQueue.Worker.Turn | Native/src/Presentation/Presentation.cpp:593-613 | takes the front first, exits only when stopping with an empty queue, scans only a due root |
| WorkerQueue.Worker.PrepareScanned | Native/src/Presentation/Presentation.cpp:579-583 | a slice prepares one file in its tree, asked for by nobody, and no second one |
| WorkerQueue.Worker.Cancel | Native/src/Presentation/Presentation.cpp:628-639 | drops the queued paths and watches under the root before it waits |
| WorkerQueue.Worker.EraseQueued | Native/src/Presentation/Presentation.cpp:633-635 | the erasing loop removes exactly the paths under the root, from queue and set, in order |
| WorkerQueue.Worker.Stop | Native/src/Presentation/Presentation.cpp:618 | only marks the worker as stopping |
| BatchWorkers.CheckSizes | src/Objects/ObjectBatchRead.cpp:12-25 | passes exactly for 1 to the maximum number of files whose sizes sum to at most 16 MiB |
| BatchWorkers.RunKeeps | src/Objects/ObjectBatchRead.cpp:28-60 | the invariant of claims, filled items and errors holds in every interleaving |
| BatchWorkers.ClaimedOnce | src/Objects/ObjectBatchRead.cpp:34-37 | at every later point of a run a claim stands, only its claimer works on the index, and no later claim is of it |
| BatchWorkers.JoinedIsComplete | src/Objects/ObjectBatchRead.cpp:61-64 | after the join without an error every item is filled, within 16 MiB in all |
| BatchWorkers.EverySlotOnce | src/Objects/ObjectSnapshotBatch.cpp:55-70 | once the caller and all started cleaners are drained every source was reset exactly once, however many could be started |

## Left out

- The SQLite engine, its pragmas, locking and migrations: schema 5 and record format 2 only; a transaction is all or nothing, except in `BlobRanges`, where every statement may fault.
- Collision resistance and the text of validation keys: in the store the digest and the key are arbitrary functions, and a chunk whose digest names other bytes is the failure case `Collision`.
- JSON beyond compact text with natural numbers: white space, fractions, negative numbers and `\u` escapes at or above the surrogates. Ontology documents are structured values with a size function.
- Unicode normalisation, folding, and profile and URL validation: functions with idempotence laws. The ledger keeps a profile as a tree where the source keeps its canonical text.
- Real numbers as 64-bit floats: `RealValue` holds a `real`, so non-finite values do not occur. Revisions and sizes are natural numbers with the source's limits where it tests them.
- OntologyFileSystem.FileSystem.Apply: cancellation is an oracle polled at the source's check points; where it fires the batch fails and nothing changes, but when the engine polls it is not modelled.
- Ontology listings other than files (`classes`, `statements`, `directories`, `journal` pages), and decoding node keys back in a traversal's result.
- OntologyFileSystem.FileSystem.ValidateDirectories: a stored query's text limits were checked when it was saved and are not checked again.
- Capturing a source file: `ObjectSource`, its identity checks, cancellation, and text limits of sessions, devices and stamps; the content arrives as bytes.
- ObjectStore.Package.ImportFile: a batch of files in one transaction, with its metadata budget, is not modelled; one file is.
- ObjectStore.Package.Extract: writes bytes to a result, not to a staged file that is linked into place.
- ObjectHash on Apple platforms, and its own order of additions: both portable hashers share one `Transform`, addition modulo 2^32 being associative. Messages are whole bytes, so the bit padding of FIPS 180-4 is only needed for those.
- BlobRanges.Connection.CompareExchange: identifier checks, the limit derived from the size of a range record in memory and null data pointers; savepoints of the caller's own are excluded by `saved == None`.
- The Qt twin of the ledger (`src/Identity/Authorship.cpp`) is modelled only through the native ledger: it compares date objects where the native one compares their canonical texts, which `Timestamp.FormatOrders` shows to be the same.
- Ledger.Authorship.SetLinks: parsing links from strings is not part of the model.
- Catalog.FileCatalog.RegisterFiles: the limits on a batch's count and bytes and the test for duplicate paths; new keys come with the request.
- Catalog.FileCatalog.PublishMetadata: staging or renaming may fail at any time, so it promises nothing about how far it gets.
- The catalog's `createFile` and `importFile` (a file change, a registration and a publication in the model), saved filters, file reads, and the pending flag in search results, which may change under the same catalog revision. Full-text matching is a function of the stored text. Companions are written by the catalog only.
- LockProtocol.RunIsSafe: the guard's Windows branch; one output path; reading the owner and asking for its process is one step; text that is not a complete owner is unreadable; `flock` fails only when another holds the lock; every process uses `flock`.
- WorkerQueue.RunKeeps: what a scan finds and how long threads wait are left open, paths are normalised and absolute, and `idle` is not modelled.
- BatchWorkers.JoinedIsComplete: reading and checking one file is one step that fills the item or records an error.

# Verified model of rusqdoltlite

rusqdoltlite is a Rust layer over SQLite, DoltLite and the block-cache VFS for cloud storage. This
project models the parts of it where correctness rests on protocols, ownership and text formats,
and proves what they promise.

* **Session publication** (`SessionProtocol`, `SessionTheorems`, `SessionProgress`,
  `SessionCleanup`, `ServerDriver`). Any number of servers share one session head and one manifest. The state machine
  has one step per storage action, and cleanup may expire the head between any two of them. The
  class `RemoteServer` is the driver, proved to take only allowed steps while other servers
  interleave with it at every call.
* **Savepoint and transaction guards** (`SqlText`, `Savepoints`, `SavepointTheorems`). Guards
  print SQL, a reader of SQLite's grammar for these commands reads it back, and the connection
  keeps a stack of snapshots.
* **Cloud VFS resources** (`VfsLog`, `VfsLifecycle`, `VfsOpen`). Every native call is logged and
  may fail; the log says which handles and callback contexts are alive and what is still held.
* **Codecs and normal forms** (`PercentCodec`, `CloudUri`, `CloudUriTheorems`, `CloudUriMeaning`,
  `CloudUriGrammar`, `Selector`, `SelectorTheorems`, `SelectorMeaning`, `Layout`, `Framing`). Texts
  are byte strings; UTF-8 validity and IPv6 syntax are parameters. Parsers are proved against what
  their texts mean, in both directions.
* **Statement cache, batches, interrupts, container creation, progress** (`StatementCache`,
  `StatementCacheRuns`, `Batch`, `Interrupt`, `ContainerRace`, `Progress`).

Foreign code, storage answers and the choices of other threads are arbitrary values. Where the
order of events matters they are steps of a transition system, and the results hold for every
sequence of steps.

Some results differ from what the documentation of the code suggests:

* Publishing an accepted operation publishes the session head found at that time, which may already
  hold later operations (`RemoteServer.PublishAccepted`).
* The native accept, with its compare-and-swap, its duplicate reconciliation and its history check,
  does not by itself keep an operation from being accepted twice; the status check before it does.
  `AcceptAloneIsNotEnough` gives the exact condition and `UncheckedAcceptDuplicates` a run.
* Cleanup deletes expired heads, and a session without a head remembers nothing: an accepted
  operation is reported New again exactly when its head was deleted (`NewAgainIffSwept`).
* A publisher that outlives its session can publish after the deletion, or commit the head of the
  next life, which was never published (`DeletedSessionPublishes`, `LatePublisherBreaks`). Every
  continuation keeps one chain published at most once exactly when no publisher has written its
  manifest without committing, or holds a claim that is visible or computed from the current
  version (`SweepStartsAfresh`).
* SQL that rolls its transaction back by itself, such as INSERT OR ROLLBACK, takes every guard's
  savepoint with it. A commit or rollback of the transaction guard then fails with no violations
  outstanding (`SelfRollbackFailsCommit`); `TransactionEnds` says exactly when each succeeds.
* One more trailing slash on an accepted prefix is not always accepted: the empty prefix is, a lone
  slash is not. `TrailingSlash` gives the exact condition.
* A savepoint can be opened under the name `savepoint` in any letter case, but the grammar cannot
  read the RELEASE or ROLLBACK TO of that name. A bare word that SQLite reserves is not readable
  either, and a leading U+FEFF of a bare name is skipped by the tokenizer. `ReadsBackExactly` says
  exactly when name and command come back.
* `finish` on a guard finishes twice, the second time in the destructor.
* A guard restores the stack exactly if no savepoint left open inside it has its name:
  `GuardRestoresExactly` proves both directions, `IgnoredTwinBreaksTheGuard` shows the failure.
* Dropping cloud resources after a successful close closes them once more, with a null handle.

## Model

| member | source | states |
|---|---|---|
| SessionTheorems.OperationsFormOneChain | src/blockcachevfs.rs:913-936 | In every run the claims of the head form one chain: each was conditioned on the ETag of the head before it and holds that head's operations and its own; no operation occurs twice |
| SessionTheorems.RunKeepsInv | src/remote_server.rs:1183-1218 | The protocol invariant (chain, ETags, manifest, what each server knows) holds after every sequence of steps of any servers and any expiry of the head |
| SessionTheorems.RunExtends | src/blockcachevfs.rs:913-936 | Later states only extend the accepted chain, and not at all behind a head that crossed the publication fence or expired |
| SessionTheorems.AcceptedIsNeverNewAgain | src/blockcachevfs.rs:772-788 | Once accepted, an operation is never reported New to any server while its head exists |
| SessionProgress.StatusMeans | libdoltlite-sys/patches/blockcachevfs/0013-streaming-and-serverless.patch:13068-13210 | In every reachable state each status is given exactly when it is true: Committed when the head is this operation's, was committed and its manifest is visible, Accepted when it is not committed yet, Failed when it expired, Conflict when another operation's head is sealed, has moved on or already holds this one, New when the session does not hold it and may be extended |
| SessionProgress.AttachesCurrent | libdoltlite-sys/patches/blockcachevfs/0013-streaming-and-serverless.patch:8458-8528 | A server that attaches sees the current head, and its operation is New exactly when the session does not hold it and publication has not begun |
| SessionProgress.AcceptsAlone | src/remote_server.rs:1183-1218 | Left alone, a New operation is accepted on top of the session exactly when the head is still the one seen when attaching; then its status is Accepted |
| SessionProgress.FinalizesAlone | src/blockcachevfs.rs:957-976 | Left alone, a New operation on the current head is published: one more manifest, with exactly the session's operations, and status Committed |
| SessionProgress.PublishesAlone | src/blockcachevfs.rs:938-955 | Left alone, an accepted operation ends Committed exactly when it was, or its checkpoint is the current manifest or was computed from it |
| SessionCleanup.NewAgainIffSwept | libdoltlite-sys/patches/blockcachevfs/0013-streaming-and-serverless.patch:2766-2800 | An accepted operation is reported New again, to some server at some time, exactly when cleanup deleted the head |
| SessionCleanup.ExtendedIffNotSwept | src/blockcachevfs.rs:1621-1626 | Accepted history is only extended, at every time, exactly when the head is not deleted |
| SessionCleanup.SweepStartsAfresh | libdoltlite-sys/patches/blockcachevfs/0013-streaming-and-serverless.patch:2766-2800 | After an expired head is deleted, every continuation is one chain published at most once exactly when no publisher has written without committing, or has claimed a candidate that is visible or computed from the current version |
| SessionCleanup.LatePublisherBreaks | libdoltlite-sys/patches/blockcachevfs/0013-streaming-and-serverless.patch:11604-11613 | From any state with such a publisher some continuation publishes a session that is gone, or commits a head that was never published |
| SessionCleanup.DeletedSessionPublishes | libdoltlite-sys/patches/blockcachevfs/0013-streaming-and-serverless.patch:2766-2800 | A run in which the head expires and is deleted under a publisher, which then writes its manifest |
| SessionCleanup.MovesKeepInv | libdoltlite-sys/patches/blockcachevfs/0013-streaming-and-serverless.patch:1818-1868 | The invariant over any steps and expiries and all deletions that meet that condition |
| SessionCleanup.EachLife | src/blockcachevfs.rs:1621-1626 | Over such moves every life of a session is one chain, published at most once |
| SessionCleanup.OnlyExpiredForgotten | libdoltlite-sys/patches/blockcachevfs/0013-streaming-and-serverless.patch:2766-2800 | Only the deletion of an expired head takes operations out of a session, and it leaves servers and published contents alone |
| SessionTheorems.PublicationSealsTheSession | src/blockcachevfs.rs:938-941 | Once the head was Publishing or Committed no run adds an operation, not even after the head expired |
| SessionTheorems.PublishedOnceAndNothingLost | libdoltlite-sys/patches/blockcachevfs/0013-streaming-and-serverless.patch:10755-11685 | Whenever the head expires, a session writes the manifest at most once, with exactly its accepted operations, over exactly the version its checkpoint was computed from; every manifest replaces the version before it |
| SessionTheorems.FinalizeNeverExposesAccepted | src/remote_server.rs:1310-1356 | A head claimed by finalize is never Accepted, in any continuation |
| SessionTheorems.CompareAndSwapDistinct | src/blockcachevfs.rs:913-936 | The bare compare-and-swap keeps operations distinct exactly when this one is not in the session yet |
| SessionTheorems.AcceptAloneIsNotEnough | libdoltlite-sys/patches/blockcachevfs/0013-streaming-and-serverless.patch:12720-12890 | The native accept without the status check keeps operations distinct exactly unless it applies on a head of the same operation |
| SessionTheorems.AcceptRefuses | libdoltlite-sys/patches/blockcachevfs/0013-streaming-and-serverless.patch:12720-12890 | Whoever calls it, the native accept adds at most one claim, never over a changed manifest, a moved head or one another operation is publishing |
| SessionTheorems.UncheckedAcceptDuplicates | src/remote_server.rs:1193-1211 | A reachable state in which an unchecked accept claims the same operation twice |
| ServerDriver.CompletionKeepsManifest | src/remote_server.rs:1231-1241 | The steps request completion may take never change the manifest |
| ServerDriver.RemoteServer.Quiesce | src/remote_server.rs:1152-1161 | Workers are stopped whatever happens; success means the owned SQL handle is closed; repeating it is harmless |
| ServerDriver.RemoteServer.OperationStatus | src/remote_server.rs:1279-1287 | Answers at any time, amid other servers' steps; what the answer means held at some moment of the call; Accepted or Committed means the operation is in the chain; an error without a session; accepted history is only extended |
| ServerDriver.RemoteServer.Checkpoint | src/blockcachevfs.rs:886-911 | Takes only steps that leave head and manifest alone |
| ServerDriver.RemoteServer.Accept | src/blockcachevfs.rs:913-936 | Reports success only if the operation is in the chain; takes only completion steps |
| ServerDriver.RemoteServer.CompleteRequest | src/remote_server.rs:1183-1218 | Every session call is made with workers stopped and the SQL handle closed; success means accepted; only completion steps are taken; without a session it fails and does nothing. An operation found Accepted or Committed succeeds without another call, a New one succeeds exactly when checkpoint and accept do, anything else fails |
| ServerDriver.RemoteServer.StageRequest | src/remote_server.rs:1242-1260 | The same, restricted to session-owned cloud connections |
| ServerDriver.RemoteServer.Finalize | src/blockcachevfs.rs:957-976 | Success means published with this operation; never takes an accept step |
| ServerDriver.RemoteServer.PublishAccepted | src/blockcachevfs.rs:938-955 | Success means the head, which contains this operation, is committed and visible |
| ServerDriver.RemoteServer.Upload | src/remote_server.rs:1329-1356 | A New operation is finalized, an Accepted or Committed one goes to the fenced publisher, and the result is that of this call; anything else fails; never takes an accept step; success on a session means its operations are published |
| ServerDriver.RemoteServer.Drop | src/remote_server.rs:1398-1408 | Stops workers and gives up the attachment; its only protocol step is a detach |
| ServerDriver.RemoteServer.StartSession | src/remote_server.rs:1042-1076 | A server starts only if its operation does not conflict; a refused start leaves no attachment behind |
| SqlText.CheckIdentifier | src/pragma.rs:287-299 | The character loop decides exactly the bare-identifier predicate |
| SqlText.Sql.WrapAndEscape | src/pragma.rs:134-145 | Appends the quoted text with each quote doubled |
| SqlText.Sql.PushIdentifier | src/pragma.rs:62-68 | Appends the name bare or quoted |
| SqlText.Cmd | src/transaction.rs:359-369 | Builds exactly the printed command |
| SqlText.OneNameToken | src/pragma.rs:134-145 | A printed command lexes to its keywords and exactly one token that decodes to the name, exactly when the stated condition on the name holds |
| SqlText.PrintThenRead | src/transaction.rs:359-369 | Reading what was printed gives the stated result for every command and every name |
| SqlText.ReadsBackExactly | src/pragma.rs:62-68 | Command and name come back exactly when the stated condition on the name holds |
| SqlText.PrintInjective | src/transaction.rs:359-369 | Different commands or names print differently |
| Savepoints.ExecutePrinted | src/transaction.rs:314-331 | Running printed text is performing the command it was printed from |
| Savepoints.SavepointGuard.WithName | src/transaction.rs:252-261 | Creates the guard exactly when the SAVEPOINT succeeds |
| Savepoints.SavepointGuard.Release | src/transaction.rs:314-319 | RELEASE of the guard's name; committed only on success |
| Savepoints.SavepointGuard.FinishOnce | src/transaction.rs:344-356 | Commit with fallback, roll back and release, or nothing, by drop behaviour |
| Savepoints.SavepointGuard.End | src/transaction.rs:309-386 | Commit, finish or drop, each followed by the destructor |
| Savepoints.TransactionGuard.NewUnchecked | src/transaction.rs:117-130 | Begins a transaction, in any mode, or fails if one is open |
| Savepoints.TransactionGuard.FinishOnce | src/transaction.rs:220-230 | Nothing in autocommit; otherwise by drop behaviour |
| Savepoints.TransactionGuard.End | src/transaction.rs:187-247 | Commit, roll back, finish or drop, each followed by the destructor |
| SavepointTheorems.GuardEnds | src/transaction.rs:344-356 | Ended with Commit or Rollback behaviour, a guard leaves the exact stack from before it, also when the outermost RELEASE fails on deferred constraints |
| SavepointTheorems.UndoRestores | src/transaction.rs:328-331 | A rollback of a guard restores its snapshot and leaves the guard open |
| SavepointTheorems.IgnoredGuardEnds | src/transaction.rs:344-356 | With Ignore a guard ends only by a commit that is allowed |
| SavepointTheorems.GuardRestoresExactly | src/transaction.rs:314-356 | The stack is restored if and only if the name can be released and no savepoint left above has it |
| SavepointTheorems.ProgramKeeps | src/transaction.rs:252-356 | For any nesting of guards with any names, refused ones included: only savepoints of guards dropped with Ignore, or whose RELEASE cannot be read, remain on the stack, or, if a statement rolled back by itself, nothing of the transaction around them is left |
| SavepointTheorems.ScopeKeeps | src/transaction.rs:252-356 | A guard whose SAVEPOINT is refused changes nothing; any other, around a well-scoped program without such a statement, leaves the stack as before, with the contents of its end if it is to commit and may and of its creation otherwise, or its savepoint if it cannot or will not release it; with such a statement the transaction around it is gone |
| SavepointTheorems.LostGuardEnds | src/transaction.rs:344-356 | A guard whose savepoint is gone changes nothing and reports an error when ended by a call |
| SavepointTheorems.IgnoredTwinBreaksTheGuard | src/transaction.rs:344-356 | With an ignored guard of the same name inside, the outer guard always stays open |
| SavepointTheorems.StillBegunIff | src/transaction.rs:220-230 | A begun transaction is still open after any program exactly when no statement rolled back by itself |
| SavepointTheorems.TransactionEnds | src/transaction.rs:187-247 | After a transaction guard around any program, autocommit is on and no savepoint is left; commit succeeds exactly with a transaction open and no violations, rollback exactly with one open; dropped or finished, the contents are those at the end if it is to commit and may, otherwise those at its start, and with Ignore nothing changes |
| SavepointTheorems.SelfRollbackFailsCommit | src/transaction.rs:187-206 | After a statement that rolls back by itself, commit and rollback fail with no violations outstanding |
| PercentCodec.PercentEncode | src/blockcachevfs.rs:2713-2729 | The encoding loop equals the recursive definition |
| PercentCodec.DecodeComponent | src/blockcachevfs.rs:2662-2686 | The decoding loop equals the recursive definition, broken escapes included |
| PercentCodec.DecodeIff | src/blockcachevfs.rs:2662-2686 | A text decodes to these bytes exactly when it spells each as itself, as `+` for a space, or as an escape in either letter case; any other text is refused |
| PercentCodec.DecodeEncode | src/blockcachevfs.rs:2662-2729 | Decoding undoes encoding for every byte string |
| PercentCodec.EncodedChars | src/blockcachevfs.rs:2713-2729 | Encoded text holds unreserved characters and escapes only |
| CloudUri.CollectOptions | src/blockcachevfs.rs:2354-2365 | The option loop: decoded pairs, duplicates refused |
| CloudUri.Parse | src/blockcachevfs.rs:2326-2480 | The parser, with every error exit |
| CloudUri.Gcs | src/blockcachevfs.rs:2502-2523 | Prints the encoded arguments and parses the result |
| CloudUriTheorems.PairsReadBack | src/blockcachevfs.rs:2354-2365 | Any printed query of distinct keys reads back as exactly those pairs |
| CloudUriTheorems.BucketSurvives | src/blockcachevfs.rs:2343-2351 | A bucket that is encoded but never decoded is accepted exactly when it was valid, and then unchanged |
| CloudUriTheorems.GcsRoundTrip | src/blockcachevfs.rs:2502-2523 | Printing and parsing yields the arguments byte for byte if each passes its validator, and an error in every other case |
| CloudUriTheorems.ParsedIsValid | src/blockcachevfs.rs:2326-2480 | Whatever URI is accepted, of either provider, every part is valid; an S3 secret splits back into key and session token, and all of them are listed for redaction |
| CloudUriMeaning.AcceptedIff | src/blockcachevfs.rs:2326-2480 | A text is accepted as a given connection exactly when it has no fragment, one of the two schemes, and decoded parts that say so: each credential under its own key, an S3 secret with its session token, the numbers that the decimal texts denote, known options only |
| CloudUriMeaning.UriRoundTrip | src/blockcachevfs.rs:2326-2480 | A printed URI of either provider, with any options in any order, is parsed as exactly what was printed, or refused if that is no valid connection |
| CloudUriMeaning.OptionsIff | src/blockcachevfs.rs:2354-2365 | A query has exactly the options that its parameters, empty ones aside, decode to, with distinct keys |
| CloudUriMeaning.ConcurrencyIff | src/blockcachevfs.rs:2587-2611 | The decimal texts of 1 to 2^31 - 1, with any leading zeros, and no others |
| CloudUriMeaning.BlockSizeIff | src/blockcachevfs.rs:2373-2387 | The decimal texts of the powers of two from 32 KiB that fit 31 bits, and no others |
| CloudUriGrammar.EndpointIff | src/blockcachevfs.rs:2761-2804 | An endpoint is accepted exactly when it is a scheme, a host name or bracketed IPv6 address, perhaps a port, and a path, of allowed characters |
| CloudUriGrammar.PrefixIff | src/blockcachevfs.rs:2688-2711 | A prefix is accepted exactly when it is empty, or good segments joined by slashes with at most one more slash |
| CloudUriTheorems.IdentityIgnoresOnlyCredentials | src/blockcachevfs.rs:2534-2550 | Any two accepted URIs of either provider have the same identity iff their decoded scheme, bucket, prefix and all options except credentials and block size agree, in any order |
| CloudUriTheorems.IdentityIgnoresOnlyTheToken | src/blockcachevfs.rs:2534-2550 | Two printed GCS URIs have the same identity iff their arguments differ at most in the access token |
| CloudUriTheorems.UriInjective | src/blockcachevfs.rs:2510-2521 | Only the arguments themselves print the URI of valid arguments |
| Selector.CanonicalStorageProvider | src/blockcachevfs.rs:388-434 | The shortcut for unchanged text equals always rebuilding the selector |
| Selector.ReadS3 | src/blockcachevfs.rs:449-485 | The S3 loop: each parameter fills an empty slot or is an error |
| Selector.ReadGoogle | src/blockcachevfs.rs:493-520 | The Google loop, with its JSON flag |
| Selector.CanonicalSessionStorageProvider | src/blockcachevfs.rs:443-535 | The session selector, with every refusal |
| SelectorTheorems.CanonicalIdempotent | src/blockcachevfs.rs:388-434 | The attachment spelling is a normal form |
| SelectorMeaning.AttachmentTextIff | src/blockcachevfs.rs:388-434 | A selector of one of the two modules becomes exactly its module in lower case with each parameter in place, keys in lower case and endpoints without trailing slashes; an empty endpoint is the only reason to refuse; other selectors stay as they are |
| SelectorTheorems.AcceptedWhenDenoting | src/blockcachevfs.rs:443-535 | A selector whose parameters are, in any order and key case, those of a meaning is accepted and printed from that meaning |
| SelectorTheorems.DenotesWhenAccepted | src/blockcachevfs.rs:443-535 | Only such selectors are accepted |
| SelectorTheorems.SessionIdempotent | src/blockcachevfs.rs:443-535 | The session spelling is a normal form and accepts its own output |
| SelectorMeaning.SessionTextIff | src/blockcachevfs.rs:443-535 | A selector is accepted, and as a given text, exactly when it addresses a region or the JSON API, and perhaps an endpoint, of which this is the text |
| SelectorTheorems.SameTextIffSameMeaning | src/blockcachevfs.rs:436-443 | Two selectors are accepted with the same text iff provider, region and endpoint up to trailing slashes agree |
| SelectorTheorems.TrimEqual | src/blockcachevfs.rs:408-415 | Endpoints agree after trimming iff one is the other with slashes appended |
| SelectorTheorems.OrderIrrelevant | src/blockcachevfs.rs:457-480 | Reordering parameters or changing the module's letter case changes nothing |
| Layout.SessionIdAccepts | src/blockcachevfs.rs:668-684 | Accepts exactly the non-nil UUID texts in any letter case; the result is a normal form |
| Layout.UuidIff | src/blockcachevfs.rs:1003-1017 | These are five groups of 8, 4, 4, 4 and 12 hexadecimal digits, not all zero, joined by hyphens |
| Layout.KeysApart | src/blockcachevfs.rs:1968-1989 | No key of a session is a prefix of another, nor of a key of another session |
| Layout.TrailingSlash | src/blockcachevfs.rs:2688-2711 | One more trailing slash makes no difference exactly when the prefix is refused anyway, or is not empty and has none yet |
| Layout.EmptyPrefixSlashed | src/blockcachevfs.rs:2688-2711 | The empty prefix is accepted and a lone slash is not |
| Layout.KeySegments | src/blockcachevfs.rs:1968-1989 | Each key is the segments of the prefix and then its own, none empty, `.` or `..`; exactly the directory keys end in a slash |
| Framing.FromRequest | src/blockcachevfs.rs:720-728 | The hasher is fed exactly the frame |
| Framing.DigitAt | src/blockcachevfs.rs:724 | Lengths are written most significant byte first |
| Framing.TagSpelled | src/blockcachevfs.rs:722 | The tag is the version text and a zero byte |
| Framing.UnframeFields | src/blockcachevfs.rs:723-726 | Any number of framed fields below 2^64 bytes reads back exactly |
| Framing.FrameInjective | src/blockcachevfs.rs:720-728 | The hashed bytes determine method, target and body |
| VfsLog.FreedIsOutOfReach | src/blockcachevfs.rs:1320-1339 | In a safe log, a freed callback context is never again within reach of native code |
| VfsLog.DestroyedIsNeverPassed | src/blockcachevfs.rs:1780-1790 | No call of any kind passes a VFS whose destruction succeeded |
| VfsLog.HeldCounts | src/blockcachevfs.rs:2092-2313 | Everything acquired is held or has had exactly one release attempt; destroying a null handle again changes nothing |
| VfsLog.RemovedAfterTeardown | src/blockcachevfs.rs:2852-2858 | The directory is removed only after VFS teardown was attempted |
| VfsLog.DestroyedAfterClients | src/blockcachevfs.rs:2249-2303 | The VFS is torn down only after attachments and database handles were let go |
| VfsLifecycle.BlockCacheVfs.DestroyOrLeak | src/blockcachevfs.rs:2996-3005 | One destroy attempt; the context is freed iff it worked and leaked otherwise |
| VfsLifecycle.BlockCacheVfs.Build | src/blockcachevfs.rs:1217-1303 | Every error exit tears the VFS down once; success yields a live VFS whose context only it knows, with exactly the wanted callbacks registered and settings applied; failure means something was refused |
| VfsLifecycle.BlockCacheVfs.Drop | src/blockcachevfs.rs:1320-1339 | The last owner destroys; the context is settled |
| VfsLifecycle.ConnectionVfs.Close | src/blockcachevfs.rs:1766-1791 | Success is exactly: session released, detached, destroyed, context freed, directory removed; a failure stops at the failed detach, the shared VFS or the failed destroy, frees and removes nothing, and can be retried; after any number of tries success means that a detach succeeded, if the connection began attached, and the destroy did |
| VfsLifecycle.FirstCloseHoldsNothing | src/blockcachevfs.rs:1766-1791 | What an open connection holds is all let go, in order, by a close that succeeds at once, and stays so when the null handle is destroyed again |
| VfsLifecycle.ConnectionVfs.Drop | src/blockcachevfs.rs:1799-1817 | Closes again, falls back to destroying, gives up the share; the context is settled once nobody shares the VFS. The directory goes only after a destroy that succeeded; the last owner leaves it only after a failed fallback and one more destroy, and with other owners nothing is removed |
| VfsOpen.Bootstrap | src/blockcachevfs.rs:2020-2090 | The bootstrap attachment has exactly one detach attempt |
| VfsOpen.Abandon | src/blockcachevfs.rs:2249-2303 | A failed open lets go of each holding, in order |
| VfsOpen.Open | src/blockcachevfs.rs:2092-2313 | On every failure nothing is held and something was refused; on success exactly what the connection owns is held; without permission to create nothing is created, and success means the database was found |
| VfsOpen.CloudConnection.Close | src/lib.rs:950-968 | A failed SQLite close leaves its handle open and nothing else is done; when it closes, that comes first; a failed cloud close removes nothing and leaves the resources for another try; success means the directory was removed after destroy and detach had succeeded |
| VfsOpen.Lifetime | src/blockcachevfs.rs:1766-1817 | Every sequence of closes, shares and drops: no context is freed within native reach and this one is given up; the directory is never removed before a destroy succeeded nor, until the connection is dropped, before the detach did |
| VfsOpen.OpenAndLive | src/blockcachevfs.rs:2092-2313 | From the URI to the last drop, every context ever registered ends freed out of native reach, or leaked; after a successful open the directory is removed only as in `Lifetime` |
| StatementCache.StatementCache.PrepareWithFlags | src/lib.rs:917-924 | Agrees with the single prepare: succeeds iff every piece compiles and all but the first are empty; all else is finalized |
| StatementCache.StatementCache.Get | src/cache.rs:136-151 | A hit is a handle prepared earlier from the same trimmed text; a miss is what preparing that text gives; either way no bindings |
| StatementCache.StatementCache.CacheStmt | src/cache.rs:154-168 | Puts a statement back as the newest entry, bindings cleared; one of the same key is gone, the others keep their order, the oldest goes if it does not fit; exactly the handles that went are finalized |
| StatementCache.StatementCache.SetCapacity | src/cache.rs:125-127 | Finalizes exactly the oldest entries that no longer fit |
| StatementCache.StatementCache.CloseSqlHandle | src/lib.rs:974-978 | Every cached handle is finalized before the close attempt |
| StatementCache.CachedStatement.Drop | src/cache.rs:91-98 | Returns the statement to the cache, in the same sense |
| StatementCache.CachedStatement.Discard | src/cache.rs:112-114 | Finalizes it instead, and leaves the entries alone |
| StatementCache.DropThenGet | src/cache.rs:136-168 | Asking for the same text, surrounding space aside, right after a statement went back gives that statement, without preparing anything |
| StatementCacheRuns.Run | src/cache.rs:91-174 | Any use: each handle is cached, in use or finalized, finalized once, and all are finalized at the end |
| Batch.NothingSkipped | src/lib.rs:673-692 | A successful run compiles the whole text piece after piece; a failed one a front of it |
| Batch.BatchFollowsEngine | src/lib.rs:673-692 | Told from the engine alone: the text is cut where it reports the ends, exactly those statements are stepped in order, and a piece that does not compile or step ends the run with an error |
| Batch.Connection.ExecuteBatch | src/lib.rs:673-692 | Same statements, state and result as the reference run |
| Batch.BatchCursor.Next | src/lib.rs:1389-1408 | Yields the next non-empty statement and changes only its position |
| Batch.RunFromNext | src/lib.rs:1389-1408 | Passing over empty pieces is what a run does before its first statement |
| Batch.Drive | src/lib.rs:1346-1366 | Stepping each statement of the cursor gives the statements, state and result of running the batch |
| Batch.PrepareIff | src/lib.rs:917-924 | Preparing succeeds iff every piece compiles and all but the first are empty |
| Batch.PrepareFollowsEngine | src/lib.rs:917-924 | Told from the engine alone: preparing succeeds exactly when all pieces compile and none behind the first is a statement |
| Interrupt.NeverInterruptsClosed | src/inner_connection.rs:118-142 | Over every interleaving: no interrupt after a successful close, none without ownership, no failed assertion |
| Interrupt.CheckedMeansOpen | src/lib.rs:1524-1529 | A thread that saw the handle holds the lock alone, and the handle is still there and not closed |
| Interrupt.InterruptsIffOpen | src/lib.rs:1524-1529 | A thread that has the lock issues its interrupt, whatever others do meanwhile, exactly when the handle is owned and not closed |
| Interrupt.ClosesAlone | src/inner_connection.rs:118-142 | A close that finds the lock free asks SQLite, and gives both copies of the handle up exactly when SQLite agrees |
| ContainerRace.RaceOutcome | src/blockcachevfs.rs:2226-2244 | One creation at most, the first creator's block size, every finished creating client attached, knowing truly whether it created; a container that was there is attached to by every client |
| ContainerRace.EveryCreatorAttaches | src/blockcachevfs.rs:2030-2048 | Six turns suffice for a client that may create |
| ContainerRace.ClientAlone | src/blockcachevfs.rs:2030-2048 | Alone on storage without the container, a client that may create does, with its own block size, and another is refused |
| Progress.Reporter.Receive | src/blockcachevfs.rs:199-230 | Each block is counted under its code, saturating; counters equal the clamped true sums and never decrease; a plan announces what is done and what remains; unknown and negative events change nothing |
| Progress.PlanMetExactly | src/blockcachevfs.rs:213-224 | Without saturation a plan is met exactly when later events sum to the announced remainder |

## Left out

- Native C code behind the foreign calls: only the contracts of the calls are modelled, as steps that may fail.
- ServerDriver.RemoteServer.OperationStatus: like all of `ServerDriver`, amid the steps and expiries of other servers but no deletion of the head; deletions are in `SessionCleanup`.
- VfsLog.HeldCounts: a close that is tried again, and the drop after a close, release some things a second time (the VFS, the directory); such logs are covered by the clauses of `Lifetime` and `OpenAndLive`, not by the counts.
- SessionTheorems.PublishedOnceAndNothingLost: the publication fence record and its lease are not modelled, only the conditional manifest write they guard.
- Commits that fail for other reasons than deferred constraints (busy, I/O errors).
- `DropBehavior::Panic` and transaction-control SQL that users run themselves: both break the guard discipline by design.
- ContainerRace.RaceOutcome: storage faults and the key-value object written beside a new manifest are not modelled.
- VfsOpen.Lifetime: one connection at a time; the process-wide VFS instance is not modelled.
- Panics and unwinding out of callbacks.
- Error texts and the redaction of credentials in them.
- UTF-8 decoding and the IPv6 address parser: abstract predicates.
- The printing of S3 URIs: the program has no such function; parsing them is modelled.
- SHA-256: the frame is followed up to the bytes that are hashed.
- TLS, JWT verification, HTTP serving and credential callbacks.
- Functions, collations, tracing, serialization, column access and value conversion: thin wrappers.

# dropboy: a verified model of the sync engine and its surroundings

dropboy keeps a set of local folders and an S3 prefix in step. Its engine compares, path by path, the
local file, the remote object and a last-synced row, plans uploads, downloads, deletions and conflicts,
and executes them; files are encrypted on the client. This project models that engine and the parts of
the daemon around it in Dafny and proves what a user relies on. Verify everything with
`dafny verify dfyconfig.toml`.

## How the model is built

Every operation of the engine touches one path only. `Cells` is therefore the theory of one path: a
`Cell` is the local file, the remote object (decrypted, with the hash its metadata claims) and the row's
hash; `Decide` is the three-way comparison, and `CellStep` one atomic store effect of an operation.
`Worlds` holds the concrete stores (encrypted objects under string keys), and proves that a step on a
path is a `CellStep` on that path's cell (`ViewAt`) and leaves every other cell alone. `Planner` is the
two-loop planner, `Engines` the engine as an object with failing stores, both proved against these
functions. The theorems about whole passes, histories and overlapping passes (`Passes`, `Runs`,
`OverlapCells`, `Overlap`) follow from the per-path ones.

Hypotheses, by name:

- `Guards` (for refusing wrong secrets only): no other secret derives the same key, and no other key opens
  what was sealed.
- `Lawful`: opening undoes sealing, sealing adds a 16-byte tag, derived keys have 32 bytes, and the hash
  is collision-free and never empty. `LawsAreConsistent` exhibits primitives that meet all of this.
- `ValidConfig`: `Lawful`, and a master key of 32 bytes.
- `Tame`: watched files have absolute paths outside `.dropboy` directories; every object the scan lists
  opens under the master key and lies under a watched path.
- `Ready`: `Tame`, and every listed object is labelled with the hash of its plaintext.
- Snapshots are complete: hashing a file and reading an object's metadata do not fail.

`Hypotheses`, `Cells.UnlabelledObjectIsIgnored` and `Cells.AdoptedFileComesBack` show what happens
without them.

Where the code and `PRD.md` differ, the model follows the code: a remotely deleted file is uploaded again
(`backend/internal/sync/engine.go:306-307`), a local deletion removes the object even if it changed
(325-326), two sides changed to the same bytes are still a conflict (309-313), files found equal get no
row (301-304), and there is no grace period.

## What turned out false, and the exact condition

- "No unsynced remote version is ever lost". `UnsyncedRemoteIsLost` (and `PassLosesUnsynced` for whole
  passes): bytes other than the recorded ones are lost exactly when a row is left and either the file is
  gone, or the file has changed too and the object's label is empty or still the recorded hash. With
  honest labels only the deletions remain.
- "An upload race always heals". `UploadRace`, `UploadRaceHeals`: it heals exactly unless the file is back
  at the hashed version while other bytes were sent; then both hashes agree and no later pass notices.
- "A change made after the scan survives the pass". `ChangedAfterScan`: an edited file does exactly unless
  the pass downloads other bytes to that path (`EditSurvivesPass`); an object put by someone else is lost
  exactly if the pass uploads other bytes to its path or deletes it (`PutLostByPass`).
- "An interrupted pass leaves no trace". `InterruptedConflict`, `InterruptedPassConflicts`: it leaves a
  reported conflict, between identical sides, exactly for an upload or download cut between its data and
  its row, over a row for other bytes.
- "After overlapping passes one more pass restores the mirror". Content is always restored, wherever the
  passes were cut, and label and row exactly unless the passes left them at odds (`CrowdedPassesHeal`).
  Two passes that were not cut never do that (`OverlapHeals`); three can (`ThreePassesMislabel`), but only
  to a file they replace (`AtOddsAtRest`).
- "The rate is the configured one": exactly up to `MAX_MBPS`, above which the product wraps (`RateIsExact`,
  `RateWraps`). "The throttle's level stays within 0..rate": exactly for rates of at least one chunk
  (`LevelStaysWithinRate`), and a wrapped setting gives a smaller one (`WrappedRateIsExceeded`).
- "A wakeup is never lost". `WakeupLostExactly`: with no pass started since an event, neither the timer nor
  the channel will start one exactly when a tick was taken while paused, with the timer not armed by
  then, and no event has come since. `PauseDiscardsWakeup` is a history in which that happens,
  `DiscardNeedNotLose` one in which a discarded tick loses nothing.
- "A subscriber gets only events dequeued after it subscribed". `LateEventsExactly`: this is so in every run
  that follows exactly if the loop held no event at the subscription; a held event can always still reach
  the subscriber, as in `TakenEventReachesLateSubscriber`.
- "Machines never share keys". `KeySpacesOverlap`: they do exactly if the names are equal or one extends
  the other at a slash.

## Model

| member | source | states |
|---|---|---|
| Envelope.SealedObjectOpens | backend/internal/sync/engine.go:369-442 | an upload's payload opens under the fresh data key alone with its own nonce, the data key under the master key with another; so the object opens under the master key to the same bytes; it is one tag longer and carries the claimed hash and size; sealing fails exactly for a master key of the wrong size |
| Envelope.OpensExactly | backend/internal/sync/engine.go:428-442 | an object opens to some bytes if and only if it has its metadata and the two keys open one after the other |
| Envelope.LawsAreConsistent | backend/internal/crypto/envelope.go:68-93 | the assumptions made of the cipher, the hash and the key derivation, authenticity included, can be met together |
| Keystore.KeyDir.SealAndWrite | backend/internal/crypto/keystore.go:122-141 | the written file opens with the same secret to the same key; other files stay |
| Keystore.KeyDir.CreateMasterKey | backend/internal/crypto/keystore.go:71-86 | afterwards passphrase and recovery code both yield the master key |
| Keystore.KeyDir.AddRecoveryKey | backend/internal/crypto/keystore.go:114-116 | the new code yields the master key, and what any passphrase yields is unchanged |
| Keystore.UnlockBothWays | backend/internal/crypto/keystore.go:71-116 | after creating the key, with or without a new code since, loading by passphrase and by the current code both give it |
| Keystore.AnyParametersOpen | backend/internal/crypto/keystore.go:143-158 | a file sealed under any Argon2 parameters opens, because the stored parameters are used |
| Keystore.LoadsExactly | backend/internal/crypto/keystore.go:143-158 | loading gives a key if and only if the file decodes and opens to it under the key derived with its own parameters; a missing file, a garbled file and a wrong secret have their own errors |
| Keystore.OnlyItsSecretOpens | backend/internal/crypto/keystore.go:118-120 | every secret but the one a file was sealed with is refused, as far as cipher and key derivation keep keys apart |
| Keystore.ResealedHolds | backend/internal/crypto/keystore.go:122-141 | a key file holds the drawn salt and nonce, the current Argon2 parameters, and the master key under the key they derive |
| Keystore.EitherSecretReadsEverything | backend/internal/crypto/keystore.go:71-158 | after creating the master key, and after replacing the recovery code, any two sessions unlocked by the passphrase or the current code hold the same key, and what one uploads from any path the other downloads to the same bytes, with the row's hash to match |
| Keys.KeyLayout | backend/internal/sync/engine.go:488-496 | a key is the fixed root, the machine and the absolute path |
| Keys.ContainsExactly | backend/internal/sync/engine.go:259-259 | a key contains a segment if and only if it is something, the segment, and something |
| Keys.ListedExactly | backend/internal/sync/engine.go:251-261 | a scan lists exactly the keys under the machine's prefix that do not contain '/.dropboy/' |
| Keys.KeyRoundTrip | backend/internal/sync/engine.go:488-502 | the two key helpers are mutual inverses exactly on absolute paths and on keys under the machine's prefix |
| Keys.KeyForInjective | backend/internal/sync/engine.go:492-496 | two absolute paths never share a key |
| Keys.KeySpacesOverlap | backend/internal/sync/engine.go:488-490 | two machines share a key if and only if their names are equal or one extends the other at a slash |
| Keys.SlashFreeNamesApart | backend/internal/sync/engine.go:488-490 | slash-free names overlap only if they are equal |
| Keys.PrefixesDisjoint | backend/internal/sync/engine.go:488-490 | slash-free machine names share a key only if they are equal |
| Keys.SlashInMachineNameOverlaps | backend/internal/sync/engine.go:488-496 | when one name extends another at a slash, every key of the longer is under the shorter's prefix |
| Planner.Plan | backend/internal/sync/engine.go:290-332 | for any map order: exactly one operation for each path whose decision is not a no-op, no other operation, never a local deletion |
| Planner.CountKind | backend/internal/sync/engine.go:334-342 | counts the operations of a kind |
| Planner.CountIsSize | backend/internal/sync/engine.go:334-342 | the count is the number of positions that hold an operation of the kind |
| Planner.PlansArePermutations | backend/internal/sync/engine.go:290-332 | two plans of the same snapshots hold the same operations |
| Cells.RunClosedForm | backend/internal/sync/engine.go:346-467 | the three slots after a whole operation, and when it fails instead |
| Cells.SettleConverges | backend/internal/sync/engine.go:294-330 | a pass over a well-labelled cell converges unless it is a conflict, which changes nothing |
| Cells.SettleIdempotent | backend/internal/sync/engine.go:290-332 | the second pass repeats conflicts, does nothing else, and changes nothing |
| Cells.InterruptedCell | backend/internal/sync/engine.go:396-415 | stopped after any effect and run again, file and object end as if undisturbed; the row is right, missing, or stale and then shows as a conflict of identical sides |
| Cells.InterruptedConflict | backend/internal/sync/engine.go:396-466 | an interrupted operation shows as a conflict exactly when an upload or download was cut between data and row over a row for other bytes |
| Cells.UploadRace | backend/internal/sync/engine.go:369-416 | the exact condition under which an upload of bytes other than the hashed ones heals |
| Cells.ChangedAfterScan | backend/internal/sync/engine.go:369-467 | a file changed or added after the scan survives the planned operation if and only if that is not a download of other bytes; an object put after the scan is lost if and only if it is an upload of other bytes or a deletion |
| Cells.OnlyRecordedContentIsReplaced | backend/internal/sync/engine.go:294-330 | however far an operation gets: a file is replaced only at its recorded hash, an object only at the recorded hash or without one, deleted only with a row and no file; rows are written only for bytes both sides hold |
| Cells.UnsyncedRemoteIsLost | backend/internal/sync/engine.go:305-329 | for any label: exactly when a pass leaves an unrecorded remote version on neither side |
| Cells.UnlabelledObjectIsIgnored | backend/internal/sync/engine.go:309-329 | an object without a hash is fetched exactly when there is neither file nor row, and never while the file is at its recorded hash |
| Cells.AdoptedFileComesBack | backend/internal/sync/engine.go:301-304 | a file adopted without a row comes back after its local deletion |
| Worlds.RemotePathsKeys | backend/internal/sync/engine.go:251-274 | which paths a remote scan reports |
| Worlds.SnapshotsSeeCells | backend/internal/sync/engine.go:186-286 | the three snapshots show the planner each path's cell, and its key is the one the path maps to |
| Worlds.StepProjects | backend/internal/sync/engine.go:346-467 | one store effect moves its own path's cell as `CellStep` says and no other cell; tameness is kept |
| Worlds.RunOpsProjects | backend/internal/sync/engine.go:163-167 | a list of operations on distinct paths runs through and gives each path its own operation's effect |
| Passes.PassSettles | backend/internal/sync/engine.go:142-175 | a pass in a tame world runs to its end and settles every path |
| Passes.PassConverges | backend/internal/sync/engine.go:142-175 | convergence of every path not in conflict, conflicts untouched, no file lost, well-formedness kept |
| Passes.RunOpsConflicts | backend/internal/sync/engine.go:469-484 | the conflict list gains exactly the conflicting paths and stays free of repetitions |
| Passes.RunOpsCounters | backend/internal/sync/engine.go:400-402 | the byte counters grow by the sizes of what was sent and fetched |
| Passes.PassRecords | backend/internal/sync/engine.go:396-466 | after a pass whatever it moved is on record as it is: size, hash and key in the row, size and hash in an uploaded object's metadata; conflict records are only added, at the end, each with the id drawn for its operation |
| Passes.OrderIndependent | backend/internal/sync/engine.go:163-167 | any two orders of a plan, with different keys and nonces, agree on files, decrypted objects, row hashes, counters and conflicting paths |
| Passes.PassIdempotent | backend/internal/sync/engine.go:142-175 | a second pass plans exactly the conflicts of the first and leaves the whole world identical |
| Passes.ResolveKeepsDistinct | backend/internal/sync/engine.go:129-139 | dropping a conflict leaves one record less, if any has the id, and the rest distinct |
| Passes.ResolveDropsFirst | backend/internal/sync/engine.go:129-139 | the first record with the id goes, every other stays in its place; without one nothing changes |
| Passes.DroppedConflictReturns | backend/internal/sync/engine.go:126-139 | a dropped conflict is recorded again by the next pass while the sides differ |
| Passes.PartialPass | backend/internal/sync/engine.go:163-167 | the cells after any number of operations and effects |
| Passes.InterruptedPassRecovers | backend/internal/sync/engine.go:163-167 | stop anywhere, run once more: every file and object as after one undisturbed pass, at worst one conflict of identical sides |
| Passes.InterruptedPassConflicts | backend/internal/sync/engine.go:163-167 | the next pass reports exactly the first pass's conflicts and the path cut between data and row over a row for other bytes |
| Passes.InterruptedBetweenOperations | backend/internal/sync/engine.go:163-167 | stopped between operations, counters and conflicting paths also end as undisturbed |
| Passes.UploadRaceHeals | backend/internal/sync/engine.go:206-210 | with files rewritten or added and objects put arbitrarily during a pass, and files edited after it, whatever the labels, an uploaded path heals in one quiet pass under the exact condition of `UploadRace` |
| Passes.EditSurvivesPass | backend/internal/sync/engine.go:142-175 | a file edited or added between scan and execution survives a whole pass if and only if the pass does not download other bytes to it |
| Passes.PutLostByPass | backend/internal/sync/engine.go:142-175 | an object put by someone else between scan and execution is lost if and only if the pass uploads to its path or deletes it and the file does not hold its bytes |
| Passes.PassLosesUnsynced | backend/internal/sync/engine.go:142-175 | exactly which unrecorded remote versions a whole pass loses, in any tame world |
| Passes.PlanStaysInNamespace | backend/internal/sync/engine.go:251-273 | all keys of a plan are under the machine's prefix, and no reserved key is fetched or deleted |
| Passes.PassKeepsForeignKeys | backend/internal/sync/engine.go:142-175 | a pass in any world, complete, failing or cut at any effect, changes no object outside its prefix |
| Passes.PassIsolated | backend/internal/sync/engine.go:488-490 | such a pass changes no object of another machine unless the two names overlap, which slash-free ones do not |
| Hypotheses.HiddenFileIsUploadedEveryPass | backend/internal/sync/engine.go:259-261 | a watched file under `.dropboy` is in every plan as an upload |
| Hypotheses.UnwatchedObjectIsDeleted | backend/internal/sync/engine.go:321-329 | with absolute watched paths: an object outside the watched folders is downloaded by a pass that runs to its end, over any unscanned file there, and deleted by the next plan |
| Hypotheses.UnreadableFileIsDeletedRemotely | backend/internal/sync/engine.go:206-209 | a file left out of the scan has its object deleted |
| Hypotheses.UnreadableObjectIsOverwritten | backend/internal/sync/engine.go:263-266 | an object left out of the scan is put over |
| Engines.Engine.RecordConflict | backend/internal/sync/engine.go:469-484 | appends a record with the id and the path, unless the path is listed, and then changes nothing |
| Engines.Engine.ResolveConflict | backend/internal/sync/engine.go:129-139 | removes the first record with the id from its place and says whether there was one |
| Engines.Engine.SnapshotLocal | backend/internal/sync/engine.go:186-218 | exactly the watched files with size and hash |
| Engines.Engine.SnapshotRemote | backend/internal/sync/engine.go:251-274 | exactly the listed objects, by path, with key and claimed hash |
| Engines.Engine.DoUpload | backend/internal/sync/engine.go:369-416 | runs the upload's effects in order up to success or a failing call |
| Engines.Engine.DoDownload | backend/internal/sync/engine.go:418-467 | runs the download's effects in order up to success or a failing call |
| Engines.Engine.DoDelete | backend/internal/sync/engine.go:352-361 | runs the deletion's effects in order up to success or a failing call |
| Engines.Engine.Execute | backend/internal/sync/engine.go:346-367 | dispatches an operation; with reliable stores it errs exactly when the operation itself fails |
| Engines.Engine.ExecuteAll | backend/internal/sync/engine.go:163-167 | stops at the first failing operation, at a known effect |
| Engines.Engine.ReconcileOnce | backend/internal/sync/engine.go:142-175 | plans from the starting world; reliable stores and a ready world give a reconciled world without error; an error leaves a known prefix of the plan done and the queue counters set; in every case it is one of the pass steps of `Runs` |
| Runs.RowsRecordMirrors | backend/internal/sync/engine.go:403-466 | in any history of passes, cut short anywhere, and outside changes, labelled or not, every row records bytes both sides once held |
| Runs.NothingUnsyncedIsOverwritten | backend/internal/sync/engine.go:294-330 | in any such history a pass removes no file, replaces only bytes both sides once held, puts only over objects with the recorded or an empty label, and deletes only objects with a row and no file; honestly labelled content it replaces was once on both sides |
| Runs.PassKeepsFiles | backend/internal/sync/engine.go:290-332 | a pass, cut short anywhere, in any world whatever, removes no file |
| Runs.FilesNeverShrink | backend/internal/sync/engine.go:290-332 | over any number of passes the set of files never shrinks |
| OverlapCells.FitsStep | backend/internal/daemon/daemon.go:107-115 | a step of one pass on a path suits its own phase and that of every other pass |
| OverlapCells.CrowdStep | backend/internal/daemon/daemon.go:107-115 | the invariant of any number of passes over one path is kept by every step of any of them |
| OverlapCells.CrowdIsSafe | backend/internal/daemon/daemon.go:107-115 | the invariant implies that the content a solo pass would settle on is on some side |
| OverlapCells.CrowdHeals | backend/internal/sync/engine.go:290-332 | wherever all passes are cut, one more pass restores a solo pass's content on both sides, and row and label exactly unless they were left at odds, which no later pass changes |
| OverlapCells.OnlyReplacedAtOdds | backend/internal/sync/engine.go:290-332 | passes that were not cut leave row and label at odds only at a path whose file was to be replaced |
| OverlapCells.PairLabelsAgree | backend/internal/sync/engine.go:290-332 | two such passes never do |
| OverlapCells.StaleScanMislabels | backend/internal/sync/engine.go:369-416 | an overlapping pass with a stale scan uploads new bytes under the old hash |
| OverlapCells.StaleScanDeletes | backend/internal/sync/engine.go:325-326 | an overlapping pass with a stale scan deletes an object just downloaded |
| OverlapCells.ThreePassesMislabel | backend/internal/server/handlers.go:482-491 | three passes can, and every later pass then downloads the same bytes again |
| Overlap.PlannedOpsArePlan | backend/internal/sync/engine.go:156-156 | the operations of an overlapping pass are those of a plan |
| Overlap.ProcStepProjects | backend/internal/sync/engine.go:142-175 | every step of a pass, scanning included, moves each path as the per-path theory allows |
| Overlap.InterleavingInvariant | backend/internal/daemon/daemon.go:107-115 | the invariant holds at every path in every interleaving of any number of passes |
| Overlap.OverlapIsSafe | backend/internal/daemon/daemon.go:318-324 | at every moment, with any number of passes, no file has gone, paths at rest are untouched, and the settled content is on some side |
| Overlap.CrowdedPassesHeal | backend/internal/daemon/daemon.go:107-115 | stop any number of overlapping passes at any moment, between an operation's effects too: one more pass runs through and restores the content a solo pass would have left on both sides; mirrored, row and label included, under an exact condition |
| Overlap.AtOddsAtRest | backend/internal/server/handlers.go:482-491 | after passes that were not cut, only a replaced file's row and label can be at odds, and after two none |
| Overlap.OverlapHeals | backend/internal/daemon/daemon.go:107-115 | after two passes that were not cut, one more leaves files and objects as one solo pass would have |
| Overlap.OverlapKeepsForeignKeys | backend/internal/daemon/daemon.go:107-115 | any number of overlapping passes, in any world and cut anywhere, change no object outside the prefix |
| Overlap.SoloPassIsRun | backend/internal/sync/engine.go:142-175 | every whole pass, with its plan in any order, is an interleaving of one pass, so the results about interleavings are about it too |
| RateLimiter.Limiter.Allow | backend/internal/server/middleware.go:132-151 | the new buckets and the verdict of one call |
| RateLimiter.TokensAreLeastSlack | backend/internal/server/middleware.go:141-145 | a key's tokens are the least slack, burst + rate x elapsed - admitted, over all windows of its history |
| RateLimiter.AdmissionIsExact | backend/internal/server/middleware.go:132-151 | a call is admitted if and only if it fits every window that ends at it |
| RateLimiter.WindowBound | backend/internal/server/middleware.go:111-121 | any window between two calls on a key admits at most burst + rate x length |
| RateLimiter.OtherKeysIrrelevant | backend/internal/server/middleware.go:136-140 | a key's bucket depends only on the calls on that key |
| RateLimiter.VerdictIgnoresOtherKeys | backend/internal/server/middleware.go:153-159 | leaving out calls on other keys changes no verdict |
| RateLimiter.CountIsSize | backend/internal/server/middleware.go:146-150 | the admitted calls of a window are counted, each once |
| RateLimiter.OnKeyFilters | backend/internal/server/middleware.go:136-140 | the calls on a key are exactly those, in order |
| RateLimiter.KeysApart | backend/internal/server/middleware.go:156-159 | calls share a bucket if and only if route and host agree |
| Throttle.RateIsExact | backend/internal/sync/throttle.go:53-59 | for a positive setting the rate is 125000 bytes per Mbps if and only if it is at most `MAX_MBPS`; it is then above one chunk; other settings give no rate |
| Throttle.WrapsToInt64 | backend/internal/sync/throttle.go:58-58 | the product is taken modulo 2^64 into int64 |
| Throttle.TruncatesTowardZero | backend/internal/sync/throttle.go:58-58 | the quotient leaves a remainder on the dividend's side |
| Throttle.RateWraps | backend/internal/sync/throttle.go:53-59 | a larger setting can wrap to 8 bytes a second, or below zero, which turns the throttle off |
| Throttle.LevelStaysWithinRate | backend/internal/sync/throttle.go:25-51 | every read keeps the level within 0..rate if and only if the rate is at least one chunk |
| Throttle.WrappedRateIsExceeded | backend/internal/sync/throttle.go:40-50 | at the wrapped rate, exactly which reads take the level above the rate |
| Throttle.Reader.Read | backend/internal/sync/throttle.go:25-51 | one read: level, clock, stall count, bytes asked for and delivered stream, and the allowance kept |
| Throttle.Reader.RefillsAtRate | backend/internal/sync/throttle.go:26-32 | the level grows by rate x elapsed seconds up to one second's worth |
| Throttle.Reader.Bounds | backend/internal/sync/throttle.go:25-51 | delivered bytes are within rate x (1 + elapsed) plus one nanosecond's worth per stall, and a prefix of the stream; the level is within 0..rate, or 0..one chunk for smaller rates |
| Throttle.SleepCovers | backend/internal/sync/throttle.go:40-46 | a truncated sleep earns what was missing short of one nanosecond's worth |
| Throttle.SleepIsExact | backend/internal/sync/throttle.go:40-43 | a sleep is the largest number of whole nanoseconds that earns no more than was missing |
| Wakeup.Scheduler.Handle | backend/internal/sync/watcher.go:47-77 | each branch of the two select loops, and when a pass starts |
| Wakeup.NoLostWakeup | backend/internal/sync/watcher.go:64-76 | an event without a later pass start leaves the timer armed, a tick pending, or a tick discarded while paused |
| Wakeup.WakeupLostExactly | backend/internal/sync/watcher.go:47-77 | with no pass started since an event, nothing is armed or pending if and only if a tick was discarded while paused, the timer not armed by then and no event since |
| Wakeup.QuietMeansServed | backend/internal/daemon/daemon.go:295-315 | with nothing armed, pending or discarded, every event was followed by a pass |
| Wakeup.DebounceIsNotExtended | backend/internal/sync/watcher.go:64-67 | later events never move a deadline past one debounce after an event |
| Wakeup.WakeupLeadsToPass | backend/internal/daemon/daemon.go:295-315 | unpaused, an armed timer or pending tick leads to a pass by enabled steps |
| Wakeup.PauseDiscardsWakeup | backend/internal/daemon/daemon.go:299-303 | a tick taken while paused is gone after resuming |
| Wakeup.DiscardNeedNotLose | backend/internal/daemon/daemon.go:299-303 | a discarded tick loses nothing when the timer was armed again before it was taken |
| Wakeup.WatcherExactly | backend/internal/sync/watcher.go:47-77 | the timer is armed, and a tick pending, exactly as the events, firings and takings so far say |
| Wakeup.PausedExactly | backend/internal/daemon/daemon.go:295-315 | the daemon is paused exactly from a pause to the next resume |
| Wakeup.BusyExactly | backend/internal/daemon/daemon.go:290-324 | the loop is inside a pass exactly from its start or a turn that is not skipped to the next end of a pass |
| Wakeup.PausedStartsNothing | backend/internal/daemon/daemon.go:299-313 | while paused no tick and no polling ticker starts a pass; only the API's kick does |
| Wakeup.TurnsStartPasses | backend/internal/daemon/daemon.go:295-315 | unpaused, every tick and every turn of a ticker starts one; a kick does in any state and leaves the schedule alone |
| Wakeup.LoopPassesDisjoint | backend/internal/daemon/daemon.go:290-324 | two passes of the loop never overlap |
| Paths.VirtualPathSplits | backend/internal/server/handlers.go:265-269 | a virtual path splits into the names it was joined from |
| Paths.CleanExtended | backend/internal/server/handlers.go:640-657 | a clean folder path extended by proper names is clean |
| Paths.RelOfClean | backend/internal/server/handlers.go:171-172 | below a clean folder path the relative path is the folder's own name and the names below it |
| Paths.RelOfRelative | backend/internal/server/handlers.go:171-172 | the same below a clean relative folder path, leading '..' included |
| Paths.ReduceCancels | backend/internal/server/handlers.go:645-651 | in an absolute path '' and '.' count for nothing, '..' cancels the name before it, and at the root nothing |
| Paths.ReduceRelCancels | backend/internal/server/handlers.go:645-651 | in a relative path too, except that a leading '..' stays |
| Paths.TrimExactly | backend/internal/server/handlers.go:269-269 | all slashes at both ends go and nothing else |
| Paths.BaseExactly | backend/internal/server/handlers.go:642-642 | the base is the last name, whatever slashes follow |
| Paths.RelPiecesExactly | backend/internal/server/handlers.go:171-171 | a relative path goes up to where two paths part and down from there |
| Tree.BuildNode | backend/internal/server/handlers.go:166-218 | the accumulating recursion builds the specified node: virtual path relative to the folder's parent, depth, count and exclusion limits, size of the listed children |
| Tree.BuildTree | backend/internal/server/handlers.go:133-148 | one child per watched directory, sizes added up |
| Tree.FindByPath | backend/internal/server/handlers.go:265-285 | the loop walks to the first child of each name |
| Tree.ResolveWatched | backend/internal/server/handlers.go:633-659 | the first folder of that name whose cleaned path contains the request; relative and empty folder paths start at the working directory |
| Tree.ResolveStaysInside | backend/internal/server/handlers.go:633-659 | for any request a result is a folder or below it, with no dot segments left |
| Tree.TreeRoundTrip | backend/internal/server/handlers.go:166-285 | every node is found by its own path, and that path resolves to the absolute path it was built from |
| Tree.TrailingSlashBreaksLookup | backend/internal/server/handlers.go:171-172 | a folder path that ends in a slash gets the virtual path '/.', which looks up nothing |
| Tree.NodesShowDisk | backend/internal/server/handlers.go:166-218 | every node shows what is on disk below its folder at its own absolute path: folders as folders, files with their size; no name on the way there matches the folder's own exclude patterns |
| Tree.FolderLists | backend/internal/server/handlers.go:184-211 | a folder node holds exactly its first 500 entries that are not excluded, in order, and nothing at depth 8 |
| Tree.ResolveExactly | backend/internal/server/handlers.go:641-658 | the first folder with the request's first name that the cleaned request stays inside decides; without one there is no result |
| Tree.FoundIsInTree | backend/internal/server/handlers.go:265-285 | whatever path is looked up, a result is in the tree and has the path's last name |
| Tree.AbsExactly | backend/internal/server/handlers.go:645-652 | a relative path is taken from the working directory, an absolute one as it is |
| Tree.SizesAddUp | backend/internal/server/handlers.go:133-218 | every folder of the whole tree, the root included, is as large as its listed children |
| EventHub.Hub.Publish | backend/internal/server/events.go:31-36 | a full queue drops the event, otherwise it is accepted at the end |
| EventHub.Hub.Subscribe | backend/internal/server/events.go:38-44 | a new open channel joins the clients; nothing else changes |
| EventHub.Hub.Unregister | backend/internal/server/events.go:46-49 | the client leaves the set under the lock, its channel still open |
| EventHub.Hub.CloseChannel | backend/internal/server/events.go:50-50 | the channel is closed outside the lock |
| EventHub.Hub.Broadcast | backend/internal/server/events.go:58-66 | one round gives the event to every client with room and changes nothing else |
| EventHub.BroadcastIsRun | backend/internal/server/events.go:53-69 | such a round is a run of the interleaved steps, so the invariant covers it |
| EventHub.Invariant | backend/internal/server/events.go:31-69 | the hub's invariant in every interleaving |
| EventHub.NoSendOnClosed | backend/internal/server/events.go:46-69 | nothing is offered to a closed channel, and none is closed twice |
| EventHub.DeliveredInOrder | backend/internal/server/events.go:31-69 | each subscriber gets, in order, a subsequence of the accepted events fanned out after it subscribed |
| EventHub.TakenEventReachesLateSubscriber | backend/internal/server/events.go:58-60 | an event dequeued before a subscription can still reach it |
| EventHub.SinceCountsDequeued | backend/internal/server/events.go:38-44 | a channel's mark is the number of events dequeued before it, less one exactly when the loop was holding one |
| EventHub.LateEventsExactly | backend/internal/server/events.go:38-69 | in any reachable state, a new subscriber gets only events dequeued after it subscribed, in every run that follows, if and only if the loop held no event at that moment |
| EventHub.StepEffects | backend/internal/server/events.go:31-69 | a channel is given an event only by an offer with fewer than 16 waiting, its reader takes the oldest, and an event is accepted only with fewer than 64 queued |
| EventHub.WithinCapacity | backend/internal/server/events.go:27-39 | queue and channels stay within their capacities |
| EventHub.MembershipExactly | backend/internal/server/events.go:38-51 | who is registered, on the way out, or closed is exactly what the history of subscribing, unregistering and closing says |
| EventHub.WholeLife | backend/internal/server/events.go:31-69 | subscribing, being given an event, receiving it and leaving is a run |
| LogRotation.Writer.Rotate | backend/internal/logging/logging.go:104-123 | every generation moves one slot, the oldest is dropped, the log is empty |
| LogRotation.Writer.Write | backend/internal/logging/logging.go:93-102 | rotate if the write does not fit, then append it whole |
| LogRotation.WriteAll | backend/internal/logging/logging.go:69-123 | any writes, over whatever logs are there already, end on disk in the specified layout |
| LogRotation.LayoutKeepsOrder | backend/internal/logging/logging.go:93-123 | dropped writes and the three files are the old content and then the writes in order, none split |
| LogRotation.KeptIsSuffix | backend/internal/logging/logging.go:93-123 | the three files together are a suffix of what was there and everything written since |
| LogRotation.FreshLogIsSuffix | backend/internal/logging/logging.go:77-102 | from an empty directory the three files are a suffix of what was written |
| LogRotation.SizesBounded | backend/internal/logging/logging.go:20-22 | no file exceeds the largest of the limit, one write, and what it was at the start |

## Left out

- AES-GCM, SHA-256, Argon2id and base64 themselves: parameters with the laws listed above; metadata holds
  bytes rather than their base64 text, and a nonce of the wrong length fails instead of crashing.
- SQLite and the AWS client: maps with the semantics of the `Store` and `Client` interfaces; columns nobody
  reads back (ETag, version, nonces, times) are not kept in rows. A failing call has no effect, except that
  a pass may stop after any effect.
- The folder walk and `filepath.Match`: the predicate `watched` says which files a scan reports, and
  `excluded` which names the browser skips. Listings are taken in display order.
- Outside changes during a pass, beyond those of `UploadRaceHeals`, `EditSurvivesPass` and `PutLostByPass` (no
  deletions, and all at one point between scan and execution): histories in
  `Runs` are of atomic passes, cut short anywhere; `Overlap` has any number of passes at a time and no
  outside changes.
- File system structure: no path is a directory of another, and creating directories and writing a file are
  one effect.
- Floating-point rounding in the two token buckets: levels are real numbers. Counters are unbounded.
- `throttledReader` in front of `Put`: the upload step sends the whole ciphertext, as `Reader.Bounds` allows.
- GenerateRecoveryCode, Unlock and the keychain: straight-line calls around the modelled key store.
- HTTP handlers, authentication, command line, terminal UI, web UI, service managers: no reconciling state.
- `hashID` and `kindFor`: a node keeps the absolute path its id is a hash of.
- Folder paths that are the root directory: `GoodFolders` excludes them, since nothing below the root
  resolves.

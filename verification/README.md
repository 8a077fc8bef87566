# Verification of the virtual drive

MaidSafe-Drive is a virtual drive whose directory tree lives in a content-addressed, versioned
store. Directories are loaded into a cache of paths, changed there, and stored again by timers.
Files are opened into buffers and flushed into chunks whose references are counted. This project
models that logic in Dafny and proves what it keeps, step by step and over whole runs.

Verify the project with `dafny verify dfyconfig.toml`.

## The parts

| file | what it models |
|---|---|
| `Lexicographic.dfy`, `Paths.dfy` | paths as boost::filesystem orders, splits and renders them; the text-prefix test of `Rename` said about path elements |
| `MaskMatch.dfy`, `MaskMatchProofs.dfy`, `MaskMatchAttempts.dfy` | the wildcard matcher as loops over two indexes, recursive glob semantics, and what the matcher accepts on every mask |
| `MetaData.dfy`, `Listing.dfy` | what a directory knows of its children, the stored form of it, and the sorted child vector |
| `DirectoryState.dfy` | the delayed store of one directory as a state machine whose handlers interleave |
| `VersionStore.dfy` | the storage: immutable blobs, and a version tree for each directory; the puts of overlapping handlers |
| `Directories.dfy`, `Enumeration.dfy` | the class `Directory`: children, cursor, versions, timer; masked listing |
| `FileState.dfy`, `Files.dfy` | open files, their close timers, and the chunk store's reference counts |
| `DirectoryFiles.dfy` | a directory with the files in it: writes, flushes and stores interleaved, and what is read back |
| `DriveFiles.dfy` | all the directories of a drive with their files, which move between them, on one chunk store |
| `Rekey.dfy` | the loop at the end of `Rename`, as an iterator over the sorted cache |
| `DirectoryTree.dfy` | the plain directory tree, without any cache: walking, adding, removing, moving |
| `Coherence.dfy`, `Renaming.dfy` | when cache, storage and plain tree agree, and why each operation keeps that |
| `DirectoryHandlers.dfy` | the class `DirectoryHandler` over cache and storage, with a ghost field for the plain tree |
| `Examples.dfy` | inputs, from a new drive with one or two entries, with which an operation does what it should not |

Each imperative class is proved against a value-level model: a `Directory`'s `State()` moves as the
functions of `DirectoryState` say, a `File`'s as `FileState.Apply` says, and `DirectoryHandler`'s ghost
`tree` moves as the plain operations of `DirectoryTree` say while `Valid()` (the agreement of cache,
storage and tree) is kept. Where an operation of the source does not keep the agreement, its contract
says exactly when: `Valid() <==> ...`.

What stands outside the repository is idealised. A data map and a listing are stored under their
content, so equal names are equal contents. The self-encryptor is any codec whose `open` inverts `seal`
when the chunks of the map are in the store (`FileState.Lawful`; one such codec is exhibited). A data map
encrypted under (parent id, directory id) is a blob that carries the two ids, and decrypts only with
them.

What the storage does at a put is an assumption, and the parts make different ones. In the machine of one
directory's handlers (`DirectoryState`) the storage may throw at any put, and so may `InitialiseVersions`; what
that does to the handlers is part of the machine. `VersionStore` has both a storage that refuses a version
whose parent it lacks, which ends the handler, and one that keeps it until the parent is there. The
agreement of cache, storage and tree (`Coherence` and on) is about directories of which no handler has been
ended by an exception.

## What the code does not keep

These are results about the code as it is. Each has its exact condition, proved for all inputs or runs,
and an input or run that shows the failure.

- `MatchesMask` never accepts wrongly (`Sound`), but after a mismatch it goes on from the mismatch and
  not from the character after the star's match, so it misses names: `*aab` misses `aaab`
  (`MissedExample`). It decides glob matching for all names exactly for the masks in which no block after
  a star can lie over itself in a way that hides an occurrence (`CompleteIffExact`). What it accepts on
  every other mask is `AcceptsIffFinds`.
- The loop at the end of `Rename` compares texts, not path elements. Renaming `/a` also carries away
  a cached `/ab` (`SiblingExample`); the loop does its job exactly on the caches `Safe` describes
  (`CorrectIffSafe`). It can also visit its own insertions: it ends exactly if the old text does not
  start the new one, or no cached key that starts with the old text would go to a later key
  (`EndsIffNotChasing`). So it never ends when the old text starts the new one and either path is cached
  (`RunsForever`), and renaming across parents to such a path never ends at all, as the new parent is in
  the cache by then (`RunsForeverAcross`).
- Where the loop ends on a cache that is not safe, everything but the outsiders (the cached keys outside
  the subtree whose text starts with the old one) is as it should be (`RestMoves`). An outsider's entry is
  at a wrong key then, or dropped: it is dropped exactly if the key it is to go to is taken
  (`OutsidersDroppedIff`). `Rename` keeps the agreement of cache, storage and tree exactly if, besides the
  conditions below, all outsiders are dropped and the storage has them.
- `Rename` clears the target before it looks for the source, so a missing source leaves the target
  removed (`MissingSourceRemovesTarget`). A directory that moves to another parent and is not in the cache is
  lost: its entry is removed and then not found (`UncachedDirectoryIsLost`). A rename that fails leaves the
  tree alone exactly if the target had nothing to clear or was what failed, and no directory is lost
  (`FailedRenameLeavesTreeIff`, `Rename`).
- A directory moved to another parent while none of its handlers is outstanding is next stored under its
  old parent's id (`IdleMoveKeepsOldKey`, `MovedIffOutstanding`), and `GetFromStorage` then fails to
  read it as a child of its new parent (`IdleMoveIsUnreadable`). On a safe cache `Rename` keeps the
  agreement exactly when the parent is the same, no directory is moved, or a handler was outstanding.
- `Put` is not one step, and a change can arrive between a handler's snapshot and the two later
  assignments of `store_state_`, at the end of `Directory::Serialise` and at the commit. The change is
  still waited for (`EveryRun`), but reported as being stored or as complete, so
  `StoreImmediatelyIfPending` leaves it (`PutCanHideAChange` shows both windows). A change always shows as
  pending exactly if no handler makes either assignment over an unsaved change (`VisibleIffNeverHides`), and
  an immediate store takes a change up exactly if it shows (`StoreNowTakesUpIffVisible`).
- `Put` counts the versions before it takes the mutex to add one. Two handlers of a new directory can both
  count none; the second one's `InitialiseVersions` then throws, out of the timer's handler, so that
  `pending_count_` stays up for ever. In the run `FirstVersionsCollide` everything has finished after that, nothing
  is unsaved, and the newest version is the older snapshot. `pending_count_` is the number of waits and handlers
  exactly if no handler has thrown (`CountIsExactIff`), and but for the storage a handler throws exactly if it
  has counted no versions and initialises after another one has (`FailedIffThrows`). The wait of a rename for
  `pending_count_` to be zero can end exactly if none has thrown and not more of them have counted no versions
  than can still initialise (`WaitCanEndIff`).
- Two handlers can commit in the other order, so that the newest version is the older snapshot although
  everything is finished (`SecondPutOvertakes`, `PutsCanOvertake`). No change drops out of what is stored or
  still to be stored exactly if no handler commits an older snapshot when the newest one has been
  committed, and none throws that alone has the newest one (`CurrentIffNeverLoses`). If no snapshot is taken
  while another is in flight, and the storage takes each, then whatever else interleaves, the newest version
  is the directory as it is once every handler is gone (`AloneIsNewest`); and from every state with a snapshot
  in flight that is not bound to throw, a second handler can overtake it or be dropped for it
  (`OverlapCanLose`).
- When two handlers' versions reach the storage in the other order than they were given out, the tree
  does not fork, whether or not the storage keeps what comes early: a version lands exactly if it is the next
  one (`LandsIffNext`, `NeverForks`). If the storage refuses the one that comes early (`EarlyPutIsRefused` is such
  a run), its handler throws, so that a rename's wait never ends (`RefusedNeverQuiet`), and the tree gets as far
  as the deque exactly if none is refused (`CompleteIffNeverRefuses`). If it keeps it, nothing is lost
  (`KeepingCompletes`).
- `Add` of a directory under a name that is taken replaces the cached directory and then fails
  (`AddOverTakenName`); `Delete` of a directory erases one key only (`DeleteOrphans`). Both contracts say exactly
  when the cache still agrees.
- A timed close pays for the references of the next serialisation. If the file is flushed again before
  that, the payment is superseded and the references stay counted: a new file that is written, closed
  and opened again before its directory is stored has every chunk counted twice and stored once
  (`ReopeningOvercounts`). The references, with those still to be taken out, are exactly those owed if and only
  if no such flush happens (`ReferencesExactIff`).
- A timed close increments after it has released the file's lock. If the file's directory is serialised in
  between, that counts on references which are not there yet: in `SerialisedTooSoon` every chunk is stored
  twice and counted once. A file's serialised chunks are always counted exactly if no serialisation of it goes
  by a timed close that has not incremented yet (`CoveredIffNeverBorrows`, `NeverUnderCounted`); after any run
  they are exactly if what is still to be incremented is paid for ahead (`CountedIffPaidAhead`).
- A child named `\` is read back under the name of the root (`RoundTrip`); adding or renaming to that name
  is what breaks the agreement then (`Add`, `Rename`).

## Model

| member | source | states |
|---|---|---|
| `Paths.TextPrefixIsCovers` | include/maidsafe/drive/directory_handler.h:359-359 | the loop's test on texts holds exactly when the key has the old path's front and its name there starts with the old name |
| `Paths.RetargetText` | include/maidsafe/drive/directory_handler.h:360-361 | the new key's text is the new path's text and what follows the old path's text in the old key's |
| `Paths.PathOrder` | src/maidsafe/drive/path.cc:38-40 | element-wise path order is a strict total order, as `std::map` needs |
| `Paths.NameOrderIs` | src/maidsafe/drive/path.cc:38-40 | one name is before another exactly if, at the first character in which they differ, it has the lesser one or ends |
| `Paths.PathOrderIs` | include/maidsafe/drive/directory_handler.h:142-142 | and one key is before another exactly if that holds of the first elements in which they differ, or it ends |
| `MaskMatch.StepDecreases` | src/maidsafe/drive/utils.cc:79-115 | every iteration lowers the position of the last star, then what is left of the name, then a rank, although both indexes move backwards |
| `MaskMatch.TakeRunLoop` | src/maidsafe/drive/utils.cc:87-99 | the loop over the run after a star comes to the specification's state, within both strings |
| `MaskMatch.ScanLoop` | src/maidsafe/drive/utils.cc:100-101 | the scan stops at the mask's next character or at the name's end |
| `MaskMatch.Iterate` | src/maidsafe/drive/utils.cc:79-115 | one turn of the outer loop is one step of the matcher and keeps its state inside both strings |
| `MaskMatch.MatchesMask` | src/maidsafe/drive/utils.cc:72-122 | the loops terminate on every input with the answer `Accepts` gives |
| `MaskMatchProofs.AcceptsFromSound` | src/maidsafe/drive/utils.cc:79-121 | from any state, acceptance means that the rest of the mask matches the rest of the name, or the mask from the last star matches from where it was met |
| `MaskMatchProofs.Sound` | src/maidsafe/drive/utils.cc:72-122 | an accepted name is in the mask's glob language, for every mask and name |
| `MaskMatchProofs.FindsFrom` | src/maidsafe/drive/utils.cc:79-121 | on an exact mask the matcher accepts from every state in which a match is still within its reach |
| `MaskMatchProofs.ExactIsComplete` | src/maidsafe/drive/utils.cc:72-122 | on an exact mask every matching name is accepted |
| `MaskMatchProofs.MissedNameMatches` | src/maidsafe/drive/utils.cc:110-111 | for a mask with a clash the constructed name matches |
| `MaskMatchProofs.MissedNameIsMissed` | src/maidsafe/drive/utils.cc:110-111 | and the matcher rejects it |
| `MaskMatchProofs.CompleteIffExact` | src/maidsafe/drive/utils.cc:72-122 | the matcher decides glob matching for all names if and only if the mask is exact |
| `MaskMatchProofs.MissedExample` | src/maidsafe/drive/utils.cc:103-114 | `*aab` matches `aaab`, is not exact, and the matcher does not accept `aaab` |
| `MaskMatchAttempts.AcceptsIffFinds` | src/maidsafe/drive/utils.cc:72-122 | for every mask and name: what is before the first star stands at the name's start; each block after a star is tried where its first character is next found, from there on at the character that did not suit, and the first attempt that succeeds is kept |
| `MetaData.RoundTrip` | src/maidsafe/drive/meta_data.cc:90-159 | a child written and parsed is the same child if and only if it is not named `\` |
| `MetaData.ParsesIffUnion` | src/maidsafe/drive/meta_data.cc:111-138 | exactly the messages with the one of directory id and data map that fits their type parse, to a child with the message's fields, but for the name `\`, which becomes the root's, and for the size of a directory, which is 4096 |
| `Listing.AddedLooksUp` | src/maidsafe/drive/directory.cc:272-281 | adding keeps the vector strictly sorted, and changes the lookup of that one name |
| `Listing.RemovedLooksUp` | src/maidsafe/drive/directory.cc:283-293 | removing likewise |
| `Listing.ReplacedLooksUp` | src/maidsafe/drive/directory.cc:295-304 | renaming likewise, for the two names |
| `Listing.SortOfSorted` | src/maidsafe/drive/directory.cc:194-200 | sorting a vector that is read back in order changes nothing |
| `Listing.SortedIs` | src/maidsafe/drive/directory.cc:194-200 | sorted means by the first differing characters of the names |
| `DirectoryState.ListingRoundTrip` | src/maidsafe/drive/directory.cc:92-141 | serialising and parsing a whole listing gives the listing back |
| `DirectoryState.EveryRun` | src/maidsafe/drive/directory.cc:126-251 | over every interleaving, with the snapshot, the assignment after it, the encryption, the count of the versions, the commit and the put as steps of their own, `pending_count_` counts the armed wait, every queued or running handler and every handler that an exception has ended, at most one wait is armed, and a change in no snapshot has a wait or a successful handler still to take one |
| `DirectoryState.PutIsItsParts` | include/maidsafe/drive/directory_handler.h:451-469 | `Put` with nothing in between and nothing thrown is what its steps come to |
| `DirectoryState.FailedIffThrows` | src/maidsafe/drive/directory.cc:145-159 | over every interleaving a handler has been ended by an exception if and only if the storage has failed a put or a handler that counted no versions has initialised after another one had |
| `DirectoryState.CountIsExactIff` | src/maidsafe/drive/directory.cc:237-250 | over every interleaving `pending_count_` is the number of waits and handlers there are if and only if no handler has thrown |
| `DirectoryState.VersionsEveryRun` | src/maidsafe/drive/directory.cc:145-180 | over every interleaving, deque indexes fall by one from the front and the deque never exceeds its initial length or the maximum |
| `DirectoryState.AtomicRun` | src/maidsafe/drive/directory.cc:218-251 | if `Put` is one step, an unsaved change implies a pending `store_state_`, and otherwise the front version is the directory as it is |
| `DirectoryState.QuietIsStored` | src/maidsafe/drive/directory.cc:218-251 | once no handler is outstanding the front version is the directory as it is |
| `DirectoryState.StoreNowSaves` | src/maidsafe/drive/directory.cc:336-361 | with no fired handler outstanding, an immediate store saves an unsaved change, and does nothing only if there is none |
| `DirectoryState.PutCanHideAChange` | src/maidsafe/drive/directory.cc:126-180 | two runs after which an unsaved change is reported as being stored, or as complete, and an immediate store does nothing |
| `DirectoryState.VisibleIffNeverHides` | src/maidsafe/drive/directory.cc:126-180 | over every interleaving, an unsaved change always shows as a pending store if and only if no handler ends its `Serialise` or commits over an unsaved change |
| `DirectoryState.StoreNowTakesUpIffVisible` | src/maidsafe/drive/directory.cc:336-361 | with no successful handler before its snapshot, an immediate store takes up an unsaved change if and only if it shows |
| `DirectoryState.CurrentIffNeverLoses` | include/maidsafe/drive/directory_handler.h:451-469 | over every interleaving, the directory as it is stays the newest version, in flight or unsaved if and only if no handler commits an older snapshot after the newest one and none throws that alone has the newest one |
| `DirectoryState.AloneIsNewest` | include/maidsafe/drive/directory_handler.h:451-469 | if no snapshot is taken while another is in flight and the storage takes each, the newest version is the directory as it is once no handler is left, whatever else interleaves |
| `DirectoryState.OverlapCanLose` | include/maidsafe/drive/directory_handler.h:451-469 | from every state with a snapshot in flight that is not bound to throw, a run of a second handler after which the directory as it is is neither stored nor still to be stored |
| `DirectoryState.SecondFirstVersionThrows` | include/maidsafe/drive/directory_handler.h:457-463 | from any state in which one handler has counted no versions and nothing else is outstanding, a run in which a second one does too and then throws: everything has finished, nothing is unsaved, the newest version is the older snapshot, and `pending_count_` is one |
| `DirectoryState.FirstVersionsCollide` | include/maidsafe/drive/directory_handler.h:457-463 | so a new directory's first two stores can go, with no commit overtaking another |
| `DirectoryState.SecondPutOvertakes` | include/maidsafe/drive/directory_handler.h:451-469 | from any state in which one handler is about to commit, a run in which a second one commits first |
| `DirectoryState.PutsCanOvertake` | include/maidsafe/drive/directory_handler.h:451-469 | so everything can be finished and saved with an old snapshot as the newest version |
| `DirectoryState.MovedIffOutstanding` | src/maidsafe/drive/directory.cc:241-249 | the wait loop ends with the new parent in place if and only if a handler was outstanding at `SetNewParent` |
| `DirectoryState.VersionsAfterMove` | src/maidsafe/drive/directory.cc:218-251 | then every later version is encrypted under the new parent's id |
| `DirectoryState.IdleMoveKeepsOldKey` | src/maidsafe/drive/directory.cc:237-248 | otherwise a run stores it under the old parent's id and leaves nothing due |
| `DirectoryState.HandlersDrain` | include/maidsafe/drive/directory_handler.h:433-435 | if nothing schedules, the handlers can go on until none is left, in a bounded number of steps, and `pending_count_` is then the number of those that have thrown |
| `DirectoryState.WaitCanEndIff` | include/maidsafe/drive/directory_handler.h:433-435 | from every state, some run brings `pending_count_` to zero if and only if no handler has thrown and at most one has counted no versions of a directory that has none, and none of one that has some |
| `VersionStore.ExtendedIsOneChain` | src/maidsafe/drive/directory.cc:161-180 | a version put below the deque's front keeps the tree one chain whose tip is the deque's new front |
| `VersionStore.Storage.PutVersion` | include/maidsafe/drive/directory_handler.h:466-467 | for every tree and every parent: below a tip the version extends that branch and no other, below an older version it starts a fork with that version's branch, and below a version the tree does not hold it fails and changes nothing |
| `VersionStore.LandsIffNext` | include/maidsafe/drive/directory_handler.h:461-468 | of versions given out by overlapping handlers, the storage can put one if and only if all given out before it are in the tree, and then the tree is one chain with it |
| `VersionStore.NeverForks` | include/maidsafe/drive/directory_handler.h:461-468 | over every interleaving of one directory's handlers with a storage that refuses, or keeps, what comes before its parent, the tree is one chain of versions in the order they were given out; what is refused stays so, and nothing is exactly if no put is refused |
| `VersionStore.CompleteIffNeverRefuses` | include/maidsafe/drive/directory_handler.h:461-468 | with a storage that refuses, once no version is under way the tree's only tip is the deque's front if and only if no put was refused |
| `VersionStore.KeepingCompletes` | include/maidsafe/drive/directory_handler.h:461-468 | with a storage that keeps what comes early, once no version is under way and none can be adopted, the tree's only tip is the deque's front and nothing is left over |
| `VersionStore.RefusedNeverQuiet` | include/maidsafe/drive/directory_handler.h:433-435 | after a refused put no run brings `pending_count_` to zero, so the wait of a rename never ends |
| `VersionStore.EarlyPutIsRefused` | include/maidsafe/drive/directory_handler.h:461-468 | a run of a new directory's two handlers whose second version is put first and refused: everything has finished, the tree has the first version alone, and `pending_count_` is one |
| `VersionStore.EarlyPutIsAdopted` | include/maidsafe/drive/directory_handler.h:461-468 | the same with a storage that keeps it ends with the deque's front as the tip |
| `VersionStore.ChainedFollows` | include/maidsafe/drive/directory_handler.h:457-468 | every directory whose versions are the newest part of its tree's chain starts such runs |
| `Directories.Directory.Create` | src/maidsafe/drive/directory.cc:40-57 | a new directory is empty and scheduled |
| `Directories.Directory.Load` | src/maidsafe/drive/directory.cc:92-111 | a parsed directory has the sorted children and nothing scheduled |
| `Directories.Directory.DoScheduleForStoring` | src/maidsafe/drive/directory.cc:202-216 | the armed wait becomes an aborted handler and a new wait is armed and counted |
| `Directories.Directory.AddChild` | src/maidsafe/drive/directory.cc:272-281 | file_exists and no change, or the child added, the cursor reset and a store scheduled |
| `Directories.Directory.RemoveChild` | src/maidsafe/drive/directory.cc:283-293 | no_such_file and no change, or the child returned and gone |
| `Directories.Directory.RenameChild` | src/maidsafe/drive/directory.cc:295-304 | no_such_file and no change, or the child renamed |
| `Directories.Directory.UpdateChild` | src/maidsafe/drive/file.cc:186-218 | a child file's size and data map change in place and the parent is scheduled |
| `Directories.Directory.GetChild` | include/maidsafe/drive/directory.h:213-221 | the lookup of the name |
| `Directories.Directory.GetChildAndIncrementCounter` | src/maidsafe/drive/directory.cc:262-270 | the child at the cursor, which moves on, or none |
| `Directories.Directory.InitialiseVersions` | src/maidsafe/drive/directory.cc:145-159 | the first version has index 0; with versions there already it fails, and is marked complete all the same |
| `Directories.Directory.AddNewVersion` | src/maidsafe/drive/directory.cc:161-180 | the new front has the next index, the previous front is returned, and the back goes beyond the maximum |
| `Directories.Directory.TakeSnapshot` | src/maidsafe/drive/directory.cc:126-134 | the part under the mutex: the listing as it is then, and nothing unsaved |
| `Directories.Directory.MarkOngoing` | src/maidsafe/drive/directory.cc:136-141 | the part after it: the state is ongoing, whatever has changed since |
| `Directories.Directory.SerialiseDirectory` | include/maidsafe/drive/directory_handler.h:471-499 | the blob has the listing as it is and the parent id as it is then |
| `Directories.Directory.PutVersion` | include/maidsafe/drive/directory_handler.h:457-468 | the version tree stays one chain with the deque, and no other tree changes |
| `Directories.Directory.Put` | include/maidsafe/drive/directory_handler.h:451-469 | the newest version is the directory as it is, under its parent's id, is in the store, and is the tree's only tip |
| `Directories.Directory.ProcessTimer` | src/maidsafe/drive/directory.cc:218-251 | the store comes first and the new parent after it |
| `Directories.Directory.StoreImmediatelyIfPending` | src/maidsafe/drive/directory.cc:336-361 | stores exactly if a store is pending and its wait can be cancelled |
| `Enumeration.AnswersAreMatching` | include/maidsafe/drive/win_drive.h:873-886 | repeated calls answer exactly the matching children, once each and in order |
| `Enumeration.MatchingMembers` | include/maidsafe/drive/win_drive.h:873-886 | the answers are the children the mask wants, and stay sorted |
| `Enumeration.StarWantsAll` | include/maidsafe/drive/win_drive.h:882-885 | the shortcut for `*` agrees with the general loop |
| `Directories.EnumerateDirectory` | include/maidsafe/drive/win_drive.h:864-886 | one call finds the next wanted child from the cursor and leaves the cursor after it |
| `Directories.ListDirectory` | include/maidsafe/drive/win_drive.h:864-886 | a restarting call and calls until none is found list exactly the wanted children, by the first differing characters of their names |
| `Rekey.StartInProgress` | include/maidsafe/drive/directory_handler.h:357-357 | lower_bound is not after any key of the subtree |
| `Rekey.StepInProgress` | include/maidsafe/drive/directory_handler.h:358-364 | each turn on a safe cache moves exactly one more key of the subtree and nothing else |
| `Rekey.DoneIsMoved` | include/maidsafe/drive/directory_handler.h:364-367 | when the loop stops, the whole subtree has moved |
| `Rekey.SafeIsCorrect` | include/maidsafe/drive/directory_handler.h:352-368 | on a safe cache the loop terminates with exactly the subtree moved |
| `Rekey.UnsafeIsIncorrect` | include/maidsafe/drive/directory_handler.h:352-368 | on every other cache it does not |
| `Rekey.CorrectIffSafe` | include/maidsafe/drive/directory_handler.h:352-368 | the loop does its job if and only if every cached key whose text starts with the old text is in the subtree, and the old text does not start the new one |
| `Rekey.EndsIffNotChasing` | include/maidsafe/drive/directory_handler.h:358-367 | on every cache of paths the loop ends if and only if the old text does not start the new one or no cached key that starts with the old text goes to a later key |
| `Rekey.RestMoves` | include/maidsafe/drive/directory_handler.h:352-368 | wherever the loop ends, every entry but those of the outsiders is where it should be, and every other key has an outsider's entry |
| `Rekey.DroppedIff` | include/maidsafe/drive/directory_handler.h:358-364 | it leaves exactly the moved cache without the outsiders if and only if no outsider's entry is left at any key |
| `Rekey.OutsidersDroppedIff` | include/maidsafe/drive/directory_handler.h:361-362 | which the keys decide before the loop: every outsider's entry is dropped if and only if each one's new key is taken, there or where the loop takes it on to |
| `Rekey.RetargetKeepsOrder` | include/maidsafe/drive/directory_handler.h:358-364 | the keys the loop moves stay in the order they were in |
| `Rekey.SiblingExample` | include/maidsafe/drive/directory_handler.h:359-361 | renaming `/a` to `/c` gives a cached `/ab` the key `/cb` |
| `Rekey.RunsForever` | include/maidsafe/drive/directory_handler.h:358-364 | when the old text starts the new one, in the same directory or not, and either path is cached, the loop never ends |
| `DirectoryTree.WalkInjective` | include/maidsafe/drive/directory_handler.h:269-295 | different paths lead to different directories |
| `DirectoryTree.WalkNeedsSteps` | include/maidsafe/drive/directory_handler.h:269-295 | a path leads to a directory if and only if every step of it is a directory's entry |
| `DirectoryTree.WalkFailsAs` | include/maidsafe/drive/directory_handler.h:279-283 | it fails with invalid_parameter if and only if a step is there and is no directory, and with no_such_file if and only if there is nothing at a step below a directory |
| `DirectoryTree.PlainAddOk` | include/maidsafe/drive/directory_handler.h:218-243 | adding a child keeps the tree a tree |
| `DirectoryTree.PlainRemoveOk` | include/maidsafe/drive/directory_handler.h:318-336 | removing one likewise, and only its lookup changes |
| `DirectoryTree.PlainMoveIsMove` | include/maidsafe/drive/directory_handler.h:338-449 | moving a child changes the lookups of the two names and the child's parent id only; the tree stays a tree that can be stored if and only if the new name is not `\` |
| `DirectoryTree.WalkMoved` | include/maidsafe/drive/directory_handler.h:338-369 | every path below the old one leads, below the new one, where it led |
| `DirectoryTree.ResolveMoved` | include/maidsafe/drive/directory_handler.h:338-369 | and resolves to the same entry |
| `DirectoryTree.WalkOutside` | include/maidsafe/drive/directory_handler.h:338-369 | a path outside both is not affected |
| `Coherence.LoadingKeepsCoherent` | include/maidsafe/drive/directory_handler.h:284-292 | loading a directory from the store into the cache keeps cache, store and tree in agreement |
| `Coherence.IdleMoveIsUnreadable` | include/maidsafe/drive/directory_handler.h:501-548 | the newest version of a directory that was moved while idle and then stored cannot be read as a child of its new parent |
| `Coherence.StoringKeepsCoherent` | src/maidsafe/drive/directory.cc:218-251 | so does any step of a cached directory's own storing |
| `Coherence.PutSteps` | include/maidsafe/drive/directory_handler.h:451-469 | a whole `Put` is such a step and leaves nothing unsaved |
| `Coherence.WholeAddKeepsCoherent` | include/maidsafe/drive/directory_handler.h:218-243 | adding a child of a new name keeps the agreement if and only if the name is not `\` |
| `Coherence.AddOverExisting` | include/maidsafe/drive/directory_handler.h:224-242 | adding over an existing name keeps it if and only if the child is no directory |
| `Coherence.UpdateKeepsCoherent` | src/maidsafe/drive/file.cc:186-218 | a file's own change keeps it |
| `Coherence.RemoveKeepsCoherent` | include/maidsafe/drive/directory_handler.h:318-336 | removing a child with no cached directory below it keeps it |
| `Coherence.OrphanIsIncoherent` | include/maidsafe/drive/directory_handler.h:328-331 | a cached directory below an erased key breaks it |
| `Coherence.MoveKeepsCoherent` | include/maidsafe/drive/directory_handler.h:338-369 | moving a child and re-keying the cached subtree keeps it |
| `Coherence.DroppingKeepsCoherent` | include/maidsafe/drive/directory_handler.h:361-362 | dropping directories and all below them from the cache keeps it if and only if the store has them |
| `Coherence.SavedIsAllStored` | include/maidsafe/drive/directory_handler.h:309-316 | if nothing is unsaved, everything the tree has is in the store under the right ids |
| `Coherence.ReloadIsCoherent` | include/maidsafe/drive/directory_handler.h:194-200 | a cache of the root's parent alone, read from such a store, agrees with the same tree |
| `Renaming.MovedByHand` | include/maidsafe/drive/directory_handler.h:428-439 | moving the directory's own entry by hand before the loop gives the same cache as the loop alone |
| `Renaming.WithinKeepsCoherent` | include/maidsafe/drive/directory_handler.h:347-348 | a rename within one directory, with the outsiders dropped, agrees with the moved tree if and only if the new name is not `\` and the store has the outsiders |
| `Renaming.CrossedIsCoherent` | include/maidsafe/drive/directory_handler.h:418-449 | a move between two directories, with the outsiders dropped, agrees if and only if the new name is not `\`, there is no cached directory to move or it had a handler outstanding, and the store has the outsiders |
| `Renaming.WaitedIsMoved` | include/maidsafe/drive/directory_handler.h:432-441 | after the wait the directory has its new parent exactly if a handler was outstanding, and is then scheduled |
| `Renaming.SafeForRekey` | include/maidsafe/drive/directory_handler.h:352-368 | the condition on the cache before a rename gives the loop the safe cache it needs |
| `Renaming.SafeHasNoOutsiders` | include/maidsafe/drive/directory_handler.h:352-368 | and there are no outsiders then |
| `Renaming.RunsForeverAcross` | include/maidsafe/drive/directory_handler.h:343-368 | to another parent the loop never ends whenever the old text starts the new one, since the new parent is cached by then |
| `Renaming.EndsIsOutside` | include/maidsafe/drive/directory_handler.h:343-368 | where the loop ends the new path is not inside the old one |
| `Renaming.RenameMovesSubtree` | include/maidsafe/drive/directory_handler.h:338-369 | seen from the root, the old subtree is at the new path, nothing is at the old one, and every other path leads where it led |
| `Renaming.AddedIsSeen` | include/maidsafe/drive/directory_handler.h:217-243 | seen from the root, an addition makes the child's path lead to it, a new directory is empty, and every path outside leads where it led |
| `Renaming.RemovedIsSeen` | include/maidsafe/drive/directory_handler.h:318-336 | a removal leaves nothing at and below the path, and every path outside as it was |
| `Renaming.UpdatedIsSeen` | src/maidsafe/drive/file.cc:186-218 | a file's change shows at its path and nowhere else |
| `Renaming.FateMeans` | include/maidsafe/drive/directory_handler.h:338-449 | what becomes of a rename, by the entries at its two paths before it and the listing of the target: a target directory stops it if and only if the platform is Windows or it is not empty; then it succeeds if and only if there is a source that is a file, stays in its directory or is cached |
| `Renaming.FailedRenameLeavesTreeIff` | include/maidsafe/drive/directory_handler.h:338-449 | a rename that does not succeed leaves the tree alone if and only if the target is what failed, or the source did and there was nothing at the target |
| `DirectoryHandlers.DirectoryHandler.constructor` | include/maidsafe/drive/directory_handler.h:190-215 | the handler stands for the stored tree, or for a drive with an empty root, which agrees with the storage if and only if both its ids are new there |
| `DirectoryHandlers.DirectoryHandler.GetFromStorage` | include/maidsafe/drive/directory_handler.h:501-548 | success means the tip's newest version, decrypted with the two ids, is what was parsed; a directory stored as the tree has it under its parent's id is read back; one stored under another parent's id is a parsing_error |
| `DirectoryHandlers.DirectoryHandler.CachedAntecedent` | include/maidsafe/drive/directory_handler.h:259-265 | the longest cached prefix of the path |
| `DirectoryHandlers.DirectoryHandler.Descend` | include/maidsafe/drive/directory_handler.h:273-294 | one turn of the loading loop fails with no_such_file where there is no child and with invalid_parameter where the child is no directory; otherwise it follows the walk, keeps the agreement and inserts a key that was not there |
| `DirectoryHandlers.DirectoryHandler.Get` | include/maidsafe/drive/directory_handler.h:245-296 | whatever is cached, the outcome is that of the uncached walk: invalid_parameter if and only if a step of the path is a file, no_such_file if and only if one is missing below a directory; every prefix that leads to a directory is then cached, no cached entry changes, and the agreement is kept on failure too |
| `DirectoryHandlers.DirectoryHandler.GetContext` | include/maidsafe/drive/drive.h:188-197 | the entry the tree has at the path, or how the path fails |
| `DirectoryHandlers.DirectoryHandler.GetParent` | include/maidsafe/drive/directory_handler.h:376-384 | parent and grandparent; invalid_parameter if and only if a step of the parent's path is a file, no_such_file if and only if one is missing or the path is the root's |
| `DirectoryHandlers.DirectoryHandler.FlushAll` | include/maidsafe/drive/directory_handler.h:298-307 | every cached directory is scheduled, and the agreement is kept |
| `DirectoryHandlers.DirectoryHandler.StoreOne` | src/maidsafe/drive/directory.cc:336-361 | the directory stays unsaved if and only if it was and no wait was armed or the change did not show as pending |
| `DirectoryHandlers.DirectoryHandler.StoreAll` | include/maidsafe/drive/directory_handler.h:309-316 | which directories stay unsaved; if none, that is if every change shows as pending and has a wait, the storage then has the whole tree |
| `DirectoryHandlers.DirectoryHandler.RunFired` | src/maidsafe/drive/directory.cc:218-251 | a fired handler saves its directory and keeps the agreement |
| `DirectoryHandlers.DirectoryHandler.RunAborted` | src/maidsafe/drive/directory.cc:218-251 | an aborted handler keeps it too |
| `DirectoryHandlers.DirectoryHandler.TimerExpires` | src/maidsafe/drive/directory.cc:213-213 | so does a timer's expiry |
| `DirectoryHandlers.StoreAndReload` | include/maidsafe/drive/directory_handler.h:190-215 | after `StoreAll`, if every change shows as pending and has a wait, a fresh handler on the storage stands for the same tree |
| `DirectoryHandlers.DirectoryHandler.Add` | include/maidsafe/drive/directory_handler.h:217-243 | for every path and every name the outcome, by what the path's steps and the path itself resolve to, and the tree as it is seen from the root; the parent and its parent are scheduled; over an existing name the agreement is kept if and only if the child is no directory, and otherwise if and only if it is not named `\` |
| `DirectoryHandlers.DirectoryHandler.Delete` | include/maidsafe/drive/directory_handler.h:318-336 | the outcome, by what the path's steps resolve to, and the tree as it is seen from the root; the agreement is kept if and only if no directory below the deleted one is cached |
| `DirectoryHandlers.DirectoryHandler.UpdateFile` | src/maidsafe/drive/file.cc:186-218 | the outcome, by what the path's steps resolve to; the file's entry changes, every other path leads where it led, and the agreement is kept |
| `DirectoryHandlers.DirectoryHandler.PrepareNewPath` | include/maidsafe/drive/directory_handler.h:386-415 | file_exists and no change if and only if the entry at the target is a directory and the platform is Windows or its listing is not empty; anything else at the target is removed from tree and cache |
| `DirectoryHandlers.DirectoryHandler.WaitForHandlers` | include/maidsafe/drive/directory_handler.h:433-435 | the wait ends, with no handler outstanding and any new parent applied if there was one |
| `DirectoryHandlers.DirectoryHandler.MoveDirectory` | include/maidsafe/drive/directory_handler.h:426-441 | the cached directory is under its new key, moved, and scheduled, and only its own storing has happened |
| `DirectoryHandlers.DirectoryHandler.RekeyCache` | include/maidsafe/drive/directory_handler.h:352-368 | on every cache on which the loop ends, its cache is what the iterator's run comes to (on a safe one, by `SafelyRekeyed`, exactly the subtree moved; on any other, by `RestMoves`, all but the outsiders) |
| `Rekey.SafelyRekeyed` | include/maidsafe/drive/directory_handler.h:352-368 | whatever the loop leaves of a safe cache is the moved cache |
| `DirectoryHandlers.DirectoryHandler.RenameDifferentParent` | include/maidsafe/drive/directory_handler.h:417-449 | each fate of the source with its outcome and tree; when it succeeds, the agreement is kept if and only if the new name is not `\`, no directory is moved or a handler was outstanding, and the outsiders are all dropped, which the keys decide before the call, and in the store |
| `DirectoryHandlers.DirectoryHandler.Rename` | include/maidsafe/drive/directory_handler.h:338-369 | wherever the loop ends, the outcome, by the entries at the two paths and the listing of the target: file_exists if and only if the target is a directory and the platform is Windows or it is not empty, success if and only if nothing is in the way and the source is there and is a file, stays in its directory or is cached, invalid_parameter if and only if a step to the target is a file, or nothing is in the way and a step to the source is a file that the target does not clear away; the new tree for every fate of target and source, and when a failure leaves the tree alone; when it succeeds the subtree has moved and nothing else, and the agreement is kept if and only if the new name is not `\`, the parent is the same, no directory is moved or a handler was outstanding, and the keys outside the subtree whose text starts with the old one are all dropped, which the keys decide before the call, and in the store |
| `FileState.PaidOnce` | src/maidsafe/drive/file.cc:286-322 | every occurrence of a chunk in a flushed map is either put or incremented, once |
| `FileState.KeptOrFresh` | src/maidsafe/drive/file.cc:305-320 | what is incremented was in the original map, and what is put was not |
| `FileState.FlushMeans` | src/maidsafe/drive/file.cc:286-322 | chunk by chunk, what a flush puts in the store and what it collects; together they are every occurrence in the new map once |
| `FileState.WrittenBytes` | src/maidsafe/drive/file.cc:194-199 | byte by byte: the data where it is written, the old bytes elsewhere, zeros in a gap, and the length |
| `FileState.TruncatedBytes` | src/maidsafe/drive/file.cc:211-215 | byte by byte: the old bytes as far as they go, and zeros |
| `FileState.StepIsGoodWorld` | src/maidsafe/drive/file.cc:88-118 | every step of any file keeps every file's ledger, size, content and reachable data map |
| `FileState.LedgerEveryRun` | src/maidsafe/drive/file.cc:88-325 | over every run of files on one store, with the part of a timed close under the lock and its increments as steps of their own, the references, with those timed closes have still to take out, are exactly the serialised occurrences, the maps seen to in advance, and what was superseded |
| `FileState.CoveredIffNeverBorrows` | src/maidsafe/drive/file.cc:237-259 | over every run a file's serialised occurrences always have their references if and only if no serialisation of it without a buffer goes by a timed close that has not incremented yet what it collected, unless superseded references make up for that |
| `FileState.NeverUnderCounted` | src/maidsafe/drive/file.cc:88-325 | if no file's does, the store has a reference for every serialised occurrence after the run |
| `FileState.CountedIffPaidAhead` | src/maidsafe/drive/file.cc:88-325 | after every run the store has a reference for every serialised occurrence if and only if what timed closes have still to increment is paid for ahead |
| `FileState.SerialisedTooSoon` | src/maidsafe/drive/file.cc:237-259 | for every content, a run after which every chunk is stored twice and counted once |
| `FileState.IncrementsAreStored` | src/maidsafe/drive/file.cc:88-259 | over every run, every name handed to `IncrementChunks` is already stored |
| `FileState.SupersededIff` | src/maidsafe/drive/file.cc:280-325 | the step that leaves a payment unused: a flush of a file whose last flush no serialisation has used |
| `FileState.NothingSupersededIff` | src/maidsafe/drive/file.cc:237-257 | over a run no payment is left unused if and only if no such flush happens |
| `FileState.ReferencesExactIff` | src/maidsafe/drive/file.cc:88-325 | over every run the store's references, with those timed closes have still to take out, are at least those owed for serialised occurrences and maps seen to in advance, and exactly those if and only if no such flush happens |
| `FileState.ReopeningOvercounts` | src/maidsafe/drive/file.cc:88-325 | for every content, the run of a new file that is written, closed, timed out, opened again and serialised counts every chunk twice and stores it once |
| `FileState.RefinesPlainFile` | src/maidsafe/drive/file.cc:141-325 | over every run a file holds the byte sequence that its writes and truncations give byte by byte, whatever flushes, timed closes and reopenings come between, and its size is that sequence's length |
| `FileState.OpenCountIsBalance` | src/maidsafe/drive/file.cc:141-262 | over every run the open count is opens minus closes, and a file with a positive count has a buffer |
| `FileState.LawfulCodecExists` | src/maidsafe/drive/file.cc:327-335 | the assumption on the self-encryptor can be met |
| `Files.PutFresh` | src/maidsafe/drive/file.cc:300-321 | the loop puts exactly the chunks the original map lacks and collects the others |
| `Files.PutChunks` | src/maidsafe/drive/file.cc:286-322 | with no original chunks all are put and none collected, otherwise as in the loop |
| `Files.File.Open` | src/maidsafe/drive/file.cc:141-162 | one more handle on a buffer, and the close timer cancelled |
| `Files.File.Read` | src/maidsafe/drive/file.cc:164-184 | as many bytes from the offset as are asked for and there, and just those; null_pointer without a buffer |
| `Files.File.Write` | src/maidsafe/drive/file.cc:186-202 | byte by byte, the data at the offset, zeros in a gap and every other byte as it was; the size is the new length and the parent is scheduled; null_pointer and nothing else without a buffer |
| `Files.File.Truncate` | src/maidsafe/drive/file.cc:204-218 | byte by byte, the old bytes up to the length and zeros after them; likewise otherwise |
| `Files.File.Close` | src/maidsafe/drive/file.cc:220-262 | one handle fewer, and the close timer armed when none is left |
| `Files.File.CloseEncryptor` | src/maidsafe/drive/file.cc:280-325 | the data map is sealed, new chunks are put, kept ones collected, and incrementing is skipped next time |
| `Files.File.TimedClose` | src/maidsafe/drive/file.cc:240-253 | under the lock: the buffer goes only if no handle is open, new chunks are put, and the kept ones are collected and due |
| `Files.File.IncrementCollected` | src/maidsafe/drive/file.cc:251-257 | after it: the references are taken out |
| `Files.File.RunTimedClose` | src/maidsafe/drive/file.cc:237-259 | the two with nothing in between |
| `Files.File.Serialise` | src/maidsafe/drive/file.cc:88-118 | an open file is flushed and rebuilt with its open count; otherwise its chunks are collected unless a timed close has paid |
| `Files.SerialiseChildren` | src/maidsafe/drive/directory.cc:126-141 | one pass over a directory's files with the increments after it is as if each file were serialised on its own, and keeps every ledger |
| `DirectoryFiles.EveryRun` | src/maidsafe/drive/directory.cc:126-141 | over every interleaving of file steps, listing changes, serialising loops and stores: the counts and ledgers are right, the listing has the files' metadata, the entries a loop has written stand unless a write has yet to schedule the directory, and a modified buffer is an unsaved change or such a write |
| `DirectoryFiles.ModifiedIsWaitedFor` | src/maidsafe/drive/file.cc:186-218 | so while a child's buffer is modified the directory's timer is armed, a successful handler has yet to end its loop, or the write has yet to schedule it |
| `DirectoryFiles.WrittenIsReadBack` | src/maidsafe/drive/directory.cc:92-141 | in every run in which no snapshot is taken while another is in flight and the storage takes each, whenever all is saved, the newest version parses to the listing as it is, and each file opened from it holds the bytes its writes and truncations have made, with that size |
| `DirectoryFiles.QuietIsSaved` | src/maidsafe/drive/directory.cc:218-251 | once the writes have scheduled and no handler is outstanding, all is saved |
| `DirectoryFiles.SomeRunSaves` | src/maidsafe/drive/directory.cc:218-251 | from every state there is a run, of handlers alone and in which none overlap, after which all is saved and no file has changed |
| `DirectoryFiles.WhatIsWrittenGetsStored` | src/maidsafe/drive/directory.cc:92-141 | so the newest version can become the listing as it is with every file read back from it as it is now |
| `DirectoryFiles.NewFolderIsGood` | src/maidsafe/drive/directory.cc:40-57 | a new directory is a start of such runs |
| `DriveFiles.EveryRun` | src/maidsafe/drive/directory.cc:126-251 | over every interleaving of what happens in all directories of a drive on one chunk store, with files taken out of one directory and put into another, each directory and its files are as in `DirectoryFiles`, and no file is in two directories |
| `DriveFiles.DriveIsReadBack` | src/maidsafe/drive/directory.cc:92-141 | in every such run in which no snapshot of a directory is taken while another of it is in flight and the storage takes each, whenever all is saved, every directory's newest version parses to its listing as it is, and every file in any of them, wherever it has been before, is read back from there with the bytes its writes and truncations have made |
| `DriveFiles.QuietIsSaved` | src/maidsafe/drive/directory.cc:218-251 | once all writes have scheduled and no directory has a handler outstanding, all is saved |
| `DriveFiles.SomeRunSaves` | src/maidsafe/drive/directory.cc:218-251 | from every state of a drive there is a run, of handlers alone and in which none of one directory overlap, after which all is saved and no file has changed |
| `DriveFiles.WhatIsWrittenGetsStored` | src/maidsafe/drive/directory.cc:92-141 | so every file of the drive can get to where it is read back as it is now |
| `DriveFiles.NewDriveIsGood` | src/maidsafe/drive/directory.cc:40-57 | a drive with nothing on it is a start of such runs |
| `Examples.MissingSourceRemovesTarget` | include/maidsafe/drive/directory_handler.h:343-350 | with any one file in the root, renaming a file that is not there to it fails and removes it |
| `Examples.UncachedDirectoryIsLost` | include/maidsafe/drive/directory_handler.h:421-426 | on a stored drive with any two directories in the root, just loaded, so that cache, storage and tree agree, moving one into the other (whose name does not start with its own) fails and the directory is nowhere any more |
| `Examples.AddOverTakenName` | include/maidsafe/drive/directory_handler.h:224-242 | with any one directory in the root and cache and tree in agreement, adding another one of its name breaks that |
| `Examples.DeleteOrphans` | include/maidsafe/drive/directory_handler.h:318-336 | with any directory in the root and one in it, both cached and in agreement, deleting the outer one breaks that |

## Left out

- DirectoryHandlers.DirectoryHandler.Rename: requires that the re-keying loop ends (`Renaming.RekeyEnds`; on any other cache the loop is shown never to end), that both paths are below the root, and, as the source asserts, that they differ.
- DirectoryHandlers.DirectoryHandler.RekeyCache: requires that the loop ends, which `EndsIffNotChasing` makes exact.
- DirectoryHandlers.DirectoryHandler.RenameDifferentParent: the same.
- DirectoryHandlers.DirectoryHandler.WaitForHandlers: lets the moved directory's handlers run and no other thread's work.
- DirectoryHandlers.DirectoryHandler.Add: requires that a new directory's random id is new to tree and storage.
- DirectoryHandlers.DirectoryHandler.constructor: a storage that has the drive's id has the whole drive; what a damaged drive is loaded as is left out.
- Directories.EnumerateDirectory: requires the cursor within the children, where every change of them and every call leaves it.
- DirectoryHandlers.DirectoryHandler.RunFired: a handler between its snapshot and its commit is modelled for one directory (`DirectoryState`, `DirectoryFiles`) and for many (`DriveFiles`), not inside the handler's agreement, where `Put` is one step and nothing has thrown.
- DirectoryHandlers.DirectoryHandler.UpdateFile: a file's size and data map change together there; that a write changes the size and schedules later, and that only a flush changes the data map, is in `DirectoryFiles`.
- Directories.Directory.UpdateChild: likewise.
- Directories.Directory.SerialiseDirectory: takes the listing as it is; that the children loop flushes each file before it writes its entry is in `DirectoryFiles`.
- Directories.Directory.ProcessTimer: an expired listener, with which the handler stores nothing, and a `Put` that throws, which is in `DirectoryState`.
- VersionStore.Storage.PutVersion: refuses a version whose parent the tree lacks; what a storage does with it is the storage's, and `NeverForks` and the results after it have both.
- DirectoryFiles.WrittenIsReadBack: one directory, whose files stay in it or are removed; `DriveFiles.DriveIsReadBack` has all directories and files that move.
- FileState.LedgerEveryRun: the increments a children loop collects are made with the step that collects them; `Files.SerialiseChildren` shows that making them after the loop comes to the same, and the loop's handler makes them before it stores the version.
- MetaData.RoundTrip: symbolic links, whose target parsing drops, timestamps, allocation sizes and Windows attributes.
- MetaData.ParsesIffUnion: the rule for symbolic links, which have neither a directory id nor a data map.
- Files.File.Write: writing no bytes counts as modifying the buffer only through the codec, which then seals the same content.
- Stores by the handlers of directories that have been deleted or replaced; their ids are not reachable from the tree.
- What becomes of the thread whose handler throws, exceptions from `IncrementChunks` and from reads, permissions, destructors' best-effort stores, and threads racing on the cache.
- Several tips in one version tree as the start of a run, and the pruning of old versions inside the store; `DeleteOldestVersion` is empty in the source.
- The limits of the data buffers on memory and disk, and 32-bit lengths of single reads and writes.
- The FUSE and CBFS callbacks other than the enumeration loop, the launcher, the command-line tools and the installers.
- Self-encryption, hashing, the data-map cipher, the protobuf wire format and the network storage, which are libraries the repository calls.

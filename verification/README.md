# mindin, modelled and proved in Dafny

mindin keeps notes in a vault that several processes write at once. This project models the parts of it where writers
share state, and proves what the code keeps under every interleaving, over whole runs and for all inputs.

Protocols are state machines. A run is a `Trace`: a first state, then one event and the state after it at a time, so a
statement about the last step of any run is a statement about every step. Code that updates objects in place is modelled
as classes and methods with loops, each proved against a specification function; the properties are lemmas about those
functions and about the runs.

- `Texts`: strings, white space, decimals.
- `NoteTools`, `NoteEdits`, `Optimistic`, `RepoLog`, `Claims`: the tools that read a note, compute, and write it back only
  over the version they read; what each of them promises of the note it writes; what interleaved `log_append` and
  `append_file` calls leave; claims as leases. `NoteWrites` holds the same loops as loops, with other processes writing
  between any two calls into the store.
- `Close`: copy, delete, undo, by any number of closers. `NoteKeys`: note paths and the free name a note takes.
- `SealedNames`, `SealedListing`, `ListingRuns`: object names of a sealed vault, and its cached listing.
- `OpenVaults`: the table of open vaults.
- `NoteIndex`: the index tables, incremental sync, rebuild, and the tools that keep index and store in step.
- `Chunks`, `EmbedBatches`, `Vectors`, `Nearest`: from a note's text to its vectors and the search over them.
- `SharedHistory`: a shared vault's recorded history, replay and restore. It builds on `SealedNames`.
- `Slugs`, `Accounts`, `Secrets`, `DeviceChoices`: vault addresses, the account machine, authentication, one-time secrets,
  and what the person on the device page chose.
- `RateWindows`: the two rate limiters. `WebDav`: DELETE, MKCOL, MOVE and COPY over a folder tree.

What the code calls and this project does not show is a function with a law: frontmatter parsing, dumping and schema
validation, line patterns, the embedding model (the vector of a text does not depend on its batch), the name cipher and
the UTF-8 codec (decoding inverts encoding), the keyed hash of contents (no collisions), random secrets and nonces (never
drawn twice), the digests of secrets (no collisions), and the OAuth library's token handler, which is what refuses a refresh
that asks beyond the scopes of the token it presents (`Secrets.RefreshesNeverWiden` is conditional on that). `check_note`
of a shared vault, `slugify`'s loop, base64, the history's rows and the sort orders are written out.

## Where the code and the promise part

Each of these is a lemma: the exact condition, for all inputs, or a run that shows the failure.

- A claim can be lost under content-hash versions: a conditional `write` that looked while the note was unclaimed may
  match the version of a note released and claimed again within the second (`Claims.LostClaim`). A commit loses a claim
  exactly when its call looked at another claim than the one it overwrites (`Claims.LostExactly`); over all runs claims
  are safe exactly when no version is used twice (`Claims.SafeExactlyWithFreshVersions`).
- `log_append` keeps every entry, but an entry ending in white space loses that white space to the next append
  (`RepoLog.NothingIsStripped`).
- The use count of an open vault is one too high for good each time `catch_up`, or the closing of an evicted vault,
  raises for a holder (`OpenVaults.UseCountIsUsers`, `OpenVaults.LeakPins`).
- A write of another process that lands between this process's write and its patch is hidden by the patch
  (`ListingRuns.PatchHidesForeignWrite`), unless it left the version and size the patch shows
  (`ListingRuns.PatchIsRightExactly`), until the listing is next scanned (`ListingRuns.ForeignWriteShows`).
- An incremental sync keeps the stale row of a note it cannot read, a rebuild drops it (`NoteIndex.SyncIsRebuild`).
- A sealed move of a path onto itself deletes the note while its history row and its index row stay
  (`SharedHistory.MoveKeepsExactlyWhenApart`, `NoteIndex.MoveKeepsAgreement`).
- `hand_over` with a vault read before an earlier hand-over puts the current owner out (`Accounts.HandOverKeepsReach`),
  and breaks the rule of distinct addresses exactly when the owner it read reaches another vault with that slug
  (`Accounts.HandOverKeepsExactly`).
- Overlapping polls of one device code lose a step of the interval (`Secrets.OverlappingPollsLoseAStep`), and nothing
  else does (`Secrets.IntervalCountsExactly`).
- The token exchange itself checks no requested scopes: a refresh keeps within the token it loads, and within the code it
  comes from, exactly when it asks within them (`Secrets.ChainDescendsExactly`, `Secrets.WithinTheCodeExactly`).
- MOVE or COPY of a collection onto a collection it lies in loses what it held (`WebDav.OntoAnAncestorKeepsNothing`).
- The in-process block of an address is stricter than the counter it stands for (`RateWindows.BlockIsStricter`), exactly
  when the address was refused in this slot and the estimate has fallen below the limit since
  (`RateWindows.DiffersExactly`).

## Model

| member | source | states |
|---|---|---|
| Optimistic.Linearizable | mindin/notes.py:94-110 | the commit of any interleaved tool call is one atomic stored := change(stored), for the note stored at that moment; no other step of a call changes the note |
| Optimistic.OneCommitPerSuccess | mindin/notes.py:94-110 | over a whole run a call that reports success committed exactly once, and any other call (None, exception, final conflict) never |
| Optimistic.GivesUpAfterEveryAttempt | mindin/notes.py:96-110 | a call gives up only after its full number of attempts, each lost to another writer |
| NoteEdits.CommitDoesItsJob | mindin/notes.py:169-258 | every commit of every run leaves what its tool was asked for: `write` the caller's text and fields with the claim that was there, `append` the old text without its trailing white space and then the content whole, `set_status` status, priority and source as asked; body, dates, claim and every other field as promised |
| NoteEdits.DecisionIsRight | mindin/notes.py:169-258 | whatever a tool decides is right: it writes what was asked, leaves the note alone only for a claim in the way or none to release, and fails only when there is no note, it cannot be read, or the schema refuses exactly what the tool means to write |
| NoteEdits.EndsForAReason | mindin/notes.py:94-110 | a call that ends without a commit had that reason at the moment it read the note |
| NoteEdits.AppendedIsTheEnd | mindin/notes.py:189-202 | content that does not begin with a newline, appended to anything, is the end of the body |
| Texts.SpacesStripped | mindin/notes.py:198-199 | what is stripped before an append is white space at the end and nothing else |
| NoteWrites.Rewrite | mindin/notes.py:94-110 | the loop itself, with arbitrary writes by others between read and write: success is one change, to what the job asks, of what was stored when it was written; every other outcome has written nothing, and giving up follows the full number of attempts, each lost to a note another writer had changed |
| NoteWrites.BacklogAdd | mindin/notes.py:407-449 | success makes one note, at an accepted path that no note had, under one of the names tried; failure writes nothing, and a lack of names is reported only after every name tried was found taken |
| NoteWrites.CloseNote | mindin/notes.py:301-334 | the loop itself, with arbitrary writes by others between any two calls: a success archived exactly the version it removed under a name no note had, otherwise every copy was taken back unless somebody else removed it first, and a final conflict follows the full number of lost attempts |
| NoteWrites.NoteStore.PutChecked | mindin/backends/local.py:126-135 | writes exactly when the stored version meets the expected one, and then only that key |
| RepoLog.LogIsEveryCommittedEntry | mindin/notes.py:189-202 | however `log_append` and `append_file` calls interleave, the note is the starting text with the committed entries and contents appended in commit order |
| RepoLog.ReportedEntryIsStored | mindin/notes.py:355-383 | the entry a call reports, or the content it was given, is what stands at its place in commit order, once |
| RepoLog.PlacesDiffer | mindin/notes.py:355-383 | two successful calls have two places, so no entry stands for both |
| RepoLog.EveryEntryIsReported | mindin/notes.py:355-383 | every entry in the log belongs to a call that reported success |
| RepoLog.NothingIsStripped | mindin/notes.py:379-380 | appended one by one, entries stand whole after the old lines if and only if each entry but the last ends in text and the first of an empty log does not begin with a newline |
| RepoLog.RunKeepsEntriesWhole | mindin/notes.py:189-202 | over any run of interleaved appends everything that was appended stands whole, in commit order, under exactly that condition |
| Claims.ClaimChangesOnlyByRight | mindin/tasks.py:147-186 | a well-formed claim survives every step but its machine claiming again, a forced claim, a release naming it or none, the backlog, a close, or a direct write |
| Claims.ClaimTakesFreeNote | mindin/tasks.py:153-166 | an unforced claim that succeeds finds no other machine's claim, is what the note then carries, and keeps `since` for the same machine and task |
| Claims.ClaimLasts | mindin/tasks.py:147-186 | over any number of steps a claim stays, `since` and all, until something entitled ends it |
| Claims.ClaimsExclude | mindin/tasks.py:147-167 | while one machine's claim lasts no other machine's unforced claim succeeds |
| Claims.LostClaim | mindin/notes.py:182-185 | under content-hash versions, a run in which a write with the etag of an earlier read drops a live claim |
| Claims.LostExactly | mindin/notes.py:169-186 | a commit ends a claim without the right to if and only if it is a conditional write whose call looked at a note with another claim; the version it matched was not stored when it looked and is stored again |
| Claims.SafeExactlyWithFreshVersions | mindin/notes.py:169-186 | over all runs claims are safe if and only if no version is used twice |
| Close.RunRefines | mindin/notes.py:301-334 | to everybody else each step of a run is one faithful effect on the notes: a close is a single step that archives the version it deletes and overwrites no note |
| Close.NewestSurvives | mindin/notes.py:301-334 | a note that changes or goes was written by somebody else, or closed with exactly the content it had |
| Close.ClosedKeepsContent | mindin/notes.py:305-319 | the archived note has the text and every field of the original, but for the status that was asked for, the dates and the dropped claim; a date it had stays |
| Close.ClosesOnceOrNever | mindin/notes.py:301-334 | a close that returned closed the note exactly once, one that raised or is at work never |
| Close.GivesUpAfterFour | mindin/notes.py:301-334 | a close gives up only after its four attempts, each lost to another writer |
| Close.NoCopyIsLeft | mindin/notes.py:325-334 | when every closer has returned or raised, no copy of an unfinished close is left |
| Close.ExactlyOneCopy | mindin/notes.py:301-334 | any crowd of closers of an otherwise unwritten note leaves exactly one copy, under a name that was free, and changes nothing else |
| NoteKeys.FreeKey | mindin/notes.py:224-232 | terminates with the first name, in order, that is neither listed nor lost |
| NoteKeys.CandidatesDiffer | mindin/notes.py:224-232 | two numbers never give one name, which is why the search ends |
| NoteKeys.AcceptedIsListed | mindin/notes.py:60-75 | a path the tools accept is a note that the listing shows, and never the schema file |
| NoteKeys.AcceptedExactly | mindin/notes.py:60-75 | the tools accept exactly the listed notes whose paths are plain and have no empty segment, and for reading the schema file and the other listed files as well |
| NoteKeys.CandidateIsListed | mindin/notes.py:224-232 | every name tried in a folder the schema may declare is a note the listing shows |
| NoteKeys.CandidateIsAccepted | mindin/notes.py:224-232 | every name tried in a plain folder of the schema is one the tools accept |
| SealedNames.PathRoundTrip | mindin/backends/sealed.py:66-81 | every path of 1 to 512 bytes comes back from its object key |
| SealedNames.DistinctPathsDistinctKeys | mindin/backends/sealed.py:66-74 | distinct paths get distinct keys, and exactly the paths of 1 to 512 bytes get one |
| SealedNames.KeyShape | mindin/backends/sealed.py:73-74 | a key is one to four segments of 1 to 200 characters of the alphabet |
| SealedNames.DecodeEncode | mindin/backends/sealed.py:73-79 | the lenient base64 decoder inverts the encoder on every byte string |
| SealedNames.PaddingReturns | mindin/backends/sealed.py:73-79 | padding by length modulo 4 gives back exactly the padding that was stripped |
| SealedNames.UnfinishedIsAnError | mindin/backends/sealed.py:76-81 | a name without padding decodes if and only if its groups of four are whole |
| SealedListing.SealedBackend.Wrote | mindin/backends/sealed.py:120-129 | the patched listing is sorted and differs from the old one at the written path alone; the generation grows |
| SealedListing.SealedBackend.ReadListing | mindin/backends/sealed.py:131-145 | a scan lists exactly the names that decrypt, with plain sizes, sorted by path |
| SealedListing.DecodedExactly | mindin/backends/sealed.py:131-145 | a path is listed if and only if an object that is no folder has a name that decrypts to it, with that object's version and the size of its plain bytes |
| SealedListing.LessIsByFirstDifference | mindin/backends/sealed.py:145 | the listing's order is that of the first characters in which two paths differ, or of their lengths |
| ListingRuns.CacheIsCoherent | mindin/backends/sealed.py:100-145 | under every interleaving of scans, writes, failures and patches the cached listing is sorted and agrees with storage on every path not being written, unless another process changed it, or a write that another process overlapped was patched, since the listing was taken |
| ListingRuns.ForeignWriteShows | mindin/backends/sealed.py:99-110 | a reader answered from the cache sees every other process's write at least the listing's life ago, and a path whose write was overlapped is right again that long after its patch |
| ListingRuns.ScanIsCoherent | mindin/backends/sealed.py:105-110 | a scan that nothing overtook agrees with storage on every path not being written, not changed by others and not patched over an overlapping write since it began |
| ListingRuns.PatchHidesForeignWrite | mindin/backends/sealed.py:120-129 | a run in which another process's write stays hidden because it fell between a write and its patch |
| ListingRuns.PatchIsRightExactly | mindin/backends/sealed.py:120-129 | after a patch the listing is right about the key if and only if no other process changed it since this process's own write, or the last change left the very version and size written |
| ListingRuns.OverlappedExactly | mindin/backends/sealed.py:120-129 | what excuses a path after a patch is recorded exactly when the patch went over a change by another process, and by nothing else |
| ListingRuns.LooksExactly | mindin/backends/sealed.py:100-110 | a reader gets the cached listing if and only if it is younger than its life, and otherwise a scan |
| ListingRuns.ForgottenIsScanned | mindin/backends/sealed.py:112-118 | forgetting the listing leaves none, and no scan under way will be kept as one |
| OpenVaults.OneOpener | mindin/vault.py:444-463 | at most one thread opens the vault of a key at a time |
| OpenVaults.NeverOverwritten | mindin/vault.py:444-472 | a vault in the table is never replaced, and a key leaves the table only when nobody uses it |
| OpenVaults.HeldVaultIsOpen | mindin/vault.py:421-432 | whoever holds a vault holds the one in the table, neither closed nor on its way out, so all holders of a key share one |
| OpenVaults.UseCountIsUsers | mindin/vault.py:421-463 | the use count is the number of users plus the exceptions that lost a use, so it is exact if and only if neither `catch_up` nor the closing of an evicted vault raised for a holder of the key |
| OpenVaults.LeakPins | mindin/vault.py:462-463 | a use leaked by an exception keeps its vault from ever being evicted |
| OpenVaults.LeavesExactlyWhenIdle | mindin/vault.py:503-510 | a vault leaves the table if and only if somebody enters, nobody uses it, and its last use in the run lies longer back than the idle time |
| OpenVaults.NoVaultIsForgotten | mindin/vault.py:503-519 | as long as closing never raises, every vault ever opened is in the table, about to be put there or closed, or closed |
| OpenVaults.GateIsHeld | mindin/vault.py:444-463 | a shut gate is held by a thread inside it, so none stays shut |
| OpenVaults.VaultEvicted | mindin/vault.py:444-519 | a run in which two threads share a vault that one of them opened, and it is then evicted and closed |
| OpenVaults.SubjectVaults.Evict | mindin/vault.py:503-510 | the loop removes exactly the entries idle for too long and not in use, and returns their vaults |
| NoteIndex.UpsertedAt | mindin/index.py:326-380 | an upsert leaves exactly the rows of the new text under its key, however many there were, and every other key as it was |
| NoteIndex.RowSaysTheNote | mindin/index.py:135-160 | the row of a note says what its frontmatter says, each field under its own name and cut at the limit, an untitled note by its stem; one that cannot be read is marked and known by its stem |
| NoteIndex.FolderAndStem | mindin/index.py:140-141 | the folder of a note is what stands before its first slash, its stem what stands after the last, without the suffix |
| NoteIndex.SyncIsRebuild | mindin/index.py:440-467 | sync and rebuild give the same rows up to times if and only if no listed note that cannot be read has a row |
| NoteIndex.SyncShowsWhatCanBeRead | mindin/index.py:423-456 | after a sync every listed note that can be read shows its stored content, and no other key shows anything |
| NoteIndex.SyncKeepsDerivation | mindin/index.py:423-456 | after a sync every row still derives from the version it names |
| NoteIndex.SyncAgrees | mindin/index.py:440-456 | a sync brings index and store into agreement if and only if every changed note can be read |
| NoteIndex.AgreedSyncIsIdle | mindin/index.py:440-456 | in agreement, a sync fetches nothing and changes nothing |
| NoteIndex.PutKeepsAgreement | mindin/notes.py:90-110 | storing and reindexing a text keeps the agreement if and only if the key is a note the listing shows |
| NoteIndex.DeleteKeepsAgreement | mindin/notes.py:217-221 | delete keeps the agreement |
| NoteIndex.MoveKeepsAgreement | mindin/notes.py:205-214 | move keeps the agreement unless a backend that copies and deletes moves a note onto itself |
| NoteIndex.ArchiveKeepsAgreement | mindin/notes.py:312-333 | closing into a schema folder keeps the agreement, whichever free name is taken |
| NoteIndex.StoreAfterTool | mindin/notes.py:205-221 | what each tool leaves in the store under every key |
| NoteIndex.Index.Sync | mindin/index.py:440-456 | the removal and fetch loops leave under every key what a sync should, count the changed notes, and do nothing within the throttle |
| NoteIndex.Index.Rebuild | mindin/index.py:462-467 | a rebuild is a sync from empty tables |
| NoteIndex.Index.Upsert | mindin/index.py:326-368 | the four deletions and insertions amount to one replacement of the key's rows |
| NoteIndex.NoteVault.Move | mindin/notes.py:205-214 | store and index after a move, on both kinds of backend |
| Chunks.SectionsKeepTheBody | mindin/vectors.py:46-60 | the sections hold the lines that are not headings, in order, one section per heading, each under the headings open where it begins |
| Chunks.HeadingsAreOutsideFences | mindin/vectors.py:49-56 | a line is a heading if and only if it looks like one and an even number of fence lines stands up to it; every other line is text |
| Chunks.TrailIsThePath | mindin/vectors.py:57-59 | the trail has rising levels and holds exactly the headings that no later one of their rank has closed |
| Chunks.WindowsKeepTheWords | mindin/vectors.py:70-73 | windows lose no word, none is empty, none longer than 90 words |
| Chunks.PassagesKeepTheWords | mindin/vectors.py:63-74 | splitting a section's windows again gives the words of the summary, before the first heading, and of each line, in order |
| Chunks.PassagesSayTheNote | mindin/vectors.py:63-74 | splitting a passage's text gives the words of the title, of the headings it stands under, and of its window, and its heading is the innermost of them; all windows together, of 1 to 90 words, hold the words of the summary and of every line that is no heading, once and in order |
| Chunks.Sections | mindin/vectors.py:46-60 | the line loop with its fence flag and its trail computes the sections |
| Chunks.MakeChunks | mindin/vectors.py:63-74 | the window loops compute the passages of a note, which say the note as in `PassagesSayTheNote` |
| EmbedBatches.ShortestFirst | mindin/embed_worker.py:134-137 | batches of any positive size hold every position once, shortest texts first, equal lengths in their own order |
| EmbedBatches.Embed | mindin/embed_worker.py:155-161 | scattering back gives each text its own vector at its own place, whatever the batch size |
| Vectors.EmbeddedMeansItsVersion | mindin/vectors.py:223-244 | under interleaved upserts, removals, rebuilds and workers an embedded row means the passages of the version it names, each with its own vector, in order |
| Vectors.StepBumps | mindin/vectors.py:102-117 | no commit changes the chunk rows without a new generation |
| Vectors.Store.EmbedBatch | mindin/vectors.py:223-244 | flattening, embedding and slicing by offset store for each note the vectors of its own passages |
| Vectors.Store.EmbedPending | mindin/vectors.py:150-164 | on a quiet index the loop ends with every note embedded at its version, nothing stale, and the count of what was pending |
| Vectors.Store.DropStale | mindin/vectors.py:197-208 | exactly the rows of another model, or of notes that changed or went, are dropped |
| Vectors.DroppedExactly | mindin/vectors.py:197-208 | after that, exactly the notes embedded by this model at their present version are left, with their rows |
| Vectors.NothingStaleIsStored | mindin/vectors.py:223-244 | an embedding that a worker stores is of the note's version at that moment, however long ago the worker read it |
| Vectors.BatchIsEmbedded | mindin/vectors.py:223-244 | a batch read and stored with its notes unchanged is embedded |
| Vectors.WritesLeave | mindin/vectors.py:102-117 | an upsert leaves its note pending, a removal neither the note nor its embedding, a rebuild nothing |
| Vectors.StoredAllSettles | mindin/vectors.py:223-244 | storing a batch settles each of its notes and disturbs no other |
| Nearest.CachedRowsAreTheTable | mindin/vectors.py:246-256 | whenever the cached generation is the stored one the matrix is the chunk table, whatever was committed between reading the two |
| Nearest.LoadIsCurrent | mindin/vectors.py:246-256 | a load with no commit in between leaves the matrix of the stored generation |
| Nearest.DotIsTheInnerProduct | mindin/vectors.py:270 | the similarity is the inner product: symmetric, linear, and with a unit vector the coordinate there |
| Nearest.Search | mindin/vectors.py:258-279 | the hits are the notes with a row at or above the threshold, each once at its best row, best first |
| Nearest.SearchIsExact | mindin/vectors.py:246-279 | over whole runs, a search on a current matrix finds exactly the notes with a near enough passage in the version they are embedded at |
| SharedHistory.HistoryReplays | mindin/shared.py:160-185 | at every moment of a run the recorded changes replay to the contents of the recorded paths, and every stored note is one the vault's rules allow |
| SharedHistory.HistoryOnlyGrows | mindin/auth/hosted_history.py:66-108 | no row is changed or lost, every kept version stays readable, and recorded contents never change without one more row signed by the one who changed them |
| SharedHistory.RestoreBringsBack | mindin/auth/hosted_history.py:154-168 | a restore succeeds if and only if the change updated or deleted; its path then holds what replay gave before that change, nothing else moves, and at most one marked row is added |
| SharedHistory.MoveKeepsExactlyWhenApart | mindin/shared.py:180-185 | after a move the history still replays if and only if the paths differ or the source is not recorded |
| SharedHistory.PastIsPermitted | mindin/shared.py:98-107 | at no point of the history did a recorded path hold what the rules refuse |
| SharedHistory.PutIsConditional | mindin/shared.py:160-166 | a put succeeds if and only if the rules let the content in and the path is stored as expected; it then holds the content in a version of its own, and nothing else changed |
| SharedHistory.DeleteIsConditional | mindin/shared.py:168-178 | a checked delete succeeds if and only if the path is stored at the version expected, and takes that path alone |
| SharedHistory.MoveMoves | mindin/shared.py:180-185 | a move to another path leaves the source's content there and nothing at the source, and changes nothing else |
| SharedHistory.FolderIsMade | mindin/backends/sealed.py:178-185 | a folder is made under its name with one slash, however many it was given |
| SharedHistory.ValidPathsHaveNames | mindin/backends/sealed.py:66-74 | the paths that the calls take are exactly those that have an object name |
| SharedHistory.NoVersionTwice | mindin/backends/sealed.py:161-170 | over a run, what a step stores has a version that no path has had at any moment before |
| SharedHistory.NoLostUpdate | mindin/shared.py:160-178 | over a run, a put or delete that succeeds on a version somebody read has found the path as it was then, at that moment and at every moment in between |
| SharedHistory.LayoutIsFixed | mindin/shared.py:98-107 | over a run, whatever is stored under .vault/, folders apart, was there from the beginning, unchanged |
| SharedHistory.NotesLieInTheirFolders | mindin/shared.py:83-107 | at every moment each recorded note lies in Areas/, Resources/ or Archive/ and is of a kind that folder takes |
| SharedHistory.RulesLetInExactly | mindin/shared.py:98-107 | the rules refuse the layout and, of the recorded notes, exactly those outside the three folders or of a kind their folder does not take |
| SharedHistory.RecordedBySegments | mindin/shared.py:68-69 | a path is recorded if and only if it is no folder and no segment of it is hidden |
| SharedHistory.SharedBackend.PutChecked | mindin/shared.py:160-166 | check, previous version, conditional write and record amount to one step of the specification; a success found the path as expected and stored the content there alone |
| SharedHistory.SharedBackend.MoveFile | mindin/shared.py:180-185 | the move and its row amount to one step of the specification |
| SharedHistory.History.RestoreChange | mindin/auth/hosted_history.py:154-168 | the restore, with the search for the newest row of the path, amounts to one step of the specification |
| Slugs.FreeSlug | mindin/auth/hosted_vaults.py:156-162 | for every base and fewer than 9·10^30 taken slugs, terminates with the first usable candidate: valid and not taken |
| Slugs.FreeStemIsTaken | mindin/auth/hosted_vaults.py:156-162 | a base that is usable as it stands is taken as it is, and one without a letter stands for the fallback |
| Slugs.SlugsAreSafe | mindin/auth/hosted_vaults.py:152-153 | a slug is 1 to 32 lower-case letters and digits, the first a letter, and not `new` |
| Slugs.SomeNumberIsUsable | mindin/auth/hosted_vaults.py:156-162 | although truncation makes candidates collide, some number below 10^31 is usable |
| Slugs.SlugIsOfTheText | mindin/auth/hosted_vaults.py:143-145 | a slug is the letters and digits of the folded text in order, from the first letter and cut only at the limit; a text that is one stays as it is |
| Slugs.RewriteSlugs | mindin/auth/hosted_vaults.py:309-320 | globally unique old slugs become valid ones, distinct for every holder; valid ones, owners and names are kept, and a new one is called after the vault, or is the standard address for an owner's first |
| Slugs.HoldersReach | mindin/auth/hosted_vaults.py:165-175 | the holders of a vault are exactly those who reach it |
| Accounts.AlwaysGood | mindin/auth/hosted_store.py:388-510 | in every reachable state, hand-overs from an outdated read included, no account reaches two vaults with one slug, only shared vaults have members, no owner is a member row, and nothing names a vault that is gone |
| Accounts.SucceedsExactly | mindin/auth/hosted_store.py:388-510 | each call succeeds if and only if a condition on who reaches what holds, said without the queries that check it |
| Accounts.ReachMoves | mindin/auth/hosted_store.py:388-510 | who reaches which vault after each call, exactly: a removal takes that member from that vault and nobody else, an accepted invitation is left waiting only for a vault with its slug |
| Accounts.InvitationsMove | mindin/auth/hosted_vaults.py:343-367 | invitations come with an invitation alone, and go when withdrawn, accepted, or with their vault |
| Accounts.VaultRowsMove | mindin/auth/hosted_store.py:388-510 | every vault's row after each call: who owns it, its name, slug and kind |
| Accounts.AccountsMove | mindin/auth/hosted_store.py:272-302 | accounts come by joining and go by deletion, and of their rows only the status is ever set |
| Accounts.DevicesMove | mindin/auth/hosted_store.py:419-436 | a device's row goes when it is dropped, when its account is removed from its vault, or with either, and never otherwise |
| Accounts.ReachAgrees | mindin/auth/hosted_vaults.py:165-192 | the three queries of who reaches what, and the holders of a vault, give one answer |
| Accounts.HandOverKeepsReach | mindin/auth/hosted_store.py:438-460 | handing over changes nobody's reach if and only if the owner was read correctly |
| Accounts.HandOverKeepsExactly | mindin/auth/hosted_store.py:438-460 | handing over a vault read before an earlier hand-over keeps every invariant if and only if the owner read reaches no other vault with its slug |
| Accounts.RemovalIsFinal | mindin/auth/hosted_store.py:419-436 | a key or token of a member that exists when the member is removed never authenticates again in any later state |
| Accounts.RemovedStaysOut | mindin/auth/hosted_store.py:419-436 | over a run, until an invitation is accepted or a hand-over takes the account for the owner, a removed member does not reach the vault, no secret opens it for that account, and it can make no key for it |
| Accounts.KeysEndExactly | mindin/auth/hosted_store.py:419-436 | a live key stays as it is after every call but one that revokes it, removes its account from its vault, or deletes either |
| Accounts.TokensEndExactly | mindin/auth/hosted_store.py:419-436 | the same of tokens |
| Accounts.NewSecretsAreLive | mindin/auth/hosted_keys.py:279-316 | a new key or token is live, bound to the account and vault it was made for, with its scopes |
| Accounts.AccessIsSound | mindin/auth/hosted.py:278-355 | any access granted names an active account that reaches the bound vault at that moment, with scopes among those granted, and the vault of the address |
| Accounts.KeyOpensExactly | mindin/auth/hosted.py:278-355 | a key opens its vault, with exactly the scopes left to its account, if and only if it is live and its active account reaches the vault of the address |
| Accounts.TokenOpensExactly | mindin/auth/hosted.py:278-355 | the same of an access token, which must be for this server and address and not have expired |
| Accounts.HostedStore.HandTo | mindin/auth/hosted_store.py:438-460 | the statements of hand_over are one transaction of the specification |
| Accounts.HostedStore.RemoveFrom | mindin/auth/hosted_store.py:419-436 | the statements of remove_member are one transaction of the specification, after which exactly that member no longer reaches that vault |
| Accounts.HostedStore.AcceptFor | mindin/auth/hosted_vaults.py:343-367 | the loop over invitations accepts each vault or leaves it waiting, one transaction of the specification |
| Accounts.HostedStore.MakeVault | mindin/auth/hosted_store.py:471-486 | a vault at the slug asked for or at the first free one, one transaction of the specification |
| Accounts.HostedStore.DropAccount | mindin/auth/hosted_keys.py:300-316 | deleting an account deletes its vaults with every row that names them, unless one is shared with others |
| Secrets.AtMostOnce | mindin/auth/hosted.py:204-269 | however requests interleave, each code and each refresh token yields at most one access and one refresh token, each device code at most one key |
| Secrets.IssuedIsTaken | mindin/auth/hosted.py:204-269 | what has been issued for a secret is exactly what its one taker has got to |
| Secrets.ChainDescendsExactly | mindin/auth/hosted.py:204-269 | every refresh token hangs by a chain of exchanges from a code minted for the same client, account and vault; no scope is gained along the chain if and only if each refresh asked within the token it loaded |
| Secrets.WithinTheCodeExactly | mindin/auth/hosted.py:241-269 | a refresh token stays within its code's scopes if and only if the last refresh of its chain to ask for any scopes asked within them |
| Secrets.RefreshesNeverWiden | mindin/auth/hosted.py:241-269 | as long as each refresh asks within the token it loaded, no refresh token of a chain of any length has a scope its code was not minted with |
| Secrets.KeyNeedsApproval | mindin/auth/device.py:120-160 | a device gets a key only after somebody approved it, for that account, vault and scopes, within those asked for, polled before expiry |
| DeviceChoices.KeyFollowsTheChoice | mindin/auth/device.py:244-272 | a key is for the account that approved and the vault it chose, in the decision the device's poll found: with reading always, with writing if and only if the person chose it and the device had asked for it, with nothing else; for the client that started the device |
| DeviceChoices.JudgedExactly | mindin/auth/device.py:120-145 | a poll passes if and only if it comes in time, at least the interval after the last one, and after a decision; it is told to slow down if and only if it comes too soon |
| DeviceChoices.DecidersWereShown | mindin/auth/device.py:244-272 | nobody decides on a code who was not shown it while it was there, unexpired and undecided |
| DeviceChoices.FoundExactly | mindin/auth/hosted.py:196-239 | a token request finds a code or refresh token if and only if it is still there and made for that client |
| DeviceChoices.RemovedStaysGone | mindin/auth/hosted_store.py:738-760 | a secret that was revoked or has expired yields nothing at any later moment of the run |
| DeviceChoices.DeviceGetsItsKey | mindin/auth/device.py:120-160 | a run in which somebody approves writing and the device gets its one key |
| DeviceChoices.RefreshNarrows | mindin/auth/hosted.py:204-269 | a run in which a code yields its tokens and the refresh token is exchanged for a narrower one |
| DeviceChoices.IssuedToItsClient | mindin/auth/hosted.py:196-249 | tokens are issued to the client a code or refresh token was made for, on its terms, and for a code before it expires |
| Secrets.IntervalCountsExactly | mindin/auth/device.py:120-134 | under every interleaving of polls the interval is 5 plus 5 for each slow_down if and only if no poll was told to slow down after another had been since it read its row |
| Secrets.IntervalCountsSlowDowns | mindin/auth/device.py:132-134 | with atomic polls none overlap, so the interval is 5 plus 5 for each slow_down |
| Secrets.IntervalNeverAhead | mindin/auth/device.py:132-134 | with interleaved polls the interval never exceeds that |
| Secrets.OverlappingPollsLoseAStep | mindin/auth/device.py:132-134 | a run with two slow_downs and an interval that grew once |
| RateWindows.MemoryWindow.Allow | mindin/auth/hosted_web.py:176-186 | the pruned and swept window decides exactly as one that remembers every admitted hit |
| RateWindows.AtMostLimitInAnyWindow | mindin/auth/hosted_web.py:176-186 | at most `limit` admitted hits in any window, wherever it ends |
| RateWindows.RecentIsTheWindow | mindin/auth/hosted_web.py:176-186 | the hits that count are exactly those of the window that ends now |
| RateWindows.RateCounter.HitOnce | mindin/auth/hosted_web.py:117-134 | two rows decide exactly as the estimate over everything ever admitted |
| RateWindows.RateCounter.ForgetBefore | mindin/auth/hosted_web.py:136-138 | forgetting old slots keeps the counter's invariant, hence every later verdict |
| RateWindows.AtMostLimitInASlot | mindin/auth/hosted_web.py:117-134 | at most `limit` hits in a slot |
| RateWindows.AtMostTwiceInAnyWindow | mindin/auth/hosted_web.py:117-134 | at most twice the limit in any window |
| RateWindows.AdmittedStayBounded | mindin/auth/hosted_web.py:117-138 | what a counter has admitted for a key, whatever rows were forgotten, obeys all three bounds: per slot, per window, and on the estimate from now on |
| RateWindows.EstimateStaysBelow | mindin/auth/hosted_web.py:117-134 | the weighted estimate stays below limit + 1 at every moment from the last hit on |
| RateWindows.EstimateIsTheShare | mindin/auth/hosted_web.py:117-134 | the estimate counts the present slot whole and, of the slot before, the share that a window ending now still covers |
| RateWindows.SharedWindow.Allow | mindin/auth/hosted_web.py:159-174 | lets in exactly when the address is not blocked and the counter lets it in; the new block table and the recorded hits are determined, entry by entry |
| RateWindows.LetsInExactly | mindin/auth/hosted_web.py:117-134 | the counter lets a hit in if and only if with it every hit was let in below the limit |
| RateWindows.BlockingBlocks | mindin/auth/hosted_web.py:159-174 | a refusal blocks that address and no other until the given end, while there is room |
| RateWindows.UnblockingChangesNothing | mindin/auth/hosted_web.py:159-174 | forgetting blocks that are over unblocks nobody |
| RateWindows.DiffersExactly | mindin/auth/hosted_web.py:159-174 | the window answers otherwise than its counter if and only if the address is blocked for this very slot and the estimate has fallen below the limit since; whatever it refuses, the counter refuses now or refused at an earlier moment of the slot |
| RateWindows.BlockIsStricter | mindin/auth/hosted_web.py:163-174 | a run of three calls through the window: an address stays refused halfway through a slot, when the counter alone would let it in |
| WebDav.FolderStore.DeleteTree | mindin/dav.py:340-349 | nothing is left at or under the folder, nothing else changes, and no folder is asked to go while it holds something |
| WebDav.FolderStore.Transfer | mindin/dav.py:376-419 | which of its answers MOVE and COPY give, in the order of their guards: done as specified for a file or a folder, or refused with the tree unchanged |
| WebDav.AnswersExactly | mindin/dav.py:376-398 | each answer of MOVE and COPY, if and only if a condition on which files and folders there are |
| WebDav.TransferIsARenaming | mindin/dav.py:408-419 | the target becomes exactly the source tree renamed, MOVE empties the source, COPY keeps it, every other key is as it was |
| WebDav.OntoAnAncestorKeepsNothing | mindin/dav.py:392-398 | onto a folder the source lies in, the target gets the source if and only if the source held nothing |
| WebDav.ThereAndBack | mindin/dav.py:408-419 | moving a folder to a free place and back restores the tree |
| WebDav.FolderStore.Children | mindin/dav.py:232-249 | gathering first segments over everything under a folder gives exactly the folders and files directly in it |
| WebDav.ChildrenAreDirect | mindin/dav.py:232-249 | a child goes on from its folder without a slash but at its end |
| WebDav.FolderStore.DoDelete | mindin/dav.py:327-338 | DELETE of the root, of nothing, of a file and of a folder |
| WebDav.FolderStore.DoMkcol | mindin/dav.py:351-359 | which of its answers MKCOL gives, and the tree after it |

## Left out

- YAML typing: a frontmatter field is a string, so dates and lists keep only their rendering.
- White space is ASCII and Latin-1; other Unicode spaces are not modelled.
- Local folders of a note store other than WebDAV's: notes are keys, and a folder is whatever prefix keys share.
- Two writes of one process to one key of a sealed vault that overlap are excluded, as is a write by others to a copy whose close is under way.
- `discard` and `close` of a vault somebody holds are not part of the table machine.
- A sealed listing's scan may call more keys dirty than it must: a key changed during a scan is excused by time, not by page.
- `delete_checked` on a backend without one of its own, which the code says may lose a write.
- The index's full-text ranking, its `repos` table and its schema upgrades; a store that changes while a sync runs.
- Keyed leases of the embedding worker: the vector invariants hold without them, and the worker of `EmbedPending` keeps its lease.
- Two embedding models writing one index at the same time.
- WebDAV on flat object stores, where folders are optional markers; conditional PUT and PROPFIND rendering; keys with `.` and `..` segments, which the handler refuses.
- Expiry of sessions and clients, passkeys, support grants, the two older schema upgrades, and key wrapping.
- Real file systems, object stores and SQLite: a checked write, a store method and a database call are each one atomic step.
- `release_claims_of`, which releases one note after another; each release is covered.
- HTTP, OAuth and MCP plumbing, mail, pages, search ranking, lint and the command line: presentation, or members of one branch.
- Slugs.FreeSlug: assumes fewer than 9·10^30 taken slugs; beyond that the code has no promise.
- Accounts.AlwaysGood: takes each store method as one transaction; a `hand_over` of an outdated read is included unless it meets the failing condition of `HandOverKeepsExactly`.
- Accounts.AccessIsSound: takes the several reads of `authenticate` as one moment.
- NoteIndex.SyncIsRebuild: holds for a store that is quiet during the sync and whose versions determine content.
- RateWindows.EstimateStaysBelow: over real numbers, without the rounding of floating point.
- Nearest.SearchIsExact: similarities are real numbers, without rounding and without vectors that are not numbers.

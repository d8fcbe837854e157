# Verification of the jig cache, its daemon and the relocation of binaries

A Dafny model of the parts of this repository whose correctness cannot be seen by reading one
function: the daemon's blob store and its behaviour across crashes, the admission of jobs, the
compile cache and its keys, the in-place rewriting of ELF and Mach-O files, the loader stub, and the
codecs and framing between them. `dafny verify dfyconfig.toml` covers all of it.

## How it is laid out

| part | modules |
|---|---|
| common | `Bytes`, `Sums`, `Text`, `Decimal` |
| blob store | `PackFile`, `PackDisk`, `PackSet`, `BlobState`, `StoreOpen`, `StoreCrash`, `Demotion`, `StoreRuns`, `StoreLives`, `BlobStore` |
| admission | `Slots`, `Admission`, `Broker` |
| compile cache | `Masking`, `OutHash`, `Roots`, `RequestKey`, `Manifest`, `Compiler`, `Replay`, `ReplayRuns`, `ReplayFails` |
| relocation | `Paths`, `Lookup`, `Relocation`, `Runpath`, `BinaryImage`, `ElfDynamic`, `ElfFixup`, `ElfResolution`, `ElfFails`, `Loader`, `MachO`, `MachOPaths` |
| codecs, framing, quoting | `Base64`, `Nix32`, `Sha256`, `PackedFiles`, `CacheClient`, `Quoting` |

What the source updates in place is a class here (`BlobStore.Store`, `Slots.Scheduler`,
`Broker.SemBroker`, `RequestKey.Hasher`, `ReplayRuns.Server`, `BinaryImage.Image`, `Loader.AddressSpace`,
`CacheClient.Client`, ...) whose methods are proved against functions on values; the theorems are
about those functions. Concurrency is a state machine over atomic steps.

**Blob store.** A pack is a sequence of bytes, a hint a second one. The disk is, per pack id, the
files that ever were that pack (an unlinked one stays readable), which of them each tier links, and
the hints. Every operation on the disk may be cut short by a crash; an append may stop at any byte.
`PackFile` is about bytes, `PackDisk` and `PackSet` about what a restart would read from a disk,
`BlobState` and `Demotion` about the state in memory beside it, `StoreCrash` about crashes,
`StoreRuns` about one run of the daemon and `StoreLives` about any number of runs, crashes and
restarts. `BlobStore` is the store itself.

**Admission.** The daemon is one scheduler and a ledger per connection; a broker holds connections,
its tick is cut where ghc, the daemon or another client can come in between. A broker starts with an
empty semaphore.

**Compile cache.** A compiler is a decision tree over "what is at this path"; which tree follows from
the call as it was made, before anything is masked, and from the toolchain. The hash function is
taken as free of collisions. Files of the store do not change, but those below `$out` may at any
time. Files do not hold the placeholder for the own output by themselves, recorded paths are normal,
free of tabs and newlines and found again under their masked names, and a compile writes only its
outputs, whose content makes no difference to it. `Replay` is about what keys and manifests pin,
`ReplayRuns` about whole runs, `ReplayFails` has the runs that go wrong.

**Relocation.** Paths are lists of names; which directory holds which file is a parameter. The
dynamic linker of the model opens a NEEDED with a slash directly and looks for any other along
RUNPATH. `ElfResolution` follows one file from its bytes through reading, choosing and rewriting to
its bytes read again. Neither place of a tree, where it is and where it will be, is inside the other.

## Where code and documentation differ

The model follows the code.

- `store.h` says that `MaskHashes` masks every occurrence. A store path that begins on the last
  character of a prefix the scan stopped at, or right behind it, keeps its hash
  (`Masking.MaskedMisses`); `Masking.MaskedIsCleanIff` says exactly when none is left.
- Equal request keys are taken for equal compiles. By content, two calls that differ only in a store
  hash inside an argument have one key, and the second replays the first's object
  (`ReplayFails.DefineHitsWrongly`). Of two calls with one key of which one comes back from its
  masked form, the other is the same call iff it comes back too (`Replay.OneKeyOneCall`).
- A manifest is taken to tell when a result is stale. Below `$out` it does not remember what was not
  there, and by path not what was in a file: `ReplayFails.InstalledLaterStillHits`,
  `ReplayFails.ChangedHeaderStillHits`. A hit is right for every compiler that could have made the
  stored run iff nothing it missed there has come and, by path, nothing it read there has changed
  (`ReplayRuns.HitIsRightIff`). By the same gap a success may be stored under the key of an earlier
  failure, which is then replayed instead (`ReplayFails.KeptFailureIsReplayed`); when, say
  `ReplayRuns.StoredIsFound` and `ReplayRuns.KeptFailureIsStale`.
- A NEEDED found in a lib directory of the package itself is lost when that directory also holds a
  libc (`Runpath.OwnLibcIsLost`); `Runpath.ResolutionIsPreserved` and `ElfResolution.FileResolves`
  have this as their exact condition.
- A NEEDED that stays a soname and whose string the linker merged into the RUNPATH string is
  overwritten with it (`ElfFails.MergedSonameIsLost`); `ElfResolution.NameIsReadIff` says which
  names survive, `ElfResolution.VersionIsReadIff` which version needs. The guard for symbol names
  misses one that begins with the RUNPATH string or runs into it
  (`ElfFails.SharedSymbolIsRenamed`, `ElfResolution.SymbolIsKeptIff`).
- What follows `$ORIGIN/` or `@loader_path/` is taken as absolute if it begins with another '/',
  where the dynamic linkers count it from the file's directory too (`ElfFails.DoubledSlashIsLost`,
  `MachOPaths.DoubledLoadIsMoved`). The two readings of one entry are the same directory iff its
  way leads to one place from the root and from the file (`ElfResolution.NamedIsWhere`), those of a
  RUNPATH find every library on every disk alike iff they are the same directories in the same
  order, each counted where it comes first (`ElfResolution.AllPickedIff`). `ElfResolution.FileResolves`
  and `MachOPaths.LoadIsKept` say for each library and load command what this means.
- An `@rpath` is looked for in the package's own directories, where dyld goes by the run paths of the
  image. Where both have a file the image loads another one afterwards
  (`MachOPaths.RpathLoadIsMoved`); `MachOPaths.TargetIsOpenedIff` says when dyld comes to the file
  the tool chose, `MachOPaths.RpathAgreesIff` when it does on every disk.
- `relative-link` gives an empty text for a link to the directory it is in
  (`Paths.LinkToOwnDirectory`, `Paths.LinkLeadsHome`).
- The loader stub clears the rest of a segment's last file page only if the segment can be written
  (`Loader.ReadOnlyTailShows`, `Loader.TailIsZeroIff`).
- `fixup_mode.h` says that LC_ID_DYLIB becomes `@rpath/<name>`; the code writes the file's final path.
- When the client drops a connection over an impossible length, "the stream is lost", it goes on
  taking answers from the piece it had read last (`CacheClient.LeftoverIsTaken`). The later values
  are none iff the rest of that piece holds no complete answer (`CacheClient.LaterAreNoneIff`).

## Model

| member | source | states |
|---|---|---|
| `PackFile.ScanAppended` | pkgs/ji/jigd/src/store.go:167-186 | appending one record to a complete pack makes the scan find exactly the records it found before and that one |
| `PackFile.ScanTorn` | pkgs/ji/jigd/src/store.go:167-186 | a pack followed by any strict prefix of a record scans to the pack's own records, and the scan ends where the pack did |
| `PackFile.ScanTruncated` | pkgs/ji/jigd/src/store.go:167-196 | truncating a file to where its scan ended leaves a complete pack with the same records |
| `PackFile.ContentsInside` | pkgs/ji/jigd/src/store.go:167-186 | every entry of a pack's last-write-wins contents lies inside the pack and under its own key |
| `PackFile.HintRoundTrip` | pkgs/ji/jigd/src/store.go:199-225 | reading a hint file back gives the entries it was written from |
| `PackFile.HintAgrees` | pkgs/ji/jigd/src/store.go:121-196 | loading a true hint and scanning its pack come to the same contents |
| `PackFile.HintAfterLoss` | pkgs/ji/jigd/src/store.go:146-165 | a sealed pack cut short at any byte loads, through its hint, exactly the values that are still whole |
| `PackSet.HoldsAppend` | pkgs/ji/jigd/src/store.go:263-328 | an append torn after any number of bytes leaves every other key's binding, and its own key's old one until the last byte is there |
| `PackSet.AnyCrash` | pkgs/ji/jigd/src/store.go:121-242 | whichever safe disk operation the process dies in, the disk stays readable and every binding the operation is not about survives |
| `PackSet.TruncateSame` | pkgs/ji/jigd/src/store.go:187-196 | truncating a torn pack makes and changes no binding |
| `PackSet.SourcedTorn` | pkgs/ji/jigd/src/store.go:263-328 | no crash makes a pack bind a key to bytes that nobody put under it |
| `BlobState.NoWrap` | pkgs/ji/jigd/src/store.go:295-328 | 32-bit offset and length of an index entry are the true ones for every record a pack may hold |
| `BlobState.GetReads` | pkgs/ji/jigd/src/store.go:246-261 | the section of the file that Get hands out holds exactly the bytes the key is bound to |
| `BlobState.IndexedIsHeld` | pkgs/ji/jigd/src/store.go:246-261 | everything indexed is what a restart on the present disk would find |
| `BlobState.ReboundLive` | pkgs/ji/jigd/src/store.go:310-328 | rebinding a key moves its length from the old pack's live count to the new one's and changes no other |
| `BlobState.PutRecordKeeps` | pkgs/ji/jigd/src/store.go:300-328 | appending a record keeps the invariant: live is the sum of index lengths, total the sum of sizes, every entry inside its pack |
| `BlobState.PutRecordBinds` | pkgs/ji/jigd/src/store.go:300-328 | the bindings after a record is appended are those before with exactly its key rebound |
| `BlobState.RotatedKeeps` | pkgs/ji/jigd/src/store.go:199-244 | sealing the active pack and starting the next keeps the invariant and every binding |
| `BlobState.ClosedKeeps` | pkgs/ji/jigd/src/store.go:482-491 | sealing on close keeps the invariant and every binding |
| `StoreOpen.MergeExact` | pkgs/ji/jigd/src/store.go:132-144 | merging a pack into an index that is exact for some packs makes it exact for those and the new one, whatever their ids |
| `StoreOpen.ExactIsUnique` | pkgs/ji/jigd/src/store.go:82-144 | the packs on disk determine the index |
| `StoreOpen.LoadOrderIsIrrelevant` | pkgs/ji/jigd/src/store.go:82-144 | the index after loading is the same for every order of the packs |
| `StoreOpen.LiveIsDetermined` | pkgs/ji/jigd/src/store.go:82-144 | two loads in different orders agree on the live counter of every pack |
| `StoreOpen.ListsIsHint` | pkgs/ji/jigd/src/store.go:199-225 | the index entries of a pack, written as a hint, are a true hint of that pack |
| `StoreOpen.AllLoaded` | pkgs/ji/jigd/src/store.go:82-119 | when all tiers are done every pack on disk is loaded, sealed and has one copy |
| `StoreCrash.CrashKeeps` | pkgs/ji/jigd/src/store.go:121-242 | for every sequence of safe operations and every crash inside it, bindings the operations are not about survive |
| `StoreCrash.PutKeeps` | pkgs/ji/jigd/src/store.go:263-328 | Put, with or without rotation, keeps the invariant and refines the update of a map |
| `StoreCrash.PutIsCrashAtomic` | pkgs/ji/jigd/src/store.go:263-328 | a crash at any byte of any operation of a Put: a restart finds every indexed key bound to its bytes, and the key being put to its old value or the complete new one |
| `StoreCrash.RestartIsCrashSafe` | pkgs/ji/jigd/src/store.go:82-196 | a restart that dies anywhere leaves every binding to the next one |
| `Demotion.SwitchedKeeps` | pkgs/ji/jigd/src/store.go:389-427 | switching a pack to its copy in the next tier keeps the invariant and the bindings |
| `Demotion.EvictedKeeps` | pkgs/ji/jigd/src/store.go:389-427 | evicting a pack keeps the invariant |
| `Demotion.EvictedBinds` | pkgs/ji/jigd/src/store.go:389-427 | an evicted pack takes exactly the keys bound to it |
| `Demotion.MoveKeeps` | pkgs/ji/jigd/src/store.go:389-427 | a whole move keeps the invariant |
| `Demotion.MoveDescends` | pkgs/ji/jigd/src/store.go:339-427 | every move lowers the number of tiers all packs together still have before them |
| `Demotion.BeforeTotal` | pkgs/ji/jigd/src/store.go:361-387 | of two packs of a tier one leaves before the other in the stale, recency, id order |
| `Demotion.BeforeTransitive` | pkgs/ji/jigd/src/store.go:361-387 | that order is transitive |
| `StoreRuns.ActionRefines` | pkgs/ji/jigd/src/store.go:246-427 | every action under the lock keeps the invariant and does to the bindings what it should: Put rebinds its key, eviction forgets its keys, nothing else changes one |
| `StoreRuns.ActionOps` | pkgs/ji/jigd/src/store.go:199-427 | every action consists of disk operations that are safe one after the other |
| `StoreRuns.ActionIsCrashSafe` | pkgs/ji/jigd/src/store.go:199-427 | a crash anywhere in any action leaves every indexed key the action is not about bound to its bytes |
| `StoreRuns.ReaderSurvives` | pkgs/ji/jigd/src/store.go:246-261 | a reader handed out goes on reading the bytes of that moment through every later run of puts, moves and evictions |
| `StoreRuns.GetIsLastPut` | pkgs/ji/jigd/src/store.go:246-328 | over every run Get is nothing, or exactly the last value put under the key, or what was loaded if none was |
| `StoreLives.OpenedBinds` | pkgs/ji/jigd/src/store.go:82-144 | a restart binds exactly what the disk it found holds |
| `StoreLives.EventGood` | pkgs/ji/jigd/src/store.go:82-427 | actions, crashes in them, restarts and crashes in restarts keep every promised key at one of its allowed values and invent none; a Put caught in a crash allows the old values and the new one |
| `StoreLives.StoreIsFaithful` | pkgs/ji/jigd/src/store.go:82-427 | from an empty directory through any history of runs and crashes, a running store answers every promised key with an allowed value, the one last put unless a Put of the key crashed since, and answers nothing that was never put |
| `BlobStore.RenderHint` | pkgs/ji/jigd/src/store.go:199-225 | the hint body lists exactly the index entries that point at the pack, in whatever order the index is walked |
| `BlobStore.Store.Open` | pkgs/ji/jigd/src/store.go:82-119 | opening any disk a crash can leave ends in the invariant with an index that misses nothing, by operations that are harmless if cut short |
| `BlobStore.Store.Load` | pkgs/ji/jigd/src/store.go:121-196 | one pack is loaded from its hint, or scanned, truncated and sealed, and is then exact in the index |
| `BlobStore.Store.LoadHint` | pkgs/ji/jigd/src/store.go:146-165 | the loop over a hint merges what the hint says |
| `BlobStore.Store.ScanPack` | pkgs/ji/jigd/src/store.go:167-186 | the scanning loop merges the pack's whole records and finds where the last one ends |
| `BlobStore.Store.DropDuplicate` | pkgs/ji/jigd/src/store.go:82-119 | a copy left by an interrupted demotion is removed without changing a binding |
| `BlobStore.Store.Get` | pkgs/ji/jigd/src/store.go:246-261 | returns a reader of exactly the bound bytes iff the key is bound, and changes nothing but the pack's last use |
| `BlobStore.Store.Rotate` | pkgs/ji/jigd/src/store.go:227-244 | the state becomes the rotated one, and the operations done to the disk are those of rotation |
| `BlobStore.Store.Put` | pkgs/ji/jigd/src/store.go:263-328 | the new state is that of Put on values, also for keys too long and values too large, which are refused; the disk saw exactly the operations of Put |
| `BlobStore.Store.FirstOut` | pkgs/ji/jigd/src/store.go:361-387 | the loop finds the least pack of a tier in the stale, recency, id order |
| `BlobStore.Store.Victim` | pkgs/ji/jigd/src/store.go:361-387 | returns a victim iff some tier is over budget and has one to give |
| `BlobStore.Store.MoveDown` | pkgs/ji/jigd/src/store.go:389-427 | a move to the next tier keeps all bindings; from the last tier the pack and its keys go |
| `BlobStore.Store.Demote` | pkgs/ji/jigd/src/store.go:339-359 | the loop ends, with every bounded tier within budget or holding only the active pack, and loses no key if the last tier is unbounded |
| `BlobStore.Store.Close` | pkgs/ji/jigd/src/store.go:482-491 | the active pack is sealed with a true hint and bindings stay |
| `Slots.BestIsUnique` | pkgs/ji/jigd/src/slots.go:54-68 | there is one earliest waiter of a fewest-held build |
| `Slots.GrantKeeps` | pkgs/ji/jigd/src/slots.go:54-68 | after the loop 0 <= out <= limit, out is the sum of held, and no one waits while a token is free |
| `Slots.GrantConserves` | pkgs/ji/jigd/src/slots.go:54-68 | each waiter woken got one token for its build, the others are the queue as before |
| `Slots.AcquiredKeeps` | pkgs/ji/jigd/src/slots.go:29-41 | an Acquire keeps the scheduler's invariant |
| `Slots.ReleasedKeeps` | pkgs/ji/jigd/src/slots.go:43-52 | a Release keeps it |
| `Slots.ServedWithin` | pkgs/ji/jigd/src/slots.go:29-68 | the first waiter of a build holding nothing, at place i, is among the next i + 1 grants of every run |
| `Slots.RunKeeps` | pkgs/ji/jigd/src/slots.go:29-68 | the invariant holds after every legal run |
| `Slots.Scheduler.Acquire` | pkgs/ji/jigd/src/slots.go:29-41 | returns at once iff a token is free and no one waits; else it is last in the queue |
| `Slots.Scheduler.Release` | pkgs/ji/jigd/src/slots.go:43-52 | the new state is the one after the grant loop, and exactly its waiters are woken, in order |
| `Slots.Scheduler.GrantAll` | pkgs/ji/jigd/src/slots.go:54-68 | the loop computes the grant function and ends |
| `Slots.Scheduler.FindBest` | pkgs/ji/jigd/src/slots.go:54-68 | the search finds the earliest waiter of a fewest-held build |
| `Admission.StepKeeps` | pkgs/ji/jigd/src/main.go:94-160 | every atomic step of every connection keeps: per build, tokens out are those in ledgers plus those in transit |
| `Admission.TokensAreAccounted` | pkgs/ji/jigd/src/main.go:94-160 | over every interleaving from a fresh daemon out <= limit, each build's count is what its connections own, and with no connections left all slots are free |
| `Broker.SemBroker.Drain` | pkgs/js/jsem/src/broker.cc:161-165 | draining the semaphore takes no more than there are held slots, whatever ghc does meanwhile |
| `Broker.SemBroker.Tick` | pkgs/js/jsem/src/broker.cc:161-177 | after a tick semaphore count plus tokens of ghc equal held slots; sem_trywait was called until it failed, the tick asks iff the first call did, and else gives up all but one of the slots found idle |
| `Broker.MoveKeeps` | pkgs/js/jsem/src/broker.cc:131-177 | every move of brokers, ghcs, daemon and other clients keeps each held slot booked by the daemon and each token backed, at every point of a tick |
| `Broker.TokensNeverExceedSlots` | pkgs/js/jsem/src/broker.cc:131-177 | tokens in semaphores and in ghcs' hands <= slots brokers hold <= tokens the daemon gave out <= limit, equal in the first place between ticks |
| `Broker.EveryRunIsBounded` | pkgs/js/jsem/src/broker.cc:131-177 | this holds after every run from a fresh daemon |
| `Masking.MaskHashes` | pkgs/ji/jig/src/store.cc:61-72 | the position loop computes the left-to-right masking |
| `Masking.MaskedIdempotent` | pkgs/ji/jig/src/store.cc:61-72 | masking twice is masking once |
| `Masking.MaskedIsCleanIff` | pkgs/ji/jig/src/store.cc:61-72 | no unmasked store path is left iff none begins 10 or 11 characters behind a prefix the scan stops at |
| `Masking.MaskedMisses` | pkgs/ji/jig/src/store.cc:61-72 | in /nix/store/nix/store/000...-z the store path at 10 keeps its hash |
| `Masking.CleanIsKept` | pkgs/ji/jig/src/store.cc:61-72 | a text without unmasked store paths is not changed |
| `OutHash.SwapOutHash` | pkgs/ji/jig/src/store.cc:79-91 | the position loop replaces every occurrence, and nothing outside a build |
| `OutHash.OutRoundTrip` | pkgs/ji/jig/src/store.cc:75-91 | masking keeps the length and leaves no real output path; unmasking restores the text iff it did not hold the placeholder path itself |
| `OutHash.SwappedJoint` | pkgs/ji/jig/src/store.cc:75-91 | whatever text lies between them, exactly the output's own paths are swapped: none arises across a joint |
| `OutHash.BuildsAgree` | pkgs/ji/jig/src/store.cc:75-91 | two texts that differ only in the output's hash mask to the same text |
| `Roots.Table` | pkgs/ji/jig/src/store.cc:37-44 | the loop builds the table of masked roots |
| `Roots.FirstWins` | pkgs/ji/jig/src/store.cc:37-44 | the table holds exactly the masked names of the roots, each with the first root of that name |
| `Roots.ResolveMasked` | pkgs/ji/jig/src/store.cc:158-168 | a path below a root, with no further store path in it, comes back from its masked form iff that root is the table's for its name |
| `Roots.ResolveElsewhere` | pkgs/ji/jig/src/store.cc:158-168 | a path outside the store comes back as it is |
| `Roots.OneThenRest` | pkgs/ji/jig/src/store.cc:170-185 | replacing one root and then the others is replacing all at once: "*-zlib" does not eat "*-zlib-ng" |
| `Roots.OrderIsIrrelevant` | pkgs/ji/jig/src/store.cc:170-185 | every order of walking the table gives the same text |
| `Roots.Pass` | pkgs/ji/jig/src/store.cc:174-182 | the inner loop replaces the whole occurrences of one root |
| `Roots.ResolveAll` | pkgs/ji/jig/src/store.cc:170-185 | the nested loops compute the replacement of all roots at once in the masked text, for every order |
| `RequestKey.FieldsInjective` | pkgs/ji/jig/src/base.cc:270-275 | a list of fields can be told from its length-prefixed encoding |
| `RequestKey.PreimageInjective` | pkgs/ji/jig/src/cc_mode.cc:90-119 | equal preimages mean equal tool, directory, mode, source, library path, arguments and primary identity, though fields are optional |
| `RequestKey.Hasher.Field` | pkgs/ji/jig/src/base.cc:270-275 | feeds the hash one field more |
| `RequestKey.RequestPreimage` | pkgs/ji/jig/src/cc_mode.cc:90-119 | the function feeds exactly the fields of the masked call, in order |
| `Manifest.SplitLines` | pkgs/ji/jig/src/base.cc:191-205 | the splitting loop gives the lines that are not empty |
| `Manifest.LinesOfText` | pkgs/ji/jig/src/manifest.cc:110-140 | the lines of a manifest text are the lines it was made of |
| `Manifest.InputLineSays` | pkgs/ji/jig/src/manifest.cc:72-85 | an input line holds in a world iff the file has that identity there |
| `Manifest.AbsentLineSays` | pkgs/ji/jig/src/manifest.cc:72-85 | an absent line holds iff the path does not exist |
| `Manifest.BuildManifest` | pkgs/ji/jig/src/manifest.cc:110-140 | text and result key are those of the lines of all readable inputs but the source and of the paths missed, each once |
| `Manifest.ValidateManifest` | pkgs/ji/jig/src/manifest.cc:142-170 | returns the key over all entries iff every one holds |
| `Manifest.OwnManifestValidates` | pkgs/ji/jig/src/manifest.cc:110-170 | the key validation recomputes is the one the build stored under |
| `Compiler.RunIsPinned` | pkgs/ji/jig/src/manifest.cc:142-170 | an adaptive compile takes the same way to the same result where every lookup that matters has the same answer |
| `Compiler.PinnedIff` | pkgs/ji/jig/src/manifest.cc:142-170 | and only there: otherwise some compiler with the same lookups and result before ends differently now |
| `Replay.KeyPinsCall` | pkgs/ji/jig/src/cc_mode.cc:90-119 | one request key: the same masked call of the same toolchain with the same primary identity |
| `Replay.OneKeyOneCall` | pkgs/ji/jig/src/cc_mode.cc:90-119 | of two calls with one key of which every masked field of the first comes back, the second is the same raw call iff its fields come back too |
| `Replay.KeyPinsSource` | pkgs/ji/jig/src/cc_mode.cc:158-181 | one key of one call: the same source with the same text, whatever text and precompiled headers are |
| `Replay.ManifestPinsLooks` | pkgs/ji/jig/src/manifest.cc:110-170 | where key and manifest hold, every lookup of the stored run that matters has the same answer iff what it saw below the output is still so |
| `Replay.ManifestPinsRun` | pkgs/ji/jig/src/manifest.cc:142-178 | and then the compiler would do again what it did |
| `ReplayRuns.LookUp` | pkgs/ji/jig/src/cc_mode.cc:192-226 | what a lookup returns for the slots there are: a status only for compiles, an object only with the depfile that is wanted |
| `ReplayRuns.StoreResult` | pkgs/ji/jig/src/cc_mode.cc:352-391 | the slots a compile fills: no status for successes, nothing for failed links |
| `ReplayRuns.HitIsSound` | pkgs/ji/jig/src/cc_mode.cc:192-226 | a hit has the outcome of a compile that was made under the same masked call and toolchain; if that was the same call and what it saw below the output is still so, it is what compiling now would give |
| `ReplayRuns.HitIsRightIff` | pkgs/ji/jig/src/cc_mode.cc:192-226 | for the same call a hit is right for every compiler that could have made the stored run iff what the run saw below the output is still so |
| `ReplayRuns.EventKeeps` | pkgs/ji/jig/src/cc_mode.cc:352-391 | compiles, replays, edits and evictions keep the state sound |
| `ReplayRuns.ReplayIsSound` | pkgs/ji/jig/src/cc_mode.cc:192-226 | after any sequence of compiles, edits, below the output too, and evictions of any slots: a hit between calls that come back from their key is what the compiler would produce now, unless something below the output that the stored run saw has changed |
| `ReplayRuns.CalmReplayIsSound` | pkgs/ji/jig/src/cc_mode.cc:192-226 | in a run of calls that come back and that leaves the output alone every hit is what the compiler would produce now |
| `ReplayRuns.StoredStaysFound` | pkgs/ji/jig/src/cc_mode.cc:352-391 | a stored compile is a hit wherever key and manifest are the same; the hit has its outcome iff it is not a success under the key of a kept failure |
| `ReplayRuns.StoredIsFound` | pkgs/ji/jig/src/cc_mode.cc:352-391 | so it is right after it was stored |
| `ReplayRuns.KeptFailureIsStale` | pkgs/ji/jig/src/cc_mode.cc:192-226 | a failure of the same call kept under a success's key has seen something below the output that has changed since |
| `ReplayFails.DefineHitsWrongly` | pkgs/ji/jig/src/cc_mode.cc:113-116 | a compile with -DX="/nix/store/<h>-z" is replayed for -DX="/nix/store/<g>-z", for all store hashes h and g |
| `ReplayFails.InstalledLaterStillHits` | pkgs/ji/jig/src/manifest.cc:129-138 | by content, a header installed below the output after a compile missed it: the object without it is replayed |
| `ReplayFails.ChangedHeaderStillHits` | pkgs/ji/jig/src/store.cc:204-217 | by path, a header below the output changes: the object with the old one is replayed |
| `ReplayFails.KeptFailureIsReplayed` | pkgs/ji/jig/src/cc_mode.cc:192-226 | by path, a compile that fails over a header below the output, an edit of the header, an eviction of the manifest and a compile that succeeds: from then on the failure is replayed |
| `Paths.WalkRelative` | pkgs/ji/jig/src/fixup_mode.cc:47-53 | the relative way from a directory leads to the target |
| `Paths.RelativeMoves` | pkgs/ji/jig/src/fixup_mode.cc:47-53 | and still does when a common prefix is replaced by any other |
| `Paths.LinkLeadsHome` | builder/finish.nu:186-190 | a relative link leads to its target iff that is not the link's own directory |
| `Paths.LinkToOwnDirectory` | builder/finish.nu:186-190 | a link at a/b to a comes out empty and leads nowhere |
| `Paths.LinkMoves` | builder/finish.nu:186-190 | and still does after the store both are below is put elsewhere |
| `Relocation.FinalOnDisk` | pkgs/ji/jig/src/fixup_mode.cc:55-63 | OnDisk undoes Final iff the path is below the prefix or not below the destination |
| `Relocation.ExpandRelative` | pkgs/ji/jig/src/fixup_mode.cc:47-53 | the anchored spelling denotes the target, for $ORIGIN and @loader_path alike |
| `Runpath.RelativizeRunpath` | pkgs/ji/jig/src/elf_fixup.cc:157-176 | the loops give the entries of the old RUNPATH whose text, as it is, joined or moved, begins with the store, in order, then the own directories |
| `Runpath.RelativizedIsOk` | pkgs/ji/jig/src/elf_fixup.cc:157-176 | every entry denotes its directory in the finished tree |
| `Runpath.SearchKept` | pkgs/ji/jig/src/elf_fixup.cc:178-186 | a search along the pruned RUNPATH without doubles finds the first kept directory that has the library |
| `Runpath.LoadsDirectly` | pkgs/ji/jig/src/elf_fixup.cc:204-226 | a library opened by its new name comes from the directory it was found in |
| `Runpath.ResolutionIsPreserved` | pkgs/ji/jig/src/elf_fixup.cc:157-262 | a NEEDED found on RUNPATH or in an own directory loads from there again, with or without slack, iff that is not an own directory with a libc |
| `Runpath.OwnLibcIsLost` | pkgs/ji/jig/src/elf_fixup.cc:203-234 | a library only in the package's own directory beside a libc: with any slack it is found nowhere afterwards |
| `BinaryImage.CStringIs` | pkgs/ji/jig/src/fixup_mode.cc:105-111 | a NUL-free text followed by a NUL is the string read at its offset |
| `BinaryImage.Image.WritePadded` | pkgs/ji/jig/src/fixup_mode.cc:113-119 | succeeds iff text and a NUL fit a slot inside the file, and then replaces the slot and nothing else |
| `BinaryImage.Image.Overwrite` | pkgs/ji/jig/src/fixup_mode.cc:121-127 | succeeds iff the bytes fit the file, and then replaces them and nothing else |
| `ElfDynamic.ReadDynamic` | pkgs/ji/jig/src/elf_fixup.cc:88-131 | finds the sections, gives nothing without a dynamic section or its strings, else reads the libraries, every vn_file that names each, and the last RUNPATH |
| `ElfDynamic.SymbolInside` | pkgs/ji/jig/src/elf_fixup.cc:135-150 | true iff the name of some dynamic symbol begins strictly inside the range |
| `ElfDynamic.NamingOnes` | pkgs/ji/jig/src/elf_fixup.cc:115-129 | the vn_file words listed for a library are exactly those of the chain whose string is its name |
| `ElfDynamic.ReadIsLaidOut` | pkgs/ji/jig/src/elf_fixup.cc:88-131 | for sections that do not overlap, the words of whichever libraries are chosen do not get in each other's way |
| `ElfFixup.Choose` | pkgs/ji/jig/src/elf_fixup.cc:203-220 | the loop marks as direct exactly the libraries found outside libc's directory and drops the directories that serve them; missing are exactly those no directory has |
| `ElfFixup.PutBack` | pkgs/ji/jig/src/elf_fixup.cc:227-233 | without room exactly those directories come back |
| `ElfFixup.Render` | pkgs/ji/jig/src/elf_fixup.cc:178-186 | the kept entries in order, each once |
| `ElfFixup.SlotStrings` | pkgs/ji/jig/src/elf_fixup.cc:221-247 | the strings read from the written slot are the new RUNPATH and each target at its own offset |
| `ElfFixup.PointedLeads` | pkgs/ji/jig/src/elf_fixup.cc:247-254 | every d_val written, and every vn_file within 4 GiB, leads to the target of its library |
| `ElfFixup.Rewrite` | pkgs/ji/jig/src/elf_fixup.cc:194-262 | succeeds iff there is no RUNPATH, nothing to change, or no symbol inside and room in the file; on success RUNPATH, d_val and vn_file say what was decided and all other bytes are as before; on failure nothing is changed |
| `ElfResolution.ChosenIsLaidOut` | pkgs/ji/jig/src/elf_fixup.cc:203-220 | the words of the libraries chosen from a file as read do not get in each other's way |
| `ElfResolution.StringSurvivesIff` | pkgs/ji/jig/src/elf_fixup.cc:235-247 | a string reads the same after the slot was overwritten iff it ends before it, begins behind it, or is a tail that the new texts, filling the slot, end in too |
| `ElfResolution.NameIsReadIff` | pkgs/ji/jig/src/elf_fixup.cc:194-262 | read again from the rewritten file every library has the name it should have iff it got a path, nothing was rewritten, or its string survives the slot |
| `ElfResolution.VersionIsReadIff` | pkgs/ji/jig/src/elf_fixup.cc:74-81 | a version need read again names what its library should be named iff the library got a path, nothing was rewritten, or its string survives the slot |
| `ElfResolution.VersionsReadAgain` | pkgs/ji/jig/src/elf_fixup.cc:115-129 | for a library that is found by its name, the version need is read again as its own iff its string is not lost with the slot |
| `ElfResolution.SymbolIsKeptIff` | pkgs/ji/jig/src/elf_fixup.cc:133-150 | a symbol name the guard lets through is unchanged iff it does not begin with the RUNPATH string or run into it |
| `ElfResolution.NamedIsWhere` | pkgs/ji/jig/src/elf_fixup.cc:157-169 | the directory the tool takes a store entry of RUNPATH for is the one the dynamic linker looks in, iff the entry is not spelled $ORIGIN// or what follows leads to one place from the root and from the file |
| `ElfResolution.TakenIsSearchedIff` | pkgs/ji/jig/src/elf_fixup.cc:157-169 | the directories taken are those looked in, entry by entry, iff every entry in the store is so |
| `ElfResolution.PickedIsFirst` | pkgs/ji/jig/src/elf_fixup.cc:157-176 | the first directory of the tool's list that has a library is the first among the store entries as it takes them and then the package's own; it is the package's and beside a libc iff none of the entries has the library and that one has a libc |
| `ElfResolution.PickedIsWanted` | pkgs/ji/jig/src/elf_fixup.cc:157-176 | a library is picked where the dynamic linker's search along the store entries of the old RUNPATH, and then the package itself, finds it, if no entry by which either finds it is two places |
| `ElfResolution.AllPickedIff` | pkgs/ji/jig/src/elf_fixup.cc:157-176 | that is so for every library on every disk iff both read the same directories in the same order |
| `ElfResolution.FileResolves` | pkgs/ji/jig/src/elf_fixup.cc:157-262 | for every RUNPATH, every library read from the rewritten file, unless its name was lost with the slot, loads from where the tool found it iff that is not the package beside a libc, and otherwise from the next directory left on RUNPATH; so it loads from where the old file's store entries or the package had it, iff it is not beside a libc, when no entry it is found by is two places |
| `ElfResolution.SameAsBefore` | pkgs/ji/jig/src/elf_fixup.cc:157-262 | a library not in the package beside a libc loads from the same place by the new file as by the old iff the tool found it there; so does each one the old RUNPATH found, with no directory outside the store having it and no entry it is found by being two places |
| `ElfResolution.FixRunpath` | pkgs/ji/jig/src/elf_fixup.cc:194-262 | the whole step on a file: when it succeeds, what it reports missing, and for every library what NameIsReadIff and FileResolves say |
| `ElfFails.MergedSonameIsLost` | pkgs/ji/jig/src/elf_fixup.cc:235-247 | a 67-byte file whose NEEDED "m" is the last character of RUNPATH is rewritten without complaint and no longer asks for "m" |
| `ElfFails.MergedDirs` | pkgs/ji/jig/src/elf_fixup.cc:157-176 | its directories are those the tool makes of its RUNPATH |
| `ElfFails.SharedSymbolIsRenamed` | pkgs/ji/jig/src/elf_fixup.cc:135-150 | a 93-byte file whose dynamic symbol is named by the RUNPATH string passes the guard, and the symbol has another name afterwards |
| `ElfFails.DoubledSlashIsLost` | pkgs/ji/jig/src/elf_fixup.cc:164-167 | with the entry $ORIGIN//nix/store/g a library found below the file's directory is found nowhere afterwards |
| `Loader.AddressSpace.MapSegment` | pkgs/cr/crt-interp/src/crt_interp.c:273-297 | one segment: its file bytes in place, zeros behind them, memory outside its pages untouched |
| `Loader.Load` | pkgs/cr/crt-interp/src/crt_interp.c:262-298 | every file byte of every segment is at bias + vaddr, writable tails are zero to the end of the page, and nothing is mapped outside the reserved range; it fails iff the length, in 64 bits, is 0 |
| `Loader.NothingToLoad` | pkgs/cr/crt-interp/src/crt_interp.c:262-272 | without a segment to load the length asked for wraps around to one page |
| `Loader.TailIsZeroIff` | pkgs/cr/crt-interp/src/crt_interp.c:282-296 | memory between file end and memory end is zero iff the segment can be written or the file holds zeros there |
| `Loader.ReadOnlyTailShows` | pkgs/cr/crt-interp/src/crt_interp.c:282-296 | a read-only segment of one byte in the file and two in memory: its second byte is the file's next |
| `MachO.RespelledIsProper` | pkgs/ji/jig/src/macho_fixup.cc:57-80 | a command with a new path is well formed, its size a multiple of 8 and its path the new one; the rest of it stays |
| `MachO.Record.SetPath` | pkgs/ji/jig/src/macho_fixup.cc:71-79 | cutting, appending, padding and writing the size give that command |
| `MachO.ReadLoadCommands` | pkgs/ji/jig/src/macho_fixup.cc:92-129 | the loop reads the commands up to a bad one and the least room any segment or section leaves |
| `MachO.ReadBack` | pkgs/ji/jig/src/macho_fixup.cc:92-129 | well-formed commands laid one behind the other are read again as they are |
| `MachO.Respell` | pkgs/ji/jig/src/macho_fixup.cc:275-293 | the loop gives the commands with their new paths, and tells whether there is one |
| `MachO.ResignDirectory` | pkgs/ji/jig/src/macho_fixup.cc:188-196 | succeeds iff every slot is in the file; afterwards every slot is the hash of its page as it finally is, and only slots have changed |
| `MachO.FindSignature` | pkgs/ji/jig/src/macho_fixup.cc:153-167 | the last LC_CODE_SIGNATURE, past which no bad command was |
| `MachO.Resign` | pkgs/ji/jig/src/macho_fixup.cc:142-200 | succeeds iff there is no signature or an embedded one with SHA-256 directories and every slot in the file; then all slots of all directories are the hashes of their pages |
| `MachO.RewrittenSignature` | pkgs/ji/jig/src/macho_fixup.cc:299-303 | the directories found in the rewritten image are those of the old file |
| `MachO.FixMachO` | pkgs/ji/jig/src/macho_fixup.cc:265-313 | written back iff it is a Mach-O with something to change, room for it and a signature that can be renewed; read again it then has exactly the edited commands and valid hashes, with all else but the size field unchanged |
| `MachOPaths.FindOwn` | pkgs/ji/jig/src/macho_fixup.cc:217-223 | the loop finds the file in the first of the package's directories that has it |
| `MachOPaths.TargetIsOpenedIff` | pkgs/ji/jig/src/macho_fixup.cc:206-235 | where a load command is resolved to is what dyld opens for it, iff by @rpath dyld tries that file, it is there and none it tries before is, and what follows @loader_path// leads to one place from the root and from the image |
| `MachOPaths.RpathAgreesIff` | pkgs/ji/jig/src/macho_fixup.cc:217-223 | dyld finds by @rpath what the tool does on every disk iff they try the same files in the same order |
| `MachOPaths.LoadIsKept` | pkgs/ji/jig/src/macho_fixup.cc:241-262 | a load command that is respelled opens the file it opened before, iff that is the system's, or not the image's own directory and dyld came to the file the tool chose |
| `MachOPaths.LoadMoves` | pkgs/ji/jig/src/macho_fixup.cc:241-262 | and still does after the store both are below is put elsewhere |
| `MachOPaths.IdIsSelf` | pkgs/ji/jig/src/macho_fixup.cc:245-247 | the id names the file itself |
| `MachOPaths.RpathIsKept` | pkgs/ji/jig/src/macho_fixup.cc:248-252 | an rpath in the store denotes the directory it did |
| `MachOPaths.SpellingIsStableIff` | pkgs/ji/jig/src/macho_fixup.cc:241-262 | a respelled load command is left as it is by a second run, iff it is the system's, or names neither the image's own directory nor, without a slash at its end, one above |
| `MachOPaths.FixedLoads` | pkgs/ji/jig/src/macho_fixup.cc:265-313 | read again from the fixed file, every load command that was resolved has its new path and opens what it opened before, under that same condition and no other |
| `MachOPaths.DoubledLoadIsMoved` | pkgs/ji/jig/src/macho_fixup.cc:224-225 | the image in /p/bin with @loader_path//z loads /z instead of /p/bin/z afterwards |
| `MachOPaths.RpathLoadIsMoved` | pkgs/ji/jig/src/macho_fixup.cc:217-223 | the image in /p/bin with LC_RPATH /q and @rpath/z, both /q and /p/lib having z, loads /p/lib/z instead of /q/z afterwards |
| `Base64.Encode` | pkgs/ji/jig/src/gocache_mode.cc:159-180 | the accumulator loop gives the grouping of section 4 of RFC 4648 with its padding |
| `Base64.Decode` | pkgs/ji/jig/src/gocache_mode.cc:182-201 | the accumulator loop gives the bytes of the six-bit values, passing over other characters |
| `Base64.RoundTrip` | pkgs/ji/jig/src/gocache_mode.cc:159-201 | decoding what was encoded gives back every sequence of bytes |
| `Nix32.Encode` | pkgs/ji/jig/src/nix_store_mode.cc:114-128 | the loop spells the five-bit windows, the most significant first |
| `Nix32.EncodedDenotes` | pkgs/ji/jig/src/nix_store_mode.cc:114-128 | the digits denote the number the bytes are read little-endian, for every input that is not empty |
| `Sha256.Digest` | pkgs/ji/jig/src/nix_store_mode.cc:85-106 | what is compressed, block by block, is the padded message of section 5.1.1 of FIPS 180-4 |
| `Sha256.Tail` | pkgs/ji/jig/src/nix_store_mode.cc:92-103 | the last one or two blocks: rest, 0x80, zeros, bit length |
| `Sha256.PaddedIsUnique` | pkgs/ji/jig/src/nix_store_mode.cc:85-106 | there is one padded message |
| `PackedFiles.Replace` | pkgs/ji/jig/src/base.cc:228-236 | the loop replaces every occurrence from the left and none in what it put in |
| `PackedFiles.PackFiles` | pkgs/ji/jig/src/rustc_mode.cc:83-96 | the loop writes one head and the bytes for each file |
| `PackedFiles.UnpackFiles` | pkgs/ji/jig/src/rustc_mode.cc:98-123 | succeeds iff the whole blob is well formed and then has written all its files |
| `PackedFiles.RoundTrip` | pkgs/ji/jig/src/rustc_mode.cc:83-123 | files packed under one stem unpack under another with the same bytes and modes and names with the one stem for the other |
| `CacheClient.Client.RecvLine` | pkgs/ji/jig/src/cache_client.cc:67-81 | returns the first line of the stream however it arrives, or nothing if it has none |
| `CacheClient.Client.RecvExactly` | pkgs/ji/jig/src/cache_client.cc:83-101 | returns exactly so many characters of the stream, or nothing if it ends before |
| `CacheClient.Client.RecvValue` | pkgs/ji/jig/src/cache_client.cc:143-155 | returns the value and leaves the connection as the function on connections says, for every stream; a bad length leaves only what was read already |
| `CacheClient.GetMany` | pkgs/ji/jig/src/cache_client.cc:164-177 | the loop gives the values of that function |
| `CacheClient.ValuesAreAnswers` | pkgs/ji/jig/src/cache_client.cc:164-177 | for every chunking, and wherever the stream breaks off, the i-th value is the answer to the i-th key, up to the first length that cannot be right |
| `CacheClient.ValuesAfterBad` | pkgs/ji/jig/src/cache_client.cc:149-152 | after it come the answers in the rest of the piece its line ended in, and no others |
| `CacheClient.LaterAreNoneIff` | pkgs/ji/jig/src/cache_client.cc:149-152 | so the later values are none iff that rest holds no complete answer |
| `CacheClient.LeftoverIsTaken` | pkgs/ji/jig/src/cache_client.cc:149-152 | "OK 99999999999", "OK 1", "x" in one piece: the second key gets "x"; in two pieces it gets nothing |
| `Quoting.AppendArg` | pkgs/la/launch/src/launch.cc:154-168 | the loop with its counter appends the quoted argument |
| `Quoting.RoundTrip` | pkgs/la/launch/src/launch.cc:154-168 | taken apart by the rules of CommandLineToArgvW every list of arguments comes back |

## Left out

- Errors of the file system other than a crash, mtimes, permissions and sockets: what was read last is a parameter.
- Pack ids are unbounded; the source has 32 bits for them.
- The store's statistics, `Wait` and the pace at which the demoter is woken.
- `Broker::~Broker`, signals and the authentication of peers.
- Admission.StepKeeps: the request loop of `serve` is a set of atomic steps on values, not a method with a loop; its GET, PUT and IDS branches are not in it.
- Broker.MoveKeeps: the order kept in the broker's token source is a field of the machine's state, not a closure.
- `ParseInvocation`, `Classify`, response files and `ParseDepfile`: what the compiler read and missed is given.
- RequestKey.RequestPreimage: the tool's path is taken as `ToolId` has made it canonical, path arguments as `NormalizePathArg` leaves them, and names made up by cmake as `MaskRandomNames` leaves them.
- Stderr and depfile texts are stored but nothing is claimed of them.
- The daemon's memo of identities of store files: it answers what `InputId` would compute.
- Crashed and killed compilers, and the other conditions under which a result is not stored: any result may or may not be stored.
- Roots.OrderIsIrrelevant: store names are taken to hold no character that ends a root in a text, as Nix allows none.
- The ELF header, the table of section headers and `FixInterp`: the section headers are given as read.
- ElfDynamic.SymbolInside: the distance between symbols is added without 64-bit wrap-around.
- ElfResolution.VersionIsReadIff: for a library that got a path the slot is within 4 GiB of the string table, since the code cuts the offset to 32 bits.
- ElfResolution.FixRunpath: a linker is taken to keep the dynamic section, the version needs, RUNPATH and the names of libraries apart, but for strings that share bytes with RUNPATH.
- ElfFixup.Rewrite: a vn_file word leads to its target only if the slot is in the first 4 GiB of the string table, since the code cuts the offset to 32 bits.
- What the loader stub does to its own headers and the auxiliary vector, and protection bits beyond "can be written".
- Loader.Load: addresses are integers; a segment that ends beyond 64 bits is not modelled.
- MachOPaths.LoadIsKept: places are compared, not the texts they were given as; an LC_RPATH that is neither absolute nor begins with `@loader_path` or `@executable_path` is not looked in, and the run paths of the images that load this one are given.
- MachO.FixMachO: a linker is taken to put the signature behind the load commands' room, its pages before its slots and its slots apart.
- The rounds of SHA-256, BLAKE3, zstd and JSON.
- The Rust, Go and directory modes but for their codecs, the driver's flag policy, and the Nix and Nushell files but for `relative-link`: they would add easy members or tables.

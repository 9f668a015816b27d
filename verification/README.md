# EdgelessDB: a Dafny model of the persistent-file layer, the key life cycle and the start-up handshake

EdgelessDB runs MariaDB inside an enclave. Three parts of it carry state that must survive
restarts, crashes and concurrency, and this project models those three:

- **The file layer.** MariaDB's `.frm` and `db.opt` files are intercepted and kept in two column
  families of a key-value store. `FileLayer.dfy` says what each call does: which store operations
  it issues, in which order, and with what result. `AbstractFiles.dfy` is the file system it is
  meant to be, one map from files to contents. `Refinement.dfy` proves that whole runs agree, and
  exactly when, and `Crashes.dfy` the same for histories with crashes inside calls. `FileLaws.dfy`,
  `Directories.dfy`, `OrphanFiles.dfy`, `HandleRuns.dfy`, `Interleaving.dfy`, `Linearizability.dfy` and
  `OpenRace.dfy` prove what holds in every reachable state, at every crash point and under interleaving.
  `Handler.dfy` has the C++ objects, method by method, each over a ghost map of files it is proved to
  agree with.
- **The master key and the database across processes and hosts.** `Keys.dfy` has the key variable,
  the sealed file and its backups; `Lifecycle.dfy` has boot, initialise, recover, restart, kill,
  move, loss of the sealed file and overlapping manifest requests as events; `Continuity.dfy` proves
  what every life keeps that follows the rules for the operator, `Bootstraps.dfy` and `Limits.dfy` what
  every life keeps without them, `Lives.dfy` that every life can be continued. `Outcomes.dfy` says what
  booting, initialising, starting and recovering come to, by what their callers can see. `Limits.dfy` and
  `ManifestRace.dfy` have the exact conditions of promises that do not always hold. `Core.dfy` has the
  Go objects, whose methods keep the invariant of `Continuity.dfy`.
- **The start-up handshake** between Go and the server thread (`Handshake.dfy`), and the address
  they share (`Address.dfy`).

`Paths.dfy`, `Regex.dfy`, `KeyOrder.dfy`, `Content.dfy` and `Text.dfy` hold the path grammar, the
regular expressions, the key order with the store's scan, file contents and 64-bit arithmetic.

`dafny verify dfyconfig.toml` checks everything. Proofs use `hide` to keep definitions they do not
need out of the solver's sight.

## Findings

Places where the code does less than its description suggests. Each has a lemma with the exact condition.

- Renaming a temporary file onto a `db.opt` reports success but stores the content in the table
  family. The file does not come into being; a listing of the database's folder shows a `db.opt`, no
  other call sees it, and no call ever removes it (`OrphanFiles.OrphanListed`,
  `OrphanFiles.OrphanOnlyListed`, `OrphanFiles.OrphaningRun`). The two families behave as one file
  system over a run if and only if the run never does this (`Refinement.RunRefines`).
- Renaming a table onto itself deletes it (`FileLaws.RenameKeepsContentIff`).
- `Dir("./d")` also lists tables of databases whose name extends `d` (`Directories.PlainFolderIff`).
- `Open` looks for the table and for its `db.opt` in two lock regions. Opening without creation succeeds
  although no moment allows it, exactly when the table is there at the first lookup, the option file at
  the second, and at no moment from one to the other both (`OpenRace.OpenIsAtomicIff`,
  `OpenRace.OpenRaces`).
- `Recover` assigns the key before checking its size. After a recovery attempt with a key of the
  wrong size, a manifest yields a recovery blob for a key the database does not have
  (`Limits.BlobMatchesIff`, and a life in `Lives.WrongBlob`).
- `Initialize` reads the key for the blob before it takes the mutex. If it hands out a blob, that is for
  the database's key if and only if no recovery request with another key of the right size came last in
  between (`ManifestRace.BlobIsKeyIff`, and a life in `ManifestRace.BlobForOtherKey`).
- `Recover` blocks on its own mutex when there is no database and a usable manifest file is
  configured (`Limits.RecoverDeadlockIff`, and an allowed life in `Lives.DeadlockHappens`).
- `Recover` does not advance the state, so each call that stores its key starts an existing database
  again (`Limits.RecoverStartsIff`, `Lives.TwoStarts`); a process that booted with a key starts it once
  (`Limits.KeyedProcessStartsOnce`). The ready flag of the handshake is never reset, so on a second
  start the query may meet no listener (`Handshake.OneStartPerProcess`), which ends the process.
- Initialising has no state guard, so a manifest can get onto an existing database: exactly one that has
  not run even the first statement of a script (`Limits.ManifestChangesDatabaseIff`, and a life in
  `Lives.EmptyDatabaseFilled`). Once a statement has run, no manifest ever changes the database, and a
  bootstrap that stopped half-way is final (`Bootstraps.WrittenOnce`, `Bootstraps.FailedStaysFailed`).
- A later start depends on the script alone. If the log of a bootstrap that ran to its end holds an
  error line, the attempt is reported as failed and leaves a database that starts
  (`Limits.StartsIffComplete`, `Limits.ReportedFailureMayRun`).
- Two key stores in the same second overwrite a backup, and a backup that fails is not noticed before
  the current file is overwritten (`Keys.StoreLosesIff`, `Keys.DistinctLosesIff`).
- The final connection of the handshake can be refused, and `Start` then panics
  (`Handshake.DialRefusedIff`, `Handshake.DialCanBeRefused`).
- An IPv6 internal address does not survive the way to the C++ side (`Address.AddressRoundTrip`).

## Assumptions

- Store operations do not fail except where a crash point says so; the store is initialised.
- A `char` is one byte of a path. A string is shorter than 2^63 bytes. The descriptor table refuses calls
  on descriptors that are not open.
- Sealing binds a key to a host and unseals only there; RSAES-OAEP (section 7.1 of RFC 8017) and
  SHA-256 (FIPS 180-4) are ideal. A server started with another key than the database's does not run,
  also for a bootstrap; a missing key variable counts as a key of its own.
- A bootstrap stops at its first failing statement, and then exits with an error or logs one. A `CREATE`
  of a database or of the configuration table fails if its object is there. Manifest statements neither
  write to `$edgeless` nor drop it or `mysql`; the manifest fits its column.
- A panic in a request handler is recovered by the HTTP server and the process goes on; a panic in
  another goroutine, or a fatal log, ends it. A second server in one process may run next to the first,
  which still holds the data directory; that it cannot is covered as a query that is refused.
- For the life-cycle theorems (`Lifecycle.Allowed`): standalone mode, the key variable is not set from
  outside, a manifest is posted only once a key is in place, no recovery with another key comes between
  the two halves of a manifest request, and recovery of an existing database gets that database's key.
  Before there is a database, recovery may be given anything. The theorems over every life without these
  rules say so in their rows.

## Model

| member | source | states |
|---|---|---|
| `Regex.KnownFileRegex` | src/syscall_handler.cc:36 | The recogniser used by the model accepts exactly the language of the known-file regular expression. |
| `Regex.FolderRegex` | src/syscall_handler.cc:35 | The same for the folder expression. |
| `Regex.TempFileRegex` | src/syscall_handler.cc:37 | The same for the temporary-file expression. |
| `Paths.ParseFile` | src/syscall_handler.cc:36 | A recognised path is the canonical path of a well-formed file. |
| `Paths.ParseKey` | src/syscall_handler.cc:36 | Printing a file's path and parsing it gives the file back, so decomposition is unique. |
| `Paths.LanguagesDisjoint` | src/syscall_handler.cc:35-46 | Known files, temporary files and folders are pairwise disjoint and told apart by the two extension tests. |
| `Paths.NormalizeIdempotent` | src/syscall_handler.cc:56-63 | Normalising twice is normalising once; it is the identity exactly off the data directory. |
| `Paths.NormalizeAbsolute` | src/syscall_handler.cc:56-63 | An absolute path in /data/ is the canonical path of the file or folder it names, and /data/ itself is the root. |
| `Paths.KeyExtension` | src/syscall_handler.cc:48-54 | The extension of a canonical path tells its kind, hence its column family. |
| `Paths.OptionFileOf` | src/syscall_handler.cc:197 | Cutting a path after its last slash and appending db.opt names its database's option file. |
| `KeyOrder.PrefixContiguous` | src/rocksdb.cc:75 | Keys with a prefix are one contiguous block of bytewise order. |
| `KeyOrder.Seek` | src/rocksdb.cc:75 | The first key not below the target. |
| `KeyOrder.GetKeys` | src/rocksdb.cc:70-78 | The scan that stops at the first key without the prefix returns exactly the keys with it, in order, without repeats. |
| `KeyOrder.ListingUnique` | src/syscall_test.cc:62-68 | A set of keys has one ordered listing, so the scan equals a filter over the whole family. |
| `Content.SeekArithmetic` | src/syscall_file.cc:108-122 | The wrapped 64-bit sum is exact when the true sum is a valid offset and negative otherwise. |
| `Content.OverflowTest` | src/syscall_handler.cc:157-159 | The overflow test fires exactly when the end does not fit 64 bits. |
| `Content.CopyIsOverlay` | src/syscall_handler.cc:160-163 | Growing with zeros and copying is the byte-by-byte overlay. |
| `Content.LargestEnd` | src/syscall_handler.cc:157-165 | The size after any writes is the largest end of anything written or present. |
| `Content.LastWriterWins` | src/syscall_handler.cc:157-165 | After any writes each byte is the last writer's, else the old one, else zero. |
| `Content.DisjointWritesCommute` | src/syscall_handler.cc:150-166 | Writes to disjoint ranges commute. |
| `Refinement.OpenRefines` | src/syscall_handler.cc:174-203 | Open agrees with the abstract file system: creation without an entry, missing files, tables without database, rejected paths. |
| `Refinement.StatRefines` | src/syscall_handler.cc:205-232 | Stat agrees: size, missing, rejected, not handled. |
| `Refinement.AccessRefines` | src/syscall_handler.cc:234-261 | Access agrees, with the optional leading "./" and the folder case. |
| `Refinement.RenameRefines` | src/syscall_handler.cc:263-290 | Rename agrees, in the store and from memory, unless it orphans an option file. |
| `Refinement.UnlinkRefines` | src/syscall_handler.cc:292-304 | Unlink agrees, including the paths outside the grammar. |
| `Refinement.DirRefines` | src/syscall_handler.cc:101-128 | A listing enumerates the files the abstract listing names, one entry per file. |
| `Refinement.ReadRefines` | src/syscall_file.cc:47-59 | Read delivers the slice at the offset and advances; a file never written fails. |
| `Refinement.WriteRefines` | src/syscall_file.cc:61-73 | Write is the overlay at the offset, extending the file even for an empty buffer; past the largest size it fails. |
| `Refinement.LseekRefines` | src/syscall_file.cc:100-132 | Seek moves to the exact sum or fails with EINVAL. |
| `Refinement.FstatRefines` | src/syscall_file.cc:160-181 | Fstat reports the size, 0 for a file never written. |
| `Refinement.StepRefines` | src/syscall_handler.cc:84-310 | Any call agrees in result and new state, unless it orphans an option file. |
| `Refinement.OrphanForever` | src/syscall_handler.cc:278-304 | No sequence of calls removes an orphaned option file. |
| `Refinement.RunRefines` | src/syscall_handler.cc:84-310 | Whole runs: the two families behave as one map of files, in every result and in the end, if and only if no temporary file is renamed onto a db.opt. |
| `Refinement.RunFromEmpty` | src/syscall_handler.cc:84-310 | The same from the empty store, for every sequence of calls. |
| `FileLaws.StepKeeps` | src/syscall_handler.cc:150-304 | Every call, wherever it stops, keeps keys canonical and in a proper family, and offsets below 2^63. |
| `FileLaws.HistoriesAreOk` | src/syscall_handler.cc:84-310 | The same over every history of calls, crashes inside calls, and restarts. |
| `FileLaws.FailuresLeaveTheStore` | src/syscall_hook.cc:35-50 | A call that is not handled or fails leaves the store unchanged. |
| `FileLaws.RenameCrashSafe` | src/syscall_handler.cc:270-275 | At every crash point of a rename the content is under the old name, the new one or both; nothing else changes. |
| `FileLaws.RenameKeepsContentIff` | src/syscall_handler.cc:272-274 | A completed rename keeps the content if and only if the names differ. |
| `FileLaws.TempRenameCrashSafe` | src/syscall_handler.cc:278-287 | At every crash point the target holds its old content or all of the new; nothing else in the store changes. |
| `FileLaws.OpenImpliesVisible` | src/syscall_handler.cc:174-261 | A path that opens without creation is seen by stat, access and fstat, with one size. |
| `FileLaws.PathOutcomes` | src/syscall_handler.cc:174-304 | What open, stat, access and unlink come to on a canonical path, by what the store holds in the family of the file and in that of its database's option file. |
| `FileLaws.HandleOutcomes` | src/syscall_file.cc:47-181 | What read, fstat and close come to on an open file, by what the store holds: a file never written reads as an error and has size 0. |
| `FileLaws.RenameOutcomes` | src/syscall_handler.cc:263-275 | Renaming a stored table moves its value; renaming one that is not stored fails and changes nothing. |
| `FileLaws.RenameFails` | src/syscall_handler.cc:263-290 | Renaming under paths that are no files', or a temporary file that is missing or empty, fails with EIO and changes nothing. |
| `FileLaws.RejectedPaths` | src/syscall_handler.cc:188-304 | On a path with a known extension that is no file's, open and stat fail with EIO, and unlink reports success without effect. |
| `FileLaws.AbsolutePaths` | src/syscall_test.cc:219-230 | Open, unlink and listing do and report the same on absolute paths in /data/ as on canonical ones; stat and access reject them. |
| `FileLaws.AccessWithoutDot` | src/syscall_handler.cc:234-245 | Access answers the same without the leading "./"; stat rejects such a path. |
| `Crashes.CrashPerFile` | src/syscall_handler.cc:150-304 | After a crash inside any call each file is as before the call or as after it; none is torn. |
| `Crashes.EventRefines` | src/syscall_handler.cc:270-287 | A call, or a crash after any number of its store operations, leaves the files of the abstract file system: the old, both names of a renamed table, or the new. |
| `Crashes.HistoryRefines` | src/syscall_handler.cc:84-310 | Over every history of calls, crashes and restarts the store holds the abstract files and contents, if and only if no temporary file was stored over a db.opt. |
| `Directories.DatabaseKeyInRange` | src/syscall_handler.cc:118-122 | Both erasures on a database key are in range and give back the database. |
| `Directories.DatabasesExact` | src/syscall_handler.cc:101-122 | Listing the root never fails, lists each database once, and the names rebuild the stored keys. |
| `Directories.TablesExact` | src/syscall_handler.cc:115-125 | Listing a folder with its slash lists exactly its stored table-family files, once each. |
| `Directories.PlainFolderIff` | src/syscall_handler.cc:115 | Listing without the slash gives the same if and only if no other stored database name extends it. |
| `Directories.AccessMatchesListing` | src/syscall_handler.cc:246-257 | Access of a folder succeeds if the database is listed, and is otherwise not handled. |
| `OrphanFiles.OrphanListed` | src/syscall_handler.cc:115-125 | The folder listing shows an orphaned option file as db.opt. |
| `OrphanFiles.OrphanOnlyListed` | src/syscall_handler.cc:130-304 | Every other call does and reports the same with and without the orphan. |
| `OrphanFiles.OrphaningRun` | src/syscall_handler.cc:278-287 | From the empty store, a rename that reports success, makes no file, leaves an orphan and ends the agreement with the abstract file system. |
| `OrphanFiles.OrphaningExample` | src/syscall_handler.cc:278-287 | Two calls, written out, that do so. |
| `HandleRuns.WriteStep` | src/syscall_handler.cc:150-166 | A write puts the overlay and advances, or, past the largest size or 64 bits, changes nothing. |
| `HandleRuns.SeekExact` | src/syscall_file.cc:100-132 | In every reachable state a seek is exact or fails with EINVAL and no change. |
| `HandleRuns.EditsFold` | src/syscall_file.cc:61-132 | After any seeks and writes on a handle the file is the fold of the writes that went through. |
| `HandleRuns.ReadsDeliver` | src/syscall_file.cc:47-59 | Positive reads until an empty one deliver the rest of the file, and an empty one comes. |
| `HandleRuns.RoundTrip` | src/syscall_test.cc:105-129 | Writing and seeking at will, then reading from 0 in any chunks, gives back the fold of the writes. |
| `Interleaving.InvKept` | src/syscall_file.cc:47-73 | Every step of every thread keeps mutual exclusion and agreement with the serial order. |
| `Interleaving.InterleavingIsSerial` | src/syscall_handler.cc:130-172 | Every interleaving of calls, at the granularity of lock regions and store accesses, has the results and the state of a serial order. |
| `Interleaving.NoDeadlock` | src/syscall_file.cc:160-174 | In every reachable state with a thread inside a call, some such thread can move. |
| `Linearizability.EffectWithin` | src/syscall_handler.cc:130-172 | Every finished call takes effect exactly once, between its start and its return. |
| `Linearizability.Linearizable` | src/syscall_handler.cc:130-304 | Each finished call has its own place in the serial order, inside its span; a call that returned before another started comes first; the results are those of that order. |
| `OpenRace.OpenUndisturbed` | src/syscall_handler.cc:191-202 | With nothing in between, the two lookups of open act as one. |
| `OpenRace.OpenIsAtomicIff` | src/syscall_handler.cc:191-202 | Over the stores between the two lookups: some moment gives the result, unless the call must not create, the table is there at the first lookup, the option file at the second, and at no moment both. |
| `OpenRace.OpenRaces` | src/syscall_handler.cc:191-202 | Such calls of other threads, for every database and table: open succeeds though at no moment it could. |
| `OpenRace.RaceIsReachable` | src/syscall_handler.cc:174-304 | Calls that lead there from the empty store. |
| `Handler.SortedKeys` | src/rocksdb.cc:73 | The iterator's view of a column family is its ordered listing. |
| `Handler.RocksDb.PutKey` | src/rocksdb.cc:50-58 | Later lookups find the value under the key, and in both families everything else as before. |
| `Handler.RocksDb.DeleteKey` | src/rocksdb.cc:60-68 | Later lookups find nothing under the key, and in both families everything else as before; an absent key is no error. |
| `Handler.RocksDb.ListKeys` | src/rocksdb.cc:70-78 | Listing by prefix equals the filter. |
| `Handler.PathCallAgrees` | src/syscall_handler.cc:84-310 | On a store that agrees with a map of files, every path call does to the map what the file system would; the store keeps agreeing if and only if the call orphans no option file. |
| `Handler.FileCallAgrees` | src/syscall_file.cc:47-132 | So do read, write and seek on an open file. |
| `Handler.SyscallHandler.Open` | src/syscall_handler.cc:174-203 | The method, early returns included, computes the planned result and handle; on an agreeing store it is the abstract open, and the new object is open on the file the path names. |
| `Handler.SyscallHandler.Access` | src/syscall_handler.cc:234-261 | The method computes the planned result, on an agreeing store the abstract one. |
| `Handler.SyscallHandler.Stat` | src/syscall_handler.cc:205-232 | The method computes the planned result, on an agreeing store the abstract one. |
| `Handler.SyscallHandler.Rename` | src/syscall_handler.cc:263-290 | The put and delete are the planned store operations; the map of files changes as the abstract rename says, and the store agrees with it afterwards if and only if no option file was orphaned. |
| `Handler.SyscallHandler.Unlink` | src/syscall_handler.cc:292-304 | The delete is the planned store operation; the map of files changes as the abstract unlink says and the store keeps agreeing. |
| `Handler.SyscallHandler.Dir` | src/syscall_handler.cc:101-128 | The loop that cuts the keys computes the listing, on an agreeing store an enumeration of the abstract one. |
| `Handler.File.Read` | src/syscall_file.cc:47-59 | The method delivers the planned bytes and moves the offset; on an agreeing store it is the abstract read. |
| `Handler.File.Write` | src/syscall_file.cc:61-73 | Growing, copying and putting back is the planned write; on an agreeing store it is the abstract overlay, and the store keeps agreeing. |
| `Handler.File.Lseek` | src/syscall_file.cc:100-132 | The method computes the planned position; on an agreeing store it is the abstract seek. |
| `Keys.HexRoundTrip` | edb/core/key.go:49-63 | The key variable decodes to the key that was encoded. |
| `Keys.HexDecodesIff` | edb/core/key.go:55-60 | A text decodes if and only if it has an even number of characters, all hexadecimal digits; encoding gives it back in lower case. |
| `Keys.StoreCrashPoints` | edb/core/key.go:154-164 | The files at each crash point of storing a key. |
| `Keys.StoreKeepsBlobs` | edb/core/key.go:154-164 | With an unused stamp no crash point loses a blob. |
| `Keys.BlobsConserved` | edb/core/key.go:134-167 | Over any interrupted stores with distinct unused stamps and successful backups, every blob that was on disk between two of them is on disk at the end, as the current file or a backup. |
| `Keys.FinishedBlobsStay` | edb/core/key.go:134-167 | So is every blob that one of the stores finished writing. |
| `Keys.BlobsAfterStore` | edb/core/key.go:154-164 | Whatever fails, the blobs on disk after a store are those of the files it does not overwrite and those it writes whole. |
| `Keys.StoreLosesIff` | edb/core/key.go:154-164 | For all files and faults a store loses no blob if and only if each untorn file it overwrites is written whole elsewhere or has a copy that stays. |
| `Keys.DistinctLosesIff` | edb/core/key.go:156-160 | For distinct blobs: if and only if it overwrites no untorn backup of the same second, and no untorn current file whose backup failed. |
| `Continuity.ConfigIffComplete` | edb/db/mariadb.go:260-269 | The configuration row is there exactly when the whole script ran. |
| `Continuity.RunsTheManifest` | edb/db/mariadb.go:249-269 | What a script has run holds the manifest's statements in order from the first on, after the system tables and before $edgeless, and all of them once the configuration is there. |
| `Continuity.StartKeeps` | edb/db/mariadb.go:169-236 | A start under the database's key sets the signature of the script's manifest, or does not run. |
| `Continuity.InitializeWithKeeps` | edb/core/core.go:139-163 | Whatever key the request has read, initialising with a key in place bootstraps a new database under that key or leaves an existing one alone; the blob holds the key that was read. |
| `Continuity.InitializeKeeps` | edb/core/core.go:139-163 | Undisturbed, the blob is for the new database's key. |
| `Continuity.RecoverKeeps` | edb/core/core.go:172-184 | Recovery keeps the invariant, storing faults included. |
| `Continuity.BootKeeps` | cmd/edb/run.go:26-57 | Booting keeps the invariant, whatever it finds and whatever fails. |
| `Continuity.BootKeepsFiles` | edb/core/key.go:179-205 | With a database on disk booting writes no key file. |
| `Continuity.KeyContinuity` | edb/core/key.go:65-205 | Over every allowed life, overlapping manifest requests included, no start meets a database of another key, at most one blob is handed out, and it decrypts to the database's key. |
| `Continuity.AllOrNothing` | edb/db/mariadb.go:126-236 | Over every allowed life a signature is shown only of a database that ran one whole script, with all the manifest's statements in order, and is that manifest's; any database has run the first of one manifest's statements, in their place; a process bootstraps at most once and only without a database at boot. |
| `Bootstraps.RunsOneManifest` | edb/db/mariadb.go:249-269 | Over every life, without rules for the operator, what has run on a database is the beginning of one manifest's statements, in order and in place. |
| `Bootstraps.WrittenOnce` | edb/db/mariadb.go:260-269 | Between any two moments of any life, without rules for the operator, a database keeps its key, never changes once a statement has run on it, and never has two configuration rows. |
| `Bootstraps.SignedIsWhole` | edb/db/mariadb.go:169-236 | Over every life, without rules for the operator, a signature shown is that of one manifest, all of whose statements the database has run, in order and in place. |
| `Bootstraps.FailedStaysFailed` | edb/db/mariadb.go:199-203 | A bootstrap that stopped between its first and its last statement is final: in no later life does a process run the database. |
| `Lives.LifeConsents` | edb/db/mariadb.go:140-142 | In debug mode a life that starts from a disk without a non-consenting configuration never gets one. |
| `Lives.BootRunsIff` | edb/core/key.go:179-205 | Over a complete database a boot runs it if and only if the key is in the variable or in a readable file sealed on this host; else it waits for recovery. The disk stays. |
| `Lives.ComesBack` | docs/docs/advanced/recovery.md:43-62 | From every allowed life with a complete database: killed, moved to any host and powered on, it runs by itself if and only if the key file can be unsealed there, else recovery with the key of any blob handed out runs it with the same signature, seals the key anew and keeps the old file as a backup. |
| `Lives.RestartRuns` | edb/core/core.go:157-161 | From every allowed life with a complete database a restart runs it if and only if the variable is kept or the key file can be unsealed, else it waits for recovery. |
| `Lives.Installed` | edb/core/core.go:139-163 | A new installation with a manifest has the sealed key, the whole script and the blob, by an allowed life. |
| `Lives.InstalledRestarts` | edb/core/core.go:157-161 | It comes back by itself on the same host, with or without the kept environment. |
| `Lives.TwoStarts` | edb/core/core.go:172-184 | Two successful recovery calls in one process start the server twice; if the second query meets no listener the process ends. |
| `Lives.AfterTheMove` | docs/docs/advanced/recovery.md:13 | So it happens to an installation that is moved to another host. |
| `Lives.EmptyDatabaseFilled` | edb/db/mariadb.go:126-166 | A life in which a manifest gets onto an existing database: its bootstrap failed at once, and a recovery with its key set the variable and failed. |
| `Lives.DeadlockHappens` | edb/core/core.go:200-211 | An allowed life of three events that ends with recovery blocked on its own mutex. |
| `Lives.InRecoveryIsAllowed` | edb/core/core.go:172-184 | The state the next rows start from is reached by an allowed life. |
| `Lives.WrongBlob` | edb/core/key.go:175-176 | From there, a recovery attempt with a key of the wrong size and a manifest: the blob is not for the database's key. |
| `ManifestRace.Undisturbed` | edb/core/core.go:145-150 | The two halves of a manifest request without anything in between are the request. |
| `ManifestRace.BlobIsKeyIff` | edb/core/core.go:139-163 | For any other requests between the halves, a blob handed out holds the key that was read, and is for the database's key if and only if the last recovery in between with a key of the right size, if any, had that key. |
| `ManifestRace.BlobForOtherKey` | edb/core/core.go:145-150 | A life in which it is not. |
| `Limits.RecoverDeadlockIff` | edb/core/core.go:172-211 | When exactly recovery locks itself out, in terms of its inputs; otherwise it returns with the mutex released. |
| `Limits.BlobMatchesIff` | edb/core/key.go:175-176 | Whatever failed in a recovery attempt, a blob handed out after it is the database's key if and only if the attempted key had the right size. |
| `Limits.RecoverStartsIff` | edb/core/core.go:172-198 | A recovery call starts the server exactly when a process in recovery stores its key, there is a database and the configuration is written; it never leaves recovery. |
| `Limits.KeyedProcessStartsOnce` | cmd/edb/run.go:41-45 | Over every life, without rules for the operator, a process that booted with a key starts the server at most once. |
| `Limits.ManifestChangesDatabaseIff` | edb/db/mariadb.go:126-166 | An existing database is changed by a manifest exactly when the variable is its key, this process has neither shown a signature nor tried to initialise, nothing refuses the manifest, the server gets to its first statement, and that has never run on the database. |
| `Limits.ExecFresh` | edb/db/mariadb.go:260-269 | On a database that has run nothing, no statement of a script finds its object there, so the script gets as far as on a new one. |
| `Limits.StartsIffComplete` | edb/db/mariadb.go:144-165 | After an attempt, a later first start runs if and only if the script had run to its end, whatever was reported. |
| `Limits.ReportedFailureMayRun` | edb/db/mariadb.go:165 | If the log of a complete bootstrap holds an error line, the attempt is reported as failed and a later start runs. |
| `Limits.DebugNeedsConsent` | edb/db/mariadb.go:140-214 | Over every life from any disk, without rules for the operator, a running process shows a signature, which is that of the configuration on disk, and in debug mode that manifest consents. |
| `Limits.MarbleBoot` | edb/core/key.go:193-201 | Under Marblerun no variable panics, 32 hexadecimal digits boot, anything else enters recovery. |
| `Limits.MarbleKeyIsVariable` | edb/core/key.go:65-78 | Over every life under Marblerun, recovery calls included, the key in memory is the variable's and no key file is ever written. |
| `Outcomes.UnsealsIff` | edb/core/key.go:86-92 | A blob unseals to a key exactly where sealing that key gives the blob: in an enclave on the same host only. |
| `Outcomes.BootFromVariable` | edb/core/key.go:49-73 | Standalone with a variable: 32 hexadecimal digits are the key, anything else is recovery; no file is touched. |
| `Outcomes.BootFromFile` | edb/core/key.go:80-104 | Without a variable, a readable key file of the right size sealed here gives the key, in memory and in the variable. |
| `Outcomes.BootWaits` | edb/core/key.go:188-201 | Without a variable and without a usable key file, but with a key file or a database: no key is made, the disk stays, and the process waits for recovery. |
| `Outcomes.BootMakesKey` | edb/core/key.go:107-123 | With neither, a new key is made and sealed; if it cannot be stored there is no process. |
| `Outcomes.MarbleMalformed` | cmd/edb/run.go:41-55 | Under Marblerun with a variable that is no key, the process stays up if and only if its report can be made. |
| `Outcomes.InitializesIff` | edb/core/core.go:139-163 | Without a database, initialising succeeds if and only if the manifest is accepted and its bootstrap succeeds; then the database holds the whole script under the variable's key, and a blob with the master key is handed out exactly if the manifest has a recovery key. |
| `Outcomes.RefusedLeaves` | edb/core/core.go:292-317 | A manifest with an unusable recovery key, without consent, or after a start or an attempt, is an error and changes nothing. |
| `Outcomes.InitializePanicsIff` | edb/db/mariadb.go:158-163 | It panics if and only if an accepted manifest meets a server that exits with an error or cannot open the database; the mutex is free afterwards. |
| `Outcomes.CreatesOnce` | edb/db/mariadb.go:261-267 | No bootstrap makes the mysql database, the $edgeless database or the configuration table twice. |
| `Outcomes.StartOutcomes` | edb/db/mariadb.go:191-236 | When a launched server ends the process, when the call panics, when it succeeds, and when the signature is shown and the server runs. |
| `Outcomes.StartSucceedsIff` | edb/core/core.go:187-231 | Starting succeeds if and only if the report can be made and the database starts, or the manifest file initialises a new one, or there is neither outside Marblerun. |
| `Outcomes.RecoverOutcomes` | edb/core/core.go:172-184 | Recovery over a database ends the process if and only if the query is not answered; otherwise it goes on with the key and the mutex free, also after a panic. |
| `Outcomes.WrongKeyIsNoted` | edb/core/core.go:172-184 | Recovery with another key than the database's ends the process, is recorded, and leaves the database alone. |
| `Outcomes.WrongKeyBootIsNoted` | cmd/edb/run.go:41-45 | So does a boot with such a key from the file. |
| `Core.Mariadb.Start` | edb/db/mariadb.go:169-236 | The method computes the modelled start: what ends the process, what panics in the caller, and what has been set by then. |
| `Core.Mariadb.Initialize` | edb/db/mariadb.go:126-166 | The method computes the modelled initialisation. |
| `Core.Core.LoadMasterKey` | edb/core/key.go:65-105 | The method computes the modelled load and sets the variable only for a key from the file. |
| `Core.Core.StoreMasterKey` | edb/core/key.go:134-167 | The method makes the modelled file writes in order, after setting the variable. |
| `Core.Core.SetMasterKey` | edb/core/key.go:169-177 | The key is taken over before it is checked or stored. |
| `Core.Core.MustInitMasterKey` | edb/core/key.go:179-205 | The method computes the modelled boot decision. |
| `Core.Core.InitializeWith` | edb/core/core.go:145-163 | With the key as it was read: locks only a free mutex and releases it, and computes the modelled rest of the request. |
| `Core.Core.Initialize` | edb/core/core.go:139-163 | Computes the modelled initialisation. On an installation that keeps the invariant it keeps it, and success means a new database with the whole script under the variable's key, which the blob decrypts to. |
| `Core.Core.StartDatabase` | edb/core/core.go:187-231 | The method computes the modelled start and leaves the mutex as it was. |
| `Core.Core.Recover` | edb/core/core.go:172-184 | Computes the modelled recovery and holds the mutex afterwards only in the deadlock. On an installation that keeps the invariant it keeps it, and success with a database means that it runs, unchanged, with its manifest's signature. |
| `Core.Core.Run` | cmd/edb/run.go:26-57 | Computes the modelled boot; on a disk with one key and one manifest's database, a process that comes up satisfies the invariant. |
| `Handshake.StepKeeps` | src/mysqld_edb.cc:32-82 | Every step of Go, the server or a stray client keeps the handshake invariant. |
| `Handshake.HandshakeSafe` | edb/db/mariadb.go:183-235 | The server leaves its loop, and Start returns, only with signature and files in place; the query meets a listener; once started the server holds no connection back. |
| `Handshake.AnswerFirst` | edb/db/mariadb.go:200-220 | On every interleaving, after failures and with a stale flag too, the signature is recorded only after the one configuration query was handled, the files are written after it in order, and Start returns after all that. |
| `Handshake.NeverStuck` | edb/db/mariadb.go:183-235 | Until Start has returned or failed, it or the server can go on. |
| `Handshake.NoLostWakeUp` | src/mysqld_edb.cc:67-78 | After the final connection the server never waits on an empty queue. |
| `Handshake.WakeUpArrives` | src/mysqld_edb.cc:67-82 | After the final connection the server can always go on and needs at most four more steps. |
| `Handshake.DialRefusedIff` | edb/db/mariadb.go:224-230 | The final connection is refused exactly when the server has already left. |
| `Handshake.DialCanBeRefused` | edb/db/mariadb.go:224-230 | A run in which it is. |
| `Handshake.OneStartPerProcess` | cmd/edb/mariadbd.go:23-37 | The query is sure to meet a listener if and only if the ready flag starts clear. |
| `Address.NetSplit` | edb/db/util.go:37 | A split port has no colon. |
| `Address.ResolvedParts` | edb/db/util.go:33-48 | Host and port are never empty, and the port has no colon. |
| `Address.NetSplitsIff` | edb/db/util.go:37 | Splitting succeeds exactly on host:port or [host]:port without further brackets, and only a bracketed host may hold colons. |
| `Address.ResolvesConfigured` | edb/db/util_test.go:30-57 | A configured host and port are taken over, an empty one gets its default, a bare host the default port, and brackets come off. |
| `Address.ResolvesUnsplit` | edb/db/util.go:38-40 | An address with a second colon outside brackets is taken as the host. |
| `Address.JoinSplits` | edb/db/mariadb.go:185 | What Go joins it splits again, IPv6 hosts included. |
| `Address.CppAbortsIff` | src/mysqld_edb.cc:39-41 | The C++ side aborts exactly when there is no colon, or the first has nothing before or after it. |
| `Address.AddressRoundTrip` | src/mysqld_edb.cc:37-42 | The C++ side gets past its split guard, and gets Go's host and port back if and only if the host has no colon. |

## Left out

- TLS, certificates, PEM and attestation reports: library calls on opaque bytes.
- HTTP routing and JSON: requests appear as events with parsed manifests.
- The store before it is initialised, and read errors of the store.
- `mkdir` for temporary files, and all other effects on the in-memory file system: one event replaces its contents.
- The fill loop of `edgeless_my_dir` and the constant stubs of the open-file operations: they would only add easy members.
- The interleaving model has the calls with one handler region, on a fixed set of open files; the two regions of `Open` are treated on their own.
- At which manifest statement a script fails is a parameter; the script's own `CREATE`s fail by what the database holds.
- Memory exhaustion below the largest string size.
- Manifest statements that write to `$edgeless`, and a manifest too large for its column.
- The server's own start-up after the handshake, the error-log scan (a flag), and configuration files (a failing write is a flag).

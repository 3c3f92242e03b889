# Verified models of a process runner's cores

A Rust library runs child processes. Seven of its parts are state machines, protocols, printers or
in-place buffers whose promises range over whole runs. This project models each of them in Dafny, in the
form the source has (classes and loops where the code mutates, functions where it computes), and proves
those promises.

| part | modules |
|---|---|
| saving a cassette file under concurrency and crashes | `SaveProtocol` (every interleaving of every saver), `SaveCall` (the code itself, as one saver of that protocol) |
| recording and replaying a session | `CassetteEntry`, `Recorder`, `RecorderLock` (the recorder's lock, step by step), `RecorderSave` (its save as a saver of the protocol), `Cursor`, `Replay`, `Digest` |
| the bounded fan-out executor | `Fanout` |
| capped raw capture, and the line policy | `OutputPolicy`, `RawCapture`, `LinePolicy` |
| command-line rendering and its readers | `UnixQuote`, `WindowsQuote`, `CommandLine` |
| the child's environment, and a client's defaults | `Environment`, `ClientDefaults` |
| the detached-child reaper | `Reaper`, `ReaperSystem` (callers, slot and threads together) |
| capped back-off and the jitter generator | `Backoff`, `Xorshift` |

How the pieces are tied together:

* A method that changes state is proved equal to a function of its inputs, and the laws are lemmas about
  that function; or it carries an invariant that states the law.
* `SaveProtocol` promises little about the file system: a directory entry may reach the disk at any moment,
  and the durable bytes of a file that was not fsync'd are arbitrary. A process may die, or power fail,
  between any two steps. `SaveCall.WriteCassette` is the sequential code; other savers and the write-back
  daemon run between any two of its system calls, and its contract says that the call is one saver of the
  protocol, with the verdict it returns.
* What the world decides (whether a system call succeeds, which temp name is drawn, when a receiver dies,
  what a wait answers, how many polls a future needs) is a parameter, so every contract holds for all of it.
* Text decoding, the scrub hook, the hash function and the wording of two refusals are parameters of the
  cassette modules. The digest is stated on the bytes fed to the hasher: no claim is made that a 64-bit hash
  has no collisions.

## Where the code and its documentation differ

The model follows the code.

* `ReplaySlot::play` promises that a sequence of differing outputs replays faithfully (src/cassette.rs:1079).
  Two kinds of call on the same key break step. A call that was recorded but is rejected on replay before it
  reaches its slot (unpiped stdout, or a token cancelled by then) leaves every later call one entry behind. A
  call cancelled while recording leaves no entry, but on replay with a live token it takes the next call's.
  `Replay.ServedOwnIff` gives the exact condition, over every session: as many earlier calls on the key lag as
  lead, or more lead and the call is the last one recorded on its key. `Replay.UnpipedCallSkewsReplay` and
  `Replay.CancelledCallSkewsReplay` are sessions of two and three calls that fail it.
* The comment on `digest_of` says that two different policies cannot share a digest and that invocations
  whose selected values differ have different ones. The stream has no lengths, so this depends on NUL. A
  shape is read back from its bytes if and only if it holds no NUL (`Digest.DecodesIff`), so NUL-free
  shapes never share them (`Digest.StreamsDetermineShapes`). A shape shares its bytes with a NUL-free one
  if and only if it holds a NUL and its bytes are those of the shape they decode to (`Digest.SharesIff`).
  Both promises do fail: two policies share the bytes in `Digest.NulBreaksDecoding`, and in
  `CassetteEntry.NulSharesDigest` two commands under one policy, differing in the working directory and in
  the selected value, share one digest, so one runner can serve the other's entry. Paths and variables that
  reach a spawn never hold a NUL, but the digest is computed before any spawn.

## Limits worth knowing

* The duration of a replayed result is the recorded one to the millisecond if and only if it fits 64 bits of
  milliseconds (`CassetteEntry.EntryRoundTrip`).
* The exponent clamp of `capped_exponential` shows exactly when `n` is beyond it and the clamped delay is
  still below the cap (`Backoff.CappedExponentialIff`).
* Error mode tolerates no output without a ceiling, so only with a ceiling does it keep the head that
  DropNewest keeps (`LinePolicy.ErrorMatchesNewestIff`).
* A temp whose write or fsync fails stays behind as an orphan: only a failed rename or directory fsync
  removes it. A save can fail after its rename (the directory fsync), with the new file in place; the
  recorder then stays dirty.

## Model

| member | source | states |
|---|---|---|
| SaveProtocol.CrashAtomicity | src/cassette.rs:572-625 | over every run of any number of savers, with deaths and power losses anywhere, what a program reads at the cassette path, before or after a crash, is byte for byte the old cassette or one saver's whole new one |
| SaveProtocol.StepKeepsInv | src/cassette.rs:572-625 | every step of every saver, and every crash, keeps mutual exclusion, the complete-and-clean history of installed files, and each saver's hold on its own temp |
| SaveProtocol.RunGrows | src/cassette.rs:606-625 | no run ever takes an inode out of the durable history, changes who wrote a file, or revives a call that is over |
| SaveProtocol.OneWriter | src/cassette.rs:703-756 | in every reachable state at most one saver is between lock and release |
| SaveProtocol.RefusedSaverTouchesNothing | src/cassette.rs:744-754 | a saver that finds the lock taken returns WouldBlock; no file, directory entry or lock changes |
| SaveProtocol.StepSparesForeignTemps | src/cassette.rs:600-624 | no step of a saver moves, rewrites or removes a temp made by another |
| SaveProtocol.StepOwnsNewTemps | src/cassette.rs:633-661 | a temp that appears was made by the saver whose step it was, which holds the lock |
| SaveProtocol.StepReplacesWhole | src/cassette.rs:615-617 | the cassette as running programs see it changes only by the lock holder's rename, to exactly that saver's text |
| SaveProtocol.SavedIsDurable | src/cassette.rs:615-617 | from the moment a saver's directory fsync succeeds, over every later run with any crashes, the history up to its file stays durable (nothing is rolled back), and the durable cassette is its file or one that another saver installed after it |
| SaveProtocol.ReportedSavesAreDurable | src/cassette.rs:572-625 | from the start: a save reported successful has one place in the history, and over every further run with any crashes the durable cassette is the file there or one installed later by another saver |
| SaveProtocol.RunKeepsOnce | src/cassette.rs:604-625 | over every run each saver installs at most one file |
| SaveProtocol.SaveSucceeds | src/cassette.rs:591-625 | with the lock free, a call that hits no I/O error finishes by its own steps alone: its text is at the target in memory and on disk, and all other temps are where and as they were |
| SaveProtocol.CrashedHolderDoesNotWedge | src/cassette.rs:703-712 | after the lock holder dies at any point, the next save can succeed, with the stale temp left in place |
| SaveProtocol.WorldMayWrite | src/cassette.rs:778-786 | what the file system may do at any moment: write back any one directory entry, and anything at all to a file that is not fsync'd |
| SaveProtocol.FailedCallChangesNothing | src/cassette.rs:572-625 | a call the system fails leaves every file and name, in memory and on disk |
| SaveProtocol.WriteThenFsync | src/cassette.rs:661-662 | written bytes are in memory only until the fsync, which makes exactly the file's bytes durable |
| SaveProtocol.PowerMayFail | src/cassette.rs:778-786 | a power loss is possible at any moment, leaves exactly what was durable, and ends every call under way |
| SaveProtocol.SaverMayDie | src/cassette.rs:703-706 | a call may die at any moment, which frees its lock and leaves every file |
| SaveCall.Machine.Take | src/cassette.rs:572-625 | one system call is one protocol step with the outcome the system answered, after which others run and leave this saver's temp, and while it holds the lock every name, as they were |
| SaveCall.OthersUndisturbed | src/cassette.rs:600-603 | no run of other savers changes what this saver has written |
| SaveCall.AcquireSaveLock | src/cassette.rs:729-756 | an I/O error if opening fails, else WouldBlock exactly when the lock is held, else the lock; no file or directory entry changes |
| SaveCall.CreateNew | src/cassette.rs:654-659 | AlreadyExists exactly when the name is taken; success exactly when it is free and the system grants the call with a new inode; on any failure no file or directory entry changes |
| SaveCall.WriteNext | src/cassette.rs:661-661 | one write takes as many of the bytes left as the system accepts; none is an error |
| SaveCall.WriteAll | src/cassette.rs:661-661 | Ok means that every byte was written, through any sequence of short writes |
| SaveCall.WriteNewFile | src/cassette.rs:646-663 | Ok means: a new file under this name holds the whole text and is fsync'd; AlreadyExists exactly when the name is taken, and then nothing was touched; an I/O error only if the system failed a call, and success if it fails none |
| SaveCall.WriteTemp | src/cassette.rs:604-614 | draws names until one is free, at most seventeen; AlreadyExists exactly when all of those drawn are taken; any other error at once, and only if the system failed a call |
| SaveCall.Install | src/cassette.rs:615-624 | Ok exactly when the system failed no call, the last one a directory fsync; otherwise the last step tried to remove the temp, and if that worked its name is gone |
| SaveCall.WriteLocked | src/cassette.rs:604-625 | on every path the last step releases the lock, with the verdict returned; on success the text is then at the cassette path, in memory and on disk; failure only by a failed call or seventeen taken names |
| SaveCall.WriteCassette | src/cassette.rs:572-625 | the whole call is one saver of the protocol, whatever others do between its system calls; Ok means that no call failed and the text was at the path, in memory and on disk, at the release of the lock; each error has exactly its cause (symlink, lock held, a failed call, all names taken); with nothing in the way it succeeds |
| Digest.MixedAppend | src/digest.rs:49-54 | feeding piece by piece is feeding the concatenation |
| Digest.Hasher.Mix | src/digest.rs:49-54 | the state is the fold over every byte fed so far |
| Digest.DigestOf | src/cassette.rs:496-540 | None exactly for the empty policy; otherwise the hash of the serialized shape, field after field |
| Digest.StreamLayout | src/cassette.rs:505-538 | the exact bytes, tag by tag, for each state of the directory and of a variable |
| Digest.FnvConstants | src/digest.rs:26-30 | the published FNV-1a offset basis and prime |
| Digest.DecodeStream | src/cassette.rs:496-540 | a decoder recovers shape, working directory and every variable's name, state and value from the bytes alone, for NUL-free fields |
| Digest.StreamsDetermineShapes | src/cassette.rs:478-486 | for NUL-free fields, two shapes feed the hasher the same bytes if and only if they are equal |
| Digest.DecodesIff | src/cassette.rs:496-540 | a shape is read back from its own bytes if and only if no field holds a NUL |
| Digest.SharesIff | src/cassette.rs:478-495 | some NUL-free shape feeds the same bytes as this other one if and only if this one holds a NUL and its bytes are those of the shape they decode to |
| Digest.NulBreaksDecoding | src/cassette.rs:481-484 | with a NUL in one working directory two different policies feed the same bytes |
| Digest.NulBreaksOnePolicy | src/cassette.rs:492-495 | under one policy, two invocations that differ in the working directory and in the selected value feed the same bytes |
| CassetteEntry.KindRoundTrip | src/cassette.rs:387-426 | a kind's name reads back as the kind, unnamed kinds as Other |
| CassetteEntry.ErrorRoundTrip | src/cassette.rs:299-378 | exactly cancellations are not stored; every other error comes back with program and payload, unnamed kinds folded to Other, unmodelled ones by their text |
| CassetteEntry.ReplayedIsStable | src/cassette.rs:299-378 | recording a replayed error and replaying it again loses nothing more |
| CassetteEntry.RecordedIsWellFormed | src/cassette.rs:853-956 | every stored entry has its command's key and passes the load-time outcome check |
| CassetteEntry.KeyOfIff | src/cassette.rs:824-834 | two commands have one key if and only if program, each argument as stored, presence of input, replayable digest and policy digest agree |
| CassetteEntry.StoredFields | src/cassette.rs:853-930 | every field of a stored entry, in terms of the command and the answer |
| CassetteEntry.ValidOutcomeIff | src/cassette.rs:1371-1411 | an entry passes exactly if it is an error without any outcome, or has at most one of code, the two timeout flags and signal |
| CassetteEntry.PromisedResult | src/cassette.rs:932-956 | the promised result, field by field |
| CassetteEntry.PromisedError | src/cassette.rs:340-378 | the promised error, variant by variant |
| CassetteEntry.EntryRoundTrip | src/cassette.rs:853-956 | replaying a call's own entry gives its outcome, scrubbed text, truncation, totals and millisecond duration, or its error, if and only if the duration fits |
| CassetteEntry.DigestIgnoresStdout | src/cassette.rs:496-540 | the policy digest does not depend on how stdout is wired |
| CassetteEntry.PolicySeparates | src/cassette.rs:488-495 | NUL-free commands feed the hasher the same bytes if and only if they agree on the keyed directory and on every selected variable's effect |
| CassetteEntry.PolicySeparatesIff | src/cassette.rs:484-495 | the same on the command itself: the directory raw or as the hook shows it, and the last operation on each selected variable, with set, removed and untouched distinct |
| CassetteEntry.NulSharesDigest | src/cassette.rs:492-495 | under a policy that keys cwd and one variable, any command has two variants that differ in both and share one digest, whatever the hash |
| Recorder.FlushSafety | src/cassette.rs:1343-1368 | over any interleaving of calls and saves a clean recorder has its whole log in the file, and the file is the old one or a snapshot of a prefix of the log |
| RecorderLock.StepKeepsInv | src/cassette.rs:1353-1367 | with calls and saves of any number of threads interleaved wherever none holds the entries lock, each step keeps the fields equal to the completed operations one after the other, plus what the lock holder has done so far |
| RecorderLock.LockedFlushSafety | src/cassette.rs:1353-1367 | over every such interleaving, with the lock free the recorder is the one its completed operations make, a returned operation is one of them, and a clean recorder has its whole log in the file; at any moment the file is the old one or holds a prefix of the log |
| RecorderLock.NothingSlipsIn | src/cassette.rs:1353-1356 | between the copy and the clearing of a save no other thread changes log, flag or file |
| RecorderLock.CallCompletes | src/cassette.rs:1583-1611 | with the lock free a call can run to its end, and then its entry is the last of the log and the recorder is dirty |
| RecorderLock.SaveCompletes | src/cassette.rs:1343-1368 | with the lock free a save can run to its end, and then the file holds the whole log unless the write left the old one, and the recorder is clean exactly after a good write |
| Recorder.DirtyUntilSaved | src/cassette.rs:1365-1367 | over any run of calls and failing saves a dirty recorder stays dirty |
| Recorder.DropAfterRun | src/cassette.rs:1918-1928 | after any run, a drop that is not unwinding leaves every recorded entry in the file or stays dirty, the latter only if its flush fails; an unwinding one changes nothing |
| RecorderSave.EndsAreAll | src/cassette.rs:606-625 | however a save call returns: success means its whole text is durably installed, and an error leaves either a file with exactly its text installed or no file of its own |
| RecorderSave.SaveRecorder | src/cassette.rs:1353-1368 | a recorder's save run as a saver among others: the encoded log is what was written, and the flag and file follow how that write ended |
| Recorder.RecordRunner.OutputString | src/cassette.rs:1565-1614 | hands the real answer through, stores its entry and marks the log dirty, except for cancellations and one-shot stdin |
| Recorder.RecordRunner.Save | src/cassette.rs:1343-1368 | writes the whole log under the current version; clean only if the write succeeded |
| Recorder.RecordRunner.Drop | src/cassette.rs:1918-1928 | flushes exactly when dirty and not unwinding |
| Cursor.CursorCountsPlays | src/cassette.rs:1083-1087 | under any interleaving of keys each slot is the log filtered by its key, its cursor the number of its calls so far |
| Cursor.ServedEntry | src/cassette.rs:1083-1087 | a call is served entry min(earlier calls on its key, last) of the filtered log |
| Cursor.OwnEntryServed | src/cassette.rs:1552-1560 | over every run: a recorded call that reaches the slots is served the entry at min(earlier plays, last), which is the place of its own if and only if as many earlier calls on its key were recorded without reaching as reached without being recorded, or more of the latter and none on the key was recorded later |
| Cursor.RunServesOwnEntries | src/cassette.rs:1083-1087 | replaying the log a run recorded serves every call in step its own entry |
| Replay.ReplaySlots | src/cassette.rs:1528-1561 | loads if and only if the version is supported and no entry is contradictory; the slots are then the file's entries split by key, in order |
| Replay.ReplayRunner.OutputString | src/cassette.rs:1615-1673 | one-shot stdin, cancellation, unpiped stdout and misses are answered in that order, each with its own error, without moving a cursor; otherwise the slot's next entry is played |
| Replay.KnownIff | src/cassette.rs:1033-1071 | over a recorded session, whatever was replayed before, a call is a miss if and only if no recorded call made the same invocation |
| Replay.RecordingByKey | src/cassette.rs:1060-1071 | the file a session records, split by key on load, is the log of its calls, and passes validation |
| Replay.ServedOwnIff | src/cassette.rs:1615-1658 | over every session: a recorded call that reaches the slots is served its own entry's place if and only if it is aligned, in terms a caller can count: earlier unpiped or later cancelled calls against earlier calls cancelled while recording |
| Replay.SessionRoundTrip | src/cassette.rs:1565-1673 | over every session: a rejected call gets its rejection, and an aligned recorded one exactly what its recording promises, whatever other keys are interleaved |
| Replay.UnpipedCallSkewsReplay | src/cassette.rs:1632-1636 | an unpiped call followed by the same call piped: replay answers the second with the first one's error |
| Replay.CancelledCallSkewsReplay | src/cassette.rs:297-302 | a call cancelled while recording, then the same command twice: replay answers the second call with the third one's result |
| Replay.PolicyRunnersSkew | src/cassette.rs:496-540 | the unpiped session fails under every match policy of the program |
| Replay.RecordThenReplay | src/cassette.rs:1528-1673 | record, save, load and replay any session at all: every answer is determined by the recorded log, and every rejected or aligned call is answered as owed |
| Fanout.Engine.constructor | src/batch.rs:82-96 | everything queued in order, nothing launched, a cap of at least one |
| Fanout.Engine.Conservation | src/batch.rs:60-73 | at any point of any run every command is queued, live or yielded, in exactly one way; the launched ones are a prefix of the input at most the cap ahead of the yielded ones; a finished future is never polled again |
| Fanout.Engine.TopUp | src/batch.rs:111-121 | launches in input order until the cap is full or the queue empty |
| Fanout.Engine.PollLive | src/batch.rs:123-138 | polls live futures once each in order, up to the first ready one, which alone is yielded |
| Fanout.Engine.PollNext | src/batch.rs:105-147 | Pending: every live future, the newly launched ones included, was polled exactly once in order and declined, and no slot is left unused; an item is its command's own result, never yielded before, and the polls went in order up to it; None only after all were |
| Fanout.CollectInOrder | src/batch.rs:155-171 | terminates when every future is ready after finitely many polls, and the i-th element is the i-th command's result for every completion order |
| RawCapture.Capture.Push | src/buffer.rs:608-647 | whatever was pushed before, the buffer is the head of the stream, or a tail of between cap and twice the cap bytes; the signals say exactly whether the stream exceeds the cap; bytes moved by compactions never exceed bytes pushed |
| RawCapture.Capture.Clamp | src/buffer.rs:664-671 | exactly the last cap bytes remain in drop-oldest, the first cap bytes otherwise |
| RawCapture.TailCompacts | src/buffer.rs:634-645 | a compaction leaves the last cap bytes of the stream and is paid for by the bytes that arrived since the last one |
| RawCapture.CaptureAll | src/buffer.rs:1177-1209 | every chunking of a stream ends with the specified bytes and signals |
| LinePolicy.Lines.Push | src/buffer.rs:1069-1124 | after any input: the longest suffix (drop-oldest) or prefix (the others) under every ceiling; sealed or overflowed exactly when the input does not fit; a push counts as dropped once if it lost a line |
| LinePolicy.Lines.PushOldest | src/buffer.rs:1091-1106 | evicts from the front no more than needed |
| LinePolicy.Lines.PushNewest | src/buffer.rs:1107-1121 | keeps the prefix contiguous: nothing after the first line that did not fit |
| LinePolicy.Lines.PushError | src/buffer.rs:1073-1090 | the same prefix, judged on cumulative counts; without a ceiling no line is kept |
| LinePolicy.FitsParts | src/buffer.rs:316-323 | dropping lines from either end never breaks a ceiling |
| LinePolicy.KeepsAllIff | src/buffer.rs:339-351 | nothing is lost if and only if the whole input fits |
| LinePolicy.LongestIsUnique | src/buffer.rs:174-184 | the specifications determine what is kept |
| LinePolicy.ErrorMatchesNewestIff | src/buffer.rs:186-190 | Error keeps the head drop-newest keeps and trips when it seals, if and only if a ceiling is set or nothing was pushed |
| LinePolicy.PushAll | src/buffer.rs:1154-1174 | the state after a whole input, in any mode |
| UnixQuote.QuoteArg | src/command.rs:3987-4011 | bare exactly for a non-empty all-safe argument, else single-quoted with every apostrophe escaped |
| UnixQuote.BareIff | src/command.rs:3989-3999 | an argument is shown as it stands if and only if it is not empty and has only the safe characters |
| UnixQuote.RunQuoted | src/command.rs:3983-3986 | the shell reader, wherever it stands in a word, takes a rendered argument as exactly that argument |
| WindowsQuote.QuoteArg | src/command.rs:4018-4060 | bare unless empty or special; backslash runs doubled before a quote and before the closing quote |
| WindowsQuote.BareIff | src/command.rs:4019-4025 | an argument is shown as it stands if and only if it is not empty and has no blank of any script, double quote or command-interpreter character |
| WindowsQuote.RunInside | src/command.rs:4027-4031 | reading the inside of a quoted argument gives back the backslashes held and the rest, and closes the quote |
| WindowsQuote.RunQuoted | src/command.rs:4018-4060 | a rendered argument is read back as itself and nothing more |
| CommandLine.CommandLine | src/command.rs:2508-2520 | program, optional bracketed argv[0], and each argument after one space |
| CommandLine.RenderedLayout | src/command.rs:6098-6107 | the documented layout of a bare program, a bracketed and quoted argv[0], and a bare argument |
| CommandLine.WindowsRoundTrip | src/command.rs:2515-2518 | any argument list, with empty arguments, trailing backslashes and backslashes before quotes, is read back exactly |
| CommandLine.UnixRoundTrip | src/command.rs:2508-2520 | the shell's quoting rules, stopping at every character a shell would act on, give back program, argv[0] and arguments of every rendered command |
| CommandLine.RenderingIsUnambiguous | src/command.rs:3983-3986 | equal renderings if and only if equal commands on Unix; equal argument tails if and only if equal arguments on Windows |
| Environment.BuildTokioEnv | src/command.rs:2840-2859 | the child's environment: for every name the last operation decides, else the allow-list or the parent unless cleared |
| Environment.EffectivePathValue | src/command.rs:3829-3851 | the PATH used for resolution is the child's PATH |
| Environment.ResolvedPtyEnv | src/command.rs:2655-2691 | the block, or the parent when it is inherited unchanged, is exactly the child's environment; None exactly when nothing is customised |
| Environment.PathSourceIsChildPath | src/command.rs:2287-2298 | the derived PATH when the command customises it and the parent's otherwise are both the child's |
| Environment.ChildEnvIsUnique | src/command.rs:3956-3981 | two correct derivations agree on every variable |
| Environment.PtyOpsSparePath | src/command.rs:2539-2560 | the terminal's own variables never touch PATH |
| Environment.LastOpAppend | src/command.rs:2539-2560 | explicit operations override the terminal's |
| Environment.KeyEqIff | src/command.rs:3956-3981 | names are compared exactly on Unix; on Windows texts up to the case of ASCII letters, and other names exactly |
| Environment.LastOpIs | src/command.rs:3846-3850 | the last operation on a name is the one no later one follows |
| Environment.OwnOpsDecide | src/command.rs:2539-2560 | a command's own operation on a variable decides it, whatever terminal it asks for |
| Environment.PtyChildSees | src/command.rs:2539-2560 | a terminal's child sees its size in decimal and on Unix the terminal's name, and every other variable as without one |
| Environment.InheritedIs | src/command.rs:2840-2849 | what a child without operations has: the allow-list's names, nothing after a clear, or the parent's environment |
| Environment.CustomizesPathIff | src/command.rs:2291-2298 | PATH is customised by a clean slate or an operation on it, and by nothing else |
| ClientDefaults.CliClient.DefaultEnv | src/client.rs:202-220 | the last registration of a key wins and other keys are untouched |
| ClientDefaults.CliClient.DefaultEnvFn | src/client.rs:259-271 | the last registered resolver of a key wins |
| ClientDefaults.CliClient.FillDefaultEnvs | src/command.rs:2357-2363 | pushes exactly the defaults whose key nobody controls |
| ClientDefaults.CliClient.FillEnvFns | src/client.rs:412-420 | runs exactly the resolvers of keys nobody controls yet, in order |
| ClientDefaults.CliClient.ApplyDefaults | src/client.rs:400-423 | limits, static defaults, resolvers and retry, each only where the command left a gap |
| ClientDefaults.OverrideMeans | src/command.rs:2385-2392 | a command controls a key exactly by isolation or an operation on it |
| ClientDefaults.StaticDecides | src/command.rs:2357-2363 | after filling, a key is decided by the command, else its isolation, else the static default |
| ClientDefaults.DynamicDecides | src/client.rs:412-420 | a resolver's key gets its value exactly when nothing before it decides |
| ClientDefaults.AppliedPrecedence | src/client.rs:195-201 | the documented order of precedence for every key, and the resolvers that run are exactly those whose value is used, once each |
| ClientDefaults.AppliedFields | src/client.rs:400-423 | field by field, what the command set stays and what it left unset becomes the client's; clear and inherit never change |
| ClientDefaults.DecidedBy | src/client.rs:195-201 | who decides a variable, first match first, in terms of the command's and the client's own fields |
| ClientDefaults.WantedIff | src/client.rs:416-420 | a resolver is wanted if and only if the command has no operation on its key, did not clear or inherit it, and no static default has it |
| ClientDefaults.ApplyTwice | src/client.rs:395-400 | applying the defaults again changes nothing and runs no resolver, whatever it would answer |
| Reaper.Manager.StartWith | src/detached.rs:35-47 | an installed sender is kept; a failed start installs none |
| Reaper.Manager.TryOnce | src/detached.rs:57-68 | one attempt delivers once to a live receiver or drops the dead sender; the slot and all channels afterwards are exactly those of `Once` |
| Reaper.OnceAccepts | src/detached.rs:57-68 | an attempt that sends adds the message once to what the receivers accepted; any other adds nothing |
| Reaper.Manager.SendWith | src/detached.rs:52-82 | the message ends in exactly one place, with at most two starts (one if a sender was installed), and the refusal is exactly the one owed |
| Reaper.WaitedForMeans | src/detached.rs:129-141 | a child is let go if and only if some wait is terminal, and a kept error is never the terminal one |
| Reaper.WaitedForFirst | src/detached.rs:129-141 | the error kept is the first failure before the terminal wait; none is kept if there was none |
| Reaper.WaitUntilReaped | src/detached.rs:129-141 | stops at the first terminal answer, not before, and returns the first error met |
| Reaper.HandOff | src/detached.rs:179-207 | the child is delivered once, or nobody has it and a wait was terminal; the error carries the refusal owed, and the first failed wait if there was one |
| Reaper.Loop.ReapFinished | src/detached.rs:143-167 | one pass polls every held child exactly once, removes exactly the ones gone for good and keeps the others as often as held, despite swap_remove |
| Reaper.Loop.FinishAll | src/detached.rs:252-259 | every held child is waited for before the manager exits |
| Reaper.Loop.Turn | src/detached.rs:227-268 | what each event does to the children held and to the interval; ends only on a hang-up with nothing held |
| Reaper.Loop.ReapLoop | src/detached.rs:227-268 | over any run: children received are children held plus children released by a terminal wait; on exit nothing is held; k timeouts since a child arrived that is still there leave the interval at min(10 ms * 2^k, 1 s), with the sum of the first k intervals elapsed |
| ReaperSystem.StepKeepsCount | src/detached.rs:35-268 | each spawn, hand-over, wait, receive, pass, exit and death of a thread keeps every child accounted for exactly once |
| ReaperSystem.SoleOwner | src/detached.rs:84-99 | over every run of callers and threads a child has exactly one owner at exactly one place: its caller, a channel, a thread, or past a terminal wait; if no thread died while it had a child, a child not yet reaped is with its caller or a running thread |
| ReaperSystem.RunLosesNone | src/detached.rs:187-207 | over every run in which no thread dies while it has a child, no thread that is gone left one behind |
| ReaperSystem.TakeTurn | src/detached.rs:227-268 | a loop turn with a message is one receive and one pass of the system |
| ReaperSystem.QuietTurn | src/detached.rs:245-249 | a timeout is one pass of the system |
| ReaperSystem.LastTurn | src/detached.rs:252-259 | a return is the exit step of the system, with nothing held |
| ReaperSystem.HandOverChild | src/detached.rs:179-207 | a hand-over is one hand-in step, and the caller's own wait when it returns an error |
| Reaper.IntervalStep | src/detached.rs:219-221 | after k timeouts the interval is min(10 ms * 2^k, 1 s) |
| Reaper.ElapsedClosed | src/detached.rs:219-221 | k timeouts take 10 ms * (2^k - 1) for k up to 7, and 1270 ms plus a second for each one beyond |
| Backoff.CappedExponentialIff | src/backoff.rs:13-44 | the documented formula holds if and only if the exponent clamp does not bite, or the delay is fixed or already capped |
| Backoff.CappedExponentialGrows | src/backoff.rs:27-44 | a later attempt never waits less, none less than the capped base, none more than the cap |
| Backoff.GrowsByFactor | src/backoff.rs:27-44 | below the clamp the delay is base times the factor to the n-th, or the cap |
| Backoff.NeverShrinks | src/backoff.rs:47-53 | a factor that is no number or not above one leaves the base, capped |
| Xorshift.NextIsBijective | src/backoff.rs:64-69 | one step is a bijection on words, and exactly the zero word goes to zero |
| Xorshift.Generator.UnitRandom | src/backoff.rs:74-85 | the state never becomes zero and the number drawn lies in [0, 1) |
| Xorshift.UnitIs | src/backoff.rs:82-83 | the number drawn is the word's value shifted right by 11, over 2 to the 53rd |

## Left out

- SaveProtocol.CrashAtomicity: Unix only; on Windows the directory is not fsync'd and the lock is a share mode.
- SaveCall.RefuseSymlink: whether a symlink is at the path does not change during a run; one planted while a save is under way, which the rename replaces, is not modelled.
- SaveProtocol.SavedIsDurable: other programs that write the cassette or delete temps behind the savers' backs are not modelled.
- SaveCall.WriteNewFile: permission bits, and a failing permission change apart from a failing open, are not distinguished.
- Replay.RecordThenReplay: `output_string` only; `start`, line handlers and the pumps depend on files that are not part of this model.
- Replay.ReplaySlots: JSON syntax and serde; a file is its version and entries, which a save stores and a load returns.
- RecorderLock.LockedFlushSafety: the write is one step of the lock holder (its own steps are `SaveProtocol`'s); a poisoned mutex panics in the code and is not modelled.
- CassetteEntry.PolicySeparates: the byte stream, not the 64-bit hash of it, separates commands.
- CassetteEntry.ErrorRoundTrip: error reasons kept only by their display text are one case (`Misc`), and message wording is a parameter.
- Fanout.CollectInOrder: each future answers Pending a number of times fixed in advance (or for ever), whatever the schedule; wakers are modelled by "polled in this call and declined".
- RawCapture.Capture.Push: takes the Vec length limit as its precondition; tees, handlers and atomics' orderings are left out.
- LinePolicy.Lines.Push: the policy as its executable description in the tests; the production line pump is not part of this model.
- CommandLine.WindowsRoundTrip: the arguments after the program, read by the argument rules; the special rule for argv[0] is left out.
- CommandLine.UnixRoundTrip: commands as decoded text, so names that are not UTF-8 are compared after lossy decoding; expansion, operators and double quotes stop the reader, and pattern characters in brackets are taken literally.
- Environment.BuildTokioEnv: the standard library's own name comparison on Windows is taken to be the ASCII folding the crate uses; the parent holds each name once; program resolution is not modelled.
- Environment.ResolvedPtyEnv: the block as a map; its sorted order and NUL-separated layout are left out.
- ReaperSystem.SoleOwner: a thread that dies with messages queued or children held loses them, as in the code, where only a panic can cause that; the model keeps them at the dead thread's place.
- Reaper.WaitUntilReaped: waits are answered by a finite script, and a child never terminal within it stays held; the pause between waits is left out.
- Backoff.CappedExponentialIff: over the reals, without rounding, overflow or the conversion to Duration.
- Xorshift.Generator.UnitRandom: words are sequences of bits, and the entropy of the seed is not modelled.
- Spawning, containment, PTY launch, signals, privilege handling, limits, and the loom-checked PID protocols: foreign calls, or files that are not part of this model.
- Supervisor, retry loop, stats and readiness probes are not modelled.

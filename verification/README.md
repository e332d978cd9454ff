# A verified model of the lock family

This project models four of the lock backends of the repository and proves what their protocols guarantee:
`filelock` (lock files with takeover of dead holders), `redislock` (leases in Redis with fencing tokens), `memlock`
(an in-process counting semaphore) and `pglock` (Postgres session-level advisory locks).

Each backend is modelled twice.

- Its own code, in the form it has: classes whose methods change fields, loops over slots, lines, bytes and directory
  entries. Every call runs without interference there, and each method is proved against what it promises. These are
  `Marker`, `StartTime`, `FileLock`, `RedisStore` and `RedisLock`, `MemLock`, `PgKey` and `PgLock`.
- A step machine in which the calls of any number of processes, clients or goroutines are interleaved at every system
  call, server request or mutex section, together with what the environment may do in between. The main theorems
  quantify over every run of such a machine: `FileSteps` with `FileHosts`, `FileCrashes`, `RedisSteps` with
  `RedisLaws`, `MemSteps`, `PgSteps`. Both share the functions that say what a file decides, what a Redis command does to the keyspace, and
  what Postgres does to its lock table.

## The modules

| module | about |
|---|---|
| `Decimal`, `Text`, `Rfc3339` | `%d`, `strconv`, `int64` wrap-around; `strings.TrimSpace` on bytes; RFC 3339 timestamps (section 5.6 of RFC 3339) with a full proleptic Gregorian calendar |
| `Marker`, `MarkerLaws`, `TornMarker` | printer and parser of marker files, their round trip, and every marker file cut off at any byte |
| `Stale`, `StartTime` | the liveness probe, the takeover decision, start times from `/proc` |
| `FileLock`, `FileLaws` | acquire, takeover, release, fence file and sweep over one directory; the decisions, names, tokens and markers in terms of clocks, process tables and bytes |
| `FileSteps`, `FileSolo`, `FileHosts` | filelock one system call at a time on many hosts, no process terminates; its calls without interference; and exactly when hosts can share a directory |
| `FileCrashes` | filelock with crashes, PID reuse and sweeps; each call is one step |
| `RedisKeys`, `RedisStore`, `RedisLock` | key layout, server commands and scripts, client calls |
| `RedisSteps`, `RedisLaws` | redislock interleaved with expiry, lost and repeated messages, an operator's `DEL`, and a downstream store that fences writes |
| `MemLock`, `MemSteps` | memlock alone and interleaved |
| `PgKey`, `PgLock`, `PgSteps` | FNV-1a keys, client calls, and pglock interleaved with failing queries and dying connections |

## The main results

1. **Torn markers.** A reader may see any prefix of a marker that is being written. `TornMarkerReadsDeadExactly` says
   exactly when some prefix reads as the marker of a dead process: when the local process table condemns the writer's
   PID *and* some prefix of the writer's hostname is the reader's hostname. On the writer's own host a running
   process is therefore safe (`TornMarkerIsNotStale`). Across hosts it is not: `TornMarkerAcrossHosts` gives the
   failing family, a reader whose hostname is a proper prefix of the writer's.
2. **File exclusion.** With PID strategies without a window, every interleaving of creates, partial writes, reads,
   later decisions, renames, removals and sweeps keeps one holder (`FileSteps.Exclusion`), exactly when no hostname can
   be read off a part of another host's name (`FileHosts.ExclusionExactly`): otherwise there is a run with two holders.
   On one host whose processes may signal each other it holds with PIDFirst and any window too. Only what the remover
   created is ever removed (`FileSteps.RemovesOnlyItsOwn`). With crashes and PID reuse there is one live holder
   (`FileCrashes.OneLiveHolder`), and `RecoveryExactly` says exactly when a crashed holder's lock can be taken on its
   host.
3. **Redis leases.** A holder keeps its key over a run exactly when its lease was covered throughout
   (`LeaseKeptExactly`, from the SET NX on `LeaseKeptFromGrant`); meanwhile nobody else's SET NX succeeds. Ownership never returns once it is lost, not even
   through an Extend that passed its released check earlier (`ReleasedNeverReturns`).
4. **Fencing.** If an earlier owner's INCR ran while it owned the key, a store that took a later owner's write never
   takes the earlier one's again (`StaleWritesAreFenced`). Without that condition it can: `LateIncrDefeatsFencing` is a
   five-step run. `FencingExactly` is the iff.
5. **Postgres.** Exclusion although locks re-enter, conservation of connections on every error path, and the leak of a
   failed unlock: exactly when it happens (`FailedUnlockLeaksExactly`), that through every later run it lasts exactly
   as long as the session (`LeakLastsExactly`), and a run in which another caller is refused a lock nobody holds.
6. **memlock** refines a counting semaphore, never admits more calls than the largest bound passed
   (`NeverMoreThanPassed`), and its tokens are ordered although they are drawn outside the mutex.
7. **Takeover decisions.** `ClockDecides` and `ProcessTableDecides` say for every readable marker, strategy, clock and
   process table whether it is taken over.

## Where code and documentation differ

The model follows the code.

- `docs/design/crash-recovery.md:185` calls a probe without a start time inconclusive; `filelock/probe.go:65-76` calls
  it alive, and so does `Stale.ProbePID`.
- The comment at `filelock/starttime_linux.go:43-45` computes index 20; the code uses 19, which is field 22 of the
  record (`StartTime.ReadsField22`).
- `docs/design/fencing-tokens.md:81` calls redislock's tokens strict. They are strict in the order of the INCR calls
  (`TokensFollowIncr`), and in the order of ownership only when no INCR comes late (`TokensFollowOwnership`,
  `LateIncrDefeatsFencing`).
- `redislock/holder.go:79-85` says that Extend puts the TTL back. For a TTL below one millisecond it passes 0 to
  PEXPIRE, which deletes the key and reports success (`ExtendKeepsExactly`), while SET NX rounds up to a millisecond.
- `redislock/lock.go:59-74`: a lock named `x:fence` uses the key of the fencing counter of `x`
  (`LockMeetsFence`); once `x` has counted a token, that lock can never be acquired (`FenceNameIsLockedOut`).
- `pglock/holder.go:61-78` returns the connection whatever the unlock did. Exclusion holds all the same, but an unlock
  that fails before it ran without closing its session leaves the key locked (`FailedUnlockLeaksExactly`, `LeakRefusesOthers`).

## What is assumed about the outside

The clock, the hostname, the process table, random identifiers, network and file-system failures are inputs or steps.
Beyond that:

- Go: `time.Format` and `time.Parse` for `time.RFC3339Nano`, `strings.TrimSpace` and `strings.Fields` (Unicode white
  space, byte by byte), `strconv`, and `bufio.Scanner` with its limit of 65536 bytes behave as `Rfc3339`, `Text`,
  `Decimal`, `StartTime` and `Marker` spell out. `time.Time.Sub` saturates, durations wrap around.
- POSIX: `open` with `O_EXCL` and `rename` are atomic, `kill(pid, 0)` tells ESRCH from EPERM.
- Redis: commands and scripts are atomic, a key is gone once the clock is past its deadline, PEXPIRE with 0 deletes,
  INCR of a non-number or past 2^63-1 is an error. go-redis sends at least one millisecond with SET NX PX.
  It sends a request again when the reply is lost, so that one INCR can count twice, a Release can delete its key and
  report the lock as lost (`ResentReleaseReportsLost`), and a SET NX can report Locked for a key it took itself.
- Postgres: advisory locks belong to sessions and re-enter, and end with their session. `pgxpool.Acquire` waits for a
  connection when the pool is full, until the context ends; the pool of `PgLock` stands for a context that does.

## Model

| member | source | states |
|---|---|---|
| `Rfc3339.NextDayCounts` | filelock/marker.go:32 | the calendar behind the timestamps counts days one by one across month ends, leap years and centuries |
| `Rfc3339.DatesAreOrdered` | filelock/marker.go:32 | an earlier date has the smaller day number |
| `Rfc3339.DateOfDayNumber` | filelock/marker.go:32 | the calendar date of a day number is the date it was counted from |
| `Rfc3339.AnchoredInstants` | filelock/marker.go:47-57 | the zero time prints as the first instant of year 1, and the Unix epoch as that of 1970 |
| `Rfc3339.FormatOfFields` | filelock/marker.go:47-57 | an instant prints with exactly the calendar and clock fields it is made of |
| `Rfc3339.RangeEnds` | filelock/marker.go:47-57 | the printable instants are those from the first of year 0 to the last nanosecond of year 9999 |
| `Rfc3339.ParseReadsFormat` | filelock/marker.go:47-57 | every instant of the years 0 to 9999, to the nanosecond, survives being printed and parsed |
| `Rfc3339.ParseReadsZones` | filelock/marker.go:129-142 | a numeric zone shifts the instant by its hours and minutes, east earlier and west later |
| `Rfc3339.ParseDateExactly` | filelock/marker.go:129-142 | a date parses if and only if it is in the calendar, leap days included |
| `Rfc3339.ParseBehindDate` | filelock/marker.go:129-142 | an hour of one or two digits parses if and only if it is below 24 and what follows does |
| `Rfc3339.ParseClockExactly` | filelock/marker.go:129-142 | a time of day with a fraction parses if and only if hour, minute and second are in range, and then to exactly that instant |
| `Rfc3339.FractionCounts` | filelock/marker.go:129-142 | a fraction counts nanoseconds; digits behind the ninth are cut off |
| `Rfc3339.CutTimestampIsRejected` | filelock/marker.go:129-142 | no proper prefix of a printed timestamp parses, so a cut time is an error and never another time |
| `Rfc3339.FormatChars` | filelock/marker.go:47-57 | printed timestamps are 20 to 30 bytes of digits and punctuation, no space or newline |
| `Decimal.AtoiReadsDecInt` | filelock/marker.go:122-128 | every int64 survives %d and Atoi |
| `Decimal.AtoiOfDigits` | filelock/marker.go:122-128 | digits with an optional sign are read if and only if they fit into an int64 |
| `Decimal.AtoiOfOthers` | filelock/marker.go:122-128 | and nothing else is read |
| `Decimal.ParseUintExactly` | filelock/fence.go:84-87 | a fence is read if and only if it is all digits and fits into a uint64 |
| `Text.TrimRightBehindSolid` | filelock/marker.go:112-121 | trimming a line never reaches back past a byte that is no part of white space, multi-byte spaces included |
| `Text.TrimOfTrimRight` | filelock/marker.go:112-121 | trimming the line and then the value is the same as trimming the value alone |
| `Text.SpaceFrontIsUnicode` | filelock/marker.go:112-121 | what is trimmed in front is exactly one Unicode white-space character at a time, for every character |
| `Text.SpaceBackIsUnicode` | filelock/marker.go:112-121 | and so at the end, where the characters are read backwards |
| `Marker.WriteMarker` | filelock/marker.go:37-96 | the bytes printed line by line are the lines of the marker in their order, omitted fields left out |
| `Marker.WriteDebug` | filelock/marker.go:61-93 | appends the debug block and nothing else |
| `Marker.ReadMarker` | filelock/marker.go:102-167 | the scan loop computes the line-by-line reading, with its three kinds of skipped lines and its errors |
| `MarkerLaws.TextOfFile` | filelock/marker.go:37-96 | the file of a marker, byte by byte: its comments, keys, their order, and which lines are left out |
| `MarkerLaws.LineLimit` | filelock/marker.go:108-113 | a line may have 65535 bytes and not one more |
| `MarkerLaws.ReadWholeLines` | filelock/marker.go:109-116 | the byte scanner reads whole lines one at a time, whatever follows them |
| `MarkerLaws.PrintedLineIsItem` | filelock/marker.go:112-121 | each printed line has exactly the effect of its key and value |
| `MarkerLaws.NoiseChangesNothing` | filelock/marker.go:98-119 | blank, comment, '='-free and unknown-key lines put in anywhere do not change the reading |
| `MarkerLaws.RejectedExactly` | filelock/marker.go:98-166 | a file, with or without a newline at its end, is rejected if and only if some line is too long or has a number or time that does not parse, wherever it stands |
| `MarkerLaws.LaterLinesOverride` | filelock/marker.go:112-166 | the last line of an identity key counts: in any file it overrides what was read before, and nothing else |
| `MarkerLaws.RoundTrip` | filelock/marker.go:37-167 | a written marker reads back as itself, also with noise lines anywhere; omitted fields read back as zero |
| `MarkerLaws.ReadsWhatWasWritten` | filelock/marker.go:37-167 | the reader undoes the printer for all markers of trimmed one-line strings |
| `MarkerLaws.RoundTripExactly` | filelock/marker.go:37-167 | among the markers that can be printed, a marker reads back as itself if and only if its strings are trimmed, have no newline, and fit into the scanner's lines |
| `TornMarker.PartOfField` | filelock/marker.go:112-121 | a cut line is skipped, or read as its key with a part of its value |
| `TornMarker.ReadTorn` | filelock/marker.go:102-167 | whatever prefix is read: no host yet, or the whole identity with a host cut short; an acquired time only once its line is complete |
| `TornMarker.TornMarkerReadsDeadExactly` | filelock/stale.go:41-56 | some prefix of a marker reads as dead if and only if the local process table condemns the PID and a prefix of the writer's hostname is the reader's |
| `TornMarker.TornMarkerIsNotStale` | filelock/stale.go:17-70 | no prefix of a running process's marker is stale on its host without a window; with one, and under TimeOnly on any host, none that ends before the timestamp does |
| `TornMarker.TornMarkerAcrossHosts` | filelock/stale.go:49-55 | a reader whose hostname is a proper prefix of the writer's can find a prefix of a live marker stale |
| `TornMarker.CutInsideHost` | filelock/marker.go:52-54 | for every k there is a cut that reads with exactly the first k bytes of the host |
| `Stale.SaturationIsHarmless` | filelock/stale.go:62-70 | the saturating subtraction decides like exact arithmetic, except that the longest window never expires |
| `FileLaws.ClockDecides` | filelock/stale.go:17-70 | under TimeOnly, and under PIDFirst when no probe can tell, a readable marker is taken over if and only if a window is set, the marker has its time and more than the window has passed |
| `FileLaws.WithoutProbeHeldForEver` | filelock/stale.go:17-38 | under PIDOnly such a marker is never taken over |
| `FileLaws.ProcessTableDecides` | filelock/stale.go:17-56 | in every other case it is taken over if and only if its process is gone or its PID belongs to one with another start time, whatever the clock says |
| `Stale.NoWindowExactly` | filelock/stale.go:62-70 | exactly without a window does a PID strategy spare every marker that no probe calls dead |
| `Stale.RunningProcessIsNotDead` | filelock/probe.go:57-83 | no probe calls a process that still runs dead, also when its start time can be read only once or never |
| `Stale.GoneProcessIsDeadExactly` | filelock/probe.go:57-83 | on its host, a marker is dead if and only if its PID is free, or in use by a process we may signal with another known start time |
| `StartTime.ScanBootTime` | filelock/starttime_linux.go:86-102 | the boot time is that of the first line that names one, an error if that line is malformed or there is none |
| `StartTime.BootLineReads` | filelock/starttime_linux.go:87-101 | a btime line with any int64 names just those seconds |
| `StartTime.UnixEpoch` | filelock/starttime_linux.go:99 | boot times count seconds from the first instant of 1970 |
| `StartTime.OtherLinesName` | filelock/starttime_linux.go:87-89 | no line that does not start with btime and a space names a boot time |
| `StartTime.BootTimeCache.Get` | filelock/starttime_linux.go:73-105 | the first call decides, also when it failed, and every later one repeats its answer |
| `StartTime.TicksAreExact` | filelock/starttime_linux.go:63-66 | splitting ticks into seconds and nanoseconds loses nothing: ten milliseconds a tick, modulo 2^64 nanoseconds |
| `StartTime.DistinctTicksDistinctTimes` | filelock/starttime_linux.go:63-66 | different ticks give different start times, absent overflow |
| `StartTime.FieldsOfJoin` | filelock/starttime_linux.go:42 | splitting at white space recovers the fields of the record |
| `StartTime.WholeRecord` | filelock/starttime_linux.go:35-42 | when the command name has no white space, the fields of the whole record are the PID, the name in parentheses, and what follows |
| `StartTime.StartTimeIsField22` | filelock/starttime_linux.go:25-67 | then the start time is boot time plus ten milliseconds for each of the ticks in the 22nd field of the record, absent overflow, and unknown when there are fewer than 22 |
| `StartTime.ReadsField22` | filelock/starttime_linux.go:25-67 | for every command name, with any spaces and parentheses, it is that of the twentieth field behind the name |
| `StartTime.TruncatedRecordIsUnknown` | filelock/starttime_linux.go:47-62 | fewer than twenty fields behind the name, a twentieth that is no int64, or a missing boot time give no start time |
| `StartTime.NoRecordIsUnknown` | filelock/starttime_linux.go:25-41 | neither do a PID that is none, a record that cannot be read, or one without a command name |
| `StartTime.OwnStartTimeIsNotReuse` | filelock/probe.go:71-82 | a process's start time survives its marker, whole or cut, and any later record of it, so its marker never looks like a reused PID |
| `FileLaws.OwnMarkerReadsBack` | filelock/identity.go:13-47 | the marker of an acquire at time t reads back with that time, this process and host, and the caller's settings |
| `FileLaws.FileNames` | filelock/lock.go:68-78 | the names of the marker, slot and fence files |
| `FileLaws.TokensCountUp` | filelock/fence.go:63-91 | tokens start at 1, also when the fence cannot be read or is no number, count up by one, and restart at 0 behind 2^64 - 1 |
| `FileLock.FenceReadsBack` | filelock/fence.go:77-118 | a stored counter below 2^64 reads back as itself |
| `FileLock.TryCreateMarker` | filelock/lock.go:225-241 | creates the marker if the path was free; a failure leaves the directory as before, or, if the clean-up fails too, a marker cut short |
| `FileLock.TakeoverMarker` | filelock/lock.go:246-266 | replaces the stale marker, or leaves the directory as it was except for a temporary file that could not be removed |
| `FileLock.AcquireMarker` | filelock/lock.go:186-220 | the outcome follows from what is at the path and which system call fails: a live holder is never overridden, an unreadable marker never taken over, and only a grant or a failed clean-up changes the directory |
| `FileLaws.OutcomeWithoutFaults` | filelock/lock.go:186-220 | without faults the outcome is Failed if and only if the marker cannot be parsed, and Locked if and only if it can and is not stale |
| `FileLaws.AcquireByClock` | filelock/lock.go:186-220 | so a marker that no probe can judge is acquired exactly if its window has passed |
| `FileLock.WriteFence` | filelock/fence.go:93-118 | the counter is replaced, or untouched when the write fails or loses a collision |
| `FileLock.BumpFence` | filelock/fence.go:63-71 | the token is one more than the readable counter, starts over at 1 when the file cannot be read, and is 0 if it could not be stored; what was stored reads back as the token |
| `FileLock.AcquireSlot` | filelock/lock.go:162-182 | a grant places this process's marker and moves the fence on; nothing else changes |
| `FileLaws.GrantIsRecorded` | filelock/lock.go:162-182 | after a granted acquire of a slot, that slot's file reads as a marker of this process with that slot's number |
| `FileLock.Acquire` | filelock/lock.go:99-140 | the first slot that is not held decides the outcome and all before it are held; without faults it acquires exactly if that slot is free or stale, and Locked means exactly that all are held |
| `FileLock.Holder.Release` | filelock/holder.go:42-63 | the first call removes the marker or reports that it could not, every later one leaves the directory alone |
| `FileLock.ReclaimOne` | filelock/sweep.go:97-128 | removes exactly a stale, readable, removable marker |
| `FileLock.Sweep` | filelock/sweep.go:69-93 | removes and counts exactly the stale markers among the entries it reached before cancellation, nothing else |
| `FileLaws.SweepSuffix` | filelock/sweep.go:97-128 | a sweep takes for markers exactly the names that end in .lock |
| `FileLock.SecondSweepRemovesNothing` | filelock/sweep.go:69-93 | a second sweep with the same clock and processes finds nothing |
| `FileLock.SweepSparesRunningHolders` | filelock/sweep.go:97-128 | without a window no sweep removes a marker, even half written, whose process runs on this host |
| `FileLock.SlotMarkersDiffer` | filelock/lock.go:76-78 | slot marker names coincide only for the same name and slot, dots in names included |
| `FileLock.SingletonMeetsSlot` | filelock/lock.go:68-78 | a singleton marker is a slot marker exactly when the lock's name ends in that slot's number |
| `FileSteps.FileIsNotDead` | filelock/stale.go:41-56 | whatever part of a marker has arrived, no host reads it as that of a dead process |
| `FileSteps.SeenIsNeverStale` | filelock/lock.go:194-214 | what was read while a marker was written is never judged stale, however much later and after whatever else the decision comes |
| `FileSteps.StepKeeps` | filelock/lock.go:186-266 | every system call of every acquire, release and sweep, and every decision between two calls, keeps the protocol's invariant |
| `FileSolo.CreateAlone` | filelock/lock.go:225-241 | the machine's create, build, write and close, uninterrupted, leave the whole marker at a free path |
| `FileSolo.DrawAlone` | filelock/fence.go:63-71 | the fence's read and write, uninterrupted, give the next token and store it |
| `FileSolo.LookAlone` | filelock/lock.go:189-214 | on a taken path the create, open, read and decision, uninterrupted, go on to a takeover exactly if the code does |
| `FileSolo.SeizeAlone` | filelock/lock.go:246-266 | the rename of a takeover replaces the file at the path by the whole marker |
| `FileSolo.SweepAlone` | filelock/sweep.go:97-128 | a sweep's two readings and its unlink, uninterrupted, remove the file exactly if it is stale |
| `FileSolo.SweepLooksAgain` | filelock/sweep.go:110-127 | a file whose time or PID changed between a sweep's two readings is not removed |
| `FileSolo.Arrivals` | filelock/lock.go:99-140 | an acquire starts before its create and a sweep before its open, and neither changes anything else |
| `FileSolo.RacedAway` | filelock/lock.go:194-204 | a marker that is gone when it is opened leads to one more create, and to giving up when that finds another |
| `FileSolo.FailsAlone` | filelock/lock.go:225-241 | a marker that cannot be written is removed again, a fence that cannot be stored costs only the token |
| `FileSolo.ReleaseAlone` | filelock/holder.go:42-63 | a Release, uninterrupted, frees the path |
| `FileSteps.Exclusion` | filelock/lock.go:186-240 | in every interleaving at most one call holds the lock |
| `FileHosts.ExclusionExactly` | filelock/stale.go:49-55 | over the hosts of a directory, at most one call ever holds the lock in any run if and only if no hostname can be read off a part of another's name |
| `FileHosts.TwoHolders` | filelock/lock.go:186-266 | for any two hosts that fail this there is a run in which a process on each holds the lock |
| `FileSteps.RemovesOnlyItsOwn` | filelock/holder.go:42-63 | in every interleaving the file at the path is only ever removed by the call that created it; no takeover or sweep touches it |
| `FileSteps.OverForGood` | filelock/holder.go:43-45 | once a call is over, no step of it, a repeated Release included, changes anything in any later run |
| `FileSteps.TokensStrictlyIncrease` | filelock/fence.go:63-118 | the marker serialises the fence's read, increment and write: tokens strictly increase in every interleaving |
| `FileCrashes.AcquireSimulates` | filelock/lock.go:162-220 | the code's Acquire on a directory takes the lock if and only if the machine's step does, with the same marker, fence and token; otherwise neither changes anything |
| `FileCrashes.ReleaseSimulates` | filelock/holder.go:42-63 | the code's Release does to the directory what the step does to the state, stuck markers included |
| `FileCrashes.SweepSimulates` | filelock/sweep.go:69-128 | the code's Sweep removes this lock's marker exactly when the step does, and never its fence |
| `FileCrashes.CrashEnds` | filelock/probe.go:57-83 | a crash ends the process and all its holders, and nothing else |
| `FileCrashes.StepKeeps` | filelock/lock.go:186-266 | crashes, PID reuse, acquires, releases and sweeps keep the invariant |
| `FileCrashes.OneLiveHolder` | filelock/lock.go:186-266 | in every run at most one holder is unreleased with its process alive |
| `FileCrashes.RecoveryExactly` | filelock/probe.go:57-83 | on the holder's host the lock can be taken if and only if the holder crashed and its PID is free or visibly reused |
| `FileCrashes.CrashedHolderIsReplaced` | docs/design/crash-recovery.md:166-170 | after every run, a crashed holder's lock can be taken on its host at once, and when its PID came back, exactly if the new process may be signalled and both start times are known and differ |
| `FileCrashes.OtherHostsMustWait` | filelock/stale.go:49-55 | no other host, and no host without a name, can take a crashed holder's lock without a window |
| `FileCrashes.TokensStrictlyIncrease` | filelock/fence.go:63-118 | tokens strictly increase through releases, takeovers, crashes and failed fence writes |
| `RedisKeys.KeyNames` | redislock/lock.go:59-74 | the keys of a lock, of its slots and of its fence |
| `RedisKeys.IdentifierOfValue` | redislock/lock.go:178-184 | the identifier is recovered from a value with or without a trace |
| `RedisKeys.TraceOfValue` | redislock/lock.go:178-184 | and so is the trace |
| `RedisKeys.DistinctIdentifiersDistinctValues` | redislock/lock.go:137-144 | different identifiers give different values, whatever the traces |
| `RedisKeys.SlotKeysDiffer` | redislock/lock.go:65-67 | slot keys coincide only for the same name and slot, colons in names included |
| `RedisKeys.SlotIsNotFence` | redislock/lock.go:65-74 | no slot key is a fence key |
| `RedisKeys.LockMeetsFence` | redislock/lock.go:60-74 | a singleton key is a fence key exactly when its name ends in ":fence" |
| `RedisKeys.LockMeetsSlot` | redislock/lock.go:60-67 | a singleton key is a slot key exactly when its name ends in that slot's number |
| `RedisKeys.FenceKeysDiffer` | redislock/lock.go:72-74 | fence keys coincide only for the same name |
| `RedisKeys.ColonFreeKeysDiffer` | redislock/lock.go:60-74 | for colon-free names lock, slot and fence keys are pairwise distinct |
| `RedisStore.MatchesMeansOwns` | redislock/scripts.go:14-37 | GET equals the holder's value only if the key is its lease: no counter ever reads as a holder value |
| `RedisStore.ScriptsSpareOthers` | redislock/scripts.go:14-37 | neither script deletes or re-times a key that holds anything but the caller's value |
| `RedisStore.KthIncrAnswersK` | redislock/lock.go:161-172 | the k-th INCR of a fresh counter answers k, and past 2^63 - 1 an error |
| `RedisLock.AcquireSlot` | redislock/lock.go:136-173 | takes the free key, then a token whose failure only costs the token; a lost reply leaves the key taken by nobody |
| `RedisLock.Acquire` | redislock/lock.go:89-132 | takes the first free slot; Locked means every slot's key was there and nothing changed; on a network failure the store differs at most by the one SET NX whose reply was lost |
| `RedisLock.Holder.Release` | redislock/holder.go:57-77 | runs the guarded delete once and reports truthfully whether it found its value; later calls do nothing |
| `RedisLock.Holder.Extend` | redislock/holder.go:86-100 | refuses a released holder, otherwise re-times the key if it still holds its value and reports which |
| `RedisLaws.AcquireAlone` | redislock/lock.go:153-172 | the machine's SET NX and INCR, uninterrupted, leave the store and token that the code's acquire promises, and are recorded as such |
| `RedisLaws.ReleaseAlone` | redislock/holder.go:57-77 | after every run, a Release that nobody interrupts removes the key if its holder owns it and reports whether it did |
| `RedisLaws.ExtendAlone` | redislock/holder.go:86-100 | and an Extend reports whether its holder owned the key and changes no other |
| `RedisLaws.GrantedExactly` | redislock/lock.go:153-159 | a SET NX takes its key exactly if it reaches the server and finds the key free |
| `RedisLaws.LeaseOfTtl` | redislock/lock.go:153-159 | its lease is the TTL in whole milliseconds, at least one, and for ever when the TTL is 0 |
| `RedisLaws.LeaseLastsItsTtl` | redislock/lock.go:153-159 | left alone, its holder owns the key at a later time if and only if the TTL, or a millisecond, has not passed |
| `RedisSteps.StepKeeps` | redislock/lock.go:136-173 | every request, repeated request, expiry, loss and operator step keeps the invariant on leases, owners and tokens |
| `RedisLaws.LostIsLost` | redislock/holder.go:57-100 | a key once lost never comes back to the same holder |
| `RedisLaws.ReleasedNeverReturns` | redislock/holder.go:57-100 | after its release script ran a holder never owns the key again, even with an Extend past its released check |
| `RedisLaws.AnswerIsOwnership` | redislock/holder.go:57-100 | in every run, a Release or Extend that is answered reports success if and only if its holder owned the key |
| `RedisLaws.ResentReleaseReportsLost` | redislock/holder.go:61-75 | a Release that deleted its key and had to be sent again reports the lock as lost, in every later run |
| `RedisLaws.ResentIncrCountsTwice` | redislock/lock.go:161-164 | an INCR that is sent again counts twice and gives its caller the second number |
| `RedisLaws.ResentExtendRuns` | redislock/holder.go:86-98 | an Extend that is sent again has re-timed the key as an answered one does |
| `RedisLaws.LinksDecide` | redislock/lock.go:153-164 | a lost request changes no key, a lost reply leaves what an answered request leaves, and neither is answered |
| `RedisLaws.OperatorTakes` | redislock/holder.go:70-75 | a DEL from outside takes the key from its holder and touches no other |
| `RedisLaws.CallsSpareOthers` | redislock/scripts.go:14-37 | in every run no Release or Extend deletes or re-times a key that holds anything but the caller's value |
| `RedisLaws.EarlierOwnerIsGone` | redislock/lock.go:153-159 | once a later attempt got a key, the earlier owner's ownership is over |
| `RedisLaws.LeaseKeptExactly` | redislock/holder.go:79-100 | a holder still owns its key after a run if and only if its lease was covered in time throughout |
| `RedisLaws.LeaseKeptFromGrant` | redislock/holder.go:79-100 | from a granted SET NX in any run on, whatever follows, its holder owns the key if and only if the lease of its TTL was covered throughout |
| `RedisLaws.NobodyElseAcquires` | redislock/lock.go:153-159 | while a lease is covered no SET NX on that key succeeds |
| `RedisLaws.ExtendKeepsExactly` | redislock/holder.go:90-98 | an Extend that reports success keeps the lock if and only if the TTL is at least a millisecond |
| `RedisLaws.ExtendLastsItsTtl` | redislock/holder.go:90-98 | left alone after an Extend that found its value, a holder owns its key if and only if the TTL is at least a millisecond and has not passed |
| `RedisLaws.TokensFollowIncr` | redislock/lock.go:161-172 | tokens of a name differ and are ordered as their INCR calls, across slots |
| `RedisLaws.TokensFollowOwnership` | redislock/lock.go:153-172 | successive owners' tokens increase unless the earlier one's INCR ran after its key was lost |
| `RedisLaws.StaleWritesAreFenced` | docs/design/fencing-tokens.md:150-173 | after a later owner's write the fenced store never takes an earlier owner's again, if that owner's INCR was in time |
| `RedisLaws.FencingExactly` | docs/design/fencing-tokens.md:162-173 | right after the later owner's write, the earlier one's is taken if and only if its INCR ran after the later one's |
| `RedisLaws.FencedStoreTakes` | docs/design/fencing-tokens.md:162-173 | the downstream store takes a first write, and every write of a token that is not below the highest |
| `RedisLaws.LateIncrDefeatsFencing` | redislock/lock.go:153-164 | a concrete run in which a late INCR lets a stale write through |
| `RedisLaws.FenceNameIsLockedOut` | redislock/lock.go:60-74 | once a name has counted a token, the lock called name:fence can never be acquired again |
| `MemLock.Factory.Acquire` | memlock/memlock.go:81-129 | acquires exactly if fewer than n are held, or none, with one more held and the next token; otherwise nothing changes |
| `MemLock.Holder.Release` | memlock/memlock.go:198-213 | the first call gives one slot back and drops an empty entry, later calls change nothing, other names never change |
| `MemSteps.AcquireAlone` | memlock/memlock.go:95-129 | the two interleavable halves of Acquire, run alone, do what the method promises and record the caller's bound, entry and token |
| `MemSteps.ReleaseAlone` | memlock/memlock.go:198-213 | the two halves of Release, run alone, give back exactly one slot |
| `MemSteps.StepKeeps` | memlock/memlock.go:95-213 | every mutex section and atomic step keeps the invariant |
| `MemSteps.TableIsExact` | memlock/memlock.go:95-213 | in every interleaving held is the number of calls counted in and not out, no entry is zero or negative, and the count never exceeds the largest bound |
| `MemSteps.NeverMoreThanPassed` | memlock/memlock.go:81-129 | in every interleaving, if every Acquire of a name passes at most k >= 1, at most k calls of it are in: one, when everyone passes 1 |
| `MemSteps.TokensAreUnique` | memlock/memlock.go:124-128 | tokens of a name are unique and at least 1 |
| `MemSteps.TokensFollowEntry` | memlock/memlock.go:106-129 | a singleton caller's token exceeds that of every call that took a slot before, though tokens are drawn outside the mutex and entries are deleted and re-created |
| `MemSteps.TokensFollowCompletion` | docs/design/fencing-tokens.md:85-91 | with any bounds, an Acquire that starts after another returned gets the larger token |
| `MemSteps.StepRefines` | memlock/memlock.go:95-213 | each step is a P, a V or nothing of a counting semaphore |
| `MemSteps.RunRefines` | memlock/memlock.go:95-213 | every run is a run of the counting semaphore |
| `PgKey.HashKey` | pglock/key.go:14-18 | folding the bytes into the state one by one gives the key; those of "" and "a" are the published ones |
| `PgKey.PublishedValues` | pglock/key.go:14-18 | the keys of "", "a" and "foobar" are the FNV-1a hashes that the IETF draft publishes |
| `PgKey.RoundUndone` | pglock/key.go:15-16 | one more byte: undoing the multiplication gives back the state before it, with the byte in its low byte by exclusive or and nothing else touched |
| `PgKey.MultiplyUndo` | pglock/key.go:15-16 | multiplication by the FNV prime can be undone modulo 2^64 |
| `PgKey.MixUndo` | pglock/key.go:15-16 | so can the exclusive or with a byte |
| `PgKey.RoundIsInjective` | pglock/key.go:15-16 | a round of FNV-1a never merges two states |
| `PgKey.RoundTellsBytes` | pglock/key.go:15-16 | a round never merges two bytes |
| `PgKey.FoldKeepsApart` | pglock/key.go:15-16 | different states stay different whatever bytes follow |
| `PgKey.OneByteApart` | pglock/key.go:14-18 | names that differ in exactly one byte never share a key |
| `PgKey.OffsetKeepsApart` | pglock/key.go:17 | the key offset, with wrap-around, preserves equality and inequality of hashes |
| `PgKey.OffsetAdds` | pglock/key.go:17 | a key is an int64 and is the key without offset plus the offset, modulo 2^64 |
| `PgKey.SlotKeysCount` | pglock/lock.go:106-110 | slot 0 has the name's own key and each next slot one more, around the end of int64 |
| `PgKey.SlotKeysDiffer` | pglock/lock.go:106-110 | slot keys of one name coincide only if the slots differ by a multiple of 2^64 |
| `PgLock.Database.TryLock` | pglock/lock.go:113 | granted unless another session has the key, re-entering within the session |
| `PgLock.Database.Unlock` | pglock/holder.go:66 | undoes one locking, if this session has the key |
| `PgLock.Pool.Acquire` | pglock/lock.go:101-104 | an idle or new connection, an error exactly when none is idle and the pool is full |
| `PgLock.Pool.Release` | pglock/holder.go:67 | the connection goes back once, or is dropped when dead |
| `PgLock.AcquireSlot` | pglock/lock.go:100-141 | with a clean pool the lock is got with count 1, or no connection stays out and nothing is locked, except by a query that ran, failed and left its session open |
| `PgLock.Acquire` | pglock/lock.go:57-95 | takes the first slot whose key is free; Locked means every key is locked; exactly one connection is kept on success and none otherwise |
| `PgLock.Holder.Release` | pglock/holder.go:61-78 | returns its connection once; its key and no other is free afterwards, unless the query neither ran nor closed the session |
| `PgSteps.StepKeeps` | pglock/lock.go:100-141 | every checkout, query, failure, return and session death keeps the invariant |
| `PgSteps.AcquireAlone` | pglock/lock.go:100-141 | after a clean run, a call that nobody interrupts gets the lock if and only if nobody has the key, once and on its own connection; otherwise its connection goes back and nothing changes |
| `PgSteps.ReleaseAlone` | pglock/holder.go:61-78 | and a Release that nobody interrupts frees the key and gives the connection back |
| `PgSteps.UnlockUndoesLock` | pglock/lock.go:112-119 | locking adds one to the session's count of the key, and an unlock brings back the locks from before |
| `PgSteps.DeathEnds` | pglock/holder.go:61-78 | the end of a session ends its locks and no others |
| `PgSteps.FailedCallsReturn` | pglock/lock.go:112-119 | in every run, the connection of a failed query is given back, and is idle if and only if its session is open |
| `PgSteps.Exclusion` | pglock/lock.go:57-141 | although locks re-enter, two live holders never share a key in any run, whether or not failures close sessions |
| `PgSteps.HoldersAreBounded` | pglock/lock.go:80-94 | live holders of a name never exceed the largest n used, singleton and semaphore callers mixed |
| `PgSteps.ConnectionsAreConserved` | pglock/lock.go:100-141 | idle, in-flight and held connections are disjoint and are all there are; each connection returns exactly once |
| `PgSteps.SessionsAreClean` | pglock/holder.go:61-78 | if failed queries that may have locked close their session, idle sessions have no locks and a checked-out one at most one, taken once |
| `PgSteps.ReleaseFreesTheKey` | pglock/holder.go:61-67 | then a Release whose unlock works frees the key |
| `PgSteps.FailedUnlockLeaksExactly` | pglock/holder.go:66-67 | after every clean run, a failed unlock leaves its key locked if and only if it neither ran nor closed its session |
| `PgSteps.FailedLockLeaksExactly` | pglock/lock.go:112-119 | and a failed try-lock leaves a free key locked if and only if it ran and did not close its session |
| `PgSteps.LeakLastsExactly` | pglock/holder.go:66-67 | through every later run the leaked key stays with that session exactly as long as it is open, and no other session can get or hold it |
| `PgSteps.LeakRefusesOthers` | pglock/holder.go:66-67 | a run from the start in which a caller is refused a key that no call holds |

## Left out

- `etcdlock`: its protocol is in etcd's concurrency package, which is not part of this model.
- `flock`: Release closes and unlinks in two steps, so exclusion per path is no invariant of its steps.
- Observability, option plumbing, Locker adapters, gocronlock and the Windows probe: thin wrappers without protocol.
- Exclusion of filelock when takeovers race on a crashed holder, when a process exits inside another's
  read-to-rename window, or under an expired time window: the code does not guarantee it. `FileSteps` has no
  terminating process, and `FileCrashes` has whole calls as steps and no window.
- Fence monotonicity of filelock in semaphore mode: two slots can read the same counter, which filelock/fence.go:27-32
  documents as best effort.
- Redis failover and replication, fsync, NFS.
- `Marker.WriteMarker`, `Marker.WriteDebug`: write and flush errors, which are faults of `FileLock.TryCreateMarker` and
  `FileLock.TakeoverMarker`.
- `Marker.ReadMarker`: errors of opening and reading the file, which are faults of `FileLock.AcquireMarker`.
- `FileLock.AcquireMarker`, `FileLock.AcquireSlot`, `FileLock.Acquire`: run without interference, so that the retry after a
  marker raced away is only in `FileSteps`. A marker whose times have a year outside 0 to 9999 cannot be printed here;
  Go prints it with another number of digits. The text of the stale window (Duration.String) is an input.
- `FileLock.WriteFence`, `FileLock.BumpFence`: a temporary fence file that cannot be removed.
- `FileLock.ReclaimOne`: runs without interference; two reads that differ are in `FileSteps`.
- `FileLock.Sweep`: a directory that cannot be listed, an error before anything else happens.
- `FileSteps.StepKeeps`, `FileSteps.Exclusion`, `FileSteps.RemovesOnlyItsOwn`, `FileHosts.ExclusionExactly`,
  `FileCrashes.OneLiveHolder`: one lock name in singleton mode. Other names and slots have other files
  (`FileLock.SlotMarkersDiffer`). An acquirer whose marker cannot be printed, or whose strings contain newlines (in
  `FileCrashes` also surrounding white space or lines over the scanner's limit), takes no lock. A host is its hostname:
  two machines of one name, which the code cannot tell apart either, are not part of this model.
- `FileHosts.ExclusionExactly`: assumes that the PIDs in use leave room for two more in an int64.
- `FileCrashes.StepKeeps`, `FileCrashes.OneLiveHolder`, `FileCrashes.RecoveryExactly`, `FileCrashes.TokensStrictlyIncrease`: each
  Acquire, Release and Sweep is one step.
- `FileCrashes.TokensStrictlyIncrease`, `FileSteps.TokensStrictlyIncrease`: fewer than 2^64 steps, a readable fence file
  and no rename collision on it, which POSIX rename does not report for files.
- `RedisStore.Server`: a negative TTL, which go-redis turns into KEEPTTL.
- `RedisLock.AcquireSlot`, `RedisLock.Acquire`: a failing random source and a client that is no Cmdable, errors before the first
  request; and a SET NX that go-redis sends again, which is an orphan in `RedisSteps`.
- `RedisLock.Holder.Release`, `RedisLock.Holder.Extend`: requests that go-redis sends again, which are in `RedisSteps`.
- `RedisSteps.StepKeeps`: an operator may delete locks but not counters, and nobody else writes the keys.
- `RedisLaws.TokensFollowIncr`: tokens of 0 (a failed INCR) are exempt, as the source documents.
- `PgLock.Pool.Acquire`: waiting for a connection; a full pool is an error at once.
- `PgLock.AcquireSlot`, `PgLock.Acquire`: start from a pool without leaked locks; `PgSteps` has all others.
- `PgLock.Acquire`: the `txid_current()` token and `application_name`, which change no lock.
- `MemSteps.TokensAreUnique`, `MemSteps.TokensFollowEntry`, `MemSteps.TokensFollowCompletion`: fewer than 2^64 acquires of
  a name, after which the counter wraps around.

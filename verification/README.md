# thermaplan core in Dafny

thermaplan is an Android daemon that talks to a kernel module over a netlink
socket. It moves tasks between cgroups and cpusets when the kernel asks, and
it blocks or unblocks mpdecision by shrinking the background cpuset to one
core and then restoring it. This project models the decision logic of that
daemon:

- the outbound netlink frame and the sequence counter stamped into it
  (`Netlink`, over the little-endian codecs of `Wire`);
- the decoding of inbound command messages, the receive loop that toggles the
  core block and replies to the kernel, and the one-shot guard of the
  bg-cgroup watcher (`Daemon`);
- the core-block state machine of BlockMpdecision and UnblockMpdecision, the
  mpdecision command handler, and the upcall tracker (`Mpdecision`);
- `write`, `migrateTasks`, and the listener, coalescer and coordinator rules
  of `GroupRequests` (`Common`, `Coalescing`);
- the move_to_cgroup and cpuset command handlers (`Handlers`).

The pseudo-files under /sys and /dev are a value `FileSystem.Fs`. It holds:
- what each readable path returns;
- the paths that cannot be opened for writing;
- a per-path number of further write calls accepted, which stands for a write
  that fails;
- the ordered log of accepted write calls.

In this model, reads see fixed contents: a write by the daemon never changes
what a later read of any file returns. Go's `strings.TrimSpace`, `strings.Split`, `strconv.Atoi`,
`strconv.ParseBool` and `bufio.ScanLines` have specified counterparts in
`Text` and `FileSystem`; the scanner keeps the 64 KiB limit of
`bufio.MaxScanTokenSize` and stops at the first line that long or longer. The conversion of message bytes to a Go string
follows UTF-8 decoding, with U+FFFD for invalid bytes (`Utf8`). Go's `int`
is taken to be 64 bits wide. `uint32` arithmetic wraps explicitly through
`Wire.ToU32`.

Goroutines and channels are reduced to what they decide:
- a Block or Unblock either sends its completion signal or does not;
- the receive loop, which waits for that signal, is stuck forever when it
  does not come;
- a successful Block stays parked on the unbuffered `signalChan`, and only a
  parked Block lets an Unblock's send go through;
- a slice expression that would panic ends the daemon (`Crashed`).

## Model

| member | source | states |
|---|---|---|
| Wire.U32RoundTrip | netlink.go:55-56 | reading back the 4 little-endian bytes of a u32 gives the value |
| Wire.U16RoundTrip | netlink.go:49 | reading back the 2 little-endian bytes of a u16 gives the value |
| Wire.ToU32 | netlink.go:67 | uint32 conversion: values below 2^32 are kept |
| Wire.ToU32Congruent | netlink.go:91 | the uint32 wrap differs from the value by a multiple of 2^32 |
| Netlink.EncodeHeader | netlink.go:49 | the binary.Write of an NlMsghdr is 16 bytes |
| Netlink.EncodeFrame | netlink.go:47-64 | Bytes() is 16 + len(magic) + 4 + len(data) bytes long |
| Netlink.EncodeFrameLayout | netlink.go:47-64 | Bytes() is header, then magic, then the little-endian Length, then the data, each at its offset |
| Netlink.HeaderRoundTrip | netlink.go:49 | decoding the encoded header gives back Len, Type, Flags, Seq and Pid |
| Netlink.DecodeFrame | netlink.go:47-64 | a frame can be read back exactly when there are at least 16 + 1 + 4 bytes |
| Netlink.FrameRoundTrip | netlink.go:47-64 | every frame with a one-byte magic decodes back to itself |
| Netlink.NetlinkPacket.constructor | netlink.go:41-45 | a fresh packet has a zero header, magic exactly "@", Length 0 and no data |
| Netlink.NetlinkPacket.UpdateDataLength | netlink.go:66-69 | header Len becomes 16 + 1 + 4 + n in uint32 arithmetic, Length becomes n, nothing else changes |
| Netlink.SendFrame | netlink.go:80-97 | the frame Send builds has magic "@", the payload, the given Seq and Pid, Type and Flags 0, and Len = 21 + len(b) and Length = len(b) when those fit |
| Netlink.SendFrameLength | netlink.go:85-97 | the datagram is exactly as long as its header Len says |
| Netlink.SendFramePayload | netlink.go:55-60 | byte 16 is "@", bytes 17..21 read as the payload length, and the payload follows unchanged |
| Netlink.NetlinkSocket.constructor | netlink.go:16 | SeqNum starts at 0; the socket keeps its bound pid |
| Netlink.NetlinkSocket.Send | netlink.go:80-101 | SeqNum goes up by one mod 2^32 and the datagram is the frame stamped with the new SeqNum and the socket's pid |
| Netlink.Recv | netlink.go:103-117 | a failed read, or fewer than 16 bytes, is an error with no messages; otherwise the buffer goes on to the parser |
| Netlink.MessageStarts | netlink.go:113-116 | ParseNetlinkMessage: less than a header left gives no further message; a Len below 16 or an aligned Len past the bytes read is an error that discards every message; otherwise the first message's data starts right after its header; every data start lies within the bytes read |
| Netlink.MessageStartsChain | netlink.go:113-116 | a successful parse is a chain: each header's Len is at least 16 and its aligned message fits, each data start is right after its header, each next header is at the previous aligned Len, and less than a header is left after the last |
| Netlink.ChainMessageStarts | netlink.go:113-116 | conversely, every such chain is exactly what the parse returns |
| Netlink.SecondBadLenDropsAll | netlink.go:114-115 | a bad Len on the second header discards the first, valid, message too |
| Netlink.OneMessage | netlink.go:113-116 | a read holding one message whose aligned Len is the whole read gives one message, its data at offset 16 |
| Netlink.ShortLenDropsAll | netlink.go:114-115 | a header Len below 16 makes the parse fail and the whole read yields no message |
| Daemon.CommandText | main.go:548-550 | on the capacity view of a message's Data (its bytes through the end of the page buffer, which bounds Go's slice expressions): the text is decoded exactly when the view has 4 bytes and 4 + real_len, computed in uint32, is at least 4 and within the view; the text is the UTF-8 decoding of bytes [4, 4+real_len) |
| Daemon.CommandTextRoundTrip | main.go:548-550 | a length prefix followed by the UTF-8 of a text decodes to that text, whatever bytes follow |
| Daemon.NoBreakSpaceIsTrimmed | main.go:550-563 | "1" followed by the two-byte no-break space still blocks, because TrimSpace works on runes |
| Daemon.ShortDataReadsPadding | main.go:548-550 | a 5-byte Data announcing 5 bytes of text reads on into the zeroed buffer: "1" and four NULs, an unknown command rather than a panic |
| Daemon.MessageCommand | main.go:548-551 | a message, taken up to its capacity, yields no command exactly when decoding it panics |
| Daemon.PageBuffer | netlink.go:106-113 | the receive buffer is page-sized and starts with the bytes read |
| Daemon.Messages | netlink.go:103-117 | a failed Recv or parse gives no message; otherwise one view per parsed message, in order, each the bytes read from its data start followed by the page buffer's zero tail, so it holds at least that tail and at most a page less a header |
| Daemon.Dispatch | main.go:545-566 | a round sends at most one reply per message and changes no file but by writing |
| Daemon.DispatchStops | main.go:550-563 | a round that panics or waits on its first message sends nothing and keeps the counter |
| Daemon.DispatchNumbersReplies | main.go:551-563 | the k-th reply of a round is "0" or "1" stamped with the round's starting SeqNum + k + 1 mod 2^32, and the counter ends advanced by the number of replies |
| Daemon.UnknownTextsChangeNothing | main.go:564-565 | texts other than "0" and "1" change neither state, counter nor files, and send nothing |
| Daemon.ReceiveRound | main.go:540-567 | one pass of the receive loop: after a failed Recv or parse nothing runs; otherwise the messages, each up to its capacity, are handled in order as Dispatch says, with the replies sent as the datagrams of those replies |
| Daemon.HandleMessages | main.go:545-566 | the loop over the messages ends in the state, counter, files and status Dispatch gives, and sends the datagrams of Dispatch's replies in order |
| Daemon.BgCgroupWatch.constructor | main.go:44 | bgCgroupHandlerStarted starts false |
| Daemon.BgCgroupWatch.Start | main.go:223-243 | BgCgroupHandler sets the flag; it registers its work only on the first call, and only when both tasks files open |
| Daemon.BgCgroupWork | main.go:245-247 | the registered work reopens the watched tasks file: if it no longer opens, an error and no write; otherwise its lines go to the bg cpuset, one write each, up to the first refused write, and the work succeeds exactly when all were written |
| Mpdecision.CoreBlock.constructor | main.go:407-410 | isBlocked starts false, with no Block parked |
| Mpdecision.BlockSpec | mpdecision_handler.go:99-171 | Block changes the files only by writing; from unblocked it always sets the flag, signals exactly when the bg-cpu file reads, and parks exactly when every step succeeds (both writes open, both tasks files open, every line copied) |
| Mpdecision.CoreBlock.Block | mpdecision_handler.go:99-171 | BlockMpdecision performs exactly the transition BlockSpec gives and keeps "parked implies blocked" |
| Mpdecision.UnblockSpec | mpdecision_handler.go:173-219 | Unblock changes the files only by writing; blocked with no Block parked, it is stuck with no change and no signal; with one parked, it always clears the flag, and signals exactly when a cpuset write fails or both tasks files open |
| Mpdecision.CoreBlock.Unblock | mpdecision_handler.go:173-219 | UnblockMpdecision performs exactly the transition UnblockSpec gives and keeps "parked implies blocked" |
| Mpdecision.TransitionsKeepConsistent | mpdecision_handler.go:113-190 | neither transition parks a Block without the flag set |
| Mpdecision.BlockWhenBlocked | mpdecision_handler.go:113-117 | Block while blocked writes nothing, stays blocked, signals and does not park again |
| Mpdecision.BlockAlwaysSetsFlag | mpdecision_handler.go:119-151 | Block from unblocked ends blocked whatever fails; it parks only after signalling |
| Mpdecision.BlockReadFailure | mpdecision_handler.go:121-124 | an unreadable bg-cpu file: blocked, no write, no signal |
| Mpdecision.BlockMemsFailure | mpdecision_handler.go:127-130 | a failed mems write skips the rest and still signals |
| Mpdecision.BlockCpusFailure | mpdecision_handler.go:127-134 | a failed cpus write after the mems write: "0" to mems only, blocked, signalled, not parked |
| Mpdecision.BlockTasksOpenFailure | mpdecision_handler.go:136-145 | a tasks file that does not open: both cpuset writes stay, blocked, signalled, not parked |
| Mpdecision.BlockWrites | mpdecision_handler.go:125-169 | all files open: "0" to mems, the bg-cpu text to cpus, then the bg cgroup's task lines to the bg cpuset as far as accepted, in that order; signalled, and parked exactly when every line was written |
| Mpdecision.UnblockWhenUnblocked | mpdecision_handler.go:183-186 | Unblock while unblocked writes nothing and signals |
| Mpdecision.UnblockAfterFailedBlockStalls | mpdecision_handler.go:183-190 | after a Block from unblocked that failed at any step, Unblock's send has no receiver: nothing changes and no signal comes |
| Mpdecision.UnblockWrites | mpdecision_handler.go:187-218 | all files open: unblocked, "" to mems then cpus, then the bg cpuset's task lines to the root cpuset as far as accepted; signalled even when the copy stops early |
| Mpdecision.UnblockWriteFailure | mpdecision_handler.go:187-198 | a failed mems or cpus write: the parked Block is released, the flag cleared, no task copied, and the signal still sent |
| Mpdecision.UnblockOpenFailure | mpdecision_handler.go:200-209 | either tasks file not opening after both writes: unblocked, both writes done, but no signal |
| Mpdecision.BlockThenUnblock | mpdecision_handler.go:99-219 | a successful Block then Unblock returns to the initial state, both signalled |
| Mpdecision.ParseToggle | mpdecision_handler.go:16-32 | a text is an unknown command only when its trimmed form is neither "0" nor "1" |
| Mpdecision.ParseTogglePadded | mpdecision_handler.go:16-17 | white space around the digit does not matter |
| Mpdecision.ToggleSpec | mpdecision_handler.go:15-33 | "0" or "1" runs the transition; once it signals, the same digit is replied under the next SeqNum; no signal means stuck and no reply; other text changes nothing |
| Mpdecision.HandleToggle | mpdecision_handler.go:17-32 | the handler goroutine's toggle does what ToggleSpec says, and its reply is the datagram of ToggleSpec's reply |
| Mpdecision.MpdecisionHandler | mpdecision_handler.go:15-33 | MpdecisionHandler trims its arguments and toggles as ToggleSpec says |
| Mpdecision.HandleUpcall | mpdecision_handler.go:38-67 | state 1 writes "0" to the bg cpus, logged exactly when that file opens and accepts it; state 0 writes "0-3" to the root cpus when it opens (logged when accepted: a refused write is ignored) and, only then, "0" to the bg cpus when that opens and accepts it; other states write nothing; no path changes but by writing |
| Mpdecision.HandleUpcallZero | mpdecision_handler.go:52-63 | state 0: "0-3" to the root cpus, then "0" to the bg cpus |
| Mpdecision.HandleUpcallZeroRootFails | mpdecision_handler.go:55-58 | state 0 with the root cpus unopenable writes nothing more |
| Mpdecision.UpcallWork | mpdecision_handler.go:69-93 | the work closure succeeds exactly when the upcall file reads and Atoi accepts it, and then records the parsed value; it changes the files only by writing |
| Mpdecision.UpcallTracker.constructor | mpdecision_handler.go:36 | mpdecisionBlocked starts at -1 |
| Mpdecision.UpcallTracker.Work | mpdecision_handler.go:69-93 | the closure updates the recorded value and the files as UpcallWork says |
| Mpdecision.UpcallRecords | mpdecision_handler.go:74-89 | the recorded value changes only to a freshly parsed one; handleUpcall runs only when an earlier value differs; a failed read or parse changes nothing |
| Mpdecision.UpcallHandlesChange | mpdecision_handler.go:83-89 | a parsed value is recorded; handleUpcall runs for it when an earlier value was recorded and differs, and otherwise no file is written |
| Mpdecision.UpcallTrailingNewline | mpdecision_handler.go:78-81 | a value followed by a newline fails Atoi, so nothing changes |
| Common.Write | common.go:30-49 | write succeeds exactly when the path opens; it logs the one chunk or nothing, and logs it exactly when the file accepts it |
| Common.Migrate | common.go:63-101 | migrateTasks succeeds exactly when both files open and the destination accepts one write per line the scanner yields (the lines before the first one of 64 KiB or more; the error Scan then records is never checked); it changes the files only by writing, and no other path's quota |
| Common.CopyLinesWrites | common.go:88-98 | the copy writes the longest prefix of lines the destination accepts, one write per line and no newline, and succeeds exactly when all were written |
| Common.MigrateTasks | common.go:63-101 | the copy loop does what Migrate specifies |
| Common.MigrateEmptySource | common.go:88-100 | an empty source: no write, no error |
| Common.MigrateOpenFailure | common.go:68-71 | an unopenable source or destination: error, no write |
| Common.MigrateWrites | common.go:63-101 | the scanned lines reach the destination in order, one write each, up to the first refused write; the copy succeeds exactly when every scanned line was written |
| Common.MigrateLongLine | common.go:88-100 | a source line of 64 KiB or more silently ends the copy: only the lines before it are written, and the migrate still succeeds |
| Common.MigrateListing | common.go:88-98 | a newline-terminated list of PIDs is copied as exactly those PIDs |
| FileSystem.ReadFile | mpdecision_handler.go:121 | ioutil.ReadFile returns the whole content exactly when the path is readable |
| FileSystem.PutChunk | common.go:46 | one write call is logged exactly when the file accepts it, and no other path is affected |
| FileSystem.ScanJoinLines | common.go:88-92 | ScanLines gives back the lines of a newline-terminated listing of lines shorter than 64 KiB |
| FileSystem.LongLineStopsScan | common.go:88-90 | Scan stops at the first line of 64 KiB or more: only the lines before it are yielded, whatever follows |
| Coalescing.MaskedMembers | common.go:195-201 | a request is enqueued at time t exactly when an event at t has an operation in the mask |
| Coalescing.MaskedAppend | common.go:191-202 | the listener handles events one after another |
| Coalescing.Listen | common.go:191-202 | the listener loop enqueues what Masked specifies |
| Coalescing.UnmaskedEventsRequestNothing | common.go:196-201 | events outside the mask request nothing |
| Coalescing.Coalesce | common.go:139-157 | the coalescer loop forwards what CoalesceFrom specifies, with lastWorkTime starting at 0 |
| Coalescing.CoalesceSpaced | common.go:150-154 | forwarded ticks are at least 150 ms apart |
| Coalescing.CoalesceFromRequests | common.go:149-155 | only request times are forwarded |
| Coalescing.CoalesceQuiet | common.go:151 | requests within 150 ms of the last forwarded tick are dropped |
| Coalescing.CoalesceForwardsFirstDue | common.go:149-155 | the first request at least 150 ms after the last forwarded tick is forwarded first, and the period restarts from it |
| Coalescing.CoalesceForwardsIff | common.go:149-155 | some tick is forwarded exactly when some request comes at least 150 ms after the last forwarded tick |
| Coalescing.BurstForwardsAtMostOne | common.go:150-154 | a burst of requests spanning less than 150 ms forwards at most one tick |
| Coalescing.Step | common.go:166-187 | "work" records the time and starts the poller unless it runs; "poll" after the period calls work, and only success stops the poller |
| Coalescing.Coordinate | common.go:135-189 | the coordinator loop does what RunFrom specifies |
| Coalescing.RunInvokesOnPolls | common.go:166-183 | the callback runs only on "poll" ticks and pollers start only on "work" ticks |
| Coalescing.AsWrittenPollDoesNotWait | common.go:137 | with the period as written, a poll 1 ns after a work already runs the callback |
| Coalescing.IntendedPollWaits | common.go:137-141 | with a 150 ms period, a poll runs the callback exactly when it comes more than 150 ms after the last work |
| Handlers.ParseMoveArgs | move_to_cgroup_handler.go:11-33 | accepted exactly when there are three tokens, Atoi takes the first and ParseBool the last; the result is Atoi's pid, the middle token and ParseBool's flag; the pid is a 64-bit int and the cgroup has no space |
| Handlers.ParseFormatMoveArgs | move_to_cgroup_handler.go:11-33 | every well-formed triple, with any surrounding white space, parses back to itself |
| Handlers.MoveArgsDoubleSpaceRejected | move_to_cgroup_handler.go:15-16 | "42  bg true" is rejected: the double space makes an empty fourth token |
| Handlers.MovePidToCgroup | move_to_cgroup_handler.go:47-50 | succeeds exactly when /dev/cpuctl/<cgroup>/tasks opens for writing, and writes nothing but the pid's decimal there |
| Handlers.MovePidToCpuset | move_to_cgroup_handler.go:52-56 | succeeds exactly when the tasks of cpuset cs_<cgroup> open for writing, and writes nothing but the pid's decimal there |
| Handlers.MoveToCgroupHandler | move_to_cgroup_handler.go:10-45 | the handler appends at most two writes and changes nothing else |
| Handlers.MoveRejectedWritesNothing | move_to_cgroup_handler.go:16-33 | a rejected command writes nothing |
| Handlers.MoveBadPid | move_to_cgroup_handler.go:21-25 | a first token that Atoi rejects writes nothing |
| Handlers.MoveBadBool | move_to_cgroup_handler.go:29-33 | a last token that ParseBool rejects writes nothing |
| Handlers.MoveWrites | move_to_cgroup_handler.go:21-44 | for any command ParseMoveArgs accepts (any sign, leading zeros or ParseBool spelling): when the cgroup's tasks open, the pid's decimal is written there (logged if accepted, a refusal ignored) and then, only if asked, to the cpuset's tasks likewise; when they do not open, nothing is written |
| Handlers.MoveCgroupFailure | move_to_cgroup_handler.go:21-38 | for any accepted command, when the cgroup cannot be opened, nothing is written and the cpuset is not attempted |
| Handlers.CpusetPath | cpuset_handler.go:21-26 | "cs_default" and only it maps to /sys/fs/cgroup/cpuset/tasks |
| Handlers.CpusetHandler | cpuset_handler.go:9-34 | at most one write, of some pid's decimal and a newline to some cpuset's tasks |
| Handlers.CpusetWrites | cpuset_handler.go:10-30 | "<name> <pid>" with any surrounding white space writes exactly "<pid>\n" to that cpuset's tasks |
| Handlers.CpusetCanonicalPid | cpuset_handler.go:15-28 | the pid is written in canonical decimal: "+042" writes "42\n" |
| Handlers.CpusetBadPid | cpuset_handler.go:15-19 | a pid that Atoi rejects writes nothing |
| Handlers.CpusetWrongArity | cpuset_handler.go:12-32 | any token count other than two writes nothing |
| Text.TrimSpace | move_to_cgroup_handler.go:11 | the result starts and ends with no white space and is the input less leading and trailing white space |
| Text.TrimSpaceIdempotent | cpuset_handler.go:10 | trimming twice is trimming once |
| Text.Split | move_to_cgroup_handler.go:15 | Split never returns an empty list, no piece holds the separator, and joining the pieces gives the input |
| Text.SplitJoin | cpuset_handler.go:11 | splitting a join of separator-free pieces gives the pieces back |
| Text.ParseInt | move_to_cgroup_handler.go:21 | Atoi accepts only an optional sign and decimal digits within 64 bits |
| Text.ParseFormatInt | move_to_cgroup_handler.go:21 | Atoi reads back every int that %v renders |
| Text.ParseFormatBool | move_to_cgroup_handler.go:29 | ParseBool reads back "true" and "false" |
| Utf8.DecodeRune | main.go:550 | one rune and its width, 1 to 4 bytes; the rune is the first byte itself, one byte wide, exactly when that byte is below 0x80; a longer sequence never yields an ASCII rune |
| Utf8.DecodeEncodeRunes | main.go:550 | converting UTF-8 bytes to a string gives back the encoded text |
| Utf8.DecodeAscii | main.go:550 | ASCII bytes are their own runes |

## Left out

- `syscall.Getpagesize()` (netlink.go:106) is a parameter, `pageSize`, of `Daemon.ReceiveRound`. The header Len that `syscall.ParseNetlinkMessage` reads in the host's byte order is read little-endian.
- File contents are modelled as text with one character per byte, so the scanner's 64 KiB limit counts characters. The tasks and cpuset files the daemon reads hold ASCII, where the two agree.
- Reads see a fixed contents oracle (`FileSystem.Fs.contents`). Writing a pid into a cgroup or cpuset tasks file changes what that file, and the one the pid left, list on the next read. So a migrate followed by a read of either tasks file is not modelled: the read returns the old listing.
- Socket setup, the `Sendmsg` and `Recvfrom` calls and their errors, and the hello retry of `InitializeNetlinkConnection` (netlink.go:120-155) are syscalls or an unbounded I/O retry. `Send` returns the bytes it would hand to `Sendmsg`.
- Goroutines, channels, `time.Sleep`, `time.Now` and the `done` flag are left out. Their effects appear as follows:
  - timestamps are integers given with each event or tick;
  - the poller's "poll" ticks are inputs to the coordinator;
  - `GroupRequests` is modelled as three separate step rules rather than as concurrent goroutines.
- The poller never stops, because `break` inside its `select` only leaves the `select`; no process model covers this. The coordinator's `break` on a failed `work()` only leaves the `switch`, which `Coalescing.Step` does model.
- The `groupPeriod` and `pollPeriod` parameters of `GroupRequests` are not modelled. `groupPeriod` is never used in the source.
- Block's wait on `signalChan` after it signals is modelled only as the `parked` flag that lets an Unblock's send go through.
- Logging (`log`, `init_logger`), kingpin flags, fsnotify watcher setup (`AddWatcher`), `Process`, `Main` and `test_main.go` are I/O plumbing.
- main.go's copies of `migrateTasks`, `GroupRequests`, `MpdecisionCoexistUpcallHandler` and Block/Unblock (main.go:46-188, 253-315, 412-532) are left out, and so is the commented-out `MpdecisionUpcallHandler`. Each routine is modelled once, from common.go and mpdecision_handler.go.
- `FgBgMigrationHandler` (main.go:190-218) is not part of this model.
- The gocommons file library is replaced by `FileSystem.Fs`. Seeking, and getting a reader or writer from a file that did open, cannot fail in the model.
- Handlers.MovePidToCpuset: the path is built by plain concatenation. It equals `filepath.Join`'s result only for cgroup names that need no lexical cleaning (no "/", "." or ".." parts).
- Text.ParseInt: only the decimal forms `strconv.Atoi` accepts are modelled. Its error values are not distinguished.
- Handlers.CpusetHandler: the contract says only that at most one write happens. The exact write is stated by `Handlers.CpusetWrites` and `Handlers.CpusetCanonicalPid`.
- Daemon.Dispatch: the contract bounds the replies and the file changes. Their content and numbering are stated by `Daemon.DispatchNumbersReplies`, `Daemon.DispatchStops` and `Daemon.UnknownTextsChangeNothing`.

## Findings

| source | as written | input that shows it | evidently intended | confidence | as-written member | corrected member |
|---|---|---|---|---|---|---|
| common.go:137 | `period := int64(150 * 000 * 000)`: `000` is an octal zero, so the coordinator's period is 0 ns | a "work" tick at t, then a "poll" tick at t + 1 ns: the work callback already runs | 150 * 1000 * 1000 ns, that is 150 ms, like the coalescer's period at common.go:141 | medium, not executed | Coalescing.AsWrittenPollDoesNotWait | Coalescing.IntendedPollWaits |

# SwiftSH core, modelled in Dafny

This project models the sequential logic of SwiftSH, a Swift SSH client library built on libssh2. It covers six parts:

- **SCP session** (`scp.dfy`, module `SCP`). This is the single-download state machine of `SCPSession`. Each data-available notification reads one packet and clips any overshoot past the size declared in the handshake. It writes the clipped packet to the output stream, adds the bytes the stream accepted to `totalBytesRead`, and picks one outcome by a fixed priority. The module also models the receive handshake checks (missing metadata, the owner-read bit) and the upload's size verification. The fields of `SCPSession` that a download reads and writes are mirrored by a pure `DownloadState`. One notification is the function `ReadStep`, and the method `NotifyDataAvailable` is proved equal to it. The accounting over a whole run of packets is `Feed` at the level of counts and `Drive` at the level of the class state, and the two are proved to agree.
- **Command execution** (`command.dfy`, module `Command`). This is the `SSHCommand` drain tick. It covers the stdout/stderr accumulators, the completion predicate and the composed `execError`. It also covers `finishOperation`'s at-most-once guard and the timeout path. Completion callbacks, timer suspension and resumption, cancellation and close requests are recorded in a trace. The trace places the cancel and close that `finishOperation` dispatches right after the completion call (see Left out).
- **Channel lifecycle** (`channel.dfy`, module `Channel`). This is `SSHChannel.open()` with its guards, the ordered environment and pseudo-terminal requests, and close-and-rethrow. It also covers `close()`, which never throws, and `setTerminalSize`. Every call made to the transport is logged, and whether it fails is a method argument.
- **FileInfo** (`file_info.dfy`, module `FileInfo`). This covers the record, `init(fromStat:)`, `init(fromLocalPath:)` defaulting, and the 26-byte `toData()` layout with an inverse decoder. It builds on `bytes.dfy` (module `Bytes`), which holds little-endian unsigned and two's-complement integers and sign extension.
- **Path resolution** (`scp_transfer.dfy`, module `SCPTransfer`). This covers `resolvePath`, `documentsPath` and the forwarding of `upload`/`download`. The documents directory search result is a parameter. `appendingPathComponent` is a join on `/`.
- **Error tables** (`errors.dfy`, module `Errors`). This covers the `description()` maps for the Socket, Channel, SCP and Command errors. The Socket, Channel and SCP descriptions each have an inverse and an injectivity lemma. The Command description is not inverted: its lemmas show that it embeds the text of UTF-8 data, and that for other data it embeds a byte count that reads back. It also covers `SSHDisconnectionCode` with the reason codes 1 to 15 of section 11.1 of RFC 4253. The `execError` description decodes bytes as UTF-8 (`utf8.dfy`, module `Utf8`: well-formed UTF-8 as in table 3-7 of the Unicode Standard, with both round trips).

Calls into libssh2, Foundation streams and the file system are oracles. They are method parameters that say what the call returned or whether it threw. Completion handlers are tokens, and calling one appends an event to a log.

Notes on the code's behaviour:
- Each download read asks the SCP channel for the whole declared file size, not for what remains of it. `NotifyDataAvailable` logs that request with its size. The length of the packet that comes back is an oracle and is not bounded by the request.
- `SCPSession` runs one download at a time, and its running total persists across downloads (see Findings).
- `open()` sets the session's blocking mode to true and never restores it.
- The timeout timer is resumed by a `defer`, so it resumes after `finishOperation` has run.

## Model

| member | source | states |
|---|---|---|
| SCP.WriteLength | Sources/SwiftSH/SCP.swift:103-114 | The write length is the packet size, clipped to what is left of the declared size (`Min(packetSize, fileSize - total)`). It is never more than the packet. Starting within the size, it is non-negative and never passes the size. |
| SCP.OutcomeAfterWrite | Sources/SwiftSH/SCP.swift:130-136 | Exactly one outcome after a write: success iff the total equals the size; too much data iff it exceeds it; no space iff it is below the size and the sink is full; otherwise no callback. |
| SCP.FeedWritesClippedTotal | Sources/SwiftSH/SCP.swift:96-136 | Over any run of packets from a total within the size, the writes are non-negative and sum to the bytes received clipped to the size. The download completes, always with success, iff some bytes arrived and they reach the size. |
| SCP.ClippingScenario | Sources/SwiftSH/SCP.swift:103-114 | Packets of 300, 300, 300 and 310 bytes against a declared size of 1000 give writes of 300, 300, 300 and 100, then success. |
| SCP.LeftoverTotalEndsNextDownload | Sources/SwiftSH/SCP.swift:128 | As written, the count is not reset between downloads. If it already equals the new size, the first non-empty packet writes 0 bytes and completes with success. |
| SCP.Finish | Sources/SwiftSH/SCP.swift:144-150 | `finishDownload` stops the download and closes the stream if there is one. It keeps the stream's contents and leaves `totalBytesRead` unchanged. |
| SCP.Complete | Sources/SwiftSH/SCP.swift:233-236 | The completion wrapper calls the caller's handler once with the given values, then finishes the download. |
| SCP.ReadStep | Sources/SwiftSH/SCP.swift:78-142 | Outside a download, and for an empty packet, a notification changes nothing and calls nothing. A notification makes at most one callback, to the installed handler. Any callback ends the download and closes the stream. Without a callback, downloading is unchanged and the total does not shrink. The session invariant is kept. |
| SCP.ReadStepAccounting | Sources/SwiftSH/SCP.swift:116-136 | A failed write reports "Stream error: ..." and leaves the total unchanged. A successful write adds exactly the accepted count to the total and the accepted prefix of the packet to the sink. The callback then follows the priority: success with the file info and the packet, then "Received too much data", then "No space available", then none. |
| SCP.ReadFailureReported | Sources/SwiftSH/SCP.swift:137-140 | A read that throws finishes the download and reports that same error with the file info and no data. The total and the sink's contents are kept. |
| SCP.UninitializedReported | Sources/SwiftSH/SCP.swift:89-93 | A notification during a download with no file info or no SCP channel finishes the download and reports "SCP socket read event unable to initialize", whatever the read would have returned. |
| SCP.LeftoverTotalReadStep | Sources/SwiftSH/SCP.swift:103-131 | As written, when the running total already equals the declared size, the first non-empty packet gets a write length of 0. It leaves the sink unchanged, reports success with the packet, and ends the download. |
| SCP.DriveAgreesWithFeed | Sources/SwiftSH/SCP.swift:96-136 | Driving the class state with a run of packets reaches the total `Feed` computes from their sizes, and stops exactly when `Feed` completes. |
| SCP.Drive | Sources/SwiftSH/SCP.swift:78-142 | Successive notifications with a sink that accepts what it is offered keep the session invariant and never take the total past the declared size. |
| SCP.DriveWritesClippedPrefix | Sources/SwiftSH/SCP.swift:96-136 | Starting a download within its size, the sink ends up holding its old contents plus the concatenated packets cut off at the declared size. The total grows by that length. The download keeps running iff the size was not reached. |
| SCP.VerifyUpload | Sources/SwiftSH/SCP.swift:291-306 | Success with the byte count and the transport's own error iff every byte was sent and the channel closed. A size mismatch reports the upload-verification error and does not close the channel. A failing close reports the close error. |
| SCP.SCPSession.FinishDownload | Sources/SwiftSH/SCP.swift:144-150 | The new state is `Finish` of the old one. |
| SCP.SCPSession.CompleteRead | Sources/SwiftSH/SCP.swift:233-236 | It appends one read-completion event for the installed handler, then finishes. |
| SCP.OwnerCanRead | Sources/SwiftSH/SCP.swift:343 | The owner-read test `permissions & S_IRUSR` holds iff the mode's ninth bit (0o400) is set, which for a 16-bit mode is bit 0 of the high byte of its little-endian encoding. |
| SCP.OwnerReadModes | Sources/SwiftSH/SCP.swift:343 | Modes 0o644, 0o600 and 0o400 pass the owner-read check; 0o244, 0o200 and 0o077 fail it. |
| SCP.SCPSession.Download | Sources/SwiftSH/SCP.swift:316-354 | It installs the stream and handler, opens the receive channel and keeps the old total. A failed handshake or missing metadata reports that error (`fileInfoUnavailable` when there is no metadata) and finishes. A clear owner-read bit reports the permission fileRead error, stores no file info, and finishes. Otherwise it records the metadata and starts downloading. |
| SCP.SCPSession.DownloadFromZero | Sources/SwiftSH/SCP.swift:38 | The corrected download resets the total to 0 and otherwise behaves as `Download`: the same handler, channel call, failure reports, stream and file info on every handshake outcome. A download that starts is then within its size, which is the precondition of `DriveWritesClippedPrefix`. |
| SCP.SCPSession.NotifyDataAvailable | Sources/SwiftSH/SCP.swift:78-142 | The new state and the appended events are exactly those of `ReadStep` from the old state. When a download is running and initialised, exactly one read request is logged, for the whole declared size; otherwise none is. The session invariant is kept. |
| SCP.SCPSession.Upload | Sources/SwiftSH/SCP.swift:272-312 | A file-read error or a metadata error is reported with nothing else changed. An open error is reported after the send channel was opened with the metadata's mode and size. Otherwise one write of the whole file is logged and the result is reported as `VerifyUpload` says. Every report is a call of the handler when one was given, and no event when the completion is nil. The download state is left as it was, apart from the new SCP channel. The one exception is a failing close, which also runs `finishDownload`. |
| Channel.SetEnvironmentCalls | Sources/SwiftSH/Channel.swift:98-100 | One environment request per variable, in list order. |
| Channel.FirstFailure | Sources/SwiftSH/Channel.swift:98-100 | Every call before the returned index succeeded, and the call at that index, if any, failed. |
| Channel.SSHChannel.Close | Sources/SwiftSH/Channel.swift:113-127 | It sets blocking mode, issues exactly one close request, and never fails. The channel stays open only if that request failed. |
| Channel.SSHChannel.Open | Sources/SwiftSH/Channel.swift:74-111 | On an unauthenticated session it fails with `authenticationFailed` before any effect. On an open channel it fails with `alreadyOpen`. Otherwise it sets blocking mode and opens the channel; a failure there is rethrown without a close. It then applies the variables in order up to the first failure and requests the terminal only if one is configured. A failure after the open closes the channel and rethrows the same error. |
| Channel.SSHChannel.SetTerminalSize | Sources/SwiftSH/Channel.swift:181-201 | With no terminal it fails with `badUse`, and the same size does nothing. Otherwise it sends the resized terminal (only width and height differ) and stores it only if the resize succeeded. |
| Command.AppendStdout | Sources/SwiftSH/Command.swift:142-154 | A failed read leaves the buffer unchanged. A successful read creates the buffer if needed and appends the chunk, even an empty one. |
| Command.AppendStderr | Sources/SwiftSH/Command.swift:156-166 | Only a non-empty chunk creates or extends the buffer. A failure or an empty chunk leaves it unchanged. |
| Command.DrainStdoutIsDelivered | Sources/SwiftSH/Command.swift:145-148 | From the reset buffer, stdout exists iff some read succeeded, and it holds exactly the bytes delivered, in order. |
| Command.DrainStderrIsDelivered | Sources/SwiftSH/Command.swift:157-163 | From the reset buffer, stderr exists iff some byte was delivered, and it holds exactly those bytes. |
| Command.ComposeError | Sources/SwiftSH/Command.swift:180 | There is an `execError` iff a stderr buffer exists, and it carries exactly those bytes. |
| Command.ComposeErrorOfText | Sources/SwiftSH/Command.swift:180 | Text written to stderr becomes the error's message. |
| Command.SSHCommand.Execute | Sources/SwiftSH/Command.swift:72-100 | It stores the command and handler and resets both buffers. An open failure closes and reports the error with no data, and leaves the timeout source and what it captured unchanged. Otherwise it sets up the timeout with this command and handler and puts the session in blocking mode for `exec`. An exec failure then cancels, closes and reports, leaving the session blocking. A successful exec switches it back to non-blocking. |
| Command.SSHCommand.ReadChannelData | Sources/SwiftSH/Command.swift:140-168 | The session is left in non-blocking mode. The buffers become `AppendStdout`/`AppendStderr` of the reads. The read timer is cancelled iff stdout was read and end-of-file was seen. |
| Command.SSHCommand.FinishOperation | Sources/SwiftSH/Command.swift:174-190 | Without a completion or a command it does nothing. Otherwise it calls the completion once with the stdout buffer and `ComposeError` of stderr, records the cancel and close, and clears both fields. |
| Command.SSHCommand.Tick | Sources/SwiftSH/Command.swift:118-132 | Without a timeout source it does nothing and keeps the blocking mode. Otherwise it suspends the timeout, reads in non-blocking mode, finishes iff end-of-file or an exit status was seen and a completion is pending, and resumes the timeout on the way out. |
| Command.SSHCommand.HandleTimeout | Sources/SwiftSH/Command.swift:134-138 | It cancels the timeout and calls the captured handler with a timeout error and no data. It clears nothing. |
| Command.SSHCommand.CancelSources | Sources/SwiftSH/Command.swift:30-34 | It cancels the timeout source iff one exists. |
| Command.SSHCommand.Close | Sources/SwiftSH/Command.swift:36-43 | It cancels the timeout source, then requests the channel close. |
| Command.TickEventsCompletions | Sources/SwiftSH/Command.swift:124-131 | A tick's events hold one completion call if it finished and none otherwise. |
| Command.TickCompletesIffShouldComplete | Sources/SwiftSH/Command.swift:170-172 | With a completion pending, a tick makes exactly one completion call and clears the completion iff `shouldCompleteOperation` holds, that is end-of-file was received or an exit status exists; otherwise it makes none and the completion stays pending. |
| Command.TicksCompleteAtMostOnce | Sources/SwiftSH/Command.swift:174-190 | Any run of ticks after `execute` adds at most one completion call to the trace. |
| FileInfo.FromStat | Sources/SwiftSH/FileInfo.swift:24-31 | The fields are copied from the stat record. The size must fit in Int32, because `Int32(st_size)` traps otherwise. The mode is within UInt16, which is a type constraint: Darwin's 16-bit `mode_t` always satisfies it. |
| FileInfo.AsInt32OrZero | Sources/SwiftSH/FileInfo.swift:37 | A size attribute that is an Int32 number is kept. Anything else gives 0. |
| FileInfo.AsUInt16OrZero | Sources/SwiftSH/FileInfo.swift:40 | A permissions attribute that is a UInt16 number is kept. Anything else gives 0. |
| FileInfo.AsDateOr | Sources/SwiftSH/FileInfo.swift:38-39 | A date attribute is kept. Otherwise the current time is used. |
| FileInfo.FromLocalPath | Sources/SwiftSH/FileInfo.swift:33-48 | A failed attribute lookup is rethrown. Otherwise the result is a valid record. |
| FileInfo.FromLocalPathDefaults | Sources/SwiftSH/FileInfo.swift:37-40 | Missing or mistyped size and permissions default to 0. The access time comes from the creation date. A missing modification date becomes the current time. |
| FileInfo.ToData | Sources/SwiftSH/FileInfo.swift:53-73 | Exactly 26 bytes. Bytes 0-7 decode to the size, 8-15 and 16-23 are the two time fields, and 24-25 decode to the permissions. `FromData` gives the record back. It requires permissions of at most 0x7FFF. |
| FileInfo.FromData | Sources/SwiftSH/FileInfo.swift:53-73 | It accepts only 26-byte strings, whose record can be encoded. |
| FileInfo.ToDataFromData | Sources/SwiftSH/FileInfo.swift:53-73 | Every string `FromData` accepts is the layout of the record it decodes to. |
| FileInfo.SizeIsSignExtended | Sources/SwiftSH/FileInfo.swift:57-58 | Bytes 0-3 are the Int32 size and bytes 4-7 are its sign extension. |
| FileInfo.RegularFileStatCannotEncode | Sources/SwiftSH/FileInfo.swift:69 | As written, the record of a regular file's stat (mode 0o100644) cannot be encoded. |
| FileInfo.ToDataBitPattern | Sources/SwiftSH/FileInfo.swift:69-70 | The corrected layout writes the 16-bit pattern of any UInt16 permissions, is 26 bytes long, and decodes back to the record. |
| FileInfo.FromDataBitPattern | Sources/SwiftSH/FileInfo.swift:53-73 | It accepts only 26-byte strings whose decoded record is valid. |
| FileInfo.BitPatternAgreesBelowSignBit | Sources/SwiftSH/FileInfo.swift:69-70 | Wherever `toData` as written is defined, the corrected layout gives the same bytes. |
| Bytes.DecodeEncodeSigned | Sources/SwiftSH/FileInfo.swift:57-58 | Decoding the n-byte little-endian two's-complement image of an in-range value gives it back. |
| Bytes.EncodeDecodeSigned | Sources/SwiftSH/FileInfo.swift:69-70 | Every non-empty byte string is the image of the value it decodes to. |
| Bytes.SignExtension | Sources/SwiftSH/FileInfo.swift:57 | Widening a value (Int32 to Int64) appends sign bytes to its image. |
| Bytes.DecodeEncodeUnsigned | Sources/SwiftSH/FileInfo.swift:69-70 | Decoding the n-byte unsigned image of a value gives it back. |
| Bytes.EncodeDecodeUnsigned | Sources/SwiftSH/FileInfo.swift:69-70 | Every byte string is the unsigned image of the value it decodes to. |
| Utf8.DecodeEncode | Sources/SwiftSH/Error.swift:346 | Decoding the UTF-8 encoding of any string gives the string. |
| Utf8.EncodeDecode | Sources/SwiftSH/Error.swift:346 | Every byte string that decodes is the encoding of its decoding. |
| Utf8.DecodeFirstIsEncoding | Sources/SwiftSH/Error.swift:346 | The first decoded character's encoding is exactly the bytes it consumed. |
| Utf8.DecodeFirstEncodeChar | Sources/SwiftSH/Error.swift:346 | A character's encoding is decoded back to it, whatever follows. |
| Errors.SocketDescriptionRoundTrip | Sources/SwiftSH/Error.swift:224-239 | Each socket error is recovered from its description. |
| Errors.SocketDescriptionInjective | Sources/SwiftSH/Error.swift:224-239 | Distinct socket errors have distinct descriptions. |
| Errors.ChannelDescriptionRoundTrip | Sources/SwiftSH/Error.swift:241-266 | Each channel error is recovered from its description. |
| Errors.ChannelDescriptionInjective | Sources/SwiftSH/Error.swift:241-266 | Distinct channel errors have distinct descriptions. |
| Errors.ScpDescriptionIsPrefixAndDetail | Sources/SwiftSH/Error.swift:322-339 | Each SCP description is the fixed prefix of its case followed by the detail, except "File info unavailable". |
| Errors.ScpDescriptionRoundTrip | Sources/SwiftSH/Error.swift:322-339 | Each SCP error, detail included, is recovered from its description. |
| Errors.ScpDescriptionInjective | Sources/SwiftSH/Error.swift:322-339 | Distinct SCP errors have distinct descriptions. |
| Errors.DecimalString | Sources/SwiftSH/Error.swift:349 | A byte count is written as a non-empty string of decimal digits. |
| Errors.ParseDecimalString | Sources/SwiftSH/Error.swift:349 | The decimal text of a count reads back as that count. |
| Errors.CommandDescriptionOfText | Sources/SwiftSH/Error.swift:344-347 | For UTF-8 data, the description names the message, or "Unknown error" when there is none, and embeds the text. |
| Errors.CommandDescriptionOfBinary | Sources/SwiftSH/Error.swift:344-350 | For ill-formed data, the description names the message and reports the byte count, which reads back from the text. |
| Errors.RawValueInRange | Sources/SwiftSH/Error.swift:137-153 | Every disconnection code has a raw value between 1 and 15. |
| Errors.RawValueRoundTrip | Sources/SwiftSH/Error.swift:137-153 | Each code is recovered from its raw value. |
| Errors.FromRawValueExactlyReasonCodes | Sources/SwiftSH/Error.swift:137-153 | A raw value names a code iff it is between 1 and 15, and that code's raw value is the number. |
| SCPTransfer.AppendingPathComponent | Sources/SwiftSH/SCPTransfer.swift:58 | The result starts with the directory. A non-empty name is joined to a directory without a trailing slash by exactly one `/`. |
| SCPTransfer.DocumentsPath | Sources/SwiftSH/SCPTransfer.swift:55-59 | The path lies under the first search result. A non-empty result list is required, because the source indexes `paths[0]`. |
| SCPTransfer.ResolvePath | Sources/SwiftSH/SCPTransfer.swift:46-52 | A path starting with `/` is returned unchanged. Any other path ends up under the documents directory. |
| SCPTransfer.ResolveRelativeName | Sources/SwiftSH/SCPTransfer.swift:49-58 | A relative name becomes the documents directory, `/`, then the name. |
| SCPTransfer.ResolvePathIdempotent | Sources/SwiftSH/SCPTransfer.swift:46-58 | With an absolute documents directory, the result is absolute and resolving it again changes nothing. |
| SCPTransfer.Upload | Sources/SwiftSH/SCPTransfer.swift:20-27 | The local path is resolved before the upload is forwarded. |
| SCPTransfer.Download | Sources/SwiftSH/SCPTransfer.swift:35-42 | The local path is resolved before the download is forwarded with the remote path. |

## Left out

- SCP.SCPSession.Download: the file-path and in-memory `download` variants are not modelled. They truncate or create a file, open an `OutputStream` on it, or read back the memory stream's contents, which is file-system and Foundation I/O. Only the stream variant with its completion wrapper is modelled.
- SCP.SCPSession.Download: the handshake reports a non-negative size. `UInt64(fileInfo.fileSize)` in the read traps otherwise, so that size is a precondition.
- SCP.SCPSession.Upload: it requires a non-negative size from `init(fromLocalPath:)`, which the `UInt64` conversion in `openSCPChannelForUpload` needs. The nil-`scpChannel` guard is not modelled, because the channel was always just created. The upload's modification and access times are not passed to the log.
- SCP: progress callbacks are not modelled.
- SCP.SCPSession.Download: a nil completion is not modelled for downloads. `download(_:to:)` (SCP.swift:161) and the stream variant (SCP.swift:199) pass nil, and the source then makes no callback. The model always logs a `ReadCompleted` event for the handler it was given. The same holds for `DownloadFromZero`, `CompleteRead` and `NotifyDataAvailable`. Making the handler optional there would turn "a callback was made" into a different fact from "the download ended", and the lemmas about `ReadStep` are stated in terms of the first. A nil upload completion is modelled.
- Command.SSHCommand.Execute: the blocking mode after a failed `open()` is not stated. The source leaves it as it was when a guard of `open()` throws, and true otherwise (Channel.swift:77-90). The `open` oracle does not say which step failed.
- SCP: the `close()` override of `SCPSession` (SCP.swift:67-74) is not modelled. It dispatches to the general queue, finishes the download, and saves and restores the blocking mode around the base close.
- SCP: the `deinit` of `SCPSession` (SCP.swift:53-63) is not modelled. It dispatches to the general queue, finishes the download and closes the channel if there is one, ignoring any error; it does not touch the blocking mode.
- Command: the `deinit` of `SSHCommand` (Command.swift:24-26) is not modelled. It only cancels the timer sources. `SSHCommand`'s own `close()` (Command.swift:36-43) is modelled as its cancel and close request. The blocking-mode save and restore around the base close is modelled only by its net effect, which leaves the mode unchanged.
- SCP: the `async(completion:block:)` error path of the two `openSCPChannel` helpers is not modelled. Its block catches every error itself, so that path is never taken.
- SCP.ReadStep: `readDownload` runs its body asynchronously on the general queue. One notification is modelled as one sequential step, and interleavings of notifications with a new `download` are not captured.
- SCP.SCPSession.Download: the handshake runs asynchronously in the source. The model performs it before the method returns.
- Command.SSHCommand.Tick: `readChannelData` dispatches its reads with `generalQueue.async`, so in the source the completion check can run before the reads of the same tick. The model takes the reads first. The 50 ms read timer, the weak captures and the `setupTimeoutSource` schedule are Dispatch plumbing.
- Command.TicksCompleteAtMostOnce: it covers drain ticks only. `handleTimeout` clears neither the completion nor the read timer, so a timeout followed by a finishing tick can call the handler twice. The model states `HandleTimeout` as written and claims no exactly-once across that path.
- Command.SSHCommand.FinishOperation: the trace order and cancel count differ from the source. The source dispatches `cancelSources()` then `close()` asynchronously (Command.swift:183-186), and `close()` cancels again, so the source cancels twice, after the tick's `defer` has resumed the timeout. The trace records one cancel and the close request right after the completion call, before `TimeoutResumed`.
- Command: the `StringCompletionHandler` variant of `execute` is not modelled. It only decodes the data to text on the way out.
- Channel: `open()` is the base class's. The close it calls on failure is modelled as the base `close()`, not the `SSHCommand` or `SCPSession` overrides. The `assert(session.queue.current)` checks and logging are left out.
- FileInfo: time values are opaque 8-byte blocks. The conversion from `TimeInterval` through `Double` to IEEE 754 bytes is floating point and is not modelled.
- FileInfo: native byte order is taken to be little-endian.
- SCPTransfer.AppendingPathComponent: the path normalisation of `NSString.appendingPathComponent` is not modelled. It collapses repeated slashes and strips a trailing slash from the name. It is modelled as a join with a single `/`.
- SCPTransfer.Upload: the upload forwarding at `SCPTransfer.swift:22` passes no `remotePath`. `SCPSession` has no `upload` overload that matches this call. The model forwards the remote path it is given.
- Utf8: a leading byte-order mark is not treated specially. Foundation's UTF-8 decoding may drop it.
- Errors: the descriptions of `SSHError` itself, of `SSHError.SFTP` and of `SSHDisconnectionCode` are not modelled. They are fixed strings that no modelled operation depends on. `SSHError` cases appear only as the three the core raises (authentication failed, timeout, bad use), each with its detail.
- The libssh2 calls themselves (channel open, exec, read, readError, write, SCP open and close, end-of-file and exit status) are oracles given as method arguments. Logging is not modelled.

## Findings

| source | as written | input that shows it | evidently intended | confidence | as-written member | corrected member |
|---|---|---|---|---|---|---|
| Sources/SwiftSH/SCP.swift:128 | `totalBytesRead` is only ever added to. Neither `download` nor `finishDownload` resets it, so a second download on the same session starts from the first one's count. | A 1000-byte download completes, then a second 1000-byte file is downloaded on the same `SCPSession`. Its first 300-byte packet gets a write length of 0 and reports success with nothing written. | Each download counts from 0. | not executed | SCP.LeftoverTotalReadStep | SCP.SCPSession.DownloadFromZero |
| Sources/SwiftSH/FileInfo.swift:69 | `Int16(self.permissions)` traps for any value above 0x7FFF. `init(fromStat:)` keeps the whole `st_mode`, file-type bits included. | The stat of a regular file with mode 0o100644 (0x81A4) makes `toData()` trap. | The 16-bit pattern is written (`Int16(truncatingIfNeeded:)`). | not executed | FileInfo.RegularFileStatCannotEncode | FileInfo.ToDataBitPattern |

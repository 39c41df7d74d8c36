/**
  The SCP session: a single-download state machine fed by data-available
  notifications, with byte accounting against the size declared in the opening
  handshake, and a one-shot upload with size verification.

  The transport's SCP channel and the output stream are oracles: what a read
  returned, how many bytes the stream accepted and whether it has space left are
  arguments of the method that asks. Completion callbacks are recorded in `events`.
 */
module SCP {
  import opened Wrappers
  import opened Bytes
  import opened Errors
  import opened FileInfo

  // ----- Byte accounting -----

  function Min(a: int, b: int): int { if a <= b then a else b }

  /**
    The number of bytes of a packet written to the sink: the packet, less whatever
    would take the running total past the declared size.
   */
  function WriteLength(total: int, packetSize: nat, fileSize: int): (r: int)
    ensures r <= packetSize
    ensures total <= fileSize ==> 0 <= r && total + r <= fileSize
    ensures r == packetSize || total + r == fileSize
    ensures r == Min(packetSize, fileSize - total)
  {
    var nextTotal := total + packetSize;
    if nextTotal > fileSize then packetSize - (nextTotal - fileSize) else packetSize
  }

  /** What the download does after a write, by priority. */
  datatype Outcome = Succeeded | TooMuchData | NoSpace | Continue

  function OutcomeAfterWrite(total: int, fileSize: int, hasSpaceAvailable: bool): (o: Outcome)
    ensures o == Succeeded <==> total == fileSize
    ensures o == TooMuchData <==> total > fileSize
    ensures o == NoSpace <==> total < fileSize && !hasSpaceAvailable
    ensures o == Continue <==> total < fileSize && hasSpaceAvailable
  {
    if total == fileSize then Succeeded
    else if total > fileSize then TooMuchData
    else if !hasSpaceAvailable then NoSpace
    else Continue
  }

  /** The write lengths a run of packets produces, the final total, and whether the download completed. */
  datatype Run = Run(writes: seq<int>, total: int, completed: bool)

  function Sum(xs: seq<int>): int
  {
    if xs == [] then 0 else xs[0] + Sum(xs[1..])
  }

  /**
    The accounting of a download whose sink accepts every byte it is offered and
    never runs out of space: empty packets change nothing, and reading stops at
    the first completion.
   */
  function Feed(total: int, fileSize: int, packets: seq<nat>): Run
    decreases |packets|
  {
    if packets == [] then Run([], total, false)
    else if packets[0] == 0 then Feed(total, fileSize, packets[1..])
    else
      var w := WriteLength(total, packets[0], fileSize);
      if total + w >= fileSize then Run([w], total + w, true)
      else
        var rest := Feed(total + w, fileSize, packets[1..]);
        Run([w] + rest.writes, rest.total, rest.completed)
  }

  /**
    Starting within the declared size, the bytes written add up to the bytes
    received clipped to the size, no write is negative, and the download completes,
    always successfully, exactly when some bytes arrived and they reach the size.
   */
  lemma {:induction false} FeedWritesClippedTotal(total: int, fileSize: int, packets: seq<nat>)
    requires total <= fileSize
    ensures var r := Feed(total, fileSize, packets);
      && r.total == total + Sum(r.writes)
      && r.total == Min(total + Sum(packets), fileSize)
      && (forall i :: 0 <= i < |r.writes| ==> 0 <= r.writes[i])
      && (r.completed <==> Sum(packets) > 0 && total + Sum(packets) >= fileSize)
      && (r.completed ==> r.total == fileSize)
    decreases |packets|
  {
    if packets != [] {
      FeedWritesClippedTotal(if packets[0] == 0 then total else total + WriteLength(total, packets[0], fileSize),
        fileSize, packets[1..]);
      SumNonNegative(packets[1..]);
    }
  }

  lemma {:induction false} SumNonNegative(xs: seq<nat>)
    ensures Sum(xs) >= 0
  {
    if xs != [] { SumNonNegative(xs[1..]); }
  }

  /** Declared size 1000, packets of 300, 300, 300 and 310: the last write is clipped to 100. */
  lemma ClippingScenario()
    ensures Feed(0, 1000, [300, 300, 300, 310]) == Run([300, 300, 300, 100], 1000, true)
  {
    assert [300, 300, 300, 310][1..] == [300, 300, 310];
    assert [300, 300, 310][1..] == [300, 310];
    assert [300, 310][1..] == [310];
  }

  /**
    As written, the running total survives the end of a download. A second download
    of a file of the same size then completes on its first non-empty packet,
    successfully, having written nothing.
   */
  lemma LeftoverTotalEndsNextDownload(fileSize: int, p: nat, rest: seq<nat>)
    requires p > 0
    ensures Feed(fileSize, fileSize, [p] + rest) == Run([0], fileSize, true)
  {
  }

  // ----- The download state machine -----

  /** The output stream a download writes to. */
  datatype Sink = Sink(isOpen: bool, contents: seq<Byte>)

  /** A call of a download or an upload completion handler. */
  datatype Event =
    | ReadCompleted(handler: Handler, info: Option<Info>, data: Option<seq<Byte>>, error: Option<Error>)
    | WriteCompleted(handler: Handler, bytesSent: Option<nat>, error: Option<Error>)

  /** `completion?(bytesSent, error)` for an upload: a call only when a handler was given. */
  function WriteCall(h: Option<Handler>, bytesSent: Option<nat>, error: Option<Error>): seq<Event>
  {
    if h.Some? then [WriteCompleted(h.value, bytesSent, error)] else []
  }

  /** What the SCP receive handshake (`openSCPChannel(remotePath:)`) produced. */
  datatype Handshake = Metadata(info: Info) | NoMetadata | HandshakeFailed(error: Error)

  /** What one `read(expectedFileSize:)` on the SCP channel returned. */
  datatype ReadResult = Packet(data: seq<Byte>) | ReadFailed(error: Error)

  /** What one `write(_:maxLength:)` on the stream returned: a count, or a negative result with the stream's error text. */
  datatype WriteResult = Wrote(count: nat) | WriteFailed(streamError: string)

  /** A request made to the transport's SCP channel. */
  datatype ScpCall =
    | OpenReceive(remotePath: string)
    | Receive(expectedFileSize: nat)
    | OpenSend(remotePath: string, mode: int, size: nat)
    | SendData(size: nat)
    | CloseScp

  const UnableToInitialize: Error := Scp(FileRead("SCP socket read event unable to initialize"))
  const ReceivedTooMuch: Error := Scp(FileRead("Received too much data"))
  const NoSpaceAvailable: Error := Scp(FileRead("No space available"))
  const PermissionDenied: Error :=
    Scp(FileRead("Permission denied: You do not have read access to the specified file on the remote host."))
  const VerificationFailed: Error := Scp(UploadVerification("Upload verification failed file size."))

  function StreamError(description: string): Error
  {
    Scp(ScpUnknown("Stream error: " + description))
  }

  /** `S_IRUSR`, the owner-read bit 0o400. */
  const OwnerRead := 0x100

  /**
    `permissions & S_IRUSR != 0`. For a 16-bit mode this is bit 0 of the high byte
    of its little-endian encoding, and equally the ninth bit of the mode.
   */
  function OwnerCanRead(permissions: int): (r: bool)
    ensures 0 <= permissions < 0x10000 ==> (r <==> EncodeUnsigned(permissions, 2)[1] % 2 == 1)
    ensures 0 <= permissions ==> (r <==> permissions % 0x200 >= 0x100)
  {
    var bit := (permissions / OwnerRead) % 2 == 1;
    if 0 <= permissions then OwnerReadBit(permissions); bit else bit
  }

  lemma OwnerReadBit(p: nat)
    ensures (p / 0x100) % 2 == 1 <==> p % 0x200 >= 0x100
    ensures p < 0x10000 ==> ((p / 0x100) % 2 == 1 <==> EncodeUnsigned(p, 2)[1] % 2 == 1)
  {
    var a, b := p / 0x200, p % 0x200;
    assert p == 0x200 * a + b;
    assert p / 0x100 == 2 * a + b / 0x100;
    if p < 0x10000 {
      assert p / 0x100 < 0x100;
      assert EncodeUnsigned(p, 2)[1] == EncodeUnsigned(p / 256, 1)[0] == (p / 256) % 256;
    }
  }

  /** The usual modes: 0o644, 0o600 and 0o400 are readable by the owner; 0o244, 0o200 and 0o077 are not. */
  lemma OwnerReadModes()
    ensures OwnerCanRead(0x1A4) && OwnerCanRead(0x180) && OwnerCanRead(0x100)
    ensures !OwnerCanRead(0xA4) && !OwnerCanRead(0x80) && !OwnerCanRead(0x3F)
  {
  }

  /** The fields of `SCPSession` a download reads and writes. */
  datatype DownloadState = DownloadState(
    isDownloading: bool,
    totalBytesRead: int,
    readFileInfo: Option<Info>,
    hasScpChannel: bool,
    readStream: Option<Sink>,
    readCompletion: Option<Handler>)

  /** `finishDownload()`: stop downloading and close the stream, if any; the running total is kept. */
  function Finish(s: DownloadState): (t: DownloadState)
    ensures !t.isDownloading && t.totalBytesRead == s.totalBytesRead
    ensures t.readStream.Some? <==> s.readStream.Some?
    ensures t.readStream.Some? ==> !t.readStream.value.isOpen && t.readStream.value.contents == s.readStream.value.contents
  {
    s.(isDownloading := false,
       readStream := if s.readStream.Some? then Some(s.readStream.value.(isOpen := false)) else None)
  }

  datatype Step = Step(state: DownloadState, events: seq<Event>)

  /** The completion wrapper: the caller's handler, then `finishDownload()`. */
  function Complete(s: DownloadState, info: Option<Info>, data: Option<seq<Byte>>, err: Option<Error>): (r: Step)
    requires s.readCompletion.Some?
    ensures r.state == Finish(s) && r.events == [ReadCompleted(s.readCompletion.value, info, data, err)]
  {
    Step(Finish(s), [ReadCompleted(s.readCompletion.value, info, data, err)])
  }

  /** What the stream may report for a write of `maxLength` bytes: at most that many, never less than none. */
  predicate WriteAllowed(w: WriteResult, maxLength: int)
  {
    w.Wrote? ==> w.count <= (if maxLength < 0 then 0 else maxLength)
  }

  /** The object invariant of a session between notifications. */
  predicate Coherent(s: DownloadState)
  {
    && (s.readFileInfo.Some? ==> s.readFileInfo.value.Valid() && s.readFileInfo.value.fileSize >= 0)
    && (s.isDownloading ==> s.readCompletion.Some? && s.readStream.Some? && s.readStream.value.isOpen)
  }

  /**
    `notifyDataAvailable()` with `readDownload()`: one read while downloading. The read
    asks for the whole declared size; its packet is clipped, written, and the total
    grows by what the stream accepted; then exactly one outcome by priority.
   */
  function ReadStep(s: DownloadState, read: ReadResult, write: WriteResult, hasSpaceAvailable: bool): (r: Step)
    requires Coherent(s)
    requires s.isDownloading && s.readFileInfo.Some? && read.Packet? ==>
      WriteAllowed(write, WriteLength(s.totalBytesRead, |read.data|, s.readFileInfo.value.fileSize))
    ensures Coherent(r.state)
    ensures !s.isDownloading ==> r == Step(s, [])
    ensures s.isDownloading && s.readFileInfo.Some? && s.hasScpChannel && s.readStream.Some? && read == Packet([]) ==>
      r == Step(s, [])
    ensures |r.events| <= 1
    ensures r.events != [] ==>
      !r.state.isDownloading && r.state.readStream.Some? && !r.state.readStream.value.isOpen
        && r.events[0].ReadCompleted? && Some(r.events[0].handler) == s.readCompletion
    ensures r.events == [] ==>
      r.state.isDownloading == s.isDownloading && r.state.totalBytesRead >= s.totalBytesRead
  {
    if !s.isDownloading then Step(s, [])
    else if s.readFileInfo.None? || !s.hasScpChannel || s.readStream.None? then
      var f := Finish(s);
      Complete(f, None, None, Some(UnableToInitialize))
    else
      var info := s.readFileInfo.value;
      match read
      case ReadFailed(e) => Complete(Finish(s), Some(info), None, Some(e))
      case Packet(data) =>
        if |data| == 0 then Step(s, [])
        else
          var writeLength := WriteLength(s.totalBytesRead, |data|, info.fileSize);
          match write
          case WriteFailed(d) => Complete(Finish(s), None, None, Some(StreamError(d)))
          case Wrote(n) =>
            var stream := s.readStream.value;
            var t := s.(totalBytesRead := s.totalBytesRead + n,
                        readStream := Some(stream.(contents := stream.contents + data[..n])));
            match OutcomeAfterWrite(t.totalBytesRead, info.fileSize, hasSpaceAvailable)
            case Succeeded => Complete(t, Some(info), Some(data), None)
            case TooMuchData => Complete(t, None, None, Some(ReceivedTooMuch))
            case NoSpace => Complete(t, None, None, Some(NoSpaceAvailable))
            case Continue => Step(t, [])
  }

  /**
    A successful write adds exactly the accepted bytes to the total and to the
    sink, and the one callback follows the priority success, too much data, no space.
    A failed read or write leaves the total as it was.
   */
  lemma ReadStepAccounting(s: DownloadState, data: seq<Byte>, write: WriteResult, hasSpaceAvailable: bool)
    requires Coherent(s) && s.isDownloading && s.readFileInfo.Some? && s.hasScpChannel && s.readStream.Some?
    requires |data| > 0
    requires WriteAllowed(write, WriteLength(s.totalBytesRead, |data|, s.readFileInfo.value.fileSize))
    ensures var r := ReadStep(s, Packet(data), write, hasSpaceAvailable);
      var info := s.readFileInfo.value;
      var h := s.readCompletion.value;
      match write
      case WriteFailed(d) =>
        && r.state.totalBytesRead == s.totalBytesRead
        && r.events == [ReadCompleted(h, None, None, Some(StreamError(d)))]
      case Wrote(n) =>
        && r.state.totalBytesRead == s.totalBytesRead + n
        && r.state.readStream.value.contents == s.readStream.value.contents + data[..n]
        && (r.state.totalBytesRead == info.fileSize ==> r.events == [ReadCompleted(h, Some(info), Some(data), None)])
        && (r.state.totalBytesRead > info.fileSize ==> r.events == [ReadCompleted(h, None, None, Some(ReceivedTooMuch))])
        && (r.state.totalBytesRead < info.fileSize && !hasSpaceAvailable ==>
              r.events == [ReadCompleted(h, None, None, Some(NoSpaceAvailable))])
        && (r.state.totalBytesRead < info.fileSize && hasSpaceAvailable ==> r.events == [] && r.state.isDownloading)
  {
  }

  /**
    A read that throws finishes the download and reports that same error together
    with the file info; the total and the sink's contents are kept.
   */
  lemma ReadFailureReported(s: DownloadState, e: Error, write: WriteResult, hasSpaceAvailable: bool)
    requires Coherent(s) && s.isDownloading && s.readFileInfo.Some? && s.hasScpChannel
    ensures var r := ReadStep(s, ReadFailed(e), write, hasSpaceAvailable);
      && r.events == [ReadCompleted(s.readCompletion.value, s.readFileInfo, None, Some(e))]
      && r.state == Finish(s)
      && r.state.totalBytesRead == s.totalBytesRead
      && r.state.readStream.value.contents == s.readStream.value.contents
  {
  }

  /**
    A notification during a download that lacks its file info or its SCP channel
    finishes the download and reports that the read could not be initialised,
    whatever the channel would have returned.
   */
  lemma UninitializedReported(s: DownloadState, read: ReadResult, write: WriteResult, hasSpaceAvailable: bool)
    requires Coherent(s) && s.isDownloading && (s.readFileInfo.None? || !s.hasScpChannel)
    requires s.readFileInfo.Some? && read.Packet? ==>
      WriteAllowed(write, WriteLength(s.totalBytesRead, |read.data|, s.readFileInfo.value.fileSize))
    ensures var r := ReadStep(s, read, write, hasSpaceAvailable);
      && r.events == [ReadCompleted(s.readCompletion.value, None, None, Some(UnableToInitialize))]
      && r.state == Finish(s)
  {
  }

  /**
    As written, a download whose running total already equals its declared size
    (the count left over from an earlier download of a file that size) ends on its
    first non-empty packet: nothing is written, and success is reported with the packet.
   */
  lemma LeftoverTotalReadStep(s: DownloadState, data: seq<Byte>, hasSpaceAvailable: bool)
    requires Coherent(s) && s.isDownloading && s.readFileInfo.Some? && s.hasScpChannel
    requires s.totalBytesRead == s.readFileInfo.value.fileSize && |data| > 0
    ensures WriteLength(s.totalBytesRead, |data|, s.readFileInfo.value.fileSize) == 0
    ensures var r := ReadStep(s, Packet(data), Wrote(0), hasSpaceAvailable);
      && r.events == [ReadCompleted(s.readCompletion.value, s.readFileInfo, Some(data), None)]
      && r.state.readStream.value.contents == s.readStream.value.contents
      && !r.state.isDownloading
  {
    assert data[..0] == [];
    assert s.readStream.value.contents + data[..0] == s.readStream.value.contents;
  }

  /** Reads run while downloading with a sink that takes every byte offered and never fills. */
  function Drive(s: DownloadState, packets: seq<seq<Byte>>): (r: DownloadState)
    requires Coherent(s)
    requires s.readFileInfo.Some? && s.totalBytesRead <= s.readFileInfo.value.fileSize
    ensures Coherent(r) && r.readFileInfo == s.readFileInfo
    ensures r.totalBytesRead <= s.readFileInfo.value.fileSize
    decreases |packets|
  {
    if packets == [] then s
    else
      var w := WriteLength(s.totalBytesRead, |packets[0]|, s.readFileInfo.value.fileSize);
      var next := ReadStep(s, Packet(packets[0]), Wrote(w), true).state;
      Drive(next, packets[1..])
  }

  function Concat(packets: seq<seq<Byte>>): seq<Byte>
  {
    if packets == [] then [] else packets[0] + Concat(packets[1..])
  }

  /**
    Driving a download from within its declared size appends to the sink exactly
    the bytes received, cut off at the declared size, and keeps downloading only
    while the size has not been reached.
   */
  lemma {:induction false} DriveWritesClippedPrefix(s: DownloadState, packets: seq<seq<Byte>>)
    requires Coherent(s) && s.isDownloading && s.hasScpChannel
    requires s.readFileInfo.Some? && 0 <= s.totalBytesRead <= s.readFileInfo.value.fileSize
    ensures var fileSize := s.readFileInfo.value.fileSize;
      var r := Drive(s, packets);
      var received := Concat(packets);
      var k := Min(|received|, fileSize - s.totalBytesRead);
      && r.readStream.Some?
      && r.totalBytesRead == s.totalBytesRead + k
      && r.readStream.value.contents == s.readStream.value.contents + received[..k]
      && (r.isDownloading <==> !(|received| > 0 && s.totalBytesRead + |received| >= fileSize))
    decreases |packets|
  {
    var fileSize := s.readFileInfo.value.fileSize;
    if packets != [] {
      var p := packets[0];
      var w := WriteLength(s.totalBytesRead, |p|, fileSize);
      var next := ReadStep(s, Packet(p), Wrote(w), true).state;
      var received := Concat(packets);
      assert received == p + Concat(packets[1..]);
      if |p| == 0 {
        DriveWritesClippedPrefix(next, packets[1..]);
      } else if next.isDownloading {
        DriveWritesClippedPrefix(next, packets[1..]);
        var rest := Concat(packets[1..]);
        var k' := Min(|rest|, fileSize - next.totalBytesRead);
        assert (p + rest)[..w + k'] == p + rest[..k'];
      } else {
        DriveStopped(next, packets[1..]);
        assert received[..w] == p[..w];
      }
    }
  }

  /** The sizes of a run of packets. */
  function Sizes(packets: seq<seq<Byte>>): (r: seq<nat>)
    ensures |r| == |packets| && forall i :: 0 <= i < |packets| ==> r[i] == |packets[i]|
  {
    seq(|packets|, i requires 0 <= i < |packets| => |packets[i]|)
  }

  lemma {:induction false} SumSizesIsConcatLength(packets: seq<seq<Byte>>)
    ensures Sum(Sizes(packets)) == |Concat(packets)|
    decreases |packets|
  {
    if packets != [] {
      assert Sizes(packets)[1..] == Sizes(packets[1..]);
      SumSizesIsConcatLength(packets[1..]);
    }
  }

  /**
    The class-level run and the count-level accounting agree: driving a download
    with a run of packets reaches the total `Feed` computes from their sizes, and
    stops exactly when `Feed` completes.
   */
  lemma DriveAgreesWithFeed(s: DownloadState, packets: seq<seq<Byte>>)
    requires Coherent(s) && s.isDownloading && s.hasScpChannel
    requires s.readFileInfo.Some? && 0 <= s.totalBytesRead <= s.readFileInfo.value.fileSize
    ensures var run := Feed(s.totalBytesRead, s.readFileInfo.value.fileSize, Sizes(packets));
      && Drive(s, packets).totalBytesRead == run.total
      && (Drive(s, packets).isDownloading <==> !run.completed)
  {
    DriveWritesClippedPrefix(s, packets);
    FeedWritesClippedTotal(s.totalBytesRead, s.readFileInfo.value.fileSize, Sizes(packets));
    SumSizesIsConcatLength(packets);
  }

  lemma {:induction false} DriveStopped(s: DownloadState, packets: seq<seq<Byte>>)
    requires Coherent(s) && !s.isDownloading
    requires s.readFileInfo.Some? && s.totalBytesRead <= s.readFileInfo.value.fileSize
    ensures Drive(s, packets) == s
    decreases |packets|
  {
    if packets != [] {
      DriveStopped(s, packets[1..]);
    }
  }

  // ----- Upload -----

  /**
    The verification at the end of an upload: success, with the count and the
    transport's own error, only when the whole file was sent and the channel closed.
    `closes` says whether the channel was asked to close.
   */
  datatype UploadReport = UploadReport(bytesSent: Option<nat>, error: Option<Error>, closes: bool)

  function VerifyUpload(fileSize: nat, bytesSent: nat, writeError: Option<Error>, closeFails: Option<Error>): (r: UploadReport)
    ensures r.bytesSent.Some? <==> bytesSent == fileSize && closeFails.None?
    ensures r.bytesSent.Some? ==> r.bytesSent.value == fileSize && r.error == writeError
    ensures bytesSent != fileSize ==> r.error == Some(VerificationFailed) && !r.closes
    ensures bytesSent == fileSize ==> r.closes
    ensures bytesSent == fileSize && closeFails.Some? ==> r.error == closeFails
  {
    if bytesSent != fileSize then UploadReport(None, Some(VerificationFailed), false)
    else if closeFails.Some? then UploadReport(None, closeFails, true)
    else UploadReport(Some(bytesSent), writeError, true)
  }

  // ----- The session object -----

  class SCPSession {
    var isDownloading: bool
    var totalBytesRead: int
    var readFileInfo: Option<Info>
    var hasScpChannel: bool
    var readStream: Option<Sink>
    var readCompletion: Option<Handler>
    var events: seq<Event>
    var scpCalls: seq<ScpCall>

    function State(): DownloadState
      reads this
    {
      DownloadState(isDownloading, totalBytesRead, readFileInfo, hasScpChannel, readStream, readCompletion)
    }

    ghost predicate Valid()
      reads this
    {
      Coherent(State())
    }

    constructor ()
      ensures Valid() && !isDownloading && totalBytesRead == 0 && readStream.None?
      ensures events == [] && scpCalls == []
    {
      isDownloading, totalBytesRead, readFileInfo := false, 0, None;
      hasScpChannel, readStream, readCompletion := false, None, None;
      events, scpCalls := [], [];
    }

    /** `finishDownload()`. */
    method FinishDownload()
      modifies this`isDownloading, this`readStream
      ensures State() == Finish(old(State()))
    {
      isDownloading := false;
      if readStream.Some? {
        readStream := Some(readStream.value.(isOpen := false));
      }
    }

    /** The caller's completion, then `finishDownload()`. */
    method CompleteRead(info: Option<Info>, data: Option<seq<Byte>>, err: Option<Error>)
      requires readCompletion.Some?
      modifies this`isDownloading, this`readStream, this`events
      ensures State() == Complete(old(State()), info, data, err).state
      ensures events == old(events) + Complete(old(State()), info, data, err).events
    {
      events := events + [ReadCompleted(readCompletion.value, info, data, err)];
      FinishDownload();
    }

    /**
      `download(_:to:completion:progress:)` on a stream, with `openSCPChannelForDownload`:
      installs the stream and the completion, runs the receive handshake, and then
      either records the metadata or reports the failure and finishes. The running
      total is left as it was.
     */
    method Download(remotePath: string, stream: Sink, handler: Handler, handshake: Handshake)
      requires Valid() && stream.isOpen
      requires handshake.Metadata? ==> handshake.info.Valid() && handshake.info.fileSize >= 0
      modifies this
      ensures Valid()
      ensures totalBytesRead == old(totalBytesRead) && readCompletion == Some(handler) && hasScpChannel
      ensures scpCalls == old(scpCalls) + [OpenReceive(remotePath)]
      ensures handshake.HandshakeFailed? ==>
        (!isDownloading && readStream == Some(stream.(isOpen := false))
         && readFileInfo == old(readFileInfo)
         && events == old(events) + [ReadCompleted(handler, None, None, Some(handshake.error))])
      ensures handshake.NoMetadata? ==>
        (!isDownloading && readStream == Some(stream.(isOpen := false))
         && readFileInfo == old(readFileInfo)
         && events == old(events) + [ReadCompleted(handler, None, None, Some(Scp(FileInfoUnavailable)))])
      ensures handshake.Metadata? && !OwnerCanRead(handshake.info.permissions) ==>
        !isDownloading && readStream == Some(stream.(isOpen := false)) && readFileInfo == old(readFileInfo)
        && events == old(events) + [ReadCompleted(handler, None, None, Some(PermissionDenied))]
      ensures handshake.Metadata? && OwnerCanRead(handshake.info.permissions) ==>
        isDownloading && readStream == Some(stream) && readFileInfo == Some(handshake.info)
        && events == old(events)
    {
      readCompletion := Some(handler);
      readStream := Some(stream);
      hasScpChannel := true;
      scpCalls := scpCalls + [OpenReceive(remotePath)];
      match handshake
      case HandshakeFailed(e) =>
        isDownloading := false;
        CompleteRead(None, None, Some(e));
      case NoMetadata =>
        isDownloading := false;
        CompleteRead(None, None, Some(Scp(FileInfoUnavailable)));
      case Metadata(info) =>
        isDownloading := true;
        if !OwnerCanRead(info.permissions) {
          CompleteRead(None, None, Some(PermissionDenied));
        } else {
          readFileInfo := Some(info);
        }
    }

    /**
      The evident intent of `download`: a download that starts its running total
      from zero, so that `DriveWritesClippedPrefix` applies from the first packet.
     */
    method DownloadFromZero(remotePath: string, stream: Sink, handler: Handler, handshake: Handshake)
      requires Valid() && stream.isOpen
      requires handshake.Metadata? ==> handshake.info.Valid() && handshake.info.fileSize >= 0
      modifies this
      ensures Valid() && totalBytesRead == 0
      ensures readCompletion == Some(handler) && hasScpChannel
      ensures scpCalls == old(scpCalls) + [OpenReceive(remotePath)]
      ensures handshake.HandshakeFailed? ==>
        (!isDownloading && readStream == Some(stream.(isOpen := false))
         && readFileInfo == old(readFileInfo)
         && events == old(events) + [ReadCompleted(handler, None, None, Some(handshake.error))])
      ensures handshake.NoMetadata? ==>
        (!isDownloading && readStream == Some(stream.(isOpen := false))
         && readFileInfo == old(readFileInfo)
         && events == old(events) + [ReadCompleted(handler, None, None, Some(Scp(FileInfoUnavailable)))])
      ensures handshake.Metadata? && !OwnerCanRead(handshake.info.permissions) ==>
        !isDownloading && readStream == Some(stream.(isOpen := false)) && readFileInfo == old(readFileInfo)
        && events == old(events) + [ReadCompleted(handler, None, None, Some(PermissionDenied))]
      ensures handshake.Metadata? && OwnerCanRead(handshake.info.permissions) ==>
        isDownloading && readStream == Some(stream) && readFileInfo == Some(handshake.info)
        && events == old(events)
      ensures isDownloading <==> handshake.Metadata? && OwnerCanRead(handshake.info.permissions)
      ensures isDownloading ==> 0 <= totalBytesRead <= readFileInfo.value.fileSize
    {
      totalBytesRead := 0;
      Download(remotePath, stream, handler, handshake);
    }

    /**
    `notifyDataAvailable()`: one read of the download, if one is running. The read
    asks the channel for the whole declared size, not for what remains of it.
   */
    method NotifyDataAvailable(read: ReadResult, write: WriteResult, hasSpaceAvailable: bool)
      requires Valid()
      requires isDownloading && readFileInfo.Some? && read.Packet? ==>
        WriteAllowed(write, WriteLength(totalBytesRead, |read.data|, readFileInfo.value.fileSize))
      modifies this`isDownloading, this`readStream, this`events, this`totalBytesRead, this`scpCalls
      ensures Valid()
      ensures old(isDownloading) && old(readFileInfo).Some? && old(hasScpChannel) && old(readStream).Some? ==>
        scpCalls == old(scpCalls) + [Receive(old(readFileInfo).value.fileSize as nat)]
      ensures !(old(isDownloading) && old(readFileInfo).Some? && old(hasScpChannel) && old(readStream).Some?) ==>
        scpCalls == old(scpCalls)
      ensures State() == ReadStep(old(State()), read, write, hasSpaceAvailable).state
      ensures events == old(events) + ReadStep(old(State()), read, write, hasSpaceAvailable).events
    {
      if !isDownloading {
        return;
      }
      if readFileInfo.None? || !hasScpChannel || readStream.None? {
        FinishDownload();
        CompleteRead(None, None, Some(UnableToInitialize));
        return;
      }
      var info := readFileInfo.value;
      scpCalls := scpCalls + [Receive(info.fileSize as nat)];
      match read
      case ReadFailed(e) =>
        FinishDownload();
        CompleteRead(Some(info), None, Some(e));
      case Packet(data) =>
        if |data| == 0 {
          return;
        }
        var writeLength := WriteLength(totalBytesRead, |data|, info.fileSize);
        match write
        case WriteFailed(d) =>
          FinishDownload();
          CompleteRead(None, None, Some(StreamError(d)));
        case Wrote(n) =>
          readStream := Some(readStream.value.(contents := readStream.value.contents + data[..n]));
          totalBytesRead := totalBytesRead + n;
          if totalBytesRead == info.fileSize {
            CompleteRead(Some(info), Some(data), None);
          } else if totalBytesRead > info.fileSize {
            CompleteRead(None, None, Some(ReceivedTooMuch));
          } else if !hasSpaceAvailable {
            CompleteRead(None, None, Some(NoSpaceAvailable));
          }
    }

    /**
      `upload(_:remotePath:completion:progress:)` with `openSCPChannelForUpload`: reads
      the file (`fileData`), builds its metadata from the looked-up attributes, opens
      the send channel declaring mode and size, writes everything in one call and
      reports by `VerifyUpload`. A close that fails also runs `finishDownload()`.
     */
    method Upload(localPath: string, remotePath: string, handler: Option<Handler>,
                  fileData: Result<seq<Byte>, Error>, attributes: Result<Attributes, Error>, now: TimeBlock,
                  openFails: Option<Error>, bytesSent: nat, writeError: Option<Error>, closeFails: Option<Error>)
      requires Valid()
      requires attributes.Success? ==> FromLocalPath(attributes, now).value.fileSize >= 0
      modifies this
      ensures Valid()
      ensures totalBytesRead == old(totalBytesRead) && readFileInfo == old(readFileInfo)
      ensures fileData.Failure? ==>
        (events == old(events) + WriteCall(handler, None, Some(fileData.error))
         && State() == old(State()) && scpCalls == old(scpCalls))
      ensures fileData.Success? && attributes.Failure? ==>
        events == old(events) + WriteCall(handler, None, Some(attributes.error))
        && State() == old(State()) && scpCalls == old(scpCalls)
      ensures fileData.Success? && attributes.Success? ==>
        var info := FromLocalPath(attributes, now).value;
        var afterOpen := old(scpCalls) + [OpenSend(remotePath, info.permissions, info.fileSize)];
        && (openFails.Some? ==>
              (scpCalls == afterOpen && events == old(events) + WriteCall(handler, None, openFails)
               && State() == old(State()).(hasScpChannel := true)))
        && (openFails.None? ==>
              var report := VerifyUpload(|fileData.value|, bytesSent, writeError, closeFails);
              && scpCalls == afterOpen + [SendData(|fileData.value|)] + (if report.closes then [CloseScp] else [])
              && events == old(events) + WriteCall(handler, report.bytesSent, report.error)
              && State() == (if report.closes && closeFails.Some? then Finish(old(State())) else old(State()))
                              .(hasScpChannel := true))
    {
      if fileData.Failure? {
        events := events + WriteCall(handler, None, Some(fileData.error));
        return;
      }
      var data := fileData.value;
      var fileSize := |data|;
      var infoResult := FromLocalPath(attributes, now);
      if infoResult.Failure? {
        events := events + WriteCall(handler, None, Some(infoResult.error));
        return;
      }
      var info := infoResult.value;
      hasScpChannel := true;
      scpCalls := scpCalls + [OpenSend(remotePath, info.permissions, info.fileSize)];
      if openFails.Some? {
        events := events + WriteCall(handler, None, openFails);
        return;
      }
      scpCalls := scpCalls + [SendData(fileSize)];
      if bytesSent != fileSize {
        events := events + WriteCall(handler, None, Some(VerificationFailed));
        return;
      }
      scpCalls := scpCalls + [CloseScp];
      if closeFails.Some? {
        FinishDownload();
        events := events + WriteCall(handler, None, closeFails);
        return;
      }
      events := events + WriteCall(handler, Some(bytesSent), writeError);
    }
  }
}

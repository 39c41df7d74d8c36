/**
  Remote command execution: output is drained from stdout and stderr into two
  accumulators on every tick, and the single completion callback is called once
  end-of-file or an exit status has been seen. Callbacks, timer operations and the
  channel close request are recorded in `trace`. The cancel and close that
  `finishOperation` dispatches to the queue are placed right after the completion
  call, not after the tick as in the source (see README, Left out).
 */
module Command {
  import opened Wrappers
  import opened Bytes
  import opened Errors
  import Utf8


  datatype Event =
    | Completed(handler: Handler, command: string, data: Option<seq<Byte>>, error: Option<Error>)
    | TimeoutSuspended
    | TimeoutResumed
    | ReadTimerCancelled
    | SourcesCancelled
    | CloseRequested

  /** What one non-blocking read of a stream returned. */
  datatype ReadResult = Chunk(bytes: seq<Byte>) | ReadFailed(error: Error)

  const TimedOut: Error := Ssh(Timeout("Command execution timed out."))

  /** The stdout accumulator after one read: created empty if needed, then appended to. */
  function AppendStdout(buffer: Option<seq<Byte>>, read: ReadResult): (r: Option<seq<Byte>>)
    ensures read.ReadFailed? ==> r == buffer
    ensures read.Chunk? ==> r.Some? && r.value == (if buffer.Some? then buffer.value else []) + read.bytes
  {
    match read
    case ReadFailed(_) => buffer
    case Chunk(bytes) => Some((if buffer.Some? then buffer.value else []) + bytes)
  }

  /** The stderr accumulator after one read: only a non-empty chunk creates or extends it. */
  function AppendStderr(buffer: Option<seq<Byte>>, read: ReadResult): (r: Option<seq<Byte>>)
    ensures read.ReadFailed? || read.bytes == [] ==> r == buffer
    ensures read.Chunk? && read.bytes != [] ==> r.Some? && r.value == (if buffer.Some? then buffer.value else []) + read.bytes
  {
    match read
    case ReadFailed(_) => buffer
    case Chunk(bytes) => if bytes == [] then buffer else Some((if buffer.Some? then buffer.value else []) + bytes)
  }

  /** Everything the successful reads delivered, in order. */
  function Delivered(rs: seq<ReadResult>): seq<Byte>
  {
    if rs == [] then [] else Delivered(rs[..|rs| - 1]) + (if rs[|rs| - 1].Chunk? then rs[|rs| - 1].bytes else [])
  }

  /** The stdout buffer after a run of reads that starts from the reset buffer. */
  function DrainStdout(rs: seq<ReadResult>): Option<seq<Byte>>
  {
    if rs == [] then None else AppendStdout(DrainStdout(rs[..|rs| - 1]), rs[|rs| - 1])
  }

  function DrainStderr(rs: seq<ReadResult>): Option<seq<Byte>>
  {
    if rs == [] then None else AppendStderr(DrainStderr(rs[..|rs| - 1]), rs[|rs| - 1])
  }

  /**
    After a run of stdout reads the buffer holds exactly the bytes delivered, and it
    exists as soon as one read has succeeded, even with nothing to read.
   */
  lemma {:induction false} DrainStdoutIsDelivered(rs: seq<ReadResult>)
    ensures DrainStdout(rs).Some? <==> exists i :: 0 <= i < |rs| && rs[i].Chunk?
    ensures DrainStdout(rs).Some? ==> DrainStdout(rs).value == Delivered(rs)
  {
    if rs != [] {
      var init := rs[..|rs| - 1];
      DrainStdoutIsDelivered(init);
      if exists i :: 0 <= i < |init| && init[i].Chunk? {
        var i :| 0 <= i < |init| && init[i].Chunk?;
        assert rs[i].Chunk?;
      }
      if exists i :: 0 <= i < |rs| && rs[i].Chunk? {
        var i :| 0 <= i < |rs| && rs[i].Chunk?;
        if i < |init| { assert init[i].Chunk?; }
      }
      if DrainStdout(init).None? && rs[|rs| - 1].Chunk? {
        assert Delivered(init) == [] by { NoChunkDeliversNothing(init); }
      }
    }
  }

  /** The stderr buffer exists exactly when some read delivered at least one byte. */
  lemma {:induction false} DrainStderrIsDelivered(rs: seq<ReadResult>)
    ensures DrainStderr(rs).Some? <==> Delivered(rs) != []
    ensures DrainStderr(rs).Some? ==> DrainStderr(rs).value == Delivered(rs)
  {
    if rs != [] {
      DrainStderrIsDelivered(rs[..|rs| - 1]);
    }
  }

  lemma {:induction false} NoChunkDeliversNothing(rs: seq<ReadResult>)
    requires forall i :: 0 <= i < |rs| ==> rs[i].ReadFailed?
    ensures Delivered(rs) == []
  {
    if rs != [] {
      NoChunkDeliversNothing(rs[..|rs| - 1]);
    }
  }

  /** `shouldCompleteOperation()`. */
  predicate ShouldComplete(receivedEOF: bool, exitStatus: Option<int>)
  {
    receivedEOF || exitStatus.Some?
  }

  /** The error `finishOperation()` reports: an `execError` exactly when a stderr buffer exists. */
  function ComposeError(stderr: Option<seq<Byte>>): (r: Option<Error>)
    ensures r.Some? <==> stderr.Some?
    ensures r.Some? ==> r.value.Command? && r.value.command.data == stderr.value
  {
    match stderr
    case None => None
    case Some(bytes) => Some(Command(ExecError(Utf8.Decode(bytes), bytes)))
  }

  /** Text written to stderr comes back as the message of the error. */
  lemma ComposeErrorOfText(text: string)
    ensures ComposeError(Some(Utf8.Encode(text))) == Some(Command(ExecError(Some(text), Utf8.Encode(text))))
  {
    Utf8.DecodeEncode(text);
  }

  class SSHCommand {
    var command: Option<string>
    var completion: Option<Handler>
    var response: Option<seq<Byte>>
    var error: Option<seq<Byte>>
    /** Whether `timeoutSource` has been created. */
    var hasTimeoutSource: bool
    /** The command and the handler the timeout timer captured when it was set up. */
    var timeoutCommand: string
    var timeoutCompletion: Option<Handler>
    var trace: seq<Event>
    /** The session's blocking mode (`session.session.blocking`), which the command sets. */
    var blocking: bool

    constructor (sessionBlocking: bool)
      ensures command.None? && completion.None? && response.None? && error.None?
      ensures !hasTimeoutSource && trace == [] && blocking == sessionBlocking
    {
      blocking := sessionBlocking;
      command, completion, response, error := None, None, None, None;
      hasTimeoutSource := false;
      timeoutCommand, timeoutCompletion := [], None;
      trace := [];
    }

    /** `completion?(...)`: a call of the handler, if there is one. */
    static function Call(h: Option<Handler>, cmd: string, data: Option<seq<Byte>>, err: Option<Error>): seq<Event>
    {
      if h.Some? then [Completed(h.value, cmd, data, err)] else []
    }

    /** `cancelSources()`. */
    method CancelSources()
      modifies this`trace
      ensures trace == old(trace) + (if hasTimeoutSource then [SourcesCancelled] else [])
    {
      if hasTimeoutSource {
        trace := trace + [SourcesCancelled];
      }
    }

    /** `close()`: cancels the timeout, then requests the channel close. */
    method Close()
      modifies this`trace
      ensures trace == old(trace) + (if hasTimeoutSource then [SourcesCancelled] else []) + [CloseRequested]
    {
      CancelSources();
      trace := trace + [CloseRequested];
    }

    /**
      `execute(_:completion:)` with `prepareForExecution`: both buffers are reset before
      the channel is opened; a failure to open the channel or to run the command closes
      and reports the error with no data. `openFails` and `execFails` stand for the
      channel opening and the transport's `exec`. Once the channel is open the session
      is in blocking mode for `exec` and goes back to non-blocking after it; a failed
      `exec` leaves it blocking, because the close restores the mode it saved.
     */
    method Execute(cmd: string, handler: Option<Handler>, openFails: Option<Error>, execFails: Option<Error>)
      modifies this
      ensures command == Some(cmd) && completion == handler
      ensures response.None? && error.None?
      ensures openFails.Some? ==> (hasTimeoutSource == old(hasTimeoutSource)
        && timeoutCommand == old(timeoutCommand) && timeoutCompletion == old(timeoutCompletion)
        && trace == old(trace) + (if old(hasTimeoutSource) then [SourcesCancelled] else []) + [CloseRequested]
          + Call(handler, cmd, None, openFails))
      ensures openFails.None? ==> hasTimeoutSource && timeoutCommand == cmd && timeoutCompletion == handler
      ensures openFails.None? ==> (blocking <==> execFails.Some?)
      ensures openFails.None? && execFails.Some? ==>
        trace == old(trace) + [SourcesCancelled, CloseRequested] + Call(handler, cmd, None, execFails)
      ensures openFails.None? && execFails.None? ==> trace == old(trace)
    {
      command := Some(cmd);
      completion := handler;
      response := None;
      error := None;
      if openFails.Some? {
        Close();
        trace := trace + Call(handler, cmd, None, openFails);
        return;
      }
      blocking := true;
      hasTimeoutSource := true;
      timeoutCommand, timeoutCompletion := cmd, handler;
      if execFails.Some? {
        Close();
        trace := trace + Call(handler, cmd, None, execFails);
        return;
      }
      blocking := false;
    }

    /**
      `finishOperation()`: calls the stored completion once with the stdout buffer and
      the composed error, then clears the completion and the command so that a later
      call does nothing. The cancel and close it dispatches are recorded after the call.
     */
    method FinishOperation()
      modifies this`trace, this`completion, this`command
      ensures old(completion).None? || old(command).None? ==>
        trace == old(trace) && completion == old(completion) && command == old(command)
      ensures old(completion).Some? && old(command).Some? ==>
        && trace == old(trace) + [Completed(old(completion).value, old(command).value, response, ComposeError(error))]
             + (if hasTimeoutSource then [SourcesCancelled] else []) + [CloseRequested]
        && completion.None? && command.None?
    {
      if completion.None? || command.None? {
        return;
      }
      trace := trace + [Completed(completion.value, command.value, response, ComposeError(error))];
      Close();
      completion := None;
      command := None;
    }

    /**
      `readChannelData()`: switches the session to non-blocking mode, then one stdout
      read and one stderr read; a failed read is only logged. End-of-file seen after a successful stdout read cancels the read timer.
     */
    method ReadChannelData(stdout: ReadResult, stderr: ReadResult, receivedEOF: bool)
      modifies this`trace, this`response, this`error, this`blocking
      ensures !blocking
      ensures response == AppendStdout(old(response), stdout)
      ensures error == AppendStderr(old(error), stderr)
      ensures trace == old(trace) + (if stdout.Chunk? && receivedEOF then [ReadTimerCancelled] else [])
    {
      blocking := false;
      if stdout.Chunk? {
        if response.None? {
          response := Some([]);
        }
        response := Some(response.value + stdout.bytes);
        if receivedEOF {
          trace := trace + [ReadTimerCancelled];
        }
      }
      if stderr.Chunk? && stderr.bytes != [] {
        if error.None? {
          error := Some([]);
        }
        error := Some(error.value + stderr.bytes);
      }
    }

    /**
      One drain tick (`handleReadDataEvent`): with the timeout suspended, read the
      channel, finish if end-of-file or an exit status has been seen, and resume the
      timeout on the way out.
     */
    method Tick(stdout: ReadResult, stderr: ReadResult, receivedEOF: bool, exitStatus: Option<int>)
      modifies this`trace, this`completion, this`command, this`response, this`error, this`blocking
      ensures !old(hasTimeoutSource) ==> (trace == old(trace) && response == old(response)
        && error == old(error) && completion == old(completion) && command == old(command)
        && blocking == old(blocking))
      ensures old(hasTimeoutSource) ==> !blocking
      ensures old(hasTimeoutSource) ==>
        && response == AppendStdout(old(response), stdout)
        && error == AppendStderr(old(error), stderr)
        && var finishes := ShouldComplete(receivedEOF, exitStatus) && old(completion).Some? && old(command).Some?;
           && trace == old(trace) + TickEvents(stdout.Chunk? && receivedEOF,
                if finishes then [Completed(old(completion).value, old(command).value, response, ComposeError(error))] else [])
           && (finishes ==> completion.None? && command.None?)
           && (!finishes ==> completion == old(completion) && command == old(command))
    {
      if !hasTimeoutSource {
        return;
      }
      trace := trace + [TimeoutSuspended];
      ReadChannelData(stdout, stderr, receivedEOF);
      if ShouldComplete(receivedEOF, exitStatus) {
        FinishOperation();
      }
      trace := trace + [TimeoutResumed];
    }

    /** The events of a tick that has a timeout: `call` is the completion call, if it finished. */
    static function TickEvents(readTimerCancelled: bool, call: seq<Event>): seq<Event>
    {
      [TimeoutSuspended] + (if readTimerCancelled then [ReadTimerCancelled] else [])
        + (if call == [] then [] else call + [SourcesCancelled, CloseRequested]) + [TimeoutResumed]
    }

    /**
      `handleTimeout`: cancels the timeout and calls the handler captured at set-up with
      a timeout error and no data. It clears neither the completion nor the command.
     */
    method HandleTimeout()
      modifies this`trace
      ensures trace == old(trace) + (if hasTimeoutSource then [SourcesCancelled] else [])
        + Call(timeoutCompletion, timeoutCommand, None, Some(TimedOut))
    {
      CancelSources();
      trace := trace + Call(timeoutCompletion, timeoutCommand, None, Some(TimedOut));
    }
  }

  /** Counts the completion calls in a trace. */
  function Completions(trace: seq<Event>): nat
  {
    if trace == [] then 0 else Completions(trace[..|trace| - 1]) + (if trace[|trace| - 1].Completed? then 1 else 0)
  }

  lemma {:induction false} CompletionsAppend(a: seq<Event>, b: seq<Event>)
    ensures Completions(a + b) == Completions(a) + Completions(b)
    decreases |b|
  {
    if b == [] {
      assert a + b == a;
    } else {
      assert (a + b)[..|a + b| - 1] == a + b[..|b| - 1];
      CompletionsAppend(a, b[..|b| - 1]);
    }
  }

  /** A tick adds one completion call when it finishes and none otherwise. */
  lemma TickEventsCompletions(readTimerCancelled: bool, call: seq<Event>)
    requires call == [] || (|call| == 1 && call[0].Completed?)
    ensures Completions(SSHCommand.TickEvents(readTimerCancelled, call)) == if call == [] then 0 else 1
  {
    var a := [TimeoutSuspended] + (if readTimerCancelled then [ReadTimerCancelled] else []);
    var m := if call == [] then [] else call + [SourcesCancelled, CloseRequested];
    assert SSHCommand.TickEvents(readTimerCancelled, call) == a + m + [TimeoutResumed];
    CompletionsAppend(a + m, [TimeoutResumed]);
    CompletionsAppend(a, m);
    CompletionsAppend([TimeoutSuspended], if readTimerCancelled then [ReadTimerCancelled] else []);
    if call != [] {
      CompletionsAppend(call, [SourcesCancelled, CloseRequested]);
      CompletionsAppend([SourcesCancelled], [CloseRequested]);
      assert [SourcesCancelled, CloseRequested] == [SourcesCancelled] + [CloseRequested];
    }
  }

  /**
    With a completion pending, a tick calls it exactly when `shouldCompleteOperation`
    holds (end-of-file received or an exit status available) and then clears it;
    otherwise the completion stays pending and no call is made.
   */
  method TickCompletesIffShouldComplete(c: SSHCommand, stdout: ReadResult, stderr: ReadResult,
                                        receivedEOF: bool, exitStatus: Option<int>)
    requires c.hasTimeoutSource && c.completion.Some? && c.command.Some?
    modifies c
    ensures Completions(c.trace) == Completions(old(c.trace)) + (if ShouldComplete(receivedEOF, exitStatus) then 1 else 0)
    ensures c.completion.None? <==> ShouldComplete(receivedEOF, exitStatus)
  {
    ghost var before, pending, cmd := c.trace, c.completion, c.command;
    c.Tick(stdout, stderr, receivedEOF, exitStatus);
    ghost var call := if ShouldComplete(receivedEOF, exitStatus)
      then [Completed(pending.value, cmd.value, c.response, ComposeError(c.error))] else [];
    TickEventsCompletions(stdout.Chunk? && receivedEOF, call);
    CompletionsAppend(before, SSHCommand.TickEvents(stdout.Chunk? && receivedEOF, call));
  }

  /**
    Without the timeout firing, ticks call the completion at most once after `execute`: the
    first finishing tick clears the completion, so every later tick adds no call.
   */
  method TicksCompleteAtMostOnce(c: SSHCommand, stdouts: seq<ReadResult>, stderrs: seq<ReadResult>,
                                 eofs: seq<bool>, statuses: seq<Option<int>>)
    requires |stdouts| == |stderrs| == |eofs| == |statuses|
    requires c.hasTimeoutSource && c.completion.Some? && c.command.Some?
    modifies c
    ensures Completions(c.trace) <= Completions(old(c.trace)) + 1
  {
    var i := 0;
    while i < |stdouts|
      invariant 0 <= i <= |stdouts|
      invariant c.hasTimeoutSource
      invariant c.completion.Some? <==> c.command.Some?
      invariant Completions(c.trace) == Completions(old(c.trace)) + (if c.completion.Some? then 0 else 1)
    {
      ghost var before, pending, cmd := c.trace, c.completion, c.command;
      ghost var finishes := ShouldComplete(eofs[i], statuses[i]) && pending.Some? && cmd.Some?;
      c.Tick(stdouts[i], stderrs[i], eofs[i], statuses[i]);
      ghost var call := if finishes
        then [Completed(pending.value, cmd.value, c.response, ComposeError(c.error))] else [];
      TickEventsCompletions(stdouts[i].Chunk? && eofs[i], call);
      CompletionsAppend(before, SSHCommand.TickEvents(stdouts[i].Chunk? && eofs[i], call));
      i := i + 1;
    }
  }
}

/**
  The lifecycle of a logical channel on an authenticated session: opening with its
  environment variables and pseudo-terminal, closing, and resizing the terminal.
  The transport library is an oracle: every call it receives is appended to `calls`,
  and whether that call fails is an argument of the method that makes it.
 */
module Channel {
  import opened Wrappers
  import opened Errors

  datatype Terminal = Terminal(name: string, width: nat, height: nat)

  datatype EnvVar = EnvVar(name: string, value: string)

  /** A request the channel issues to the transport library. */
  datatype TransportCall =
    | OpenChannel
    | SetEnvironment(variable: EnvVar)
    | RequestPseudoTerminal(terminal: Terminal)
    | SetPseudoTerminalSize(terminal: Terminal)
    | CloseChannel

  function SetEnvironmentCalls(vs: seq<EnvVar>): (r: seq<TransportCall>)
    ensures |r| == |vs| && forall i :: 0 <= i < |vs| ==> r[i] == SetEnvironment(vs[i])
  {
    seq(|vs|, i requires 0 <= i < |vs| => SetEnvironment(vs[i]))
  }

  /** The position of the first failing call, or the number of calls when none fails. */
  function FirstFailure(outcomes: seq<Option<Error>>): (k: nat)
    ensures k <= |outcomes|
    ensures forall i :: 0 <= i < k ==> outcomes[i].None?
    ensures k < |outcomes| ==> outcomes[k].Some?
  {
    if outcomes == [] then 0
    else if outcomes[0].Some? then 0
    else 1 + FirstFailure(outcomes[1..])
  }

  const NotAuthenticated: Error := Ssh(AuthenticationFailed("Open attempted, but we are not authenticated"))
  const NoTerminal: Error :=
    Ssh(BadUse("Terminal set size attempted, but the terminal has not been created yet"))

  /** The shared session: whether it has authenticated, and the transport's blocking mode. */
  class Session {
    var authenticated: bool
    var blocking: bool

    constructor (authenticated: bool, blocking: bool)
      ensures this.authenticated == authenticated && this.blocking == blocking
    {
      this.authenticated := authenticated;
      this.blocking := blocking;
    }
  }

  class SSHChannel {
    const session: Session
    const environment: seq<EnvVar>
    var terminal: Option<Terminal>
    /** The transport channel's own `isOpen` flag. */
    var isOpen: bool
    var calls: seq<TransportCall>

    constructor (session: Session, environment: seq<EnvVar>, terminal: Option<Terminal>)
      ensures this.session == session && this.environment == environment && this.terminal == terminal
      ensures !isOpen && calls == []
    {
      this.session := session;
      this.environment := environment;
      this.terminal := terminal;
      isOpen := false;
      calls := [];
    }

    /**
      `close()`: forces blocking mode and asks the transport to close; a failure of
      that request is only logged, so nothing is thrown.
     */
    method Close(closeFails: Option<Error>)
      modifies this`isOpen, this`calls, session`blocking
      ensures session.blocking
      ensures calls == old(calls) + [CloseChannel]
      ensures isOpen == (old(isOpen) && closeFails.Some?)
    {
      session.blocking := true;
      calls := calls + [CloseChannel];
      if closeFails.None? {
        isOpen := false;
      }
    }

    /**
      `open()`: refuses an unauthenticated session and an open channel before any
      effect; otherwise opens the transport channel, applies the environment in list
      order and requests the pseudo-terminal if one is configured. A failure after
      the transport channel is open closes it and is rethrown; a failure to open it
      is rethrown without closing.
     */
    method Open(openFails: Option<Error>, envFails: seq<Option<Error>>, ptyFails: Option<Error>, closeFails: Option<Error>)
      returns (err: Option<Error>)
      requires |envFails| == |environment|
      modifies this`isOpen, this`calls, session`blocking
      ensures !old(session.authenticated) ==>
        err == Some(NotAuthenticated) && calls == old(calls) && isOpen == old(isOpen)
        && session.blocking == old(session.blocking)
      ensures old(session.authenticated) && old(isOpen) ==>
        err == Some(Channel(AlreadyOpen)) && calls == old(calls) && isOpen
        && session.blocking == old(session.blocking)
      ensures old(session.authenticated) && !old(isOpen) ==> session.blocking && OpenOutcome(
        err, calls, isOpen, old(calls), openFails, envFails, ptyFails, closeFails)
    {
      if !session.authenticated {
        return Some(NotAuthenticated);
      }
      if isOpen {
        return Some(Channel(AlreadyOpen));
      }
      session.blocking := true;
      calls := calls + [OpenChannel];
      if openFails.Some? {
        return openFails;
      }
      isOpen := true;
      var i := 0;
      while i < |environment|
        invariant 0 <= i <= |environment|
        invariant forall j :: 0 <= j < i ==> envFails[j].None?
        invariant calls == old(calls) + [OpenChannel] + SetEnvironmentCalls(environment[..i])
        invariant isOpen && session.blocking
      {
        calls := calls + [SetEnvironment(environment[i])];
        assert environment[..i + 1] == environment[..i] + [environment[i]];
        if envFails[i].Some? {
          Close(closeFails);
          return envFails[i];
        }
        i := i + 1;
      }
      assert environment[..i] == environment;
      if terminal.Some? {
        calls := calls + [RequestPseudoTerminal(terminal.value)];
        if ptyFails.Some? {
          Close(closeFails);
          return ptyFails;
        }
      }
      return None;
    }

    /** What `open()` leaves behind once the guards have passed. */
    ghost predicate OpenOutcome(err: Option<Error>, calls: seq<TransportCall>, isOpen: bool,
      before: seq<TransportCall>, openFails: Option<Error>, envFails: seq<Option<Error>>,
      ptyFails: Option<Error>, closeFails: Option<Error>)
      requires |envFails| == |environment|
      reads this
    {
      var k := FirstFailure(envFails);
      var applied := before + [OpenChannel] + SetEnvironmentCalls(environment[..if k < |envFails| then k + 1 else k]);
      if openFails.Some? then
        err == openFails && calls == before + [OpenChannel] && !isOpen
      else if k < |envFails| then
        err == envFails[k] && calls == applied + [CloseChannel] && isOpen == closeFails.Some?
      else if terminal.Some? && ptyFails.Some? then
        err == ptyFails && calls == applied + [RequestPseudoTerminal(terminal.value), CloseChannel]
        && isOpen == closeFails.Some?
      else
        err == None && isOpen
        && calls == applied + (if terminal.Some? then [RequestPseudoTerminal(terminal.value)] else [])
    }

    /**
      `setTerminalSize(width:height:completion:)`: fails without a terminal; a request
      for the current size does nothing; otherwise the resize is sent first and the
      new size is stored only once it has succeeded.
     */
    method SetTerminalSize(width: nat, height: nat, resizeFails: Option<Error>) returns (err: Option<Error>)
      modifies this`terminal, this`calls
      ensures old(terminal).None? ==> err == Some(NoTerminal) && terminal == old(terminal) && calls == old(calls)
      ensures old(terminal).Some? && old(terminal).value.width == width && old(terminal).value.height == height ==>
        err == None && terminal == old(terminal) && calls == old(calls)
      ensures old(terminal).Some? && (old(terminal).value.width != width || old(terminal).value.height != height) ==>
        var resized := old(terminal).value.(width := width, height := height);
        && calls == old(calls) + [SetPseudoTerminalSize(resized)]
        && err == resizeFails
        && terminal == (if resizeFails.Some? then old(terminal) else Some(resized))
    {
      if terminal.None? {
        return Some(NoTerminal);
      }
      var current := terminal.value;
      if current.width != width || current.height != height {
        var resized := current.(width := width, height := height);
        calls := calls + [SetPseudoTerminalSize(resized)];
        if resizeFails.Some? {
          return resizeFails;
        }
        terminal := Some(resized);
      }
      return None;
    }
  }
}

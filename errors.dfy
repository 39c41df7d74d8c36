/**
  The error taxonomy of the library and the `description()` maps of its socket,
  channel, SCP and command errors, plus the disconnection reason codes.
 */
module Errors {
  import opened Wrappers
  import opened Bytes
  import Utf8
  import opened Strings

  /** The cases of `SSHError` that the modelled code throws. */
  datatype SshError =
    | AuthenticationFailed(detail: string)
    | Timeout(detail: string)
    | BadUse(detail: string)

  /** `SSHError.Socket`. */
  datatype SocketError = Write | Read | Disconnected | SocketTimeout | Invalid

  /** `SSHError.Channel`. */
  datatype ChannelError =
    | ChannelUnknown | AlreadyOpen | ChannelInvalid | OutOfOrder | ChannelFailure
    | RequestDenied | WindowExceeded | PacketExceeded | Closed | SentEndOfFile

  /** `SSHError.SCP`. */
  datatype ScpError =
    | ScpUnknown(detail: string)
    | Protocol(detail: string)
    | FileRead(detail: string)
    | InvalidPath(detail: string)
    | UploadVerification(detail: string)
    | FileInfoUnavailable

  /** `SSHError.Command.execError(String?, Data)`. */
  datatype CommandError = ExecError(message: Option<string>, data: seq<Byte>)

  /**
    Everything that can be thrown or handed to a completion callback; `Foreign`
    stands for an error raised by the transport library or by Foundation, whose
    contents the model does not inspect.
   */
  datatype Error =
    | Ssh(ssh: SshError)
    | Socket(socket: SocketError)
    | Channel(channel: ChannelError)
    | Scp(scp: ScpError)
    | Command(command: CommandError)
    | Foreign(code: int)

  // ----- SSHError.Socket -----

  function SocketDescription(e: SocketError): string
  {
    match e
    case Write => "Socket write error."
    case Read => "Socket read error."
    case Disconnected => "Socket disconnected."
    case SocketTimeout => "Socket operation timed out."
    case Invalid => "Invalid socket operation."
  }

  /** The case a socket description names; the inverse of `SocketDescription`. */
  function SocketErrorFromDescription(s: string): (r: Option<SocketError>)
  {
    if s == "Socket write error." then Some(Write)
    else if s == "Socket read error." then Some(Read)
    else if s == "Socket disconnected." then Some(Disconnected)
    else if s == "Socket operation timed out." then Some(SocketTimeout)
    else if s == "Invalid socket operation." then Some(Invalid)
    else None
  }

  lemma SocketDescriptionRoundTrip(e: SocketError)
    ensures SocketErrorFromDescription(SocketDescription(e)) == Some(e)
  {
  }

  /** Distinct socket errors are described differently. */
  lemma SocketDescriptionInjective(a: SocketError, b: SocketError)
    requires SocketDescription(a) == SocketDescription(b)
    ensures a == b
  {
    SocketDescriptionRoundTrip(a);
    SocketDescriptionRoundTrip(b);
  }

  // ----- SSHError.Channel -----

  function ChannelDescription(e: ChannelError): string
  {
    match e
    case ChannelUnknown => "Unknown channel error."
    case AlreadyOpen => "Channel is already open."
    case ChannelInvalid => "Invalid channel operation."
    case OutOfOrder => "Channel operation out of order."
    case ChannelFailure => "Channel failure."
    case RequestDenied => "Channel request denied."
    case WindowExceeded => "Channel window size exceeded."
    case PacketExceeded => "Channel packet size exceeded."
    case Closed => "Channel closed."
    case SentEndOfFile => "End of file sent on channel."
  }

  /** The inverse of `ChannelDescription`. */
  function ChannelErrorFromDescription(s: string): (r: Option<ChannelError>)
  {
    if s == "Unknown channel error." then Some(ChannelUnknown)
    else if s == "Channel is already open." then Some(AlreadyOpen)
    else if s == "Invalid channel operation." then Some(ChannelInvalid)
    else if s == "Channel operation out of order." then Some(OutOfOrder)
    else if s == "Channel failure." then Some(ChannelFailure)
    else if s == "Channel request denied." then Some(RequestDenied)
    else if s == "Channel window size exceeded." then Some(WindowExceeded)
    else if s == "Channel packet size exceeded." then Some(PacketExceeded)
    else if s == "Channel closed." then Some(Closed)
    else if s == "End of file sent on channel." then Some(SentEndOfFile)
    else None
  }

  lemma ChannelDescriptionRoundTrip(e: ChannelError)
    ensures ChannelErrorFromDescription(ChannelDescription(e)) == Some(e)
  {
  }

  /** Distinct channel errors are described differently. */
  lemma ChannelDescriptionInjective(a: ChannelError, b: ChannelError)
    requires ChannelDescription(a) == ChannelDescription(b)
    ensures a == b
  {
    ChannelDescriptionRoundTrip(a);
    ChannelDescriptionRoundTrip(b);
  }

  // ----- SSHError.SCP -----

  /** The fixed text that precedes the detail of each detail-carrying SCP error. */
  function ScpPrefix(e: ScpError): string
    requires !e.FileInfoUnavailable?
  {
    match e
    case ScpUnknown(_) => "Unknown error: "
    case Protocol(_) => "Protocol error: "
    case FileRead(_) => "File read error: "
    case InvalidPath(_) => "Invalid path: "
    case UploadVerification(_) => "Failed to verify upload: "
  }

  function ScpDescription(e: ScpError): string
  {
    match e
    case ScpUnknown(detail) => "Unknown error: " + detail
    case FileInfoUnavailable => "File info unavailable"
    case FileRead(detail) => "File read error: " + detail
    case InvalidPath(detail) => "Invalid path: " + detail
    case Protocol(detail) => "Protocol error: " + detail
    case UploadVerification(detail) => "Failed to verify upload: " + detail
  }

  lemma ScpDescriptionIsPrefixAndDetail(e: ScpError)
    ensures e.FileInfoUnavailable? ==> ScpDescription(e) == "File info unavailable"
    ensures !e.FileInfoUnavailable? ==> ScpDescription(e) == ScpPrefix(e) + e.detail
  {
  }

  /** Recovers the case and the detail from an SCP description; the inverse of `ScpDescription`. */
  function ScpErrorFromDescription(s: string): (r: Option<ScpError>)
  {
    if StartsWith(s, "Unknown error: ") then Some(ScpUnknown(s[15..]))
    else if s == "File info unavailable" then Some(FileInfoUnavailable)
    else if StartsWith(s, "File read error: ") then Some(FileRead(s[17..]))
    else if StartsWith(s, "Invalid path: ") then Some(InvalidPath(s[14..]))
    else if StartsWith(s, "Protocol error: ") then Some(Protocol(s[16..]))
    else if StartsWith(s, "Failed to verify upload: ") then Some(UploadVerification(s[25..]))
    else None
  }

  lemma ScpDescriptionRoundTrip(e: ScpError)
    ensures ScpErrorFromDescription(ScpDescription(e)) == Some(e)
  {
    var s := ScpDescription(e);
    if !e.FileInfoUnavailable? {
      var p := ScpPrefix(e);
      assert s[..|p|] == p && s[|p|..] == e.detail;
    }
    // the first character of each description tells the families apart
    assert s[0] == match e
      case ScpUnknown(_) => 'U'
      case FileInfoUnavailable => 'F'
      case FileRead(_) => 'F'
      case InvalidPath(_) => 'I'
      case Protocol(_) => 'P'
      case UploadVerification(_) => 'F';
    assert e.FileInfoUnavailable? || e.FileRead? || e.UploadVerification? ==>
      s[5] == match e
        case FileInfoUnavailable => 'i'
        case FileRead(_) => 'r'
        case _ => 'd';
  }

  /** Two SCP errors with the same description are the same error, detail included. */
  lemma ScpDescriptionInjective(a: ScpError, b: ScpError)
    requires ScpDescription(a) == ScpDescription(b)
    ensures a == b
  {
    ScpDescriptionRoundTrip(a);
    ScpDescriptionRoundTrip(b);
  }

  // ----- SSHError.Command -----

  /** Swift's `"\(n)"` for a non-negative `Int`: its decimal digits, most significant first. */
  function DecimalString(n: nat): (r: string)
    ensures |r| >= 1 && forall i :: 0 <= i < |r| ==> '0' <= r[i] <= '9'
  {
    if n < 10 then [DigitChar(n)] else DecimalString(n / 10) + [DigitChar(n % 10)]
  }

  function DigitChar(d: nat): (c: char)
    requires d < 10
    ensures '0' <= c <= '9'
  {
    ('0' as int + d) as char
  }

  /** Reads a string of decimal digits; the inverse of `DecimalString`. */
  function ParseDecimal(s: string): nat
  {
    if s == [] then 0
    else ParseDecimal(s[..|s| - 1]) * 10 + (if '0' <= s[|s| - 1] <= '9' then s[|s| - 1] as int - '0' as int else 0)
  }

  lemma {:induction false} ParseDecimalString(n: nat)
    ensures ParseDecimal(DecimalString(n)) == n
  {
    if n >= 10 {
      var s := DecimalString(n);
      assert s[..|s| - 1] == DecimalString(n / 10);
      ParseDecimalString(n / 10);
    }
  }

  function CommandDescription(e: CommandError): string
  {
    var message := if e.message.Some? then e.message.value else "Unknown error";
    match Utf8.Decode(e.data)
    case Some(text) => "Execution Error: " + message + " with data: " + text
    case None => "Execution Error: " + message + " with non-text data of size " + DecimalString(|e.data|) + " bytes"
  }

  /**
    The description names the message (or "Unknown error" when there is none), then
    embeds the bytes as text when they are well-formed UTF-8.
   */
  lemma CommandDescriptionOfText(m: Option<string>, data: seq<Byte>, text: string)
    requires data == Utf8.Encode(text)
    ensures CommandDescription(ExecError(m, data)) ==
      "Execution Error: " + (if m.None? then "Unknown error" else m.value) + " with data: " + text
  {
    Utf8.DecodeEncode(text);
  }

  /** Ill-formed bytes are reported by their count, which can be read back from the text. */
  lemma CommandDescriptionOfBinary(m: Option<string>, data: seq<Byte>)
    requires Utf8.Decode(data).None?
    ensures var d := CommandDescription(ExecError(m, data));
      var tail := " bytes";
      var head := "Execution Error: " + (if m.None? then "Unknown error" else m.value) + " with non-text data of size ";
      && StartsWith(d, head)
      && |d| >= |head| + |tail|
      && d[|d| - |tail|..] == tail
      && ParseDecimal(d[|head|..|d| - |tail|]) == |data|
  {
    var head := "Execution Error: " + (if m.None? then "Unknown error" else m.value) + " with non-text data of size ";
    var d := CommandDescription(ExecError(m, data));
    assert d == head + DecimalString(|data|) + " bytes";
    assert d[|head|..|d| - 6] == DecimalString(|data|);
    ParseDecimalString(|data|);
  }

  // ----- SSHDisconnectionCode (section 11.1 of RFC 4253) -----

  datatype DisconnectionCode =
    | HostNotAllowedToConnect | ProtocolError | KeyExchangeFailed | Reserved | MacError
    | CompressionError | ServiceNotAvailable | ProtocolVersionNotSupported | HostKeyNotVerifiable
    | ConnectionLost | ByApplication | TooManyConnections | AuthenticationCancelledByUser
    | NoMoreAuthenticationMethodsAvailable | IllegalUserName

  function RawValue(c: DisconnectionCode): (r: int)
  {
    match c
    case HostNotAllowedToConnect => 1
    case ProtocolError => 2
    case KeyExchangeFailed => 3
    case Reserved => 4
    case MacError => 5
    case CompressionError => 6
    case ServiceNotAvailable => 7
    case ProtocolVersionNotSupported => 8
    case HostKeyNotVerifiable => 9
    case ConnectionLost => 10
    case ByApplication => 11
    case TooManyConnections => 12
    case AuthenticationCancelledByUser => 13
    case NoMoreAuthenticationMethodsAvailable => 14
    case IllegalUserName => 15
  }

  /** `SSHDisconnectionCode(rawValue:)`: `None` for every integer that is not a reason code. */
  function FromRawValue(n: int): (r: Option<DisconnectionCode>)
  {
    if n == 1 then Some(HostNotAllowedToConnect)
    else if n == 2 then Some(ProtocolError)
    else if n == 3 then Some(KeyExchangeFailed)
    else if n == 4 then Some(Reserved)
    else if n == 5 then Some(MacError)
    else if n == 6 then Some(CompressionError)
    else if n == 7 then Some(ServiceNotAvailable)
    else if n == 8 then Some(ProtocolVersionNotSupported)
    else if n == 9 then Some(HostKeyNotVerifiable)
    else if n == 10 then Some(ConnectionLost)
    else if n == 11 then Some(ByApplication)
    else if n == 12 then Some(TooManyConnections)
    else if n == 13 then Some(AuthenticationCancelledByUser)
    else if n == 14 then Some(NoMoreAuthenticationMethodsAvailable)
    else if n == 15 then Some(IllegalUserName)
    else None
  }

  lemma RawValueInRange(c: DisconnectionCode)
    ensures 1 <= RawValue(c) <= 15
  {
  }

  lemma RawValueRoundTrip(c: DisconnectionCode)
    ensures FromRawValue(RawValue(c)) == Some(c)
  {
  }

  lemma FromRawValueExactlyReasonCodes(n: int)
    ensures FromRawValue(n).Some? <==> 1 <= n <= 15
    ensures FromRawValue(n).Some? ==> RawValue(FromRawValue(n).value) == n
  {
  }
}

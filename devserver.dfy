/** The development HTTP server's request handling (dev_server.py): a request
    line that starts like a TLS record is dropped quietly instead of being
    parsed as HTTP. */
module DevServer {

  newtype byte = x: int | 0 <= x < 256

  predicate StartsWith(data: seq<byte>, prefix: seq<byte>) {
    |prefix| <= |data| && data[..|prefix|] == prefix
  }

  /** `b"\x16\x03"`: a TLS record of content type handshake (22) with record
      version major byte 3 (section 5.1 of RFC 8446). */
  const TlsRecordPrefix: seq<byte> := [0x16, 0x03]

  /** `b"\x00\x02\x01\x00"`: a legacy probe that starts with a two-byte length. */
  const LegacyProbePrefix: seq<byte> := [0x00, 0x02, 0x01, 0x00]

  /** `_looks_like_tls_handshake(data)` */
  predicate LooksLikeTlsHandshake(data: seq<byte>) {
    StartsWith(data, TlsRecordPrefix) || StartsWith(data, LegacyProbePrefix)
  }

  /** The test byte by byte: `16 03`, or `00 02 01 00`, at the front. */
  lemma TlsBytes(data: seq<byte>)
    ensures LooksLikeTlsHandshake(data) <==>
      (|data| >= 2 && data[0] == 0x16 && data[1] == 0x03)
      || (|data| >= 4 && data[0] == 0x00 && data[1] == 0x02 && data[2] == 0x01 && data[3] == 0x00)
  {
    if |data| >= 2 && data[0] == 0x16 && data[1] == 0x03 {
      assert data[..2] == TlsRecordPrefix;
    }
    if |data| >= 4 && data[0] == 0x00 && data[1] == 0x02 && data[2] == 0x01 && data[3] == 0x00 {
      assert data[..4] == LegacyProbePrefix;
    }
  }

  /** Fewer than two bytes are never taken for TLS. */
  lemma ShortIsNotTls(data: seq<byte>)
    requires |data| < 2
    ensures !LooksLikeTlsHandshake(data)
  {
  }

  /** Whatever follows a matching prefix, including any minor version byte,
      the input still matches. */
  lemma TlsPrefixExtends(data: seq<byte>, more: seq<byte>)
    requires LooksLikeTlsHandshake(data)
    ensures LooksLikeTlsHandshake(data + more)
  {
    TlsBytes(data);
    TlsBytes(data + more);
  }

  /** Every TLS minor version byte is recognised. */
  lemma AnyTlsMinorVersion(minor: byte, rest: seq<byte>)
    ensures LooksLikeTlsHandshake([0x16, 0x03, minor] + rest)
  {
    TlsBytes([0x16, 0x03, minor] + rest);
  }

  /** A request line starting with a printable ASCII character, as every HTTP
      method name does, is never taken for TLS. */
  lemma PrintableIsNotTls(data: seq<byte>)
    requires |data| > 0 && 0x20 <= data[0] <= 0x7e
    ensures !LooksLikeTlsHandshake(data)
  {
    TlsBytes(data);
  }

  // ---------------------------------------------------------------------------
  // One request

  /** `self.rfile.readline(65537)`: a line, or a connection reset or timeout. */
  datatype ReadResult = ReadFailed | Line(bytes: seq<byte>)

  /** What the inherited `parse_request()` decided, with the `close_connection`
      value it left behind; its parsing is not modelled. */
  datatype ParseResult = Parsed(command: string, close: bool) | ParseFailed(close: bool)

  /** How `handle_one_request` ended. */
  datatype Outcome =
    | ReadError                      // read failed: connection closed
    | EmptyLine                      // peer closed: connection closed
    | TlsIgnored                     // TLS on the HTTP port: connection closed, nothing parsed
    | ParseRejected                  // `parse_request` refused the line and answered itself
    | NotImplemented(command: string) // 501 Not Implemented (section 15.6.2 of RFC 9110)
    | Dispatched(handler: string)    // the `do_<METHOD>` handler ran

  /** The handler name looked up for a method. */
  function HandlerName(command: string): string {
    "do_" + command
  }

  /** The decision `handle_one_request` takes, for a parser `parse` and the set
      of `do_*` attribute names of the handler class. */
  function Decide(read: ReadResult, parse: seq<byte> -> ParseResult, handlers: set<string>): (outcome: Outcome)
    ensures outcome.Dispatched? ==> outcome.handler in handlers
    ensures !BeforeParsing(outcome) <==> read.Line? && read.bytes != [] && !LooksLikeTlsHandshake(read.bytes)
  {
    match read
    case ReadFailed => ReadError
    case Line(bytes) =>
      if bytes == [] then EmptyLine
      else if LooksLikeTlsHandshake(bytes) then TlsIgnored
      else match parse(bytes)
        case ParseFailed(_) => ParseRejected
        case Parsed(command, _) =>
          if HandlerName(command) !in handlers then NotImplemented(command) else Dispatched(HandlerName(command))
  }

  /** Outcomes reached without consulting the parser. */
  predicate BeforeParsing(outcome: Outcome) {
    outcome.ReadError? || outcome.EmptyLine? || outcome.TlsIgnored?
  }

  /** A failed read or an empty line ends the request before any parsing,
      whatever the parser would say. */
  lemma NoLineNoParse(read: ReadResult, p1: seq<byte> -> ParseResult, p2: seq<byte> -> ParseResult,
                      handlers: set<string>)
    requires read == ReadFailed || read == Line([])
    ensures Decide(read, p1, handlers) == Decide(read, p2, handlers)
    ensures BeforeParsing(Decide(read, p1, handlers))
    ensures !Decide(read, p1, handlers).Dispatched?
  {
  }

  /** A TLS-looking line is ignored whatever the parser would say, so it is
      never parsed or dispatched. */
  lemma TlsNeverParsed(bytes: seq<byte>, p1: seq<byte> -> ParseResult, p2: seq<byte> -> ParseResult,
                       handlers: set<string>)
    requires LooksLikeTlsHandshake(bytes)
    ensures Decide(Line(bytes), p1, handlers) == TlsIgnored
    ensures Decide(Line(bytes), p2, handlers) == TlsIgnored
  {
  }

  /** Once the parser has accepted a command, exactly its handler runs when the
      class has one, and a 501 goes back otherwise. */
  lemma DispatchExactly(bytes: seq<byte>, parse: seq<byte> -> ParseResult, handlers: set<string>)
    requires bytes != [] && !LooksLikeTlsHandshake(bytes) && parse(bytes).Parsed?
    ensures var command := parse(bytes).command; var outcome := Decide(Line(bytes), parse, handlers);
      && (outcome.Dispatched? <==> "do_" + command in handlers)
      && (outcome.Dispatched? ==> outcome.handler == "do_" + command)
      && (outcome.NotImplemented? <==> "do_" + command !in handlers)
  {
  }

  /** The handlers `SimpleHTTPRequestHandler` defines. */
  const StandardHandlers: set<string> := {"do_GET", "do_HEAD"}

  /** On the stock handler class a parsed POST gets a 501, and a GET is served. */
  lemma PostIsNotImplemented(bytes: seq<byte>, parse: seq<byte> -> ParseResult)
    requires bytes != [] && 0x20 <= bytes[0] <= 0x7e
    ensures parse(bytes) == Parsed("POST", false) ==>
      Decide(Line(bytes), parse, StandardHandlers) == NotImplemented("POST")
    ensures parse(bytes) == Parsed("GET", false) ==>
      Decide(Line(bytes), parse, StandardHandlers) == Dispatched("do_GET")
  {
    PrintableIsNotTls(bytes);
    var post := "do_" + "POST";
    assert post[3] == 'P' && "do_GET"[3] == 'G' && "do_HEAD"[3] == 'H';
    assert post !in StandardHandlers;
    assert "do_" + "GET" == "do_GET";
  }

  /** `FriendlyHTTPRequestHandler`: the connection state `handle_one_request`
      updates, and the names of the `do_*` methods its class has. */
  class FriendlyHttpRequestHandler {
    var rawRequestline: seq<byte>
    var closeConnection: bool
    const handlers: set<string>

    constructor(handlers: set<string>)
      ensures this.handlers == handlers
      ensures rawRequestline == [] && !closeConnection
    {
      this.handlers := handlers;
      rawRequestline := [];
      closeConnection := false;
    }

    /** `handle_one_request()`, with the socket read and `parse_request` as
        inputs. */
    method HandleOneRequest(read: ReadResult, parse: seq<byte> -> ParseResult) returns (outcome: Outcome)
      modifies this
      ensures outcome == Decide(read, parse, handlers)
      ensures rawRequestline == (if read.Line? then read.bytes else old(rawRequestline))
      // every early exit closes the connection, a refused parse leaves the
      // parser's choice, a 501 closes, and a dispatch keeps what the parser set
      ensures BeforeParsing(outcome) ==> closeConnection
      ensures outcome == ParseRejected ==> closeConnection == parse(read.bytes).close
      ensures outcome.NotImplemented? ==> closeConnection
      ensures outcome.Dispatched? ==> closeConnection == parse(read.bytes).close
    {
      if read.ReadFailed? {
        closeConnection := true;
        return ReadError;
      }
      rawRequestline := read.bytes;
      if rawRequestline == [] {
        closeConnection := true;
        return EmptyLine;
      }
      if LooksLikeTlsHandshake(rawRequestline) {
        closeConnection := true;
        return TlsIgnored;
      }
      var parsed := parse(rawRequestline);
      closeConnection := parsed.close;
      if parsed.ParseFailed? {
        return ParseRejected;
      }
      var mname := HandlerName(parsed.command);
      if mname !in handlers {
        closeConnection := true;
        return NotImplemented(parsed.command);
      }
      outcome := Dispatched(mname);
    }
  }
}

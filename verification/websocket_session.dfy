/** `Can\Server\WebSocketRoute` and the connection it upgrades: the route
    object (its template, its timeout and the connection it records once
    the handshake succeeds) and the read and write callbacks libevent runs
    on that connection. The bufferevent is modelled as its two enable flags,
    its input buffer and the frames queued on its output. */
module WebSocketSession {
  import opened Common
  import opened HttpMethods
  import opened UriTemplate
  import opened FrameCodec
  import Routes
  import Handshake

  /** A PHP string: its bytes and its length (`Z_STRVAL`, `Z_STRLEN`). */
  datatype PhpString = PhpString(bytes: seq<byte>, len: Size)

  /** A PHP string whose length field is the number of its bytes. */
  type Text = p: PhpString | |p.bytes| == p.len as int witness PhpString([], 0)

  /** What `onMessage` did with the message: returned a string, returned
      NULL, returned a value of another type, or threw. */
  datatype Reply = Str(text: Text) | Null | Other | Raised

  /** Where `websocket_read_cb` has undefined behaviour: it reads the first
      byte of an empty buffer, or `decode_data` reads header or mask bytes
      past the end of a short frame. */
  datatype ReadFault = EmptyRead | ShortFrame

  /** What one readable event does to the connection: nothing, one frame
      written, or undefined behaviour. */
  datatype ReadEffect = Ignore | Send(frame: seq<byte>) | ReadFaulted(fault: ReadFault)

  /** Unmasked frames never look at their mask; the session passes this. */
  const NoMask: seq<byte> := [0, 0, 0, 0]

  /** `data[0] & ~0x80`: the first byte without its FIN bit. The RSV bits
      stay in, so a frame with one of them set matches no opcode. */
  function Opcode(first: byte): int {
    (first & 0x7F) as int
  }

  /** The empty Close frame every close path writes. */
  function CloseReply(): seq<byte> {
    Encode(None, 0, false, CloseFrame, NoMask)
  }

  /** The unmasked text frame carrying a handler's reply. */
  function TextReply(s: Text): seq<byte> {
    Encode(Some(s.bytes), s.len, false, TextFrame, NoMask)
  }

  /** `websocket_read_cb` on the whole input buffer `data`: a Close frame
      answers Close, a Pong answers Ping, a text or binary frame is decoded
      and handed to `onMessage` up to its first NUL byte (it becomes a PHP
      string with `strlen`), and the reply decides what is written. */
  function ReadEffectOf(data: seq<byte>, onMessage: seq<byte> -> Reply): ReadEffect {
    if data == [] then ReadFaulted(EmptyRead)
    else
      var op := Opcode(data[0]);
      if op == CloseFrame then Send(CloseReply())
      else if op == PingFrame then Send(Encode(None, 0, false, PongFrame, NoMask))
      else if op == TextFrame || op == BinaryFrame then
        match Decode(data)
        case Err(_) => ReadFaulted(ShortFrame)
        case Ok(payload) =>
          match onMessage(CStr(payload))
          case Str(s) => if s.len > 0 then Send(TextReply(s)) else Ignore
          case Null => Ignore
          case Other => Send(CloseReply())
          case Raised => Send(CloseReply())
      else Ignore
  }

  /** A Close frame is answered with the two bytes of an empty Close frame
      and a Ping with an empty Pong: the Ping's payload is not echoed. */
  lemma ControlReplies(data: seq<byte>, onMessage: seq<byte> -> Reply)
    requires data != []
    ensures Opcode(data[0]) == CloseFrame ==> ReadEffectOf(data, onMessage) == Send([0x88, 0x00])
    ensures Opcode(data[0]) == PingFrame ==> ReadEffectOf(data, onMessage) == Send([0x8A, 0x00])
  {
    EmptyControlFrames(NoMask);
  }

  /** A frame whose opcode is none of Text, Binary, Close or Ping changes
      nothing, and faults are confined to empty buffers and short text or
      binary frames. */
  lemma OtherOpcodesIgnored(data: seq<byte>, onMessage: seq<byte> -> Reply)
    ensures data != [] && Opcode(data[0]) !in {TextFrame, BinaryFrame, CloseFrame, PingFrame} ==>
              ReadEffectOf(data, onMessage) == Ignore
    ensures ReadEffectOf(data, onMessage).ReadFaulted? <==>
              data == [] || (Opcode(data[0]) in {TextFrame, BinaryFrame} && Decode(data).Err?)
  {
  }

  /** A reply frame is the unmasked text header declaring the reply's
      length, then the reply's bytes unchanged. */
  lemma TextReplyLayout(s: Text)
    ensures TextReply(s) == Header(TextFrame, s.len, false) + s.bytes
    ensures TextReply(s)[0] == 0x81 && |TextReply(s)| >= 2
    ensures DeclaredLength(TextReply(s)) == s.len
    ensures TextReply(s)[|TextReply(s)| - |s.bytes|..] == s.bytes
  {
    UnmaskedPayload(s.bytes, s.len, TextFrame, NoMask);
    DeclaredLengthOfEncode(Some(s.bytes), s.len, false, TextFrame, NoMask);
  }

  /** For a text or binary frame the handler sees the unmasked payload up
      to its first NUL byte. A non-empty string reply goes back in one
      unmasked, final text frame whose header declares its length and after
      which the reply follows byte for byte; an empty string or NULL sends
      nothing; any other value and any exception close the connection. */
  lemma MessageReplies(data: seq<byte>, onMessage: seq<byte> -> Reply)
    requires data != [] && Opcode(data[0]) in {TextFrame, BinaryFrame} && Decode(data).Ok?
    ensures var reply := onMessage(CStr(Decode(data).value));
            var e := ReadEffectOf(data, onMessage);
            (reply.Str? && reply.text.len > 0 ==>
               e.Send? && e.frame == Header(TextFrame, reply.text.len, false) + reply.text.bytes &&
               e.frame[0] == 0x81 && |e.frame| >= 2 &&
               DeclaredLength(e.frame) == reply.text.len &&
               e.frame[|e.frame| - |reply.text.bytes|..] == reply.text.bytes) &&
            ((reply.Str? && reply.text.len == 0) || reply.Null? ==> e == Ignore) &&
            (reply.Other? || reply.Raised? ==> e == Send([0x88, 0x00]))
  {
    var reply := onMessage(CStr(Decode(data).value));
    EmptyControlFrames(NoMask);
    if reply.Str? && reply.text.len > 0 {
      TextReplyLayout(reply.text);
    }
  }

  /** The part of a bufferevent the WebSocket callbacks touch. */
  class Connection {
    /** Bytes received and not yet read by a callback. */
    var input: seq<byte>
    /** Bytes written after the handshake response, in order. */
    var output: seq<byte>
    var readEnabled: bool
    var writeEnabled: bool
    /** The timeout `evhttp_connection_set_timeout` gave the connection. */
    var timeout: int

    /** The connection as the handshake leaves it: reading and writing
        enabled, the route's timeout set, and whatever the client sent
        after its request (the legacy nonce included) still in the input. */
    constructor Open(t: int, pending: seq<byte>)
      ensures readEnabled && writeEnabled && timeout == t
      ensures input == pending && output == []
    {
      input, output := pending, [];
      readEnabled, writeEnabled := true, true;
      timeout := t;
    }

    /** `bufferevent_disable(EV_READ)`, `bufferevent_enable(EV_WRITE)`,
        `bufferevent_write`: the order of every write in the session. */
    method Write(frame: seq<byte>)
      modifies this
      ensures !readEnabled && writeEnabled
      ensures output == old(output) + frame
      ensures input == old(input) && timeout == old(timeout)
    {
      readEnabled := false;
      writeEnabled := true;
      output := output + frame;
    }

    /** `websocket_read_cb`: drain the input buffer and act on it. */
    method OnRead(onMessage: seq<byte> -> Reply) returns (effect: ReadEffect)
      modifies this
      ensures effect == ReadEffectOf(old(input), onMessage)
      ensures input == [] && timeout == old(timeout)
      ensures effect.Send? ==> !readEnabled && writeEnabled && output == old(output) + effect.frame
      ensures !effect.Send? ==>
                readEnabled == old(readEnabled) && writeEnabled == old(writeEnabled) && output == old(output)
    {
      var data := input;
      input := [];
      if |data| == 0 {
        return ReadFaulted(EmptyRead);
      }
      var opcode := Opcode(data[0]);
      if opcode == CloseFrame {
        var encoded, outlen := EncodeData(None, 0, false, CloseFrame, NoMask);
        Write(encoded);
        return Send(encoded);
      } else if opcode == PingFrame {
        var encoded, outlen := EncodeData(None, 0, false, PongFrame, NoMask);
        Write(encoded);
        return Send(encoded);
      } else if opcode == TextFrame || opcode == BinaryFrame {
        var message := DecodeData(data);
        if message.Err? {
          return ReadFaulted(ShortFrame);
        }
        var reply := onMessage(CStr(message.value));
        effect := Ignore;
        if reply.Str? {
          if reply.text.len > 0 {
            var encoded, outlen := EncodeData(Some(reply.text.bytes), reply.text.len, false, TextFrame, NoMask);
            Write(encoded);
            effect := Send(encoded);
          }
        } else if reply.Null? {
          // empty output
        } else {
          var encoded, outlen := EncodeData(None, 0, false, CloseFrame, NoMask);
          Write(encoded);
          effect := Send(encoded);
        }
      } else {
        effect := Ignore;
      }
    }

    /** `websocket_write_cb`: once the output is flushed, stop writing and
        read again. */
    method OnWrite()
      modifies this
      ensures !writeEnabled && readEnabled
      ensures input == old(input) && output == old(output) && timeout == old(timeout)
    {
      writeEnabled := false;
      readEnabled := true;
    }
  }

  /** The error value the model gives where `__construct` would loop
      forever: a '<' with no '>' after it. */
  datatype ConstructError = BadTemplate

  /** A `WebSocketRoute` object: the route fields it shares with
      `Can\Server\Route` (`base`), its timeout and `route->arg`, the
      connection of the last completed handshake. */
  class WebSocketRoute {
    const base: Routes.Route
    /** Whether the object is of a PHP subclass of `WebSocketRoute`: only
        then does the handshake call `onHandshake`. */
    const subclass: bool
    var timeout: int
    var conn: Connection?

    /** The route fields of a constructed WebSocket route: the compiler's
        output for the stored template, and the GET mask it never changes. */
    predicate Valid()
      reads this, base
    {
      base.template.Some? && base.casts.Some? &&
      Compile(base.template.value) == Ok(Compiled(base.pattern, base.casts.value)) &&
      base.methods == Bit(GET) && base.handler == None
    }

    /** `server_websocket_route_ctor`: methods GET, timeout 360 (the
        source's comment says one hour), no connection. */
    constructor Init(isSubclass: bool)
      ensures fresh(base)
      ensures base.template == None && base.pattern == None && base.casts == None
      ensures base.methods == Bit(GET) && base.handler == None
      ensures timeout == 360 && conn == null && subclass == isSubclass
    {
      var r := new Routes.Route.Init();
      r.methods := Bit(GET);
      base := r;
      subclass := isSubclass;
      timeout := 360;
      conn := null;
    }

    /** `__construct(string $uri)`: a fresh cast table, then the template
        compiled by the same loop as `Route::__construct`, onto the pattern
        the route already has, then the template stored. The mask stays GET
        and no handler is set. */
    method Construct(uri: string) returns (err: Option<ConstructError>)
      modifies base
      ensures base.methods == old(base.methods) && base.handler == old(base.handler)
      ensures CompileOnto(old(base.pattern), uri).Err? ==>
                err == Some(BadTemplate) && base.casts == Some([]) &&
                base.template == old(base.template) && base.pattern == old(base.pattern)
      ensures CompileOnto(old(base.pattern), uri).Ok? ==>
                err == None && base.template == Some(uri) &&
                base.casts == Some(CompileOnto(old(base.pattern), uri).value.casts) &&
                base.pattern == CompileOnto(old(base.pattern), uri).value.pattern
      ensures err == None && old(base.pattern) == None && base.methods == Bit(GET) && base.handler == None ==> Valid()
    {
      base.casts := Some([]);
      var compiled := CompileTemplate(base.pattern, uri);
      if compiled.Err? {
        return Some(BadTemplate);
      }
      CompileOntoPrior(None, uri);
      base.pattern := compiled.value.pattern;
      base.casts := Some(compiled.value.casts);
      base.template := Some(uri);
      err := None;
    }

    /** `setTimeout(int $timeout)`: stored for the next handshake; a
        connection already open keeps its own. */
    method SetTimeout(t: int)
      modifies this
      ensures timeout == t && conn == old(conn)
      ensures old(Valid()) ==> Valid()
    {
      timeout := t;
    }

    /** `close()`: with a recorded connection, queue an empty Close frame
        (reading off, writing on) and answer true; otherwise answer false
        and change nothing. */
    method Close() returns (closed: bool)
      modifies conn
      ensures closed <==> conn != null
      ensures old(Valid()) ==> Valid()
      ensures conn != null ==>
                conn.output == old(conn.output) + [0x88, 0x00] &&
                !conn.readEnabled && conn.writeEnabled &&
                conn.input == old(conn.input) && conn.timeout == old(conn.timeout)
    {
      if conn != null {
        var encoded, outlen := EncodeData(None, 0, false, CloseFrame, NoMask);
        EmptyControlFrames(NoMask);
        conn.Write(encoded);
        return true;
      }
      return false;
    }

    /** `server_websocket_route_handle_request`: decide the handshake; when
        it upgrades, the connection is opened with this route's timeout and
        recorded in `route->arg`. Otherwise the route is unchanged. */
    method HandleRequest(req: Handshake.Request, hook: Handshake.HookOutcome,
                         accept: string -> string, md5: seq<byte> -> Handshake.Digest)
      returns (outcome: Handshake.Outcome)
      modifies this
      ensures outcome == Handshake.Respond(req, subclass, hook, accept, md5)
      ensures timeout == old(timeout)
      ensures outcome.Upgraded? ==>
                conn != null && fresh(conn) && conn.readEnabled && conn.writeEnabled &&
                conn.timeout == timeout && conn.input == req.input && conn.output == []
      ensures !outcome.Upgraded? ==> conn == old(conn)
      ensures old(Valid()) ==> Valid()
    {
      outcome := Handshake.Respond(req, subclass, hook, accept, md5);
      if outcome.Upgraded? {
        conn := new Connection.Open(timeout, req.input);
      }
    }
  }
}

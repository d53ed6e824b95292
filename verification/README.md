# phpcan routes and WebSocket routes, modelled in Dafny

This project models the routing and WebSocket core of the phpcan PHP
extension: `Can\Server\Route` (Server/Route.c) and
`Can\Server\WebSocketRoute` (Server/WebSocketRoute.c).

- **URI template compiler** (`UriTemplate`). A template such as
  `/user/<id:int>` is tokenized into literal characters and `<...>`
  placeholders. Each placeholder becomes a named regular-expression group,
  and typed placeholders add an entry to an ordered name → cast table.
  `Compile` is the specification. `CompileTemplate` is the constructor's
  loop, proved equal to it.
- **HTTP method masks** (`HttpMethods`). There are nine methods, each a
  single bit, and `ALL` is their union. The canonical order of the
  `getMethod` tests gives the `(GET|POST|...)` alternation.
- **Route objects** (`Routes.Route`). A class holding the template, the
  compiled pattern, the cast table, the method mask and the handler. It has
  the zend constructor, `__construct` with its three error paths, `getUri`
  and `getMethod`.
- **Frame codec** (`FrameCodec`). The base framing of RFC 6455 (section
  5.2) and its XOR masking (section 5.3), as written by `encode_data` and
  read by `decode_data`.
  - `Encode` and `Decode` are the specifications.
  - `EncodeData` and `DecodeData` are the buffer-appending loops, proved
    equal to them.
- **Legacy handshake arithmetic** (`Hixie76`). `parse_key` of
  draft-hixie-thewebsocketprotocol-76, section 5.2, with its 64-bit
  wrap-around. Also the 16-byte buffer `gen_sum` hands to MD5.
- **Handshake** (`Handshake`). The guard chain of
  `server_websocket_route_handle_request` as a pure decision:
  - it maps a request to 405 or 400 with the source's error text;
  - or it maps the request to an upgrade: RFC 6455 (`101 Switching
    Protocols`) or legacy (`101 WebSocket Protocol Handshake`), with the
    exact response headers and body.
- **Session** (`WebSocketSession`). The bufferevent is modelled as a
  `Connection` class: two enable flags, the unread input and the queue of
  bytes written.
  - `OnRead` is `websocket_read_cb`, proved equal to the specification
    function `ReadEffectOf`.
  - `OnWrite` is `websocket_write_cb`.
  - `WebSocketRoute` is a class with the route's timeout and its recorded
    connection (`route->arg`). Its methods are `__construct`, `setTimeout`,
    `close` and the handshake.

Foreign primitives are parameters of the model:
- SHA-1 followed by base64, as the function `accept`;
- MD5, as the function `md5`;
- the PHP handler `onMessage`;
- the outcome of `onHandshake`;
- the random frame mask.

The values of `PHP_CAN_SERVER_ROUTE_METHOD_*` and `WS_FRAME_*` are
defined in Server.h, and Server.h is not part of this model. The model
makes two assumptions about them:
- the methods are nine distinct single bits, numbered in libevent's
  `evhttp_cmd_type` order;
- the opcodes are those of RFC 6455, section 5.2: Text 0x1, Binary 0x2,
  Close 0x8, Ping 0x9 and Pong 0xA.

Where the source has undefined behaviour or never returns, the model has
an explicit error value instead:
- a division by zero;
- a read past the end of a buffer;
- a `'<'` with no `'>'` after it, where the constructor's loop starts over
  from the beginning of the template and never ends.

Behaviour is taken from the code wherever it differs from the project's
own description:
- The default WebSocket timeout is 360, as Server/WebSocketRoute.c:39
  sets it, although the comment there and the documentation say one hour.
- A Ping is answered with an empty Pong. Its payload is not echoed.
- A legacy (hixie-76) session is served by the same RFC 6455 frame codec
  as any other session. The eight nonce bytes stay in the connection's
  input.

## Model

| member | source | states |
|---|---|---|
| HttpMethods.Bit | Server/Route.c:158 | every method's bit lies inside `ALL` and is non-zero |
| HttpMethods.BitsDistinct | Server/Route.c:223-259 | two methods' bits share no bit iff the methods differ, so each of the nine tests isolates one method |
| HttpMethods.SetMethodsMembership | Server/Route.c:223-259 | a method is listed by the nine tests iff its bit is set in the mask |
| HttpMethods.SetMethodsOrdered | Server/Route.c:223-259 | the listed methods are in the fixed order GET, POST, HEAD, PUT, DELETE, OPTIONS, TRACE, CONNECT, PATCH |
| HttpMethods.AllTestIffSomeMethod | Server/Route.c:158-166 | `methods & ALL != 0` holds iff at least one of the nine methods is set |
| HttpMethods.GetPostAlternation | Server/Route.c:223-262 | a GET\|POST mask renders as `(GET\|POST)` |
| Routes.TrackedMeaning | Server/Route.c:223-259 | after the first k tests the buffer is NULL iff no tested method is set, else the set ones joined by '\|' with no leading separator |
| Routes.MethodTextMeaning | Server/Route.c:223-262 | `getMethod(true)` is the '\|'-joined alternation in parentheses when a valid bit is set; with none it prints the NULL buffer as `((null))` |
| Routes.AppendIfSet | Server/Route.c:225-228 | one conditional append moves the buffer from the state after k-1 tests to the state after k tests |
| Routes.Route.Init | Server/Route.c:26-44 | a new route has no template, pattern, casts or handler, and mask 0 |
| Routes.Route.Construct | Server/Route.c:77-168 | a non-callable handler raises before any field changes; the handler and an empty cast table are stored; an unclosed '<' is an error; otherwise the template is stored verbatim with the compiler's casts and a pattern compiled onto the route's previous pattern (kept as is when the template has no placeholder); the mask (default GET) is stored unchanged iff `mask & ALL != 0`, else "Unexpected methods" with the mask untouched; success on a route without a pattern yields a valid route |
| Routes.Route.Uri | Server/Route.c:173-200 | `getUri(false)` is the template; `getUri(true)` is absent iff there is no pattern, else the pattern without exactly its first and last character |
| Routes.Route.UriRegexp | Server/Route.c:153-196 | on a constructed route with a pattern, `getUri(true)` is `^` + body + `$` |
| Routes.Route.GetMethod | Server/Route.c:206-266 | `getMethod(false)` is the raw mask; `getMethod(true)` is the nine tests' rendering, which for a valid mask is the alternation of the set methods |
| UriTemplate.CompileTemplate | Server/Route.c:117-153 | the constructor's scanning loop, started on the route's previous pattern, computes exactly `CompileOnto`: same pattern, same cast table, same error |
| UriTemplate.CompileOntoPrior | Server/Route.c:117-153 | compiling onto a previous pattern fails exactly when compiling alone does and gives the same casts; without placeholders the previous pattern is kept; otherwise the new body follows the previous pattern's full text inside fresh delimiters; with no previous pattern it is `Compile` |
| UriTemplate.SinglePlaceholder | Server/Route.c:117-153 | a literal followed by one bare `<name>` compiles to the literal and the group `(?<name>[^/]+)`, delimited, with no cast |
| UriTemplate.SecondConstruct | Server/Route.c:117-153 | constructing twice with one-placeholder templates gives the second body appended to the whole first pattern, delimiters included |
| UriTemplate.SecondConstructExample | Server/Route.c:117-153 | `/a/<x>` then `/b/<y>` give `\x01^` + `\x01^/a/(?<x>[^/]+)$\x01` + `/b/(?<y>[^/]+)` + `$\x01` |
| UriTemplate.CompilePlaceholder | Server/Route.c:123-150 | one placeholder contributes its rendered fragment and its cast-table update |
| UriTemplate.TokenizeRoundTrip | Server/Route.c:119-150 | the literals and `<spec>` placeholders the scan reads concatenate back to the template, and no placeholder contains '>' |
| UriTemplate.TokenizeFailsIff | Server/Route.c:122-123 | scanning fails iff some '<' reached by the scan has no '>' after it |
| UriTemplate.PlaceholderJump | Server/Route.c:119-150 | characters before a '<' are copied one by one; a placeholder ends at the first '>' and scanning resumes just past it |
| UriTemplate.CompileShape | Server/Route.c:117-156 | without both '<' and '>' there is no pattern and no cast; with both, compilation fails iff a '<' is unclosed; a pattern is always `\x01^` + body + `$\x01` |
| UriTemplate.BarePlaceholder | Server/Route.c:146-147 | `<name>` renders `(?<name>[^/]+)` and adds no cast |
| UriTemplate.TypedPlaceholder | Server/Route.c:126-137 | `:int`, `:float` and `:path` render `-?[0-9]+`, `-?[0-9.]+` and `.+?` groups and record Long, Double and Path casts |
| UriTemplate.RegexPlaceholder | Server/Route.c:138-141 | `:re:X` renders `(?<name>X)` with X verbatim and adds no cast |
| UriTemplate.UnrecognisedPlaceholder | Server/Route.c:126-142 | any other filter adds neither pattern text nor a cast |
| UriTemplate.CastTableMeaning | Server/Route.c:126-137 | the cast recorded for a name is that of its last typed placeholder; the table's keys are the typed names in order of first occurrence, none listed twice |
| UriTemplate.UnclosedRestarts | Server/Route.c:122-150 | as written, an iteration at a '<' with no '>' after it leaves the index at 0 |
| UriTemplate.UnclosedLoopsAsWritten | Server/Route.c:117-153 | as written, the template `><` sends the index from 0 to 1 and back to 0, so the loop never ends; `Compile` reports it as malformed |
| UriTemplate.UserIdExample | Server/Route.c:117-153 | `/user/<id:int>` compiles to `\x01^/user/(?<id>-?[0-9]+)$\x01` with the table id → Long |
| UriTemplate.CompileAsWrittenAgrees | Server/Route.c:119-153 | on a template not starting with '<', the code's NULL-prefixed rendering equals `Compile` |
| UriTemplate.LeadingPlaceholderAsWritten | Server/Route.c:146-147 | as written, `<id>` compiles to a pattern starting with `(null)` |
| UriTemplate.LeadingPlaceholderBody | Server/Route.c:146-153 | a template starting with a placeholder compiles to that placeholder's fragment followed by the rest's body, with no `(null)` |
| FrameCodec.FirstByte | Server/WebSocketRoute.c:199-213 | the first byte has FIN set and the RSV bits clear |
| FrameCodec.FirstByteOpcode | Server/WebSocketRoute.c:199-213 | its opcode is the frame type for Text, Binary, Close, Ping and Pong, and Close for any other type |
| FrameCodec.Xor | Server/WebSocketRoute.c:240-244 | masking keeps the length |
| FrameCodec.XorBytes | Server/WebSocketRoute.c:240-244 | masked byte k is `data[k] ^ mask[k % 4]` |
| FrameCodec.XorInvolution | Server/WebSocketRoute.c:161-165 | unmasking a masked payload with the same mask gives the payload back |
| FrameCodec.LengthFieldTiers | Server/WebSocketRoute.c:215-235 | lengths up to 125 take one byte, up to 65535 take 126 plus two big-endian bytes, else 127 plus eight; 128 is added iff masked; each tier's bytes read back as the length |
| FrameCodec.Bytes16RoundTrip | Server/WebSocketRoute.c:219-223 | the two length bytes read back big-endian give the length |
| FrameCodec.Bytes64RoundTrip | Server/WebSocketRoute.c:224-234 | the eight length bytes read back big-endian give the length |
| FrameCodec.MaskOffsetAfterHeader | Server/WebSocketRoute.c:148-159 | `decode_data` skips exactly the 2, 4 or 10 header bytes `encode_data` wrote |
| FrameCodec.DeclaredLengthOfEncode | Server/WebSocketRoute.c:215-235 | the length a frame's header declares is the `len` it was encoded with |
| FrameCodec.DecodeEncodeMasked | Server/WebSocketRoute.c:144-259 | decoding a whole masked frame returns the payload it was encoded from |
| FrameCodec.DecodeAt | Server/WebSocketRoute.c:147-169 | decoding XORs every byte after the mask with the four mask bytes, never consulting the declared length |
| FrameCodec.EmptyControlFrames | Server/WebSocketRoute.c:199-249 | with no data only the header is written: Close is `[0x88, 0]` and Pong is `[0x8A, 0]` |
| FrameCodec.UnmaskedPayload | Server/WebSocketRoute.c:245-248 | an unmasked frame is its header followed by the payload bytes unchanged |
| FrameCodec.EncodeData | Server/WebSocketRoute.c:182-259 | the buffer-appending encoder builds exactly `Encode` and reports its length as `outlen` |
| FrameCodec.AppendLength | Server/WebSocketRoute.c:215-235 | the length step appends the length field and counts it |
| FrameCodec.AppendMasked | Server/WebSocketRoute.c:237-244 | the masking loop appends the masked payload and counts it |
| FrameCodec.DecodeData | Server/WebSocketRoute.c:144-170 | the decoding loop computes exactly `Decode`, with a short buffer as `Truncated` |
| FrameCodec.UnmaskFrom | Server/WebSocketRoute.c:161-165 | the unmasking loop yields the masked tail XORed with the mask |
| FrameCodec.AsWrittenWithoutNul | Server/WebSocketRoute.c:236-248 | the code's strlen-based appends agree with `Encode` when neither the unmasked payload nor the mask holds a NUL byte |
| FrameCodec.EmbeddedNulExample | Server/WebSocketRoute.c:245-248 | as written, a 3-byte text payload `a\0b` loses everything from the NUL; the intended frame has all five bytes |
| Hixie76.DigitValue | Server/WebSocketRoute.c:78-86 | the accumulator stays below 2^64 |
| Hixie76.ParseKey | Server/WebSocketRoute.c:76-88 | a parsed key fits an `unsigned long` |
| Hixie76.ParseKeyLoop | Server/WebSocketRoute.c:76-88 | the counting loop computes exactly `ParseKey` |
| Hixie76.DigitValueMeaning | Server/WebSocketRoute.c:78-86 | the accumulator is the key's digits, in order, read as a decimal number modulo 2^64 |
| Hixie76.SpacesCount | Server/WebSocketRoute.c:80-82 | the space count is the number of ' ' characters in the key |
| Hixie76.ParseKeyFaults | Server/WebSocketRoute.c:87 | the division faults exactly when the key has no space |
| Hixie76.ParseKeyExample | Server/WebSocketRoute.c:76-88 | the key `3 7` parses to 37 |
| Hixie76.ChallengeLayout | Server/WebSocketRoute.c:100-108 | the buffer has 16 bytes: the low 32 bits of k1 big-endian, then those of k2, then the first eight nonce bytes |
| Handshake.FindFrom | Server/WebSocketRoute.c:397 | a header search returns the first index whose name matches case-insensitively, and fails iff none does |
| Handshake.FindHeaderAppend | Server/WebSocketRoute.c:523-562 | looking a name up in two header lists in turn is the first list's answer, or else the second's |
| Handshake.FirstFailure | Server/WebSocketRoute.c:386-445 | the guard found is the first failing one at or after the start, and none is found iff all pass |
| Handshake.ValidateFirstFailure | Server/WebSocketRoute.c:386-445 | the guard chain refuses iff some guard fails, with the code and error text of the first failing one |
| Handshake.MethodNotAllowed | Server/WebSocketRoute.c:386-391 | the handshake is refused with 405 iff the request is not a GET; a GET is only ever refused with 400 |
| Handshake.AcceptedKind | Server/WebSocketRoute.c:412-445 | the RFC 6455 branch is taken iff Sec-WebSocket-Key is present, else both legacy keys are; the version-selected origin header is present and recorded |
| Handshake.WrittenBody | Server/WebSocketRoute.c:585-588 | the body the code writes is at most the 16 digest bytes |
| Handshake.DigestCutAtNul | Server/WebSocketRoute.c:585-588 | the written body is short iff the digest holds a zero byte; without one the whole digest is written |
| Handshake.LegacyBodyDefined | Server/WebSocketRoute.c:98-119 | the legacy digest is defined iff both keys contain a space and at least eight nonce bytes arrived |
| Handshake.RespondRejected | Server/WebSocketRoute.c:444-492 | a failed guard answers its refusal; a subclass hook's HTTPError answers its code (500 if absent) and message ("Unknown" if absent); any other exception answers 500 |
| Handshake.BaseClassIgnoresHook | Server/WebSocketRoute.c:444-447 | outside a subclass, `onHandshake` has no influence on the outcome |
| Handshake.UpgradedExactly | Server/WebSocketRoute.c:444-563 | the connection is upgraded iff the guards pass, the hook did not refuse, and (legacy) the digest is defined |
| Handshake.TailLookups | Server/WebSocketRoute.c:556-563 | every upgrade answers `Upgrade: websocket` and `Connection: Upgrade`, and mirrors Sec-WebSocket-Protocol |
| Handshake.LookupLayers | Server/WebSocketRoute.c:444-563 | headers the hook added win over the route's own, which win over the common tail |
| Handshake.RfcResponse | Server/WebSocketRoute.c:494-578 | an RFC 6455 upgrade is "Switching Protocols" with no body and answers Sec-WebSocket-Accept = accept(key + GUID), Upgrade, Connection and Protocol, unless the hook set them |
| Handshake.LegacyOwnLookups | Server/WebSocketRoute.c:537-546 | the legacy branch adds Sec-WebSocket-Origin (the accepted origin) and Sec-WebSocket-Location (`ws://` + Host + path) and nothing else |
| Handshake.LegacyResponse | Server/WebSocketRoute.c:537-588 | a legacy upgrade is "WebSocket Protocol Handshake" whose body is the MD5 of the challenge buffer of both parsed keys and the nonce, with the Origin, Location and common headers |
| WebSocketSession.ControlReplies | Server/WebSocketRoute.c:274-294 | a Close frame is answered `[0x88, 0]` and a Ping `[0x8A, 0]`, the Ping payload not echoed |
| WebSocketSession.OtherOpcodesIgnored | Server/WebSocketRoute.c:271-348 | any other opcode changes nothing; faults are exactly an empty buffer or a short text or binary frame |
| WebSocketSession.MessageReplies | Server/WebSocketRoute.c:296-347 | a non-empty string reply goes back in one final unmasked text frame declaring its length and carrying its bytes; an empty string or NULL sends nothing; another value or an exception sends an empty Close |
| WebSocketSession.Connection.Open | Server/WebSocketRoute.c:575-595 | after the handshake reading and writing are on, the timeout is set, the nonce and anything else the client sent stay in the input, and nothing has been written |
| WebSocketSession.Connection.Write | Server/WebSocketRoute.c:278-282 | every write turns reading off and writing on, then appends the frame |
| WebSocketSession.Connection.OnRead | Server/WebSocketRoute.c:262-350 | the read callback drains the input and does exactly `ReadEffectOf`: a sent frame is appended with read off and write on, otherwise nothing else changes |
| WebSocketSession.Connection.OnWrite | Server/WebSocketRoute.c:353-357 | the write callback turns writing off and reading on and changes nothing else |
| WebSocketSession.WebSocketRoute.Init | Server/WebSocketRoute.c:26-46 | a new WebSocket route answers GET only, has timeout 360 and no connection |
| WebSocketSession.WebSocketRoute.Construct | Server/WebSocketRoute.c:611-675 | the template is compiled as by `Route::__construct`, onto the route's previous pattern, and stored; an unclosed '<' is an error; the GET mask and the handler are untouched; success on a fresh route yields a valid route |
| WebSocketSession.WebSocketRoute.SetTimeout | Server/WebSocketRoute.c:681-701 | the timeout is stored; the recorded connection is unchanged; a valid route stays valid |
| WebSocketSession.WebSocketRoute.Close | Server/WebSocketRoute.c:728-744 | with a recorded connection, an empty Close frame is queued (read off, write on) and the answer is true; otherwise false and nothing changes; a valid route stays valid |
| WebSocketSession.WebSocketRoute.HandleRequest | Server/WebSocketRoute.c:382-606 | the outcome is the handshake decision; an upgrade records a fresh open connection with the route's timeout and the request's remaining input; otherwise the route is unchanged; a valid route stays valid |

## Left out

- Zend plumbing is not modelled: object destructors, reference counting, class registration, argument parsing and the formatting of exception messages. Exceptions are error values, without their message text.
- `getHandler` and the `onHandshake`, `onMessage` and `onClose` defaults are not modelled. `getHandler` only returns the stored handler, and the three defaults are empty PHP methods.
- The libevent transport is not modelled. The response status line and headers are not serialised into `Connection.output`, which holds only the bytes written after the handshake. `evhttp_request_own` and the close callback are not modelled either.
- `websocket_error_cb` and `on_connection_close` are not modelled. Both only free the connection or call `onClose`. `websocket_error_cb` never clears `route->arg`, so a later `close()` writes to a freed connection; the model cannot express that.
- `get_random` is not modelled. The mask is a parameter of `Encode`, and the session passes a fixed mask because it only writes unmasked frames, which never read their mask.
- SHA-1 with base64 and MD5 are function parameters. A failure of PHP's `hash()` call is not modelled, and neither is the RFC 6455 accept test vector.
- gen_sum's write of `digest[16]`, one byte past its 16-byte array, is not modelled.
- Handshake.Respond: a key without a space, where `parse_key` divides by zero, and a nonce shorter than eight bytes, where `gen_sum` reads past the buffer, are the outcome `Faulted` rather than any HTTP response.
- FrameCodec.Decode: a frame shorter than its header and mask, where `decode_data` reads past the buffer, is `Truncated`; the session reports it as `ReadFaulted(ShortFrame)`, and an empty read as `ReadFaulted(EmptyRead)`.
- UriTemplate.Compile: a `'<'` with no `'>'` after it is `MalformedTemplate`. In the source `y` is FAILURE (-1), the loop restarts at index 0 and never ends while the pattern keeps growing; the model does not run that loop.
- UriTemplate.Compile: templates are taken as if they held no NUL byte, and the model keeps a NUL as an ordinary literal character. The source loops up to `route_len` (Server/Route.c:119) but builds the pattern with `%s`. A literal NUL appended with `%c` (Server/Route.c:121, Server/WebSocketRoute.c:638) ends the C string, so the next `%s` drops it. Inside a placeholder, `%s`, `strlen` and `strcmp` (Server/Route.c:128-147) cut the name and filter at the NUL. For `/<x>` followed by a NUL, the source's pattern is `\x01^/(?<x>[^/]+)$\x01`, while `Compile` keeps the NUL before `$\x01`. The `'<'`/`'>'` searches go through `php_can_strpos`, which is not part of this model.
- Routes.Route.Construct: validity (pattern equal to `Compile` of the template) is promised only when the route had no pattern before; after a second `__construct` the pattern holds the old one as a prefix, as in the source.
- `php_can_substr` with the negative length an unclosed '<' produces is not part of this model.
- WebSocketSession.WebSocketRoute.SetTimeout: the timeout is an unbounded `int`, not a C `long`.
- The WebSocket route's inherited `getUri` and `getMethod` are modelled once, on `Routes.Route`, which the WebSocket route holds as `base`.
- Route matching and the application of the cast table happen outside these files and need a regular-expression engine.
- FrameCodec.EncodeData: `outlen` is an unbounded count, not a `size_t`.
- The payload handed to `onMessage` is cut at its first NUL byte (`RETVAL_STRING` uses strlen), as in the code; the handler's reply and the exception report are inputs of the model.

## Findings

| source | as written | input that shows it | evidently intended | confidence | as-written member | corrected member |
|---|---|---|---|---|---|---|
| Server/WebSocketRoute.c:236-248 | `smart_str_appends` copies the unmasked payload and the mask up to their first NUL byte | a text frame with payload `a\0b`, length 3: the buffer holds only `0x81 0x03 0x61` while `outlen` is 5, so the write sends `0x81 0x03 0x61 0x00` and one byte read past the 4-byte copy | the whole payload (and mask) is written, so the declared length matches the bytes sent | high, not executed | FrameCodec.EmbeddedNulExample | FrameCodec.UnmaskedPayload |
| Server/Route.c:146-147 | a template starting with a placeholder formats the still-NULL pattern with `%s`, which prints `(null)`; `WebSocketRoute::__construct` repeats it at Server/WebSocketRoute.c:646-664 | the template `<id>` compiles to `\x01^(null)(?<id>[^/]+)$\x01` | the pattern starts with the placeholder's group | high, not executed | UriTemplate.LeadingPlaceholderAsWritten | UriTemplate.LeadingPlaceholderBody |
| Server/WebSocketRoute.c:585-588 | the legacy body is written with `strlen`, so the MD5 digest stops at its first zero byte | any handshake whose digest holds a zero byte, e.g. one with 0x00 as its fifth byte | all 16 digest bytes are written | high, not executed | Handshake.DigestCutAtNul | Handshake.LegacyResponse |
| Server/Route.c:122-150 | at a '<' with no '>' after it, `i = y` sets the index to FAILURE (-1) and `i++` brings it back to 0; `WebSocketRoute::__construct` repeats it at Server/WebSocketRoute.c:646-667 | the template `><`: index 0 moves to 1 and index 1 back to 0, forever | the constructor rejects the malformed template | high, not executed | UriTemplate.UnclosedLoopsAsWritten | UriTemplate.TokenizeFailsIff |

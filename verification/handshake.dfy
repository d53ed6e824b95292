/** The WebSocket upgrade decision of `server_websocket_route_handle_request`
    in `WebSocketRoute.c`: six header guards in a fixed order, each with its
    own response code and error text, then the optional `onHandshake` hook
    of a subclass, then the RFC 6455 or the legacy (draft hixie-76)
    response. SHA-1 with base64 and MD5 are parameters: they are calls into
    PHP that this model does not see. */
module Handshake {
  import opened Common
  import opened HttpMethods
  import Hixie76

  /** One request or response header, as libevent keeps them. */
  datatype Header = Header(name: string, value: string)

  /** What the handshake reads of a request: its method (`verb`), its headers in
      arrival order, the path of its URI and the bytes already waiting in
      the connection's input buffer (the legacy nonce). */
  datatype Request = Request(verb: HttpMethod, headers: seq<Header>, path: string, input: seq<byte>)

  /** `response_code` and `error` of a refused request. */
  datatype Rejection = Rejection(code: int, error: string)

  /** The protocol the accepted request asks for, with the key headers it
      was accepted on. */
  datatype Kind = Rfc6455(key: string) | Legacy(key1: string, key2: string)

  datatype Accepted = Accepted(kind: Kind, origin: string)

  /** What the `onHandshake` method of a subclass did: returned (having
      possibly added response headers), threw an `HTTPError` (whose `code`
      and `message` properties may be unset), or threw anything else (the
      formatted "Uncaught exception ..." report is taken as given). */
  datatype HookOutcome =
    | Returned(added: seq<Header>)
    | HttpError(code: Option<int>, message: Option<string>)
    | Raised(report: string)

  /** Where the source has undefined behaviour on the legacy path:
      `parse_key` divides by a zero space count, `gen_sum` reads eight nonce
      bytes that are not there. */
  datatype Fault = KeyWithoutSpaces | ShortNonce

  /** The result of the handshake: a refusal, undefined behaviour, or the
      101 response (reason phrase, response headers in order, body). */
  datatype Outcome =
    | Rejected(code: int, error: string)
    | Faulted(fault: Fault)
    | Upgraded(reason: string, headers: seq<Header>, body: seq<byte>)

  /** An MD5 digest. */
  type Digest = d: seq<byte> | |d| == 16 witness [0, 0, 0, 0, 0, 0, 0, 0, 0, 0, 0, 0, 0, 0, 0, 0]

  /** The key suffix section 1.3 of RFC 6455 fixes for the accept value. */
  const KeyGuid: string := "258EAFA5-E914-47DA-95CA-C5AB0DC85B11"

  // ---------------------------------------------------------------------
  // Header lookup

  /** The first header at or after `from` whose name equals `name` up to
      ASCII case. */
  function FindFrom(hs: seq<Header>, name: string, from: nat): (r: Option<nat>)
    ensures r.Some? ==> from <= r.value < |hs| && EqualsIgnoreCase(hs[r.value].name, name)
    ensures r.Some? ==> forall k :: from <= k < r.value ==> !EqualsIgnoreCase(hs[k].name, name)
    ensures r.None? <==> forall k :: from <= k < |hs| ==> !EqualsIgnoreCase(hs[k].name, name)
    decreases |hs| - from
  {
    if from >= |hs| then None
    else if EqualsIgnoreCase(hs[from].name, name) then Some(from)
    else FindFrom(hs, name, from + 1)
  }

  /** `evhttp_find_header`: the value of the first header of that name,
      compared without regard to case; NULL when there is none. */
  function FindHeader(hs: seq<Header>, name: string): Option<string> {
    match FindFrom(hs, name, 0)
    case None => None
    case Some(k) => Some(hs[k].value)
  }

  function Lookup(req: Request, name: string): Option<string> {
    FindHeader(req.headers, name)
  }

  /** The first of two lookups that finds something. */
  function OrElse(a: Option<string>, b: Option<string>): Option<string> {
    if a.Some? then a else b
  }

  /** Headers appended after others are found only when the earlier ones
      hold no header of that name. */
  lemma FindHeaderAppend(a: seq<Header>, b: seq<Header>, name: string)
    ensures FindHeader(a + b, name) == OrElse(FindHeader(a, name), FindHeader(b, name))
  {
    var ab := a + b;
    var r := FindFrom(ab, name, 0);
    var ra := FindFrom(a, name, 0);
    var rb := FindFrom(b, name, 0);
    if ra.Some? {
      assert ab[ra.value] == a[ra.value];
      assert forall k :: 0 <= k < ra.value ==> ab[k] == a[k];
      assert r == ra;
    } else {
      assert forall k :: 0 <= k < |a| ==> ab[k] == a[k];
      if rb.Some? {
        assert ab[|a| + rb.value] == b[rb.value];
        assert forall k :: |a| <= k < |a| + rb.value ==> ab[k] == b[k - |a|];
        assert r == Some(|a| + rb.value);
      } else {
        assert forall k :: |a| <= k < |ab| ==> ab[k] == b[k - |a|];
        assert r.None?;
      }
    }
  }

  /** A single header is found under its own name in any case. */
  lemma FindSingle(n: string, v: string, name: string)
    ensures FindHeader([Header(n, v)], name) == if EqualsIgnoreCase(n, name) then Some(v) else None
  {
  }

  // ---------------------------------------------------------------------
  // The guard chain

  /** `strcasecmp(Upgrade, "websocket") == 0`. */
  predicate UpgradeOk(req: Request) {
    var h := Lookup(req, "Upgrade");
    h.Some? && EqualsIgnoreCase(h.value, "websocket")
  }

  /** `php_can_strpos(Connection, "Upgrade", 0) != FAILURE`: a
      case-sensitive substring test. */
  predicate ConnectionOk(req: Request) {
    var h := Lookup(req, "Connection");
    h.Some? && Contains(h.value, "Upgrade")
  }

  predicate KeyOk(req: Request) {
    Lookup(req, "Sec-WebSocket-Key").Some? ||
    (Lookup(req, "Sec-WebSocket-Key1").Some? && Lookup(req, "Sec-WebSocket-Key2").Some?)
  }

  /** Only an RFC 6455 request needs a version, and it must be 7, 8 or 13. */
  predicate VersionOk(req: Request) {
    var v := Lookup(req, "Sec-WebSocket-Version");
    Lookup(req, "Sec-WebSocket-Key").None? || (v.Some? && v.value in ["7", "8", "13"])
  }

  /** A request announcing a version other than 13 names its origin in
      `Sec-Websocket-Origin`; any other names it in `Origin`. */
  function OriginName(req: Request): string {
    var v := Lookup(req, "Sec-WebSocket-Version");
    if v.Some? && v.value != "13" then "Sec-Websocket-Origin" else "Origin"
  }

  predicate OriginOk(req: Request) {
    Lookup(req, OriginName(req)).Some?
  }

  /** The number of guards. */
  const Guards: nat := 6

  /** Guard `i` of the chain, in the order the source tests them. */
  predicate Passes(req: Request, i: nat)
    requires i < Guards
  {
    if i == 0 then req.verb == GET
    else if i == 1 then UpgradeOk(req)
    else if i == 2 then ConnectionOk(req)
    else if i == 3 then KeyOk(req)
    else if i == 4 then VersionOk(req)
    else OriginOk(req)
  }

  /** The response code and error text of guard `i`: 405 for the method,
      400 for the others. */
  function Refusal(req: Request, i: nat): (r: Rejection)
    requires i < Guards
    ensures r.code == if i == 0 then 405 else 400
  {
    Rejection(if i == 0 then 405 else 400, RefusalText(req, i))
  }

  function RefusalText(req: Request, i: nat): string
    requires i < Guards
  {
    if i == 0 then "Unsupported WebSocket request method"
    else if i == 1 then
      "Invalid value of the WebSocket Upgrade request header: '" + Shown(Lookup(req, "Upgrade")) + "', expecting 'websocket'"
    else if i == 2 then "Missing \"Upgrade\" in the value of the WebSocket Connection request header"
    else if i == 3 then "Missing Sec-WebSocket-Key request header"
    else if i == 4 then "Missing or unsupported value of the Sec-WebSocket-Version request header"
    else "Missing Origin request header"
  }

  /** The first guard at or after `from` that fails. */
  function FirstFailure(req: Request, from: nat): (r: Option<nat>)
    requires from <= Guards
    ensures r.Some? ==> from <= r.value < Guards && !Passes(req, r.value)
    ensures r.Some? ==> forall j :: from <= j < r.value ==> Passes(req, j)
    ensures r.None? <==> forall j :: from <= j < Guards ==> Passes(req, j)
    decreases Guards - from
  {
    if from == Guards then None
    else if !Passes(req, from) then Some(from)
    else FirstFailure(req, from + 1)
  }

  /** The guards of `server_websocket_route_handle_request`, each returning
      its refusal as soon as it fails; an accepted request carries the
      protocol chosen by the key headers and the origin it named. */
  function Validate(req: Request): Result<Accepted, Rejection> {
    if req.verb != GET then Err(Refusal(req, 0))
    else if !UpgradeOk(req) then Err(Refusal(req, 1))
    else if !ConnectionOk(req) then Err(Refusal(req, 2))
    else if !KeyOk(req) then Err(Refusal(req, 3))
    else if !VersionOk(req) then Err(Refusal(req, 4))
    else if !OriginOk(req) then Err(Refusal(req, 5))
    else
      var key := Lookup(req, "Sec-WebSocket-Key");
      var kind := if key.Some? then Rfc6455(key.value)
                  else Legacy(Lookup(req, "Sec-WebSocket-Key1").value, Lookup(req, "Sec-WebSocket-Key2").value);
      Ok(Accepted(kind, Lookup(req, OriginName(req)).value))
  }

  /** The first failing guard decides the refusal; a request is accepted
      exactly when all six pass. */
  lemma ValidateFirstFailure(req: Request)
    ensures Validate(req).Err? <==> FirstFailure(req, 0).Some?
    ensures Validate(req).Err? ==> Validate(req).error == Refusal(req, FirstFailure(req, 0).value)
  {
    var f := FirstFailure(req, 0);
    if f.Some? {
      var i := f.value;
      assert forall j :: 0 <= j < i ==> Passes(req, j);
      if i >= 1 { assert Passes(req, 0); }
      if i >= 2 { assert Passes(req, 1); }
      if i >= 3 { assert Passes(req, 2); }
      if i >= 4 { assert Passes(req, 3); }
      if i >= 5 { assert Passes(req, 4); }
    } else {
      assert Passes(req, 0) && Passes(req, 1) && Passes(req, 2);
      assert Passes(req, 3) && Passes(req, 4) && Passes(req, 5);
    }
  }

  /** 405 is the answer to a non-GET request and to nothing else the
      guards refuse; every other refusal is a 400. */
  lemma MethodNotAllowed(req: Request)
    ensures Validate(req).Err? && Validate(req).error.code == 405 <==> req.verb != GET
    ensures Validate(req).Err? && req.verb == GET ==> Validate(req).error.code == 400
  {
    ValidateFirstFailure(req);
  }

  /** An accepted request takes the RFC 6455 path exactly when it carries
      `Sec-WebSocket-Key`, and then announces version 7, 8 or 13; otherwise
      it carries both legacy keys. The origin is the value of the header
      its version selects. */
  lemma AcceptedKind(req: Request)
    requires Validate(req).Ok?
    ensures Validate(req).value.kind.Rfc6455? <==> Lookup(req, "Sec-WebSocket-Key").Some?
    ensures Validate(req).value.kind.Rfc6455? ==>
              Lookup(req, "Sec-WebSocket-Version").Some? &&
              Lookup(req, "Sec-WebSocket-Version").value in ["7", "8", "13"]
    ensures Validate(req).value.kind.Legacy? ==>
              Lookup(req, "Sec-WebSocket-Key1") == Some(Validate(req).value.kind.key1) &&
              Lookup(req, "Sec-WebSocket-Key2") == Some(Validate(req).value.kind.key2)
    ensures Lookup(req, OriginName(req)) == Some(Validate(req).value.origin)
  {
  }

  // ---------------------------------------------------------------------
  // The response

  /** The response headers `onHandshake` added, when it ran and returned. */
  function HookHeaders(subclass: bool, hook: HookOutcome): seq<Header> {
    if subclass && hook.Returned? then hook.added else []
  }

  /** `Sec-WebSocket-Protocol` is copied to the response when requested. */
  function Mirrored(req: Request): seq<Header> {
    match Lookup(req, "Sec-WebSocket-Protocol")
    case None => []
    case Some(p) => [Header("Sec-WebSocket-Protocol", p)]
  }

  /** The headers every 101 response ends with. */
  function Tail(req: Request): seq<Header> {
    [Header("Upgrade", "websocket"), Header("Connection", "Upgrade")] + Mirrored(req)
  }

  /** `"ws://%s%s"` of the Host header (printed "(null)" when absent) and
      the request path. */
  function Location(req: Request): string {
    "ws://" + Shown(Lookup(req, "Host")) + req.path
  }

  /** `gen_sum`: the MD5 digest of the challenge built from both keys and
      the first eight bytes of the input buffer, or the fault the source
      runs into on the way. */
  function LegacyBody(key1: string, key2: string, nonce: seq<byte>, md5: seq<byte> -> Digest): Result<Digest, Fault> {
    match (Hixie76.ParseKey(key1), Hixie76.ParseKey(key2))
    case (None, _) => Err(KeyWithoutSpaces)
    case (_, None) => Err(KeyWithoutSpaces)
    case (Some(k1), Some(k2)) =>
      if |nonce| < 8 then Err(ShortNonce) else Ok(md5(Hixie76.Challenge(k1, k2, nonce)))
  }

  /** The body bytes as the source writes them: `evbuffer_add(output,
      body, strlen(body))` stops at the digest's first zero byte. */
  function WrittenBody(digest: Digest): (r: seq<byte>)
    ensures |r| <= 16
  {
    CStr(digest)
  }

  /** The digest reaches the client cut short exactly when it holds a zero
      byte; otherwise all 16 bytes are written. */
  lemma DigestCutAtNul(digest: Digest)
    ensures 0 in digest <==> |WrittenBody(digest)| < 16
    ensures 0 !in digest ==> WrittenBody(digest) == digest
  {
    var w := WrittenBody(digest);
    if |w| < 16 {
      assert digest[|w|] == 0;
    } else {
      assert w == digest[..16] == digest;
    }
  }

  /** `server_websocket_route_handle_request` from the guards to the 101
      response. `subclass` says whether the route object is of a subclass
      of `WebSocketRoute` (only then does `onHandshake` run); `accept` is
      SHA-1 followed by base64. The legacy body is the whole digest. */
  function Respond(req: Request, subclass: bool, hook: HookOutcome,
                   accept: string -> string, md5: seq<byte> -> Digest): Outcome
  {
    match Validate(req)
    case Err(r) => Rejected(r.code, r.error)
    case Ok(a) =>
      if subclass && hook.HttpError? then Rejected(hook.code.GetOr(500), hook.message.GetOr("Unknown"))
      else if subclass && hook.Raised? then Rejected(500, hook.report)
      else Upgrade(req, a, HookHeaders(subclass, hook), accept, md5)
  }

  /** The response of an accepted request whose hook, if any, returned:
      the headers the hook added, the protocol's own, then `Upgrade`,
      `Connection` and the mirrored protocol. */
  function Upgrade(req: Request, a: Accepted, added: seq<Header>,
                   accept: string -> string, md5: seq<byte> -> Digest): Outcome
  {
    var tail := Tail(req);
    match a.kind
    case Rfc6455(key) =>
      Upgraded("Switching Protocols", added + [Header("Sec-WebSocket-Accept", accept(key + KeyGuid))] + tail, [])
    case Legacy(key1, key2) =>
      match LegacyBody(key1, key2, req.input, md5)
      case Err(f) => Faulted(f)
      case Ok(body) =>
        Upgraded("WebSocket Protocol Handshake", added + LegacyOwn(req, a.origin) + tail, body)
  }

  /** `gen_sum` succeeds exactly when both keys hold a space and eight
      nonce bytes are there. */
  lemma LegacyBodyDefined(key1: string, key2: string, nonce: seq<byte>, md5: seq<byte> -> Digest)
    ensures LegacyBody(key1, key2, nonce, md5).Ok? <==> ' ' in key1 && ' ' in key2 && |nonce| >= 8
  {
    Hixie76.ParseKeyFaults(key1);
    Hixie76.ParseKeyFaults(key2);
  }

  /** A refusal by the guards is the response; otherwise the request is
      refused exactly when a subclass hook threw, with the `HTTPError` code
      (500 when unset) or 500. */
  lemma RespondRejected(req: Request, subclass: bool, hook: HookOutcome,
                        accept: string -> string, md5: seq<byte> -> Digest)
    ensures Validate(req).Err? ==>
              Respond(req, subclass, hook, accept, md5) == Rejected(Validate(req).error.code, Validate(req).error.error)
    ensures Respond(req, subclass, hook, accept, md5).Rejected? <==>
              Validate(req).Err? || (subclass && !hook.Returned?)
    ensures Validate(req).Ok? && subclass && hook.HttpError? ==>
              Respond(req, subclass, hook, accept, md5).code == hook.code.GetOr(500)
    ensures Validate(req).Ok? && subclass && hook.Raised? ==>
              Respond(req, subclass, hook, accept, md5).code == 500
  {
  }

  /** The hook of the base class is never consulted. */
  lemma BaseClassIgnoresHook(req: Request, h1: HookOutcome, h2: HookOutcome,
                             accept: string -> string, md5: seq<byte> -> Digest)
    ensures Respond(req, false, h1, accept, md5) == Respond(req, false, h2, accept, md5)
  {
  }

  /** The handshake completes exactly when the guards pass, no hook threw,
      and on the legacy path both keys hold a space and eight nonce bytes
      are waiting; it faults only on the legacy path. */
  lemma UpgradedExactly(req: Request, subclass: bool, hook: HookOutcome,
                        accept: string -> string, md5: seq<byte> -> Digest)
    ensures Respond(req, subclass, hook, accept, md5).Upgraded? <==>
              Validate(req).Ok? && !(subclass && !hook.Returned?) &&
              (Validate(req).value.kind.Legacy? ==>
                 ' ' in Validate(req).value.kind.key1 && ' ' in Validate(req).value.kind.key2 && |req.input| >= 8)
    ensures Respond(req, subclass, hook, accept, md5).Faulted? ==>
              Validate(req).Ok? && Validate(req).value.kind.Legacy?
  {
    var v := Validate(req);
    if v.Ok? && v.value.kind.Legacy? {
      LegacyBodyDefined(v.value.kind.key1, v.value.kind.key2, req.input, md5);
    }
  }

  /** Header names the response uses, told apart without regard to case. */
  lemma DistinctNames()
    ensures !EqualsIgnoreCase("Sec-WebSocket-Accept", "Upgrade") && !EqualsIgnoreCase("Sec-WebSocket-Accept", "Connection")
    ensures !EqualsIgnoreCase("Sec-WebSocket-Accept", "Sec-WebSocket-Protocol")
    ensures !EqualsIgnoreCase("Sec-WebSocket-Origin", "Upgrade") && !EqualsIgnoreCase("Sec-WebSocket-Origin", "Connection")
    ensures !EqualsIgnoreCase("Sec-WebSocket-Origin", "Sec-WebSocket-Protocol")
    ensures !EqualsIgnoreCase("Sec-WebSocket-Origin", "Sec-WebSocket-Location")
    ensures !EqualsIgnoreCase("Sec-WebSocket-Location", "Upgrade") && !EqualsIgnoreCase("Sec-WebSocket-Location", "Connection")
    ensures !EqualsIgnoreCase("Sec-WebSocket-Location", "Sec-WebSocket-Protocol")
    ensures !EqualsIgnoreCase("Upgrade", "Connection") && !EqualsIgnoreCase("Upgrade", "Sec-WebSocket-Protocol")
    ensures !EqualsIgnoreCase("Connection", "Sec-WebSocket-Protocol")
  {
    assert Lower("Sec-WebSocket-Origin"[14]) != Lower("Sec-WebSocket-Accept"[14]);
    assert Lower("Sec-WebSocket-Location"[14]) != Lower("Sec-WebSocket-Protocol"[14]);
  }

  /** What the common tail of a 101 response answers to a lookup. */
  lemma TailLookups(req: Request)
    ensures FindHeader(Tail(req), "Upgrade") == Some("websocket")
    ensures FindHeader(Tail(req), "Connection") == Some("Upgrade")
    ensures FindHeader(Tail(req), "Sec-WebSocket-Protocol") == Lookup(req, "Sec-WebSocket-Protocol")
  {
    DistinctNames();
    var u, c := Header("Upgrade", "websocket"), Header("Connection", "Upgrade");
    assert Tail(req) == [u] + ([c] + Mirrored(req));
    var names := ["Upgrade", "Connection", "Sec-WebSocket-Protocol"];
    forall n | n in names
      ensures FindHeader(Tail(req), n) == OrElse(FindHeader([u], n), OrElse(FindHeader([c], n), FindHeader(Mirrored(req), n)))
    {
      FindHeaderAppend([u], [c] + Mirrored(req), n);
      FindHeaderAppend([c], Mirrored(req), n);
    }
    assert names[0] in names && names[1] in names && names[2] in names;
    FindSingle("Upgrade", "websocket", "Upgrade");
    FindSingle("Upgrade", "websocket", "Sec-WebSocket-Protocol");
    FindSingle("Upgrade", "websocket", "Connection");
    FindSingle("Connection", "Upgrade", "Connection");
    FindSingle("Connection", "Upgrade", "Sec-WebSocket-Protocol");
    var p := Lookup(req, "Sec-WebSocket-Protocol");
    if p.Some? {
      FindSingle("Sec-WebSocket-Protocol", p.value, "Sec-WebSocket-Protocol");
    }
  }

  /** A lookup in a response sees the hook's headers first, then the
      protocol's own, then the common tail. */
  lemma LookupLayers(added: seq<Header>, own: seq<Header>, req: Request, n: string)
    ensures FindHeader(added + own + Tail(req), n) ==
            OrElse(FindHeader(added, n), OrElse(FindHeader(own, n), FindHeader(Tail(req), n)))
  {
    FindHeaderAppend(added + own, Tail(req), n);
    FindHeaderAppend(added, own, n);
  }

  /** A response that upgrades is the one `Upgrade` builds for the
      accepted request and the headers of the hook. */
  lemma RespondIsUpgrade(req: Request, subclass: bool, hook: HookOutcome,
                         accept: string -> string, md5: seq<byte> -> Digest)
    requires Respond(req, subclass, hook, accept, md5).Upgraded?
    ensures Validate(req).Ok?
    ensures Respond(req, subclass, hook, accept, md5) ==
            Upgrade(req, Validate(req).value, HookHeaders(subclass, hook), accept, md5)
  {
  }

  /** The RFC 6455 response: "101 Switching Protocols", no body, and an
      accept header carrying SHA-1 and base64 of the key followed by the
      fixed suffix. `Upgrade: websocket`, `Connection: Upgrade` and the
      requested protocol are found on lookup unless the hook added a header
      of that name first. */
  lemma RfcResponse(req: Request, subclass: bool, hook: HookOutcome,
                    accept: string -> string, md5: seq<byte> -> Digest)
    requires Respond(req, subclass, hook, accept, md5).Upgraded?
    requires Lookup(req, "Sec-WebSocket-Key").Some?
    ensures var r := Respond(req, subclass, hook, accept, md5);
            var added := HookHeaders(subclass, hook);
            r.reason == "Switching Protocols" && r.body == [] &&
            FindHeader(r.headers, "Sec-WebSocket-Accept") ==
              OrElse(FindHeader(added, "Sec-WebSocket-Accept"), Some(accept(Lookup(req, "Sec-WebSocket-Key").value + KeyGuid))) &&
            FindHeader(r.headers, "Upgrade") == OrElse(FindHeader(added, "Upgrade"), Some("websocket")) &&
            FindHeader(r.headers, "Connection") == OrElse(FindHeader(added, "Connection"), Some("Upgrade")) &&
            FindHeader(r.headers, "Sec-WebSocket-Protocol") ==
              OrElse(FindHeader(added, "Sec-WebSocket-Protocol"), Lookup(req, "Sec-WebSocket-Protocol"))
  {
    RespondIsUpgrade(req, subclass, hook, accept, md5);
    AcceptedKind(req);
    var added := HookHeaders(subclass, hook);
    var a := Validate(req).value;
    var x := Header("Sec-WebSocket-Accept", accept(Lookup(req, "Sec-WebSocket-Key").value + KeyGuid));
    var r := Upgrade(req, a, added, accept, md5);
    assert r == Upgraded("Switching Protocols", added + [x] + Tail(req), []);
    DistinctNames();
    TailLookups(req);
    LookupLayers(added, [x], req, "Sec-WebSocket-Accept");
    LookupLayers(added, [x], req, "Upgrade");
    LookupLayers(added, [x], req, "Connection");
    LookupLayers(added, [x], req, "Sec-WebSocket-Protocol");
    FindSingle(x.name, x.value, "Sec-WebSocket-Accept");
    FindSingle(x.name, x.value, "Upgrade");
    FindSingle(x.name, x.value, "Connection");
    FindSingle(x.name, x.value, "Sec-WebSocket-Protocol");
  }

  /** The two headers only the legacy response carries. */
  function LegacyOwn(req: Request, origin: string): seq<Header> {
    [Header("Sec-WebSocket-Origin", origin), Header("Sec-WebSocket-Location", Location(req))]
  }

  /** What the legacy headers answer to a lookup. */
  lemma LegacyOwnLookups(req: Request, origin: string)
    ensures FindHeader(LegacyOwn(req, origin), "Sec-WebSocket-Origin") == Some(origin)
    ensures FindHeader(LegacyOwn(req, origin), "Sec-WebSocket-Location") == Some(Location(req))
    ensures FindHeader(LegacyOwn(req, origin), "Upgrade") == None
    ensures FindHeader(LegacyOwn(req, origin), "Connection") == None
    ensures FindHeader(LegacyOwn(req, origin), "Sec-WebSocket-Protocol") == None
  {
    DistinctNames();
    var o, l := Header("Sec-WebSocket-Origin", origin), Header("Sec-WebSocket-Location", Location(req));
    assert LegacyOwn(req, origin) == [o] + [l];
    FindHeaderAppend([o], [l], "Sec-WebSocket-Origin");
    FindHeaderAppend([o], [l], "Sec-WebSocket-Location");
    FindHeaderAppend([o], [l], "Upgrade");
    FindHeaderAppend([o], [l], "Connection");
    FindHeaderAppend([o], [l], "Sec-WebSocket-Protocol");
    assert EqualsIgnoreCase("Sec-WebSocket-Origin", "Sec-WebSocket-Origin");
    assert EqualsIgnoreCase("Sec-WebSocket-Location", "Sec-WebSocket-Location");
  }

  /** The legacy response: "101 WebSocket Protocol Handshake", the origin
      echoed in `Sec-WebSocket-Origin`, `ws://` + Host + path in
      `Sec-WebSocket-Location`, and as body the MD5 digest of the challenge
      built from both key numbers and the nonce. */
  lemma LegacyResponse(req: Request, subclass: bool, hook: HookOutcome,
                       accept: string -> string, md5: seq<byte> -> Digest)
    requires Respond(req, subclass, hook, accept, md5).Upgraded?
    requires Lookup(req, "Sec-WebSocket-Key").None?
    ensures Lookup(req, "Sec-WebSocket-Key1").Some? && Lookup(req, "Sec-WebSocket-Key2").Some?
    ensures Hixie76.ParseKey(Lookup(req, "Sec-WebSocket-Key1").value).Some?
    ensures Hixie76.ParseKey(Lookup(req, "Sec-WebSocket-Key2").value).Some?
    ensures |req.input| >= 8
    ensures var r := Respond(req, subclass, hook, accept, md5);
            var added := HookHeaders(subclass, hook);
            r.reason == "WebSocket Protocol Handshake" &&
            r.body == md5(Hixie76.Challenge(Hixie76.ParseKey(Lookup(req, "Sec-WebSocket-Key1").value).value,
                                            Hixie76.ParseKey(Lookup(req, "Sec-WebSocket-Key2").value).value, req.input)) &&
            FindHeader(r.headers, "Sec-WebSocket-Origin") ==
              OrElse(FindHeader(added, "Sec-WebSocket-Origin"), Lookup(req, OriginName(req))) &&
            FindHeader(r.headers, "Sec-WebSocket-Location") ==
              OrElse(FindHeader(added, "Sec-WebSocket-Location"), Some("ws://" + Shown(Lookup(req, "Host")) + req.path)) &&
            FindHeader(r.headers, "Upgrade") == OrElse(FindHeader(added, "Upgrade"), Some("websocket")) &&
            FindHeader(r.headers, "Connection") == OrElse(FindHeader(added, "Connection"), Some("Upgrade")) &&
            FindHeader(r.headers, "Sec-WebSocket-Protocol") ==
              OrElse(FindHeader(added, "Sec-WebSocket-Protocol"), Lookup(req, "Sec-WebSocket-Protocol"))
  {
    RespondIsUpgrade(req, subclass, hook, accept, md5);
    AcceptedKind(req);
    var added := HookHeaders(subclass, hook);
    var a := Validate(req).value;
    var key1, key2 := a.kind.key1, a.kind.key2;
    var body := LegacyBody(key1, key2, req.input, md5);
    LegacyBodyDefined(key1, key2, req.input, md5);
    Hixie76.ParseKeyFaults(key1);
    Hixie76.ParseKeyFaults(key2);
    var own := LegacyOwn(req, a.origin);
    var r := Upgrade(req, a, added, accept, md5);
    assert r == Upgraded("WebSocket Protocol Handshake", added + own + Tail(req), body.value);
    TailLookups(req);
    LegacyOwnLookups(req, a.origin);
    LookupLayers(added, own, req, "Sec-WebSocket-Origin");
    LookupLayers(added, own, req, "Sec-WebSocket-Location");
    LookupLayers(added, own, req, "Upgrade");
    LookupLayers(added, own, req, "Connection");
    LookupLayers(added, own, req, "Sec-WebSocket-Protocol");
  }
}

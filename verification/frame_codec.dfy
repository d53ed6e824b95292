/** The WebSocket frame codec of `WebSocketRoute.c`: `encode_data` builds
    one unfragmented frame (FIN bit, opcode, the 7 / 7+16 / 7+64-bit
    payload-length tiers and the optional XOR mask of sections 5.2 and 5.3
    of RFC 6455) and `decode_data` unmasks a client frame. The random mask
    `encode_data` draws is a parameter here. The `WS_FRAME_*` values live in
    Server.h, which is not part of this model; they are taken to be the
    opcodes of section 5.2 of RFC 6455. */
module FrameCodec {
  import opened Common

  const TextFrame: int := 0x1
  const BinaryFrame: int := 0x2
  const CloseFrame: int := 0x8
  const PingFrame: int := 0x9
  const PongFrame: int := 0xA

  /** A `size_t`. */
  type Size = bv64

  datatype FrameError = Truncated   // the buffer ends inside the header or the mask

  predicate Supported(frameType: int) {
    frameType == TextFrame || frameType == BinaryFrame || frameType == CloseFrame ||
    frameType == PingFrame || frameType == PongFrame
  }

  /** Eight bytes, most significant first, as the number they spell. */
  function Join(w7: Size, w6: Size, w5: Size, w4: Size, w3: Size, w2: Size, w1: Size, w0: Size): Size {
    (w7 << 56) | (w6 << 48) | (w5 << 40) | (w4 << 32) | (w3 << 24) | (w2 << 16) | (w1 << 8) | w0
  }

  /** The extended payload length of the 16-bit tier. */
  function Value16(bs: seq<byte>): Size
    requires |bs| == 2
  {
    (bs[0] as Size << 8) | bs[1] as Size
  }

  /** The extended payload length of the 64-bit tier. */
  function Value64(bs: seq<byte>): Size
    requires |bs| == 8
  {
    Join(bs[0] as Size, bs[1] as Size, bs[2] as Size, bs[3] as Size,
         bs[4] as Size, bs[5] as Size, bs[6] as Size, bs[7] as Size)
  }

  /** The two bytes of the 16-bit tier. */
  function Bytes16(len: Size): seq<byte> {
    [Octet(len, 8), Octet(len, 0)]
  }

  /** The eight bytes of the 64-bit tier, most significant first. */
  function Bytes64(len: Size): seq<byte> {
    [Octet(len, 56), Octet(len, 48), Octet(len, 40), Octet(len, 32),
     Octet(len, 24), Octet(len, 16), Octet(len, 8), Octet(len, 0)]
  }

  /** `header`: FIN set, RSV clear, the opcode, or Close for a frame type
      the encoder does not know. */
  function FirstByte(frameType: int): (b: byte)
    ensures b & 0x80 == 0x80 && b & 0x70 == 0
  {
    if frameType == TextFrame then 0x81
    else if frameType == BinaryFrame then 0x82
    else if frameType == PingFrame then 0x89
    else if frameType == PongFrame then 0x8A
    else 0x88
  }

  /** The low four bits of the first byte carry the frame type when the
      encoder supports it, and Close otherwise. */
  lemma FirstByteOpcode(frameType: int)
    ensures Supported(frameType) ==> (FirstByte(frameType) & 0x0F) as int == frameType
    ensures !Supported(frameType) ==> (FirstByte(frameType) & 0x0F) as int == CloseFrame
  {
  }

  /** The payload-length field, 128 added to its first byte iff masked. */
  function LengthField(len: Size, masked: bool): seq<byte> {
    var m: byte := if masked then 128 else 0;
    if len <= 125 then [len as byte + m]
    else if len <= 65535 then [126 + m] + Bytes16(len)
    else [127 + m] + Bytes64(len)
  }

  /** `data[i] ^ mask[i % 4]` for every byte of `data`. */
  function Xor(data: seq<byte>, mask: seq<byte>): (r: seq<byte>)
    requires |mask| == 4
    ensures |r| == |data|
  {
    if data == [] then []
    else Xor(data[..|data| - 1], mask) + [data[|data| - 1] ^ mask[(|data| - 1) % 4]]
  }

  /** The first byte and the length field. */
  function Header(frameType: int, len: Size, masked: bool): seq<byte> {
    [FirstByte(frameType)] + LengthField(len, masked)
  }

  /** What follows the header: nothing for NULL data, the payload as is,
      or the mask followed by the masked payload. */
  function Payload(data: Option<seq<byte>>, masked: bool, mask: seq<byte>): seq<byte>
    requires |mask| == 4
  {
    match data
    case None => []
    case Some(d) => if masked then mask + Xor(d, mask) else d
  }

  /** The frame `encode_data` means to build. */
  function Encode(data: Option<seq<byte>>, len: Size, masked: bool, frameType: int, mask: seq<byte>): seq<byte>
    requires |mask| == 4
  {
    Header(frameType, len, masked) + Payload(data, masked, mask)
  }

  /** Where the mask starts: `pos` after the length field is skipped. */
  function MaskOffset(frame: seq<byte>): nat
    requires |frame| >= 2
  {
    var code := frame[1] & 127;
    if code == 126 then 4 else if code == 127 then 10 else 2
  }

  /** `decode_data`: skip the header, read four mask bytes and unmask every
      byte left in the buffer. The declared payload length is not used. */
  function Decode(frame: seq<byte>): Result<seq<byte>, FrameError> {
    if |frame| < 2 || |frame| < MaskOffset(frame) + 4 then Err(Truncated)
    else
      var pos := MaskOffset(frame);
      Ok(Xor(frame[pos + 4..], frame[pos..pos + 4]))
  }

  /** The payload length the header declares (section 5.2 of RFC 6455). */
  function DeclaredLength(frame: seq<byte>): Size
    requires |frame| >= 2
  {
    var code := frame[1] & 127;
    if code == 126 && |frame| >= 4 then Value16(frame[2..4])
    else if code == 127 && |frame| >= 10 then Value64(frame[2..10])
    else code as Size
  }

  // ---------------------------------------------------------------------
  // The loops

  /** `encode_data`: appends to a buffer byte by byte and counts `outlen`
      (unbounded here; the frame is at most 14 bytes longer than `len`). */
  method EncodeData(data: Option<seq<byte>>, len: Size, masked: bool, frameType: int, mask: seq<byte>)
    returns (frame: seq<byte>, outlen: nat)
    requires |mask| == 4
    requires data.Some? ==> |data.value| == len as int
    ensures frame == Encode(data, len, masked, frameType, mask)
    ensures outlen == |frame|
  {
    outlen := 0;
    var buf: seq<byte> := [];
    var header: byte := 0x80;
    if frameType == TextFrame || frameType == BinaryFrame || frameType == CloseFrame ||
       frameType == PingFrame || frameType == PongFrame {
      header := header | frameType as byte;
    } else {
      header := header | CloseFrame as byte;
    }
    assert header == FirstByte(frameType);
    buf := buf + [header];
    outlen := outlen + 1;
    buf, outlen := AppendLength(buf, outlen, len, masked);
    assert buf == Header(frameType, len, masked);
    if data.Some? {
      var d := data.value;
      if masked {
        buf := buf + mask;
        outlen := outlen + 4;
        buf, outlen := AppendMasked(buf, outlen, d, mask);
        AppendAssoc(Header(frameType, len, masked), mask, Xor(d, mask));
      } else {
        buf := buf + d;
        outlen := outlen + |d|;
      }
    }
    frame := buf;
  }

  /** The length tiers of `encode_data`, appended one byte at a time. */
  method AppendLength(buf: seq<byte>, outlen: nat, len: Size, masked: bool) returns (r: seq<byte>, n: nat)
    requires outlen == |buf|
    ensures r == buf + LengthField(len, masked) && n == |r|
  {
    var maskedInt: byte := if masked then 128 else 0;
    if len <= 125 {
      r := buf + [len as byte + maskedInt];
      n := outlen + 1;
      assert LengthField(len, masked) == [len as byte + maskedInt];
    } else if len <= 65535 {
      r := buf + [126 + maskedInt];
      r := r + [Octet(len, 8), Octet(len, 0)];
      n := outlen + 3;
    } else {
      r := buf + [127 + maskedInt];
      r := r + [Octet(len, 56), Octet(len, 48), Octet(len, 40), Octet(len, 32),
                Octet(len, 24), Octet(len, 16), Octet(len, 8), Octet(len, 0)];
      n := outlen + 9;
    }
  }

  /** The masking `for` loop of `encode_data`. */
  method AppendMasked(buf: seq<byte>, outlen: nat, d: seq<byte>, mask: seq<byte>) returns (r: seq<byte>, n: nat)
    requires |mask| == 4 && outlen == |buf|
    ensures r == buf + Xor(d, mask) && n == |r|
  {
    r, n := buf, outlen;
    var i := 0;
    while i < |d|
      invariant 0 <= i <= |d|
      invariant r == buf + Xor(d[..i], mask)
      invariant n == |r|
    {
      assert d[..i + 1][..i] == d[..i];
      r := r + [d[i] ^ mask[i % 4]];
      n := n + 1;
      i := i + 1;
    }
    assert d[..|d|] == d;
  }

  /** `decode_data`: skip the header, take the mask, unmask the rest. */
  method DecodeData(frame: seq<byte>) returns (r: Result<seq<byte>, FrameError>)
    ensures r == Decode(frame)
  {
    if |frame| < 2 {
      return Err(Truncated);
    }
    var pos := 1;
    var datalength := frame[pos] & 127;
    pos := pos + 1;
    if datalength == 126 {
      pos := 4;
    } else if datalength == 127 {
      pos := 10;
    }
    if |frame| < pos + 4 {
      return Err(Truncated);
    }
    var mask := [frame[pos], frame[pos + 1], frame[pos + 2], frame[pos + 3]];
    assert mask == frame[pos..pos + 4];
    var buf := UnmaskFrom(frame, pos + 4, mask);
    r := Ok(buf);
  }

  /** The `while` loop of `decode_data`: every byte from `start` on, XORed
      with the mask byte its distance from `start` selects. */
  method UnmaskFrom(frame: seq<byte>, start: nat, mask: seq<byte>) returns (buf: seq<byte>)
    requires |mask| == 4 && start <= |frame|
    ensures buf == Xor(frame[start..], mask)
  {
    ghost var rest := frame[start..];
    var i := start;
    var index := 0;
    buf := [];
    while i < |frame|
      invariant start <= i <= |frame| && index == i - start
      invariant buf == Xor(rest[..index], mask)
    {
      assert frame[i] == rest[index];
      assert rest[..index + 1][..index] == rest[..index];
      buf := buf + [frame[i] ^ mask[index % 4]];
      i := i + 1;
      index := index + 1;
    }
    assert rest[..index] == rest;
  }

  // ---------------------------------------------------------------------
  // Properties

  /** Byte `k` of the masked data is byte `k` of the data XORed with mask
      byte `k % 4` (section 5.3 of RFC 6455). */
  lemma {:induction false} XorBytes(data: seq<byte>, mask: seq<byte>)
    requires |mask| == 4
    ensures forall k :: 0 <= k < |data| ==> Xor(data, mask)[k] == data[k] ^ mask[k % 4]
  {
    if data != [] {
      XorBytes(data[..|data| - 1], mask);
    }
  }

  /** Masking twice with the same key gives the data back. */
  lemma XorInvolution(data: seq<byte>, mask: seq<byte>)
    requires |mask| == 4
    ensures Xor(Xor(data, mask), mask) == data
  {
    var once := Xor(data, mask);
    var twice := Xor(once, mask);
    XorBytes(data, mask);
    XorBytes(once, mask);
    forall k | 0 <= k < |data| ensures twice[k] == data[k] {
      assert twice[k] == (data[k] ^ mask[k % 4]) ^ mask[k % 4];
    }
  }

  /** Reading the two bytes of the 16-bit tier back gives the length. */
  lemma Bytes16RoundTrip(len: Size)
    requires len <= 65535
    ensures Value16(Bytes16(len)) == len
  {
    OctetWiden(len, 8);
    OctetWiden(len, 0);
  }

  lemma JoinShifts(len: Size)
    ensures Join((len >> 56) & 0xFF, (len >> 48) & 0xFF, (len >> 40) & 0xFF, (len >> 32) & 0xFF,
                 (len >> 24) & 0xFF, (len >> 16) & 0xFF, (len >> 8) & 0xFF, len & 0xFF) == len
  {
  }

  /** Reading the eight bytes of the 64-bit tier back gives the length. */
  lemma Bytes64RoundTrip(len: Size)
    ensures Value64(Bytes64(len)) == len
  {
    OctetWiden(len, 56); OctetWiden(len, 48); OctetWiden(len, 40); OctetWiden(len, 32);
    OctetWiden(len, 24); OctetWiden(len, 16); OctetWiden(len, 8); OctetWiden(len, 0);
    JoinShifts(len);
  }

  /** The three length tiers: the field is 1, 3 or 9 bytes, its first
      byte is the length, 126 or 127, with the top bit set iff masked, and
      reading the rest of the field back gives the length. */
  lemma LengthFieldTiers(len: Size, masked: bool)
    ensures |LengthField(len, masked)| == (if len <= 125 then 1 else if len <= 65535 then 3 else 9)
    ensures LengthField(len, masked)[0] & 127 ==
            (if len <= 125 then len as byte else if len <= 65535 then 126 else 127)
    ensures LengthField(len, masked)[0] & 128 == (if masked then 128 else 0)
    ensures 125 < len <= 65535 ==> Value16(LengthField(len, masked)[1..]) == len
    ensures 65535 < len ==> Value64(LengthField(len, masked)[1..]) == len
    ensures (LengthField(len, masked)[0] & 127 == 126) == (125 < len <= 65535)
    ensures (LengthField(len, masked)[0] & 127 == 127) == (65535 < len)
  {
    var f := LengthField(len, masked);
    if len <= 125 { SmallLengthCode(len, masked); }
    if 125 < len <= 65535 {
      assert f[1..] == Bytes16(len);
      Bytes16RoundTrip(len);
    } else if len > 65535 {
      assert f[1..] == Bytes64(len);
      Bytes64RoundTrip(len);
    }
  }

  lemma SmallLengthCode(len: Size, masked: bool)
    requires len <= 125
    ensures var m: byte := if masked then 128 else 0; (len as byte + m) & 127 < 126
  {
  }

  /** Decoding starts reading the mask right after the header. */
  lemma MaskOffsetAfterHeader(frameType: int, len: Size, masked: bool, rest: seq<byte>)
    ensures var h := Header(frameType, len, masked);
            |h| == (if len <= 125 then 2 else if len <= 65535 then 4 else 10) &&
            MaskOffset(h + rest) == |h|
  {
    var h := Header(frameType, len, masked);
    LengthFieldTiers(len, masked);
    assert (h + rest)[1] == LengthField(len, masked)[0];
  }

  /** A frame's header declares the payload length it was encoded with. */
  lemma DeclaredLengthOfEncode(data: Option<seq<byte>>, len: Size, masked: bool, frameType: int, mask: seq<byte>)
    requires |mask| == 4
    ensures DeclaredLength(Encode(data, len, masked, frameType, mask)) == len
  {
    var f := Encode(data, len, masked, frameType, mask);
    var lf := LengthField(len, masked);
    LengthFieldTiers(len, masked);
    assert f[1] == lf[0];
    if 125 < len <= 65535 {
      assert f[2..4] == lf[1..];
    } else if len > 65535 {
      assert f[2..10] == lf[1..];
    }
  }

  /** With the whole frame supplied and a fixed mask, decoding a masked
      frame gives back the payload, whatever its type and whatever length
      its header declares. */
  lemma DecodeEncodeMasked(data: seq<byte>, len: Size, frameType: int, mask: seq<byte>)
    requires |mask| == 4
    ensures Decode(Encode(Some(data), len, true, frameType, mask)) == Ok(data)
  {
    var h := Header(frameType, len, true);
    var x := Xor(data, mask);
    var f := h + (mask + x);
    assert f == Encode(Some(data), len, true, frameType, mask);
    assert MaskOffset(f) == |h| && |h| >= 2 by {
      MaskOffsetAfterHeader(frameType, len, true, mask + x);
    }
    assert f[|h|..|h| + 4] == mask && f[|h| + 4..] == x by {
      AppendAssoc(h, mask, x);
      SplitAt(h + mask, x);
      SplitAt(h, mask);
      assert f[|h|..|h| + 4] == (h + mask)[|h|..];
    }
    DecodeAt(f, |h|);
    assert Decode(f) == Ok(Xor(x, mask));
    XorInvolution(data, mask);
  }

  lemma DecodeAt(f: seq<byte>, pos: nat)
    requires |f| >= 2 && MaskOffset(f) == pos && pos + 4 <= |f|
    ensures Decode(f) == Ok(Xor(f[pos + 4..], f[pos..pos + 4]))
  {
  }

  /** The frames the session sends without data: an empty Close frame and
      an empty Pong, two bytes each. */
  lemma EmptyControlFrames(mask: seq<byte>)
    requires |mask| == 4
    ensures Encode(None, 0, false, CloseFrame, mask) == [0x88, 0x00]
    ensures Encode(None, 0, false, PongFrame, mask) == [0x8A, 0x00]
  {
  }

  /** An unmasked frame carries the payload after a 2, 4 or 10-byte
      header, byte for byte. */
  lemma UnmaskedPayload(data: seq<byte>, len: Size, frameType: int, mask: seq<byte>)
    requires |mask| == 4
    ensures var f := Encode(Some(data), len, false, frameType, mask);
            var h := if len <= 125 then 2 else if len <= 65535 then 4 else 10;
            |f| == h + |data| && f[h..] == data && f[0] == FirstByte(frameType)
  {
    LengthFieldTiers(len, false);
  }

  // ---------------------------------------------------------------------
  // encode_data as written: smart_str_appends stops at the first NUL

  /** `encode_data` exactly as written: the mask and the unmasked payload
      are appended with `smart_str_appends`, which copies up to the first
      NUL byte, while `outlen` still counts all of them. */
  function EncodeAsWritten(data: Option<seq<byte>>, len: Size, masked: bool, frameType: int, mask: seq<byte>): seq<byte>
    requires |mask| == 4
  {
    [FirstByte(frameType)] + LengthField(len, masked) +
    match data
    case None => []
    case Some(d) => if masked then CStr(mask) + Xor(d, mask) else CStr(d)
  }

  /** Without NUL bytes in the payload and the mask, the frame as written
      is the intended one. */
  lemma AsWrittenWithoutNul(data: Option<seq<byte>>, len: Size, masked: bool, frameType: int, mask: seq<byte>)
    requires |mask| == 4
    requires masked ==> 0 !in mask
    requires data.Some? && !masked ==> 0 !in data.value
    ensures EncodeAsWritten(data, len, masked, frameType, mask) == Encode(data, len, masked, frameType, mask)
  {
  }

  /** The reply "a\0b": the frame as written is three bytes long while
      `outlen` (the intended frame length) is five. The copy handed to the
      write holds those three bytes and a terminating NUL, so the five-byte
      write sends 0x81 0x03 0x61 0x00 and one byte from past its end. */
  lemma EmbeddedNulExample(mask: seq<byte>)
    requires |mask| == 4
    ensures EncodeAsWritten(Some([0x61, 0x00, 0x62]), 3, false, TextFrame, mask) == [0x81, 0x03, 0x61]
    ensures |Encode(Some([0x61, 0x00, 0x62]), 3, false, TextFrame, mask)| == 5
  {
    var d: seq<byte> := [0x61, 0x00, 0x62];
    assert CStr(d) == [0x61] by {
      assert CStr(d[1..]) == [];
    }
  }
}

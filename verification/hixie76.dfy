/** The legacy (draft hixie-76) handshake arithmetic of `WebSocketRoute.c`:
    `parse_key` turns a `Sec-WebSocket-Key1`/`Key2` header into a number
    (its decimal digits read as one number, in an `unsigned long` that
    wraps, divided by its count of spaces) and `gen_sum` lays two such
    numbers and the eight-byte nonce out as the 16 bytes the MD5 digest is
    taken of. MD5 itself is a parameter of the handshake model. */
module Hixie76 {
  import opened Common

  /** 2^64: an `unsigned long` wraps modulo this. */
  const Word: nat := 0x1_0000_0000_0000_0000

  predicate IsDigit(c: char) {
    '0' <= c <= '9'
  }

  /** The number of spaces in a key, counted left to right. */
  function Spaces(key: string): nat {
    if key == [] then 0
    else Spaces(key[..|key| - 1]) + (if key[|key| - 1] == ' ' then 1 else 0)
  }

  /** `num = num * 10 + (key[i] - 48)` over the digits, in 64 bits. */
  function DigitValue(key: string): (r: nat)
    ensures r < Word
  {
    if key == [] then 0
    else
      var c := key[|key| - 1];
      var acc := DigitValue(key[..|key| - 1]);
      if IsDigit(c) then (acc * 10 + (c as int - '0' as int)) % Word else acc
  }

  /** `parse_key`: `None` when the key holds no space, where the source
      divides by zero. */
  function ParseKey(key: string): (r: Option<nat>)
    ensures r.Some? ==> r.value < Word
  {
    if Spaces(key) == 0 then None else Some(DigitValue(key) / Spaces(key))
  }

  /** `parse_key`'s loop over the characters of the key. */
  method ParseKeyLoop(key: string) returns (r: Option<nat>)
    ensures r == ParseKey(key)
  {
    var i := 0;
    var spaces := 0;
    var num := 0;
    while i < |key|
      invariant 0 <= i <= |key|
      invariant spaces == Spaces(key[..i]) && num == DigitValue(key[..i])
    {
      assert key[..i + 1][..i] == key[..i];
      if key[i] == ' ' {
        spaces := spaces + 1;
      }
      if key[i] >= 48 as char && key[i] <= 57 as char {
        num := (num * 10 + (key[i] as int - 48)) % Word;
      }
      i := i + 1;
    }
    assert key[..i] == key;
    if spaces == 0 {
      return None;
    }
    r := Some(num / spaces);
  }

  // ---------------------------------------------------------------------
  // Independent definitions of the two counts

  /** The digits of a key, in order. */
  function Digits(key: string): (ds: string)
    ensures forall k :: 0 <= k < |ds| ==> IsDigit(ds[k])
  {
    if key == [] then []
    else Digits(key[..|key| - 1]) + (if IsDigit(key[|key| - 1]) then [key[|key| - 1]] else [])
  }

  /** A string of digits read as a decimal number, without any bound. */
  function Decimal(ds: string): nat {
    if ds == [] then 0
    else Decimal(ds[..|ds| - 1]) * 10 + (if IsDigit(ds[|ds| - 1]) then ds[|ds| - 1] as int - '0' as int else 0)
  }

  /** The spaces counted are the occurrences of ' ' in the key. */
  lemma {:induction false} SpacesCount(key: string)
    ensures Spaces(key) == multiset(key)[' ']
  {
    if key != [] {
      var init := key[..|key| - 1];
      SpacesCount(init);
      assert key == init + [key[|key| - 1]];
      assert multiset(key) == multiset(init) + multiset{key[|key| - 1]};
    }
  }

  /** Reducing the accumulator before the next step does not change the
      wrapped result. */
  lemma ModStep(a: nat, d: nat)
    ensures ((a % Word) * 10 + d) % Word == (a * 10 + d) % Word
  {
    var q, r := a / Word, a % Word;
    assert a == q * Word + r;
    assert a * 10 + d == (r * 10 + d) + (q * 10) * Word;
    ModAddMultiple(r * 10 + d, q * 10);
  }

  lemma ModAddMultiple(x: nat, m: nat)
    ensures (x + m * Word) % Word == x % Word
  {
    var y := x + m * Word;
    var qx, rx := x / Word, x % Word;
    assert y == (qx + m) * Word + rx;
    assert 0 <= rx < Word;
  }

  /** The wrapping accumulator holds the key's digits, read as a decimal
      number, modulo 2^64. */
  lemma {:induction false} DigitValueMeaning(key: string)
    ensures DigitValue(key) == Decimal(Digits(key)) % Word
  {
    if key != [] {
      var init := key[..|key| - 1];
      var c := key[|key| - 1];
      DigitValueMeaning(init);
      if IsDigit(c) {
        var ds := Digits(init) + [c];
        assert Digits(key) == ds;
        assert ds[..|ds| - 1] == Digits(init);
        ModStep(Decimal(Digits(init)), c as int - '0' as int);
      } else {
        assert Digits(key) == Digits(init);
      }
    }
  }

  /** `parse_key` faults exactly when the key has no space. */
  lemma ParseKeyFaults(key: string)
    ensures ParseKey(key).None? <==> ' ' !in key
  {
    SpacesCount(key);
    if ' ' in key {
      assert ' ' in multiset(key);
    }
  }

  /** A small key: "3 7" has the digits 37 and one space. */
  lemma ParseKeyExample()
    ensures ParseKey("3 7") == Some(37)
  {
    assert "3 7"[..2] == "3 ";
    assert "3 "[..1] == "3";
    assert "3"[..0] == "";
  }

  // ---------------------------------------------------------------------
  // gen_sum's buffer

  /** The 16 bytes `gen_sum` hands to MD5: each key number as the four
      bytes `k >> 24`, `k >> 16`, `k >> 8`, `k` of an `unsigned long`, then
      the first eight nonce bytes. */
  function Challenge(k1: nat, k2: nat, key3: seq<byte>): seq<byte>
    requires k1 < Word && k2 < Word && |key3| >= 8
  {
    var w1, w2 := k1 as bv64, k2 as bv64;
    [Octet(w1, 24), Octet(w1, 16), Octet(w1, 8), Octet(w1, 0),
     Octet(w2, 24), Octet(w2, 16), Octet(w2, 8), Octet(w2, 0)] + key3[..8]
  }

  /** Four bytes read as a big-endian 32-bit number. */
  function Be32(bs: seq<byte>): bv32
    requires |bs| == 4
  {
    (bs[0] as bv32 << 24) | (bs[1] as bv32 << 16) | (bs[2] as bv32 << 8) | bs[3] as bv32
  }

  /** The low 32 bits of a 64-bit word. */
  function Low32(w: bv64): bv32 {
    (w & 0xFFFF_FFFF) as bv32
  }

  lemma Be32Octets(w: bv64)
    ensures Be32([Octet(w, 24), Octet(w, 16), Octet(w, 8), Octet(w, 0)]) == Low32(w)
  {
    OctetWiden(w, 24);
    OctetWiden(w, 16);
    OctetWiden(w, 8);
    OctetWiden(w, 0);
  }

  /** Each key number's four bytes, read back big-endian, are its low 32
      bits; the nonce bytes follow unchanged. */
  lemma ChallengeLayout(k1: nat, k2: nat, key3: seq<byte>)
    requires k1 < Word && k2 < Word && |key3| >= 8
    ensures |Challenge(k1, k2, key3)| == 16
    ensures Be32(Challenge(k1, k2, key3)[..4]) == Low32(k1 as bv64)
    ensures Be32(Challenge(k1, k2, key3)[4..8]) == Low32(k2 as bv64)
    ensures Challenge(k1, k2, key3)[8..] == key3[..8]
  {
    var c := Challenge(k1, k2, key3);
    var w1, w2 := k1 as bv64, k2 as bv64;
    assert c[..4] == [Octet(w1, 24), Octet(w1, 16), Octet(w1, 8), Octet(w1, 0)];
    assert c[4..8] == [Octet(w2, 24), Octet(w2, 16), Octet(w2, 8), Octet(w2, 0)];
    Be32Octets(w1);
    Be32Octets(w2);
  }
}

/** Shared vocabulary: optional values, results, bytes and the handful of
    C string routines the extension leans on (strpos, strcasecmp, strlen). */
module Common {

  datatype Option<+T> = None | Some(value: T) {
    function GetOr(default: T): T {
      match this
      case Some(v) => v
      case None => default
    }
  }

  datatype Result<+T, +E> = Ok(value: T) | Err(error: E)

  /** One octet on the wire. */
  type byte = bv8

  /** `(char)(w >> shift)`: one byte of a 64-bit word (`size_t`,
      `unsigned long`). */
  function Octet(w: bv64, shift: bv64): byte
    requires shift < 64
  {
    ((w >> shift) & 0xFF) as byte
  }

  lemma OctetWiden(w: bv64, shift: bv64)
    requires shift < 64
    ensures Octet(w, shift) as bv64 == (w >> shift) & 0xFF
  {
  }

  /** First index of `c` in `s` at or after `from`: the model of
      `php_can_strpos` with a one-character needle. */
  function IndexOf(s: string, c: char, from: nat): (r: Option<nat>)
    ensures r.Some? ==> from <= r.value < |s| && s[r.value] == c
    ensures r.Some? ==> forall k :: from <= k < r.value ==> s[k] != c
    ensures r.None? <==> forall k :: from <= k < |s| ==> s[k] != c
    decreases |s| - from
  {
    if from >= |s| then None
    else if s[from] == c then Some(from)
    else IndexOf(s, c, from + 1)
  }

  predicate StartsWith(s: string, prefix: string) {
    |prefix| <= |s| && s[..|prefix|] == prefix
  }

  predicate OccursAt(s: string, sub: string, k: int) {
    0 <= k && k + |sub| <= |s| && s[k..k + |sub|] == sub
  }

  /** `sub` occurs somewhere in `s` (strpos does not return FAILURE). */
  predicate Contains(s: string, sub: string) {
    exists k :: 0 <= k <= |s| - |sub| && OccursAt(s, sub, k)
  }

  /** How `spprintf`'s `%s` prints a possibly NULL C string: NULL prints
      as "(null)". */
  function Shown(s: Option<string>): string {
    match s
    case None => "(null)"
    case Some(r) => r
  }

  /** ASCII lower-casing, the folding `strcasecmp` applies. */
  function Lower(c: char): char {
    if 'A' <= c <= 'Z' then (c as int + 32) as char else c
  }

  predicate EqualsIgnoreCase(a: string, b: string) {
    |a| == |b| && forall k :: 0 <= k < |a| ==> Lower(a[k]) == Lower(b[k])
  }

  /** What a C string routine sees of a byte buffer: everything before the
      first NUL byte. */
  function CStr(s: seq<byte>): (r: seq<byte>)
    ensures |r| <= |s| && r == s[..|r|]
    ensures 0 !in r
    ensures |r| < |s| ==> s[|r|] == 0
  {
    if s == [] || s[0] == 0 then [] else [s[0]] + CStr(s[1..])
  }

  lemma AppendAssoc<T>(a: seq<T>, b: seq<T>, c: seq<T>)
    ensures (a + b) + c == a + (b + c)
  {
  }

  /** Slicing a concatenation at the seam gives the two parts back. */
  lemma SplitAt<T>(a: seq<T>, b: seq<T>)
    ensures (a + b)[..|a|] == a && (a + b)[|a|..] == b
  {
  }
}

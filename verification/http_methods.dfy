/** The HTTP method mask a route carries and its textual rendering.
    The nine methods are single bits in libevent's request-type order; the
    values themselves live in Server.h, which is not part of this model. */
module HttpMethods {

  /** A C `long` holding method bits. */
  type Mask = bv64

  datatype HttpMethod = GET | POST | HEAD | PUT | DELETE | OPTIONS | TRACE | CONNECT | PATCH

  /** The fixed order in which `getMethod` tests the bits. */
  const Canonical: seq<HttpMethod> := [GET, POST, HEAD, PUT, DELETE, OPTIONS, TRACE, CONNECT, PATCH]

  /** `PHP_CAN_SERVER_ROUTE_METHOD_ALL`: the union of the nine bits. */
  const ALL: Mask := 0x1FF

  function Rank(m: HttpMethod): (r: nat)
    ensures r < |Canonical| && Canonical[r] == m
  {
    match m
    case GET => 0
    case POST => 1
    case HEAD => 2
    case PUT => 3
    case DELETE => 4
    case OPTIONS => 5
    case TRACE => 6
    case CONNECT => 7
    case PATCH => 8
  }

  /** `PHP_CAN_SERVER_ROUTE_METHOD_*`: one distinct bit per method, inside ALL. */
  function Bit(m: HttpMethod): (b: Mask)
    ensures b & ALL == b && b != 0
  {
    match m
    case GET => 0x001
    case POST => 0x002
    case HEAD => 0x004
    case PUT => 0x008
    case DELETE => 0x010
    case OPTIONS => 0x020
    case TRACE => 0x040
    case CONNECT => 0x080
    case PATCH => 0x100
  }

  /** Distinct methods have disjoint bits, so a mask holds any set of them. */
  lemma BitsDistinct(m: HttpMethod, m': HttpMethod)
    ensures m != m' <==> Bit(m) & Bit(m') == 0
  {
  }

  function Name(m: HttpMethod): string {
    match m
    case GET => "GET"
    case POST => "POST"
    case HEAD => "HEAD"
    case PUT => "PUT"
    case DELETE => "DELETE"
    case OPTIONS => "OPTIONS"
    case TRACE => "TRACE"
    case CONNECT => "CONNECT"
    case PATCH => "PATCH"
  }

  predicate IsSet(mask: Mask, m: HttpMethod) {
    mask & Bit(m) != 0
  }

  /** The methods among the first `k` canonical ones whose bit is set in
      `mask`, in canonical order. */
  function SetMethodsUpTo(mask: Mask, k: nat): seq<HttpMethod>
    requires k <= |Canonical|
  {
    if k == 0 then []
    else SetMethodsUpTo(mask, k - 1) + (if IsSet(mask, Canonical[k - 1]) then [Canonical[k - 1]] else [])
  }

  function SetMethods(mask: Mask): seq<HttpMethod> {
    SetMethodsUpTo(mask, |Canonical|)
  }

  /** Method names joined by '|', no leading or trailing separator. */
  function Joined(ms: seq<HttpMethod>): string {
    if ms == [] then ""
    else if |ms| == 1 then Name(ms[0])
    else Joined(ms[..|ms| - 1]) + "|" + Name(ms[|ms| - 1])
  }

  /** What `getMethod(true)` returns. */
  function Alternation(mask: Mask): string {
    "(" + Joined(SetMethods(mask)) + ")"
  }

  lemma {:induction false} SetMethodsUpToMembership(mask: Mask, k: nat, m: HttpMethod)
    requires k <= |Canonical|
    ensures m in SetMethodsUpTo(mask, k) <==> Rank(m) < k && IsSet(mask, m)
  {
    if k > 0 {
      SetMethodsUpToMembership(mask, k - 1, m);
      var c := Canonical[k - 1];
      var prev := SetMethodsUpTo(mask, k - 1);
      var add := if IsSet(mask, c) then [c] else [];
      assert SetMethodsUpTo(mask, k) == prev + add;
      assert m in prev + add <==> m in prev || m in add;
      RankOfCanonical(k - 1);
      assert m == c <==> Rank(m) == k - 1;
    }
  }

  /** The canonical order lists each method at its rank. */
  lemma RankOfCanonical(i: nat)
    requires i < |Canonical|
    ensures Rank(Canonical[i]) == i
  {
    if i == 0 {} else if i == 1 {} else if i == 2 {} else if i == 3 {}
    else if i == 4 {} else if i == 5 {} else if i == 6 {} else if i == 7 {} else {}
  }

  /** A method appears in the rendering exactly when its bit is set. */
  lemma SetMethodsMembership(mask: Mask, m: HttpMethod)
    ensures m in SetMethods(mask) <==> IsSet(mask, m)
  {
    SetMethodsUpToMembership(mask, |Canonical|, m);
  }

  lemma {:induction false} SetMethodsUpToOrdered(mask: Mask, k: nat)
    requires k <= |Canonical|
    ensures forall i, j :: 0 <= i < j < |SetMethodsUpTo(mask, k)| ==>
              Rank(SetMethodsUpTo(mask, k)[i]) < Rank(SetMethodsUpTo(mask, k)[j])
    ensures forall i :: 0 <= i < |SetMethodsUpTo(mask, k)| ==> Rank(SetMethodsUpTo(mask, k)[i]) < k
  {
    if k > 0 {
      SetMethodsUpToOrdered(mask, k - 1);
    }
  }

  /** The rendering follows the canonical order GET, POST, HEAD, PUT,
      DELETE, OPTIONS, TRACE, CONNECT, PATCH, whatever order the caller
      combined the bits in. */
  lemma SetMethodsOrdered(mask: Mask)
    ensures forall i, j :: 0 <= i < j < |SetMethods(mask)| ==>
              Rank(SetMethods(mask)[i]) < Rank(SetMethods(mask)[j])
  {
    SetMethodsUpToOrdered(mask, |Canonical|);
  }

  /** The constructor's `methods & METHOD_ALL` test holds exactly when
      `getMethod(true)` has at least one name to print. */
  lemma AllTestIffSomeMethod(mask: Mask)
    ensures mask & ALL != 0 <==> SetMethods(mask) != []
  {
    if SetMethods(mask) == [] {
      forall m: HttpMethod ensures !IsSet(mask, m) {
        SetMethodsMembership(mask, m);
      }
      assert !IsSet(mask, GET) && !IsSet(mask, POST) && !IsSet(mask, HEAD);
      assert !IsSet(mask, PUT) && !IsSet(mask, DELETE) && !IsSet(mask, OPTIONS);
      assert !IsSet(mask, TRACE) && !IsSet(mask, CONNECT) && !IsSet(mask, PATCH);
    } else {
      var m := SetMethods(mask)[0];
      SetMethodsMembership(mask, m);
      assert IsSet(mask, m);
    }
  }

  /** GET|POST renders as "(GET|POST)". */
  lemma GetPostAlternation()
    ensures Alternation(Bit(POST) | Bit(GET)) == "(GET|POST)"
  {
    var mask := Bit(POST) | Bit(GET);
    assert IsSet(mask, GET) && IsSet(mask, POST);
    assert !IsSet(mask, HEAD) && !IsSet(mask, PUT) && !IsSet(mask, DELETE);
    assert !IsSet(mask, OPTIONS) && !IsSet(mask, TRACE) && !IsSet(mask, CONNECT) && !IsSet(mask, PATCH);
    assert SetMethodsUpTo(mask, 2) == [GET, POST];
    assert SetMethodsUpTo(mask, 3) == [GET, POST];
    assert SetMethodsUpTo(mask, 4) == [GET, POST];
    assert SetMethodsUpTo(mask, 5) == [GET, POST];
    assert SetMethodsUpTo(mask, 6) == [GET, POST];
    assert SetMethodsUpTo(mask, 7) == [GET, POST];
    assert SetMethodsUpTo(mask, 8) == [GET, POST];
    assert SetMethods(mask) == [GET, POST];
  }
}

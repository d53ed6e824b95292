/** `Can\Server\Route`: a URI template compiled to a pattern and a cast
    table, the HTTP methods the route answers and its handler. */
module Routes {
  import opened Common
  import opened HttpMethods
  import opened UriTemplate

  /** The PHP callable a route dispatches to; only its identity matters. */
  type Handler = nat

  /** How `__construct` fails: the two exceptions it raises, and the error
      value the model gives where it would loop forever. */
  datatype ConstructError =
    | InvalidCallback     // InvalidCallbackException: the handler is not callable
    | BadTemplate         // a '<' with no '>' after it, where the loop never ends
    | UnexpectedMethods   // InvalidParametersException "Unexpected methods"

  /** What `getMethod` returns: the raw mask, or the rendered alternation. */
  datatype MethodValue = MaskValue(mask: Mask) | Names(text: string)

  /** `spprintf("%s%s%s", ...)` inside `getMethod`: the first name starts
      the buffer, later ones are appended after a '|'. */
  function Push(acc: Option<string>, name: string): (r: Option<string>)
    ensures r.Some?
  {
    match acc
    case None => Some(name)
    case Some(s) => Some(s + "|" + name)
  }

  /** The buffer after the first `k` of the nine bit tests of
      `getMethod`, in canonical order: NULL while no bit has matched. */
  function Tracked(mask: Mask, k: nat): Option<string>
    requires k <= |Canonical|
  {
    if k == 0 then None
    else
      var m := Canonical[k - 1];
      if IsSet(mask, m) then Push(Tracked(mask, k - 1), Name(m)) else Tracked(mask, k - 1)
  }

  /** What `getMethod(true)` prints: the buffer in parentheses, a NULL
      buffer as "(null)". */
  function MethodText(mask: Mask): string {
    "(" + Shown(Tracked(mask, |Canonical|)) + ")"
  }

  /** The buffer holds the set methods among the first `k`, joined by '|',
      and is NULL exactly when there are none. */
  lemma {:induction false} TrackedMeaning(mask: Mask, k: nat)
    requires k <= |Canonical|
    ensures Tracked(mask, k) ==
            if SetMethodsUpTo(mask, k) == [] then None else Some(Joined(SetMethodsUpTo(mask, k)))
  {
    if k > 0 {
      TrackedMeaning(mask, k - 1);
      var prev := SetMethodsUpTo(mask, k - 1);
      var m := Canonical[k - 1];
      if IsSet(mask, m) {
        var cur := prev + [m];
        assert SetMethodsUpTo(mask, k) == cur;
        assert cur[..|cur| - 1] == prev && cur[|cur| - 1] == m;
        if prev == [] {
          assert Joined(cur) == Name(m);
        } else {
          assert Joined(cur) == Joined(prev) + "|" + Name(m);
        }
      } else {
        assert SetMethodsUpTo(mask, k) == prev + [];
        assert prev + [] == prev;
      }
    }
  }

  /** With at least one valid bit set, `getMethod(true)` is the
      alternation of the set methods in canonical order; with none it
      prints the NULL buffer. */
  lemma MethodTextMeaning(mask: Mask)
    ensures mask & ALL != 0 ==> MethodText(mask) == Alternation(mask)
    ensures mask & ALL == 0 ==> MethodText(mask) == "((null))"
  {
    AllTestIffSomeMethod(mask);
    TrackedMeaning(mask, |Canonical|);
  }

  /** The `k`-th of the nine tests of `getMethod(true)`: when the bit of
      the `k`-th method in canonical order is set, append its name. */
  method AppendIfSet(acc: Option<string>, mask: Mask, k: nat) returns (r: Option<string>)
    requires 1 <= k <= |Canonical| && acc == Tracked(mask, k - 1)
    ensures r == Tracked(mask, k)
  {
    var m := Canonical[k - 1];
    r := acc;
    if IsSet(mask, m) {
      r := Push(acc, Name(m));
    }
  }

  class Route {
    /** `route->route`: the template as given, NULL until constructed. */
    var template: Option<string>
    /** `route->regexp`: the compiled pattern, NULL when the template has
        no placeholder. */
    var pattern: Option<string>
    /** `route->casts`: the name -> cast table, NULL until constructed. */
    var casts: Option<CastTable>
    /** `route->methods`: 0 until a valid mask is stored. */
    var methods: Mask
    /** `route->handler`. */
    var handler: Option<Handler>

    /** A route whose constructor completed: the pattern and the cast table
        are the compiler's output for the stored template, the mask names at
        least one method and the handler is set. */
    predicate Valid()
      reads this
    {
      template.Some? && casts.Some? && handler.Some? &&
      Compile(template.value) == Ok(Compiled(pattern, casts.value)) &&
      methods & ALL != 0
    }

    /** The object handler `server_route_ctor`: everything NULL, mask 0. */
    constructor Init()
      ensures template == None && pattern == None && casts == None
      ensures methods == 0 && handler == None
    {
      template, pattern, casts, methods, handler := None, None, None, 0, None;
    }

    /** `__construct(string $route, mixed $handler[, int $methods = METHOD_GET])`.
        The callable check comes first and leaves the object untouched; the
        handler and a fresh cast table are stored before the template is
        compiled; the template is stored before the mask is checked, so an
        invalid mask leaves a compiled route with mask unchanged. The
        pattern buffer is not reset: the compiler appends to the pattern
        the route already has (`CompileOnto`). */
    method Construct(route: string, h: Handler, callable: bool, methodsArg: Option<Mask>)
      returns (err: Option<ConstructError>)
      modifies this
      ensures !callable ==> err == Some(InvalidCallback) && unchanged(this)
      ensures callable ==> handler == Some(h)
      ensures callable && CompileOnto(old(pattern), route).Err? ==>
                err == Some(BadTemplate) && casts == Some([]) &&
                template == old(template) && pattern == old(pattern) && methods == old(methods)
      ensures callable && CompileOnto(old(pattern), route).Ok? ==>
                template == Some(route) &&
                casts == Some(CompileOnto(old(pattern), route).value.casts) &&
                pattern == CompileOnto(old(pattern), route).value.pattern
      ensures callable && CompileOnto(old(pattern), route).Ok? && methodsArg.GetOr(Bit(GET)) & ALL != 0 ==>
                err == None && methods == methodsArg.GetOr(Bit(GET))
      ensures callable && CompileOnto(old(pattern), route).Ok? && methodsArg.GetOr(Bit(GET)) & ALL == 0 ==>
                err == Some(UnexpectedMethods) && methods == old(methods)
      ensures err == None && old(pattern) == None ==> Valid()
    {
      if !callable {
        return Some(InvalidCallback);
      }
      var m := methodsArg.GetOr(Bit(GET));
      handler := Some(h);
      casts := Some([]);
      var compiled := CompileTemplate(pattern, route);
      if compiled.Err? {
        return Some(BadTemplate);
      }
      CompileOntoPrior(None, route);
      pattern := compiled.value.pattern;
      casts := Some(compiled.value.casts);
      template := Some(route);
      if m & ALL != 0 {
        methods := m;
        err := None;
      } else {
        err := Some(UnexpectedMethods);
      }
    }

    /** `getUri([bool $as_regexp])`: the template, or the pattern without
        its first and last character (false when there is no pattern). */
    function Uri(asRegexp: bool): (r: Option<string>)
      reads this
      requires !asRegexp ==> template.Some?
      requires asRegexp && pattern.Some? ==> |pattern.value| >= 2
      ensures !asRegexp ==> r == template
      ensures asRegexp ==> (r.Some? <==> pattern.Some?)
      ensures asRegexp && r.Some? ==>
                |r.value| + 2 == |pattern.value| &&
                forall k :: 0 <= k < |r.value| ==> r.value[k] == pattern.value[k + 1]
    {
      if asRegexp then
        (if pattern.Some? then Some(pattern.value[1..|pattern.value| - 1]) else None)
      else template
    }

    /** On a constructed route whose template has a placeholder,
        `getUri(true)` is `^`, the body, `$`: the delimiter bytes are gone. */
    lemma UriRegexp()
      requires Valid() && pattern.Some?
      ensures Tokenize(template.value).Ok?
      ensures Uri(true) == Some("^" + BodyOf(Tokenize(template.value).value) + "$")
    {
      var body := BodyOf(Tokenize(template.value).value);
      assert pattern.value == Delimited(body);
      assert pattern.value[1..|pattern.value| - 1] == "^" + body + "$";
    }

    /** `getMethod([bool $as_regexp])`: the mask itself, or the nine bit
        tests in canonical order rendered as `(NAME|NAME...)`. */
    method GetMethod(asRegexp: bool) returns (r: MethodValue)
      ensures !asRegexp ==> r == MaskValue(methods)
      ensures asRegexp ==> r == Names(MethodText(methods))
      ensures asRegexp && methods & ALL != 0 ==> r == Names(Alternation(methods))
    {
      if !asRegexp {
        return MaskValue(methods);
      }
      var mask := methods;
      var retval: Option<string> := None;
      retval := AppendIfSet(retval, mask, 1);  // GET
      retval := AppendIfSet(retval, mask, 2);  // POST
      retval := AppendIfSet(retval, mask, 3);  // HEAD
      retval := AppendIfSet(retval, mask, 4);  // PUT
      retval := AppendIfSet(retval, mask, 5);  // DELETE
      retval := AppendIfSet(retval, mask, 6);  // OPTIONS
      retval := AppendIfSet(retval, mask, 7);  // TRACE
      retval := AppendIfSet(retval, mask, 8);  // CONNECT
      retval := AppendIfSet(retval, mask, 9);  // PATCH
      r := Names("(" + Shown(retval) + ")");
      MethodTextMeaning(mask);
    }
  }
}

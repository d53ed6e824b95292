/** The URI template compiler shared by the `Route` and `WebSocketRoute`
    constructors: a template such as `/user/<id:int>` becomes the delimited
    pattern `\1^/user/(?<id>-?[0-9]+)$\1` and an ordered name -> cast table.
    Only the pattern text is modelled; the regular-expression engine that
    later matches it is not part of this model. */
module UriTemplate {
  import opened Common

  /** `\1`, the byte that wraps the finished pattern on both sides. */
  const Delim: char := 1 as char

  /** The type a captured value is later converted to: IS_LONG, IS_DOUBLE, IS_PATH. */
  datatype Cast = Long | Double | Path

  /** A PHP array used as an ordered map from capture name to cast. */
  type CastTable = seq<(string, Cast)>

  /** What follows the first ':' of a placeholder (or its absence). */
  datatype Filter = Bare | IntFilter | FloatFilter | PathFilter | Regex(expr: string) | Unrecognised

  /** A '<' with no '>' at or after it. */
  datatype TemplateError = MalformedTemplate

  datatype Compiled = Compiled(pattern: Option<string>, casts: CastTable)

  /** One step of the compiler's scan: a character copied as is, or the text
      between a '<' and the first '>' after it. */
  datatype Segment = Literal(c: char) | Placeholder(spec: string)

  // ---------------------------------------------------------------------
  // Scanning

  function Cons(s: Segment, r: Result<seq<Segment>, TemplateError>): Result<seq<Segment>, TemplateError> {
    if r.Ok? then Ok([s] + r.value) else r
  }

  function Prepend(done: seq<Segment>, r: Result<seq<Segment>, TemplateError>): Result<seq<Segment>, TemplateError> {
    if r.Ok? then Ok(done + r.value) else r
  }

  /** The template text a segment was read from. */
  function Source(s: Segment): string {
    match s
    case Literal(c) => [c]
    case Placeholder(spec) => "<" + spec + ">"
  }

  function Untokenize(segs: seq<Segment>): string {
    if segs == [] then "" else Source(segs[0]) + Untokenize(segs[1..])
  }

  /** The template cut into the segments the compiler's loop visits. */
  function Tokenize(t: string): Result<seq<Segment>, TemplateError>
    decreases |t|
  {
    if t == [] then Ok([])
    else if t[0] != '<' then Cons(Literal(t[0]), Tokenize(t[1..]))
    else
      match IndexOf(t, '>', 0)
      case None => Err(MalformedTemplate)
      case Some(y) => Cons(Placeholder(t[1..y]), Tokenize(t[y + 1..]))
  }

  /** Some '<' of the template has no '>' at or after it. */
  predicate Unclosed(t: string) {
    exists k :: 0 <= k < |t| && t[k] == '<' && IndexOf(t, '>', k).None?
  }

  // ---------------------------------------------------------------------
  // Rendering

  /** Splits a placeholder at its first ':' into capture name and filter. */
  function ParseSpec(spec: string): (string, Filter) {
    match IndexOf(spec, ':', 0)
    case None => (spec, Bare)
    case Some(p) =>
      var name := spec[..p];
      var filter := spec[p + 1..];
      (name,
       if filter == "int" then IntFilter
       else if filter == "float" then FloatFilter
       else if filter == "path" then PathFilter
       else if StartsWith(filter, "re:") then Regex(filter[3..])
       else Unrecognised)
  }

  function Group(name: string, expr: string): string {
    "(?<" + name + ">" + expr + ")"
  }

  /** The pattern text a placeholder contributes. */
  function Fragment(name: string, f: Filter): string {
    match f
    case Bare => Group(name, "[^/]+")
    case IntFilter => Group(name, "-?[0-9]+")
    case FloatFilter => Group(name, "-?[0-9.]+")
    case PathFilter => Group(name, ".+?")
    case Regex(e) => Group(name, e)
    case Unrecognised => ""
  }

  function CastOf(f: Filter): Option<Cast> {
    match f
    case IntFilter => Some(Long)
    case FloatFilter => Some(Double)
    case PathFilter => Some(Path)
    case _ => None
  }

  function Render(s: Segment): string {
    match s
    case Literal(c) => [c]
    case Placeholder(spec) => Fragment(ParseSpec(spec).0, ParseSpec(spec).1)
  }

  /** The texts of `segs` under `f`, concatenated in order. */
  function ConcatMap(segs: seq<Segment>, f: Segment -> string): string {
    if segs == [] then "" else ConcatMap(segs[..|segs| - 1], f) + f(segs[|segs| - 1])
  }

  /** The pattern between `\1^` and `$\1`: the segments rendered in order. */
  function BodyOf(segs: seq<Segment>): string {
    ConcatMap(segs, Render)
  }

  function Keys(t: CastTable): seq<string> {
    if t == [] then [] else Keys(t[..|t| - 1]) + [t[|t| - 1].0]
  }

  function Lookup(t: CastTable, key: string): Option<Cast> {
    if t == [] then None
    else if t[|t| - 1].0 == key then Some(t[|t| - 1].1)
    else Lookup(t[..|t| - 1], key)
  }

  /** `add_assoc_long`: overwrite the value of an existing key where it
      stands, otherwise append the key at the end. */
  function Assoc(t: CastTable, key: string, c: Cast): (r: CastTable)
    ensures Keys(r) == if key in Keys(t) then Keys(t) else Keys(t) + [key]
    ensures forall n :: Lookup(r, n) == if n == key then Some(c) else Lookup(t, n)
  {
    if t == [] then [(key, c)]
    else if t[|t| - 1].0 == key then t[..|t| - 1] + [(key, c)]
    else if key in Keys(t[..|t| - 1]) then
      var p := Assoc(t[..|t| - 1], key, c);
      var r := p + [t[|t| - 1]];
      assert r[..|r| - 1] == p;
      r
    else
      var r := t + [(key, c)];
      assert r[..|r| - 1] == t;
      r
  }

  function AddCast(t: CastTable, s: Segment): CastTable {
    match s
    case Literal(_) => t
    case Placeholder(spec) =>
      var (name, f) := ParseSpec(spec);
      match CastOf(f)
      case Some(c) => Assoc(t, name, c)
      case None => t
  }

  function CastsOf(segs: seq<Segment>): CastTable {
    if segs == [] then [] else AddCast(CastsOf(segs[..|segs| - 1]), segs[|segs| - 1])
  }

  /** `"\1^%s$\1"`: the anchored body between two delimiter bytes. */
  function Delimited(body: string): string {
    [Delim, '^'] + body + ['$', Delim]
  }

  /** The full compiler: no pattern unless the template holds both a '<'
      and a '>'; otherwise `\1^` + body + `$\1` and the cast table. */
  function Compile(t: string): Result<Compiled, TemplateError> {
    if '<' in t && '>' in t then
      match Tokenize(t)
      case Err(e) => Err(e)
      case Ok(segs) => Ok(Compiled(Some(Delimited(BodyOf(segs))), CastsOf(segs)))
    else Ok(Compiled(None, []))
  }

  /** The compiler as a constructor runs it on a route object: the pattern
      buffer starts out as the route's current pattern, which the
      constructor never resets, so a second `__construct` wraps the first
      pattern into the new one; without a placeholder the pattern is left
      as it was. The cast table always starts afresh. */
  function CompileOnto(prior: Option<string>, t: string): Result<Compiled, TemplateError> {
    if '<' in t && '>' in t then
      match Tokenize(t)
      case Err(e) => Err(e)
      case Ok(segs) => Ok(Compiled(Some(Delimited(prior.GetOr("") + BodyOf(segs))), CastsOf(segs)))
    else Ok(Compiled(prior, []))
  }

  lemma DelimitedInjective(a: string, b: string)
    requires Delimited(a) == Delimited(b)
    ensures a == b
  {
    assert a == Delimited(a)[2..|Delimited(a)| - 2];
    assert b == Delimited(b)[2..|Delimited(b)| - 2];
  }

  /** On a fresh route the constructor's compiler is `Compile`. On a route
      that already has a pattern it fails and builds its cast table just as
      `Compile` does, and its pattern is the old pattern's text followed by
      the body `Compile` finds, wrapped once more; a template without a
      placeholder leaves the old pattern in place. */
  lemma CompileOntoPrior(prior: Option<string>, t: string)
    ensures CompileOnto(None, t) == Compile(t)
    ensures CompileOnto(prior, t).Err? <==> Compile(t).Err?
    ensures CompileOnto(prior, t).Ok? ==> CompileOnto(prior, t).value.casts == Compile(t).value.casts
    ensures Compile(t).Ok? && Compile(t).value.pattern.None? ==> CompileOnto(prior, t).value.pattern == prior
    ensures forall body :: Compile(t).Ok? && Compile(t).value.pattern == Some(Delimited(body)) ==>
              CompileOnto(prior, t).value.pattern == Some(Delimited(prior.GetOr("") + body))
  {
    if '<' in t && '>' in t && Tokenize(t).Ok? {
      var segs := Tokenize(t).value;
      assert "" + BodyOf(segs) == BodyOf(segs);
      forall body | Compile(t).Ok? && Compile(t).value.pattern == Some(Delimited(body))
        ensures CompileOnto(prior, t).value.pattern == Some(Delimited(prior.GetOr("") + body))
      {
        DelimitedInjective(body, BodyOf(segs));
      }
    }
  }

  // ---------------------------------------------------------------------
  // The constructor loop

  /** The `for` loop of `Route::__construct` (and its copy in
      `WebSocketRoute::__construct`), appending to the pattern and the cast
      table character by character and placeholder by placeholder. The
      pattern buffer starts out as `prior`, the route's current pattern. */
  method CompileTemplate(prior: Option<string>, t: string) returns (r: Result<Compiled, TemplateError>)
    ensures r == CompileOnto(prior, t)
  {
    if IndexOf(t, '<', 0).None? || IndexOf(t, '>', 0).None? {
      assert !('<' in t && '>' in t);
      return Ok(Compiled(prior, []));
    }
    assert '<' in t && '>' in t;
    var start := prior.GetOr("");
    var regexp: string := start;
    var casts: CastTable := [];
    ghost var done: seq<Segment> := [];
    var i := 0;
    ScanStart(t);
    while i < |t|
      invariant 0 <= i <= |t|
      invariant Scanned(t, i, done)
      invariant regexp == start + BodyOf(done)
      invariant casts == CastsOf(done)
    {
      if t[i] != '<' {
        ScanLiteral(t, i, done, start);
        regexp := regexp + [t[i]];
        done := done + [Literal(t[i])];
        i := i + 1;
        assert Scanned(t, i, done);
      } else {
        var y := IndexOf(t, '>', i);
        if y.None? {
          ScanUnclosed(t, i, done);
          return Err(MalformedTemplate);
        }
        var close := y.value;
        var name := t[i + 1..close];
        ScanPlaceholder(t, i, close, done, start);
        var fragment;
        fragment, casts := CompilePlaceholder(name, casts);
        regexp := regexp + fragment;
        done := done + [Placeholder(name)];
        i := close + 1;
        assert Scanned(t, i, done);
      }
    }
    ScanEnd(t, done);
    r := Ok(Compiled(Some(Delimited(regexp)), casts));
  }

  /** The body of the loop for one placeholder: split at the first ':',
      compare the filter with "int", "float", "path" and "re:", append. */
  method CompilePlaceholder(name: string, casts: CastTable) returns (fragment: string, casts': CastTable)
    ensures fragment == Render(Placeholder(name))
    ensures casts' == AddCast(casts, Placeholder(name))
  {
    fragment, casts' := "", casts;
    var pos := IndexOf(name, ':', 0);
    if pos.Some? {
      var varName := name[..pos.value];
      var filter := name[pos.value + 1..];
      if filter == "int" {
        fragment := Group(varName, "-?[0-9]+");
        casts' := Assoc(casts, varName, Long);
      } else if filter == "float" {
        fragment := Group(varName, "-?[0-9.]+");
        casts' := Assoc(casts, varName, Double);
      } else if filter == "path" {
        fragment := Group(varName, ".+?");
        casts' := Assoc(casts, varName, Path);
      } else if StartsWith(filter, "re:") {
        fragment := Group(varName, filter[3..]);
      }
    } else {
      fragment := Group(name, "[^/]+");
    }
  }

  /** The loop invariant: `done` are the segments of `t[..i]`, and the
      segments of `t` are those followed by the segments of `t[i..]`. */
  predicate Scanned(t: string, i: nat, done: seq<Segment>)
    requires i <= |t|
  {
    Tokenize(t) == Prepend(done, Tokenize(t[i..]))
  }

  lemma ScanStart(t: string)
    ensures Scanned(t, 0, [])
  {
    assert t[0..] == t;
    if Tokenize(t).Ok? { assert [] + Tokenize(t).value == Tokenize(t).value; }
  }

  lemma ScanEnd(t: string, done: seq<Segment>)
    requires Scanned(t, |t|, done)
    ensures Tokenize(t) == Ok(done)
  {
    assert t[|t|..] == [];
    assert done + [] == done;
  }

  lemma ScanLiteral(t: string, i: nat, done: seq<Segment>, start: string)
    requires i < |t| && t[i] != '<' && Scanned(t, i, done)
    ensures Scanned(t, i + 1, done + [Literal(t[i])])
    ensures start + BodyOf(done + [Literal(t[i])]) == (start + BodyOf(done)) + [t[i]]
    ensures CastsOf(done + [Literal(t[i])]) == CastsOf(done)
  {
    LiteralStep(t, i);
    Extend(done, Literal(t[i]), Tokenize(t[i + 1..]));
    AppendAssoc(start, BodyOf(done), [t[i]]);
  }

  lemma ScanPlaceholder(t: string, i: nat, close: nat, done: seq<Segment>, start: string)
    requires i < |t| && t[i] == '<' && IndexOf(t, '>', i) == Some(close) && Scanned(t, i, done)
    ensures Scanned(t, close + 1, done + [Placeholder(t[i + 1..close])])
    ensures start + BodyOf(done + [Placeholder(t[i + 1..close])]) ==
            (start + BodyOf(done)) + Render(Placeholder(t[i + 1..close]))
    ensures CastsOf(done + [Placeholder(t[i + 1..close])]) == AddCast(CastsOf(done), Placeholder(t[i + 1..close]))
  {
    PlaceholderStep(t, i, close);
    Extend(done, Placeholder(t[i + 1..close]), Tokenize(t[close + 1..]));
    AppendAssoc(start, BodyOf(done), Render(Placeholder(t[i + 1..close])));
  }

  lemma ScanUnclosed(t: string, i: nat, done: seq<Segment>)
    requires i < |t| && t[i] == '<' && IndexOf(t, '>', i).None? && Scanned(t, i, done)
    ensures Tokenize(t).Err?
  {
    UnclosedStep(t, i);
  }

  lemma LiteralStep(t: string, i: nat)
    requires i < |t| && t[i] != '<'
    ensures Tokenize(t[i..]) == Cons(Literal(t[i]), Tokenize(t[i + 1..]))
  {
    assert t[i..][1..] == t[i + 1..];
  }

  lemma UnclosedStep(t: string, i: nat)
    requires i < |t| && t[i] == '<' && IndexOf(t, '>', i).None?
    ensures Tokenize(t[i..]).Err?
  {
    var rest := t[i..];
    assert IndexOf(rest, '>', 0).None? by {
      forall k | 0 <= k < |rest| ensures rest[k] != '>' { assert rest[k] == t[i + k]; }
    }
  }

  lemma PlaceholderStep(t: string, i: nat, close: nat)
    requires i < |t| && t[i] == '<' && IndexOf(t, '>', i) == Some(close)
    ensures Tokenize(t[i..]) == Cons(Placeholder(t[i + 1..close]), Tokenize(t[close + 1..]))
  {
    var rest := t[i..];
    CloseInSuffix(t, i, close);
    TokenizeAtOpen(rest, close - i);
    SuffixSlices(t, i, close);
  }

  lemma TokenizeAtOpen(rest: string, c: nat)
    requires |rest| > 0 && rest[0] == '<' && IndexOf(rest, '>', 0) == Some(c)
    ensures Tokenize(rest) == Cons(Placeholder(rest[1..c]), Tokenize(rest[c + 1..]))
  {
  }

  lemma SuffixSlices(t: string, i: nat, close: nat)
    requires i < close < |t|
    ensures t[i..][1..close - i] == t[i + 1..close]
    ensures t[i..][close - i + 1..] == t[close + 1..]
  {
  }

  /** The first '>' from `i` on, counted from the start of `t[i..]`. */
  lemma CloseInSuffix(t: string, i: nat, close: nat)
    requires i < |t| && IndexOf(t, '>', i) == Some(close)
    ensures IndexOf(t[i..], '>', 0) == Some(close - i)
  {
    var rest := t[i..];
    assert rest[close - i] == '>';
    forall k | 0 <= k < close - i ensures rest[k] != '>' { assert rest[k] == t[i + k]; }
  }

  /** Moving one segment from the unscanned part to the scanned part. */
  lemma Extend(done: seq<Segment>, s: Segment, r: Result<seq<Segment>, TemplateError>)
    ensures Prepend(done, Cons(s, r)) == Prepend(done + [s], r)
    ensures BodyOf(done + [s]) == BodyOf(done) + Render(s)
    ensures CastsOf(done + [s]) == AddCast(CastsOf(done), s)
  {
    assert (done + [s])[..|done|] == done;
    if r.Ok? {
      assert done + ([s] + r.value) == (done + [s]) + r.value;
    }
  }

  // ---------------------------------------------------------------------
  // Properties

  /** Reading the segments back gives the template, and no placeholder
      text holds a '>': the scan neither drops nor reorders characters. */
  lemma {:induction false} TokenizeRoundTrip(t: string)
    requires Tokenize(t).Ok?
    ensures Untokenize(Tokenize(t).value) == t
    ensures forall k :: 0 <= k < |Tokenize(t).value| && Tokenize(t).value[k].Placeholder? ==>
              '>' !in Tokenize(t).value[k].spec
    decreases |t|
  {
    if t == [] {
    } else if t[0] != '<' {
      TokenizeRoundTrip(t[1..]);
      assert t == [t[0]] + t[1..];
      var segs := Tokenize(t).value;
      assert segs == [Literal(t[0])] + Tokenize(t[1..]).value;
      assert segs[1..] == Tokenize(t[1..]).value;
    } else {
      var y := IndexOf(t, '>', 0).value;
      TokenizeRoundTrip(t[y + 1..]);
      var rest := Tokenize(t[y + 1..]).value;
      assert Tokenize(t).value == [Placeholder(t[1..y])] + rest;
      UntokenizeCons(t, y, rest);
      BeforeFirstClose(t, y);
      NoCloseCons(t[1..y], rest);
    }
  }

  lemma SplitAround(t: string, y: nat)
    requires 0 < y < |t|
    ensures t == [t[0]] + t[1..y] + [t[y]] + t[y + 1..]
  {
    assert t[..y] == [t[0]] + t[1..y];
    assert t[..y + 1] == t[..y] + [t[y]];
    assert t == t[..y + 1] + t[y + 1..];
  }

  /** The text between a '<' at 0 and the first '>' holds no '>'. */
  lemma BeforeFirstClose(t: string, y: nat)
    requires IndexOf(t, '>', 0) == Some(y)
    ensures y >= 1 ==> '>' !in t[1..y]
  {
    if y >= 1 {
      forall j | 0 <= j < y - 1 ensures t[1..y][j] != '>' { assert t[1..y][j] == t[j + 1]; }
    }
  }

  lemma UntokenizeCons(t: string, y: nat, rest: seq<Segment>)
    requires 0 < y < |t| && t[0] == '<' && t[y] == '>'
    requires Untokenize(rest) == t[y + 1..]
    ensures Untokenize([Placeholder(t[1..y])] + rest) == t
  {
    var segs := [Placeholder(t[1..y])] + rest;
    assert segs[1..] == rest;
    SplitAround(t, y);
  }

  lemma NoCloseCons(spec: string, rest: seq<Segment>)
    requires '>' !in spec
    requires forall k :: 0 <= k < |rest| && rest[k].Placeholder? ==> '>' !in rest[k].spec
    ensures forall k :: 0 <= k < |[Placeholder(spec)] + rest| && ([Placeholder(spec)] + rest)[k].Placeholder? ==>
              '>' !in ([Placeholder(spec)] + rest)[k].spec
  {
    var segs := [Placeholder(spec)] + rest;
    forall k | 0 <= k < |segs| && segs[k].Placeholder? ensures '>' !in segs[k].spec {
      if k > 0 { assert segs[k] == rest[k - 1]; }
    }
  }

  lemma {:induction false} TokenizeFailsIff(t: string)
    ensures Tokenize(t).Err? <==> Unclosed(t)
    decreases |t|
  {
    if t == [] {
    } else if t[0] != '<' {
      TokenizeFailsIff(t[1..]);
      UnclosedShift(t, 1);
    } else {
      match IndexOf(t, '>', 0)
      case None =>
        assert t[0] == '<' && IndexOf(t, '>', 0).None?;
      case Some(y) =>
        TokenizeFailsIff(t[y + 1..]);
        UnclosedShift(t, y + 1);
    }
  }

  /** Dropping a prefix that ends in '>' (or is one character other than
      '<') does not change whether some '<' is left unclosed. */
  lemma UnclosedShift(t: string, n: nat)
    requires 0 < n <= |t|
    requires t[n - 1] == '>' || (n == 1 && t[0] != '<')
    ensures Unclosed(t) <==> Unclosed(t[n..])
  {
    var u := t[n..];
    if Unclosed(u) {
      var k :| 0 <= k < |u| && u[k] == '<' && IndexOf(u, '>', k).None?;
      assert t[n + k] == '<';
      assert IndexOf(t, '>', n + k).None? by {
        forall j | n + k <= j < |t| ensures t[j] != '>' { assert t[j] == u[j - n]; }
      }
    }
    if Unclosed(t) {
      var k :| 0 <= k < |t| && t[k] == '<' && IndexOf(t, '>', k).None?;
      if k < n {
        assert false;
      }
      assert u[k - n] == '<';
      assert IndexOf(u, '>', k - n).None? by {
        forall j | k - n <= j < |u| ensures u[j] != '>' { assert u[j] == t[j + n]; }
      }
    }
  }

  function Literals(s: string): (r: seq<Segment>)
    ensures |r| == |s| && forall k :: 0 <= k < |s| ==> r[k] == Literal(s[k])
  {
    if s == [] then [] else [Literal(s[0])] + Literals(s[1..])
  }

  /** Characters before a '<' are copied one by one; at the '<' the scan
      jumps to the first '>' and resumes just past it. */
  lemma {:induction false} PlaceholderJump(lit: string, spec: string, rest: string)
    requires '<' !in lit && '>' !in spec
    ensures Tokenize(lit + "<" + spec + ">" + rest) == Prepend(Literals(lit) + [Placeholder(spec)], Tokenize(rest))
    decreases |lit|
  {
    if lit == [] {
      JumpAtOpen(spec, rest);
      assert lit + "<" + spec + ">" + rest == "<" + spec + ">" + rest;
      assert Literals(lit) + [Placeholder(spec)] == [Placeholder(spec)];
    } else {
      var t := lit + "<" + spec + ">" + rest;
      assert t[0] == lit[0];
      assert t[1..] == lit[1..] + "<" + spec + ">" + rest;
      PlaceholderJump(lit[1..], spec, rest);
      PrependCons(Literal(lit[0]), Literals(lit[1..]) + [Placeholder(spec)], Tokenize(rest));
      assert [Literal(lit[0])] + (Literals(lit[1..]) + [Placeholder(spec)]) == Literals(lit) + [Placeholder(spec)];
    }
  }

  /** At a '<' the scan takes everything up to the first '>' as one
      placeholder and resumes just past it. */
  lemma JumpAtOpen(spec: string, rest: string)
    requires '>' !in spec
    ensures Tokenize("<" + spec + ">" + rest) == Cons(Placeholder(spec), Tokenize(rest))
  {
    var t := "<" + spec + ">" + rest;
    assert IndexOf(t, '>', 0) == Some(|spec| + 1) by {
      assert t[|spec| + 1] == '>';
      forall k | 0 <= k < |spec| + 1 ensures t[k] != '>' {
        if k > 0 { assert t[k] == spec[k - 1]; }
      }
    }
    assert t[1..|spec| + 1] == spec;
    assert t[|spec| + 2..] == rest;
  }

  lemma PrependCons(x: Segment, done: seq<Segment>, r: Result<seq<Segment>, TemplateError>)
    ensures Cons(x, Prepend(done, r)) == Prepend([x] + done, r)
  {
    if r.Ok? {
      assert [x] + (done + r.value) == ([x] + done) + r.value;
    }
  }

  lemma {:induction false} ConcatMapAppend(a: seq<Segment>, b: seq<Segment>, f: Segment -> string)
    ensures ConcatMap(a + b, f) == ConcatMap(a, f) + ConcatMap(b, f)
    decreases |b|
  {
    if b == [] {
      assert a + b == a;
    } else {
      var b', x := b[..|b| - 1], b[|b| - 1];
      ConcatMapAppend(a, b', f);
      assert (a + b)[..|a + b| - 1] == a + b';
    }
  }

  lemma BodyOfAppend(a: seq<Segment>, b: seq<Segment>)
    ensures BodyOf(a + b) == BodyOf(a) + BodyOf(b)
  {
    ConcatMapAppend(a, b, Render);
  }

  lemma BodyOfSnoc(s: seq<Segment>, x: Segment)
    ensures BodyOf(s + [x]) == BodyOf(s) + Render(x)
  {
    assert (s + [x])[..|s|] == s;
  }

  /** Literal characters reach the pattern unchanged and in order. */
  lemma {:induction false} BodyOfLiterals(s: string)
    ensures BodyOf(Literals(s)) == s
    decreases |s|
  {
    if s != [] {
      BodyOfLiterals(s[1..]);
      BodyOfAppend([Literal(s[0])], Literals(s[1..]));
      BodyOfSnoc([], Literal(s[0]));
      assert [] + [Literal(s[0])] == [Literal(s[0])];
    }
  }

  function UserIdSegments(): seq<Segment> {
    Literals("/user/") + [Placeholder("id:int")]
  }

  lemma UserIdTokens()
    ensures Tokenize("/user/<id:int>") == Ok(UserIdSegments())
    ensures '<' in "/user/<id:int>" && '>' in "/user/<id:int>"
  {
    assert "/user/<id:int>"[6] == '<' && "/user/<id:int>"[13] == '>';
    assert "/user/<id:int>" == "/user/" + "<" + "id:int" + ">" + "";
    PlaceholderJump("/user/", "id:int", "");
    assert UserIdSegments() + [] == UserIdSegments();
  }

  lemma UserIdBody()
    ensures BodyOf(UserIdSegments()) == "/user/(?<id>-?[0-9]+)"
  {
    UserIdRender();
    LiteralsThen("/user/", Placeholder("id:int"));
    assert "/user/" + "(?<id>-?[0-9]+)" == "/user/(?<id>-?[0-9]+)";
  }

  /** Literal text followed by one segment renders as that text followed
      by the segment's fragment. */
  lemma LiteralsThen(lit: string, p: Segment)
    ensures BodyOf(Literals(lit) + [p]) == lit + Render(p)
  {
    BodyOfLiterals(lit);
    BodyOfSnoc(Literals(lit), p);
  }

  lemma UserIdRender()
    ensures Render(Placeholder("id:int")) == "(?<id>-?[0-9]+)"
  {
    TypedPlaceholder("id", "int", []);
    assert "id" + ":" + "int" == "id:int";
    assert "(?<" + "id" + ">-?[0-9]+)" == "(?<id>-?[0-9]+)";
  }

  lemma UserIdCasts()
    ensures CastsOf(UserIdSegments()) == [("id", Long)]
  {
    var lits := Literals("/user/");
    var p := Placeholder("id:int");
    var segs := lits + [p];
    assert AddCast([], p) == Assoc([], "id", Long) by {
      assert "id:int" == "id" + ":" + "int";
      TypedPlaceholder("id", "int", []);
    }
    CastsOfLiterals("/user/");
    assert segs[..|segs| - 1] == lits;
  }

  /** A template with one bare placeholder at its end scans as its literal
      characters followed by that placeholder. */
  lemma SingleTokens(lit: string, name: string)
    requires '<' !in lit && '>' !in name
    ensures Tokenize(lit + "<" + name + ">") == Ok(Literals(lit) + [Placeholder(name)])
    ensures '<' in lit + "<" + name + ">" && '>' in lit + "<" + name + ">"
  {
    var t := lit + "<" + name + ">";
    assert t[|lit|] == '<' && t[|lit| + |name| + 1] == '>';
    assert t == lit + "<" + name + ">" + "";
    PlaceholderJump(lit, name, "");
    assert Literals(lit) + [Placeholder(name)] + [] == Literals(lit) + [Placeholder(name)];
  }

  lemma SingleBody(lit: string, name: string)
    requires ':' !in name
    ensures BodyOf(Literals(lit) + [Placeholder(name)]) == lit + "(?<" + name + ">[^/]+)"
    ensures CastsOf(Literals(lit) + [Placeholder(name)]) == []
  {
    var segs := Literals(lit) + [Placeholder(name)];
    BarePlaceholder(name, []);
    BodyOfLiterals(lit);
    BodyOfSnoc(Literals(lit), Placeholder(name));
    CastsOfLiterals(lit);
    assert segs[..|segs| - 1] == Literals(lit);
  }

  /** A template with one bare placeholder at its end: the literal text,
      then the group, and no cast. */
  lemma SinglePlaceholder(lit: string, name: string)
    requires '<' !in lit && '>' !in name && ':' !in name
    ensures Compile(lit + "<" + name + ">") == Ok(Compiled(Some(Delimited(lit + "(?<" + name + ">[^/]+)")), []))
  {
    SingleTokens(lit, name);
    SingleBody(lit, name);
    CompileOk(lit + "<" + name + ">", Literals(lit) + [Placeholder(name)]);
  }

  /** Constructing a route twice with one-placeholder templates: the second
      pattern wraps the first one's full text, delimiters included. */
  lemma SecondConstruct(lit: string, name: string, lit': string, name': string)
    requires '<' !in lit && '>' !in name && ':' !in name
    requires '<' !in lit' && '>' !in name' && ':' !in name'
    ensures Compile(lit + "<" + name + ">").Ok?
    ensures CompileOnto(Compile(lit + "<" + name + ">").value.pattern, lit' + "<" + name' + ">") ==
            Ok(Compiled(Some(Delimited(Delimited(lit + "(?<" + name + ">[^/]+)") + (lit' + "(?<" + name' + ">[^/]+)"))), []))
  {
    SinglePlaceholder(lit, name);
    SinglePlaceholder(lit', name');
    CompileOntoPrior(Some(Delimited(lit + "(?<" + name + ">[^/]+)")), lit' + "<" + name' + ">");
  }

  /** `new Route('/a/<x>', f)` then `__construct('/b/<y>', f)`. */
  lemma SecondConstructExample()
    ensures CompileOnto(Compile("/a/<x>").value.pattern, "/b/<y>") ==
            Ok(Compiled(Some(Delimited(Delimited("/a/(?<x>[^/]+)") + "/b/(?<y>[^/]+)")), []))
  {
    assert "/a/" + "<" + "x" + ">" == "/a/<x>";
    assert "/b/" + "<" + "y" + ">" == "/b/<y>";
    assert "/a/" + "(?<" + "x" + ">[^/]+)" == "/a/(?<x>[^/]+)";
    assert "/b/" + "(?<" + "y" + ">[^/]+)" == "/b/(?<y>[^/]+)";
    SecondConstruct("/a/", "x", "/b/", "y");
  }

  /** `/user/<id:int>` compiles to `\1^/user/(?<id>-?[0-9]+)$\1` with the
      single cast id -> IS_LONG. */
  lemma UserIdExample()
    ensures Compile("/user/<id:int>") == Ok(Compiled(Some(Delimited("/user/(?<id>-?[0-9]+)")), [("id", Long)]))
  {
    var t := "/user/<id:int>";
    UserIdTokens();
    UserIdBody();
    UserIdCasts();
    CompileOk(t, UserIdSegments());
  }

  lemma {:induction false} CastsOfLiterals(s: string)
    ensures CastsOf(Literals(s)) == []
    decreases |s|
  {
    if s != [] {
      var l := Literals(s);
      assert l[..|l| - 1] == Literals(s[..|s| - 1]);
      CastsOfLiterals(s[..|s| - 1]);
    }
  }

  /** The overall shape of the compiler's result: no pattern without both a
      '<' and a '>'; failure exactly when some '<' is never closed;
      otherwise the delimited, anchored body of a segmentation that reads
      back as the template. */
  lemma CompileShape(t: string)
    ensures !('<' in t && '>' in t) ==> Compile(t) == Ok(Compiled(None, []))
    ensures '<' in t && '>' in t ==> (Compile(t).Err? <==> Unclosed(t))
    ensures Compile(t).Ok? && Compile(t).value.pattern.Some? ==>
              exists segs :: Untokenize(segs) == t &&
                Compile(t).value.pattern.value == Delimited(BodyOf(segs)) &&
                Compile(t).value.casts == CastsOf(segs)
  {
    TokenizeFailsIff(t);
    if Tokenize(t).Ok? {
      TokenizeRoundTrip(t);
    }
  }

  // ---------------------------------------------------------------------
  // The placeholder table

  lemma SplitAtColon(name: string, filter: string)
    requires ':' !in name
    ensures ParseSpec(name + ":" + filter) ==
      (name,
       if filter == "int" then IntFilter
       else if filter == "float" then FloatFilter
       else if filter == "path" then PathFilter
       else if StartsWith(filter, "re:") then Regex(filter[3..])
       else Unrecognised)
  {
    var spec := name + ":" + filter;
    assert IndexOf(spec, ':', 0) == Some(|name|) by {
      assert spec[|name|] == ':';
      forall k | 0 <= k < |name| ensures spec[k] != ':' { assert spec[k] == name[k]; }
    }
    assert spec[..|name|] == name;
    assert spec[|name| + 1..] == filter;
  }

  /** A placeholder without ':' matches one or more non-'/' characters
      and adds no cast. */
  lemma BarePlaceholder(name: string, casts: CastTable)
    requires ':' !in name
    ensures Render(Placeholder(name)) == "(?<" + name + ">[^/]+)"
    ensures AddCast(casts, Placeholder(name)) == casts
  {
    assert IndexOf(name, ':', 0).None?;
  }

  /** `:int`, `:float` and `:path` give their fixed sub-patterns and add
      IS_LONG, IS_DOUBLE and IS_PATH to the cast table. */
  lemma TypedPlaceholder(name: string, filter: string, casts: CastTable)
    requires ':' !in name
    ensures filter == "int" ==>
      Render(Placeholder(name + ":" + filter)) == "(?<" + name + ">-?[0-9]+)" &&
      AddCast(casts, Placeholder(name + ":" + filter)) == Assoc(casts, name, Long)
    ensures filter == "float" ==>
      Render(Placeholder(name + ":" + filter)) == "(?<" + name + ">-?[0-9.]+)" &&
      AddCast(casts, Placeholder(name + ":" + filter)) == Assoc(casts, name, Double)
    ensures filter == "path" ==>
      Render(Placeholder(name + ":" + filter)) == "(?<" + name + ">.+?)" &&
      AddCast(casts, Placeholder(name + ":" + filter)) == Assoc(casts, name, Path)
  {
    SplitAtColon(name, filter);
  }

  /** `:re:X` inserts X verbatim as the group's expression and adds no cast. */
  lemma RegexPlaceholder(name: string, expr: string, casts: CastTable)
    requires ':' !in name
    ensures Render(Placeholder(name + ":re:" + expr)) == "(?<" + name + ">" + expr + ")"
    ensures AddCast(casts, Placeholder(name + ":re:" + expr)) == casts
  {
    var filter := "re:" + expr;
    assert name + ":re:" + expr == name + ":" + filter;
    SplitAtColon(name, filter);
    assert StartsWith(filter, "re:") && filter[3..] == expr;
    assert filter != "int" && filter != "float" && filter != "path" by {
      assert filter[0] == 'r';
    }
  }

  /** Any other filter contributes neither pattern text nor a cast. */
  lemma UnrecognisedPlaceholder(name: string, filter: string, casts: CastTable)
    requires ':' !in name
    requires filter != "int" && filter != "float" && filter != "path" && !StartsWith(filter, "re:")
    ensures Render(Placeholder(name + ":" + filter)) == ""
    ensures AddCast(casts, Placeholder(name + ":" + filter)) == casts
  {
    SplitAtColon(name, filter);
  }

  // ---------------------------------------------------------------------
  // The cast table

  /** Reference reading of the cast table: the cast of the last typed
      placeholder with that name. */
  function LastTyped(segs: seq<Segment>, name: string): Option<Cast> {
    if segs == [] then None
    else
      var s := segs[|segs| - 1];
      if s.Placeholder? && ParseSpec(s.spec).0 == name && CastOf(ParseSpec(s.spec).1).Some?
      then CastOf(ParseSpec(s.spec).1)
      else LastTyped(segs[..|segs| - 1], name)
  }

  /** Reference order of the table's keys: the names of the typed
      placeholders, left to right, each where it first occurs. */
  function TypedNames(segs: seq<Segment>): seq<string> {
    if segs == [] then []
    else
      var prev := TypedNames(segs[..|segs| - 1]);
      var s := segs[|segs| - 1];
      if s.Placeholder? && CastOf(ParseSpec(s.spec).1).Some? && ParseSpec(s.spec).0 !in prev
      then prev + [ParseSpec(s.spec).0]
      else prev
  }

  /** The table maps each name to the cast of its last typed placeholder
      (int, float, path); bare and `re:` placeholders add nothing; the keys
      are the typed names in order of first occurrence, none listed twice. */
  lemma {:induction false} CastTableMeaning(segs: seq<Segment>)
    ensures forall name :: Lookup(CastsOf(segs), name) == LastTyped(segs, name)
    ensures Keys(CastsOf(segs)) == TypedNames(segs)
    ensures forall i, j :: 0 <= i < j < |Keys(CastsOf(segs))| ==> Keys(CastsOf(segs))[i] != Keys(CastsOf(segs))[j]
    decreases |segs|
  {
    if segs != [] {
      var p := segs[..|segs| - 1];
      CastTableMeaning(p);
    }
  }

  // ---------------------------------------------------------------------
  // The loop index as written: an unclosed '<' restarts the scan

  /** `i` after one iteration of the constructor loop as written: past the
      character, or past the first '>' (`i = y`, then `i++`). With no '>'
      left, `y` is FAILURE (-1) and the iteration ends at index 0. */
  function NextIndexAsWritten(t: string, i: nat): int
    requires i < |t|
  {
    if t[i] != '<' then i + 1
    else match IndexOf(t, '>', i)
      case Some(y) => y + 1
      case None => -1 + 1
  }

  /** At an unclosed '<' the loop as written starts over from index 0. */
  lemma UnclosedRestarts(t: string, i: nat)
    requires i < |t| && t[i] == '<' && IndexOf(t, '>', i).None?
    ensures NextIndexAsWritten(t, i) == 0
  {
  }

  /** `><`: the template holds both characters, so the loop runs; index 0
      leads to index 1 and index 1 back to index 0, so the loop as written
      never ends, while `Compile` reports the unclosed '<'. */
  lemma UnclosedLoopsAsWritten()
    ensures '<' in "><" && '>' in "><"
    ensures NextIndexAsWritten("><", 0) == 1 && NextIndexAsWritten("><", 1) == 0
    ensures Compile("><") == Err(MalformedTemplate)
  {
    assert "><"[1] == '<' && "><"[0] == '>';
    assert IndexOf("><", '>', 1).None?;
    TokenizeFailsIff("><");
    assert Unclosed("><");
  }

  // ---------------------------------------------------------------------
  // The compiler as written: the pattern buffer starts out NULL

  /** One iteration of the source loop on a buffer that may still be NULL:
      the literal branch tests for NULL, the placeholder branches do not,
      and an unrecognised filter leaves the buffer alone. */
  function AsWrittenStep(acc: Option<string>, s: Segment): Option<string> {
    match s
    case Literal(c) => Some(acc.GetOr("") + [c])
    case Placeholder(spec) =>
      if ParseSpec(spec).1.Unrecognised? then acc else Some(Shown(acc) + Render(s))
  }

  function AsWrittenBody(segs: seq<Segment>): Option<string> {
    if segs == [] then None else AsWrittenStep(AsWrittenBody(segs[..|segs| - 1]), segs[|segs| - 1])
  }

  /** The constructor's compiler exactly as written, NULL buffer included. */
  function CompileAsWritten(t: string): Result<Compiled, TemplateError> {
    if '<' in t && '>' in t then
      match Tokenize(t)
      case Err(e) => Err(e)
      case Ok(segs) => Ok(Compiled(Some(Delimited(Shown(AsWrittenBody(segs)))), CastsOf(segs)))
    else Ok(Compiled(None, []))
  }

  /** Once a literal character has been appended the buffer is never NULL
      again, so the as-written loop and Compile agree. */
  lemma {:induction false} AsWrittenAfterLiteral(segs: seq<Segment>)
    requires segs != [] && segs[0].Literal?
    ensures AsWrittenBody(segs) == Some(BodyOf(segs))
    decreases |segs|
  {
    var p := segs[..|segs| - 1];
    var last := segs[|segs| - 1];
    if p == [] {
      assert segs == [last];
      BodyOfSnoc([], last);
      assert [] + [last] == segs;
    } else {
      assert p[0] == segs[0];
      AsWrittenAfterLiteral(p);
      BodyOfSnoc(p, last);
      assert p + [last] == segs;
      assert AsWrittenBody(segs) == AsWrittenStep(Some(BodyOf(p)), last);
      match last
      case Literal(c) =>
      case Placeholder(spec) =>
        if ParseSpec(spec).1.Unrecognised? {
          assert Render(last) == "";
          assert BodyOf(p) + "" == BodyOf(p);
        }
    }
  }

  /** A template that does not open with a placeholder compiles the same
      as written and corrected. */
  lemma CompileAsWrittenAgrees(t: string)
    requires t != [] && t[0] != '<'
    ensures CompileAsWritten(t) == Compile(t)
  {
    if '<' in t && '>' in t && Tokenize(t).Ok? {
      AsWrittenAfterLiteral(Tokenize(t).value);
    }
  }

  /** `<id>`: as written the NULL buffer is printed in front of the first
      group, while Compile starts the body with the group itself. */
  lemma LeadingPlaceholderAsWritten()
    ensures CompileAsWritten("<id>") == Ok(Compiled(Some(Delimited("(null)(?<id>[^/]+)")), []))
    ensures Compile("<id>") == Ok(Compiled(Some(Delimited("(?<id>[^/]+)")), []))
  {
    var t := "<id>";
    var segs := [Placeholder("id")];
    IdTokens();
    IdBodies();
    IdCasts();
    CompileOk(t, segs);
  }

  lemma IdTokens()
    ensures Tokenize("<id>") == Ok([Placeholder("id")])
    ensures '<' in "<id>" && '>' in "<id>"
  {
    assert "<id>"[0] == '<' && "<id>"[3] == '>';
    JumpAtOpen("id", "");
    assert "<" + "id" + ">" + "" == "<id>";
    assert Tokenize([]) == Ok([]);
    assert [Placeholder("id")] + [] == [Placeholder("id")];
  }

  lemma IdBodies()
    ensures AsWrittenBody([Placeholder("id")]) == Some("(null)(?<id>[^/]+)")
    ensures BodyOf([Placeholder("id")]) == "(?<id>[^/]+)"
  {
    var p := Placeholder("id");
    IdRender();
    assert [p][..0] == [];
    assert AsWrittenBody([p]) == AsWrittenStep(None, p);
    assert "(null)" + "(?<id>[^/]+)" == "(null)(?<id>[^/]+)";
    BodyOfSnoc([], p);
    assert [] + [p] == [p];
  }

  lemma IdRender()
    ensures ParseSpec("id").1 == Bare
    ensures Render(Placeholder("id")) == "(?<id>[^/]+)"
  {
    assert IndexOf("id", ':', 0).None?;
  }

  lemma IdCasts()
    ensures CastsOf([Placeholder("id")]) == []
  {
    IdRender();
    assert [Placeholder("id")][..0] == [];
  }

  /** Both compilers on a template with a '<' and a '>' that scans. */
  lemma CompileOk(t: string, segs: seq<Segment>)
    requires '<' in t && '>' in t && Tokenize(t) == Ok(segs)
    ensures Compile(t) == Ok(Compiled(Some(Delimited(BodyOf(segs))), CastsOf(segs)))
    ensures CompileAsWritten(t) == Ok(Compiled(Some(Delimited(Shown(AsWrittenBody(segs)))), CastsOf(segs)))
  {
  }

  /** The corrected compiler puts nothing in front of a leading
      placeholder's group: the body is that group followed by the body of
      the rest of the template. */
  lemma LeadingPlaceholderBody(spec: string, rest: string)
    requires '>' !in spec && Tokenize(rest).Ok?
    ensures Compile("<" + spec + ">" + rest).Ok?
    ensures Compile("<" + spec + ">" + rest).value.pattern ==
            Some(Delimited(Render(Placeholder(spec)) + BodyOf(Tokenize(rest).value)))
  {
    var t := "<" + spec + ">" + rest;
    var p := Placeholder(spec);
    var r := Tokenize(rest).value;
    LeadingPlaceholderTokens(spec, rest);
    BodyOfLeading(p, r);
    assert t[0] == '<' && t[|spec| + 1] == '>';
    assert '<' in t && '>' in t;
  }

  lemma LeadingPlaceholderTokens(spec: string, rest: string)
    requires '>' !in spec && Tokenize(rest).Ok?
    ensures Tokenize("<" + spec + ">" + rest) == Ok([Placeholder(spec)] + Tokenize(rest).value)
  {
    JumpAtOpen(spec, rest);
  }

  lemma BodyOfLeading(p: Segment, r: seq<Segment>)
    ensures BodyOf([p] + r) == Render(p) + BodyOf(r)
  {
    BodyOfAppend([p], r);
    BodyOfSnoc([], p);
    assert [] + [p] == [p];
  }
}

/** Expanding a template and matching the result gives back what was expanded, and loses nothing. */
module RouteLaws {
  import opened Wrappers
  import opened Text
  import opened Routes

  // ---- splitting a template ----

  /** The pieces of a template rejoin with '/' to the template. */
  lemma {:induction false} PiecesRejoin(s: string, depth: int)
    ensures Join(Pieces(s, depth), '/') == s
    decreases |s|
  {
    if s == [] {
    } else if s[0] == '/' && depth == 0 {
      PiecesRejoin(s[1..], depth);
      var r := Pieces(s, depth);
      assert r[1..] == Pieces(s[1..], depth);
    } else {
      var rest := Pieces(s[1..], DepthAfter(s[0], depth));
      PiecesRejoin(s[1..], DepthAfter(s[0], depth));
      var r := Pieces(s, depth);
      JoinConsHead(r, '/');
      assert r[0][1..] == rest[0];
      assert r[0 := rest[0]] == rest;
    }
  }

  // ---- the variables of an accepted template ----

  /** The spans are non-empty, ordered, disjoint and in range. */
  predicate Ordered(vars: seq<Variable>, n: nat) {
    && (forall k | 0 <= k < |vars| :: vars[k].start < vars[k].end <= n)
    && (forall j, k | 0 <= j < k < |vars| :: vars[j].end <= vars[k].start)
  }

  predicate InSpan(v: Variable, i: int) {
    v.start <= i < v.end
  }

  /** Some variable captures segment i. */
  ghost predicate CapturedBy(vars: seq<Variable>, i: int) {
    exists k :: 0 <= k < |vars| && InSpan(vars[k], i)
  }

  ghost predicate CoversWildcards(segments: seq<Segment>, vars: seq<Variable>) {
    forall i | 0 <= i < |segments| && segments[i].wildcard :: CapturedBy(vars, i)
  }

  ghost predicate WellCompiled(c: Compiled) {
    c.Compiled? ==> Ordered(c.vars, |c.segments|) && CoversWildcards(c.segments, c.vars)
  }

  lemma CoverGrows(segments: seq<Segment>, vars: seq<Variable>, more: seq<Segment>, v: Variable)
    requires CoversWildcards(segments, vars)
    requires v.start == |segments| && v.end == |segments| + |more|
    ensures CoversWildcards(segments + more, vars + [v])
  {
    var vars' := vars + [v];
    forall i | 0 <= i < |segments + more| && (segments + more)[i].wildcard ensures CapturedBy(vars', i) {
      if i < |segments| {
        var k :| 0 <= k < |vars| && InSpan(vars[k], i);
        assert InSpan(vars'[k], i);
      } else {
        assert InSpan(vars'[|vars|], i);
      }
    }
  }

  lemma LiteralWellCompiled(segments: seq<Segment>, vars: seq<Variable>, literal: string)
    requires Ordered(vars, |segments|) && CoversWildcards(segments, vars)
    ensures Ordered(vars, |segments| + 1) && CoversWildcards(segments + [Segment(literal, false)], vars)
  {
    var out := segments + [Segment(literal, false)];
    forall i | 0 <= i < |out| && out[i].wildcard ensures CapturedBy(vars, i) {
      assert i < |segments| && segments[i].wildcard;
    }
  }

  lemma VariableOrdered(vars: seq<Variable>, n: nat, v: Variable)
    requires Ordered(vars, n) && v.start == n < v.end
    ensures Ordered(vars + [v], v.end)
  {
  }

  lemma VariableWellCompiled(segments: seq<Segment>, vars: seq<Variable>, field: string, more: seq<Segment>)
    requires Ordered(vars, |segments|) && CoversWildcards(segments, vars) && more != []
    ensures
      var v := Variable(field, |segments|, |segments| + |more|);
      Ordered(vars + [v], |segments + more|) && CoversWildcards(segments + more, vars + [v])
  {
    var v := Variable(field, |segments|, |segments| + |more|);
    VariableOrdered(vars, |segments|, v);
    CoverGrows(segments, vars, more, v);
  }

  lemma VariablePieceWellCompiled(c: Compiled, raw: string)
    requires c.Compiled? && WellCompiled(c) && HasPrefix(raw, '{') && HasSuffix(raw, '}')
    ensures WellCompiled(AddPiece(c, raw))
  {
    var inner := raw[1..|raw| - 1];
    var subs := Split(PatternOf(inner), '/');
    var more := SegmentsOf(subs);
    VariableWellCompiled(c.segments, c.vars, FieldOf(inner), more);
    assert AddPiece(c, raw) == Refused ||
           AddPiece(c, raw) == Compiled(c.segments + more, c.vars + [Variable(FieldOf(inner), |c.segments|, |c.segments| + |more|)]);
  }

  lemma AddPieceWellCompiled(c: Compiled, raw: string)
    requires c.Compiled? && WellCompiled(c)
    ensures WellCompiled(AddPiece(c, raw))
  {
    if !HasPrefix(raw, '{') {
      LiteralWellCompiled(c.segments, c.vars, raw);
    } else if HasSuffix(raw, '}') {
      VariablePieceWellCompiled(c, raw);
    }
  }

  lemma {:induction false} CompiledWell(pieces: seq<string>)
    ensures WellCompiled(CompilePieces(pieces))
  {
    if pieces != [] {
      CompiledWell(pieces[..|pieces| - 1]);
      var c := CompilePieces(pieces[..|pieces| - 1]);
      if c.Compiled? {
        AddPieceWellCompiled(c, pieces[|pieces| - 1]);
      }
    }
  }

  lemma {:induction false} CompiledNonEmpty(pieces: seq<string>)
    requires pieces != [] && CompilePieces(pieces).Compiled?
    ensures |CompilePieces(pieces).segments| >= 1
  {
  }

  /**
   An accepted template has variables whose spans are ordered, disjoint, non-empty and in range
   and cover every wildcard exactly once, at least one segment, and a verb without '/' or ':'.
   */
  lemma AcceptedTemplate(tmpl: string)
    requires ParseTemplate(tmpl).Some?
    ensures
      var t := ParseTemplate(tmpl).value;
      && Ordered(t.vars, |t.segments|)
      && CoversWildcards(t.segments, t.vars)
      && (forall i, j, k | 0 <= j < |t.vars| && 0 <= k < |t.vars| && InSpan(t.vars[j], i) && InSpan(t.vars[k], i) :: j == k)
      && |t.segments| >= 1
      && '/' !in t.verb && ':' !in t.verb
  {
    var t := ParseTemplate(tmpl).value;
    var i := VerbIndex(tmpl);
    var body := if i >= 0 then tmpl[..i] else tmpl;
    CompiledWell(Pieces(body[1..], 0));
    CompiledNonEmpty(Pieces(body[1..], 0));
    if i >= 0 {
      assert forall j | 0 <= j < |t.verb| :: t.verb[j] == tmpl[i..][j + 1] && t.verb[j] == tmpl[i + 1 + j];
      assert '/' !in tmpl[i..];
    }
  }

  // ---- percent-encoding ----

  /** enc is a percent-encoding of seg: each byte as %XX, or as itself unless it is '/', ':' or '%'. */
  predicate Encodes(enc: string, seg: string)
    decreases |enc|
  {
    if enc == [] then seg == []
    else if enc[0] == '%' then
      && |enc| >= 3 && HexValue(enc[1]).Some? && HexValue(enc[2]).Some?
      && seg != [] && seg[0] as int == 16 * HexValue(enc[1]).value + HexValue(enc[2]).value
      && Encodes(enc[3..], seg[1..])
    else
      && enc[0] != '/' && enc[0] != ':'
      && seg != [] && seg[0] == enc[0]
      && Encodes(enc[1..], seg[1..])
  }

  lemma {:induction false} UnescapeUndoes(enc: string, seg: string)
    requires Encodes(enc, seg)
    ensures Unescape(enc) == Some(seg)
    decreases |enc|
  {
    if enc != [] {
      if enc[0] == '%' {
        UnescapeUndoes(enc[3..], seg[1..]);
      } else {
        UnescapeUndoes(enc[1..], seg[1..]);
      }
      assert seg == [seg[0]] + seg[1..];
    }
  }

  lemma {:induction false} EncodedIsPlain(enc: string, seg: string)
    requires Encodes(enc, seg)
    ensures '/' !in enc && ':' !in enc
    decreases |enc|
  {
    if enc != [] {
      if enc[0] == '%' {
        EncodedIsPlain(enc[3..], seg[1..]);
        assert enc == [enc[0], enc[1], enc[2]] + enc[3..];
      } else {
        EncodedIsPlain(enc[1..], seg[1..]);
        assert enc == [enc[0]] + enc[1..];
      }
    }
  }

  /** The value of a hexadecimal digit, in either case, and nothing else has one. */
  lemma HexValueIff(c: char, v: int)
    ensures HexValue(c) == Some(v) <==>
            0 <= v < 16 && ("0123456789abcdef"[v] == c || "0123456789ABCDEF"[v] == c)
  {
  }

  /** s spells seg: each '%' begins a byte in two hexadecimal digits, every other character is itself. */
  predicate Spells(s: string, seg: string)
    decreases |s|
  {
    if s == [] then seg == []
    else if s[0] == '%' then
      && |s| >= 3 && seg != []
      && HexValue(s[1]).Some? && HexValue(s[2]).Some?
      && seg[0] as int == 16 * HexValue(s[1]).value + HexValue(s[2]).value
      && Spells(s[3..], seg[1..])
    else seg != [] && seg[0] == s[0] && Spells(s[1..], seg[1..])
  }

  /** Unescaping is reading what a segment spells. */
  lemma {:induction false} UnescapeIff(s: string, seg: string)
    ensures Unescape(s) == Some(seg) <==> Spells(s, seg)
    decreases |s|
  {
    if s != [] {
      if seg != [] {
        assert seg == [seg[0]] + seg[1..];
        if s[0] == '%' {
          if |s| >= 3 { UnescapeIff(s[3..], seg[1..]); }
        } else {
          UnescapeIff(s[1..], seg[1..]);
        }
      }
    }
  }

  /** A segment of a request is what it spells, and stays as it is when it spells nothing. */
  lemma RequestSegmentIs(s: string)
    ensures forall seg | Spells(s, seg) :: UnescapedOrRaw(s) == seg
    ensures (!exists seg :: Spells(s, seg)) ==> UnescapedOrRaw(s) == s
  {
    forall seg | Spells(s, seg) ensures UnescapedOrRaw(s) == seg {
      UnescapeIff(s, seg);
    }
    match Unescape(s) {
      case Some(seg) => UnescapeIff(s, seg);
      case None =>
    }
  }

  function HexDigit(v: int): (c: char)
    requires 0 <= v < 16
    ensures HexValue(c) == Some(v)
  {
    if v < 10 then ('0' as int + v) as char else ('A' as int + (v - 10)) as char
  }

  /** The encoding that escapes every byte: each byte string has at least one encoding. */
  function EscapeAll(seg: string): (enc: string)
    requires forall i | 0 <= i < |seg| :: seg[i] as int < 256
    ensures Encodes(enc, seg)
  {
    if seg == [] then []
    else
      var b := seg[0] as int;
      var enc := ['%', HexDigit(b / 16), HexDigit(b % 16)] + EscapeAll(seg[1..]);
      assert enc[3..] == EscapeAll(seg[1..]);
      enc
  }

  // ---- expand and match ----

  predicate EncodesAll(encs: seq<string>, segs: seq<string>) {
    |encs| == |segs| && forall i | 0 <= i < |segs| :: Encodes(encs[i], segs[i])
  }

  /** The request path made of encoded segments and a verb. */
  function Expand(encs: seq<string>, verb: string): string {
    "/" + Join(encs, '/') + if verb == "" then "" else ":" + verb
  }

  lemma {:induction false} JoinPlain(parts: seq<string>, c: char)
    requires c != '/' && forall i | 0 <= i < |parts| :: c !in parts[i]
    ensures c !in Join(parts, '/')
  {
    if |parts| > 1 {
      JoinPlain(parts[1..], c);
    }
  }

  /** The verb is cut off at the colon that joined it, which is the last one. */
  lemma SplitAtVerb(joined: string, verb: string)
    requires ':' !in joined && ':' !in verb && '/' !in verb
    ensures SplitRequest("/" + (joined + if verb == "" then "" else ":" + verb)) == (UnescapeAll(Split(joined, '/')), verb)
  {
    var p := joined + if verb == "" then "" else ":" + verb;
    assert TrimSlash("/" + p) == p;
    if verb == "" {
      assert p == joined;
      LastIndexAbsent(joined, ':');
    } else {
      assert p == joined + [':'] + verb;
      LastIndexOfSuffix(joined, ':', verb);
      assert p[|joined|..] == [':'] + verb;
      assert p[..|joined|] == joined && p[|joined| + 1..] == verb;
    }
  }

  /** Splitting the expanded path gives back the segments and the verb. */
  lemma SplitExpanded(encs: seq<string>, segs: seq<string>, verb: string)
    requires EncodesAll(encs, segs) && |segs| >= 1 && '/' !in verb && ':' !in verb
    ensures SplitRequest(Expand(encs, verb)) == (segs, verb)
  {
    var joined := Join(encs, '/');
    forall i | 0 <= i < |encs| ensures '/' !in encs[i] && ':' !in encs[i] {
      EncodedIsPlain(encs[i], segs[i]);
    }
    JoinPlain(encs, ':');
    SplitJoin(encs, '/');
    SplitAtVerb(joined, verb);
    assert Expand(encs, verb) == "/" + (joined + if verb == "" then "" else ":" + verb);
    DecodesBack(encs, segs);
  }

  lemma DecodesBack(encs: seq<string>, segs: seq<string>)
    requires EncodesAll(encs, segs)
    ensures UnescapeAll(encs) == segs
  {
    forall i | 0 <= i < |segs| ensures UnescapeAll(encs)[i] == segs[i] {
      UnescapeUndoes(encs[i], segs[i]);
    }
  }

  predicate DistinctFields(vars: seq<Variable>) {
    forall j, k | 0 <= j < k < |vars| :: vars[j].field != vars[k].field
  }

  /** A later variable binds the same field. */
  ghost predicate Shadowed(vars: seq<Variable>, k: int)
    requires 0 <= k < |vars|
  {
    exists j :: k < j < |vars| && vars[j].field == vars[k].field
  }

  ghost predicate Bound(vars: seq<Variable>, f: string) {
    exists k :: 0 <= k < |vars| && vars[k].field == f
  }

  /** Exactly the fields of the variables are bound. */
  lemma {:induction false} BindingsKeys(vars: seq<Variable>, segs: seq<string>, f: string)
    requires SpansIn(vars, |segs|)
    ensures f in Bindings(vars, segs) <==> Bound(vars, f)
  {
    if vars != [] {
      var n := |vars| - 1;
      var init := vars[..n];
      BindingsKeys(init, segs, f);
      if Bound(init, f) {
        var k :| 0 <= k < |init| && init[k].field == f;
        assert vars[k].field == f;
      }
      if Bound(vars, f) && vars[n].field != f {
        var k :| 0 <= k < |vars| && vars[k].field == f;
        assert init[k].field == f;
      }
    }
  }

  /** A variable that no later one shadows is bound to exactly what it captures. */
  lemma {:induction false} BindingsValue(vars: seq<Variable>, segs: seq<string>, k: int)
    requires SpansIn(vars, |segs|) && 0 <= k < |vars| && !Shadowed(vars, k)
    ensures vars[k].field in Bindings(vars, segs) && Bindings(vars, segs)[vars[k].field] == Captured(vars[k], segs)
  {
    var n := |vars| - 1;
    var init := vars[..n];
    if k < n {
      assert init[k] == vars[k];
      assert forall j | 0 <= j < n :: init[j] == vars[j];
      BindingsValue(init, segs, k);
      assert vars[n].field != vars[k].field;
    }
  }

  /** Some unshadowed variable binds each bound field. */
  lemma {:induction false} LastBinder(vars: seq<Variable>, f: string) returns (k: int)
    requires Bound(vars, f)
    ensures 0 <= k < |vars| && vars[k].field == f && !Shadowed(vars, k)
  {
    var n := |vars| - 1;
    if vars[n].field == f {
      k := n;
    } else {
      var init := vars[..n];
      var k' :| 0 <= k' < |vars| && vars[k'].field == f;
      assert init[k'].field == f;
      k := LastBinder(init, f);
      assert forall j | 0 <= j < n :: init[j] == vars[j];
    }
  }

  /**
   Template expand/match round trip: for every template the compiler accepts with distinct
   fields, every choice of values that fits it (the literals, and anything non-empty for the
   wildcards) and every percent-encoding of those values, the expanded path splits back into
   the values and the verb, and matching binds each variable to the values it captures.
   */
  lemma ExpandMatchRoundTrip(tmpl: string, httpMethod: string, segs: seq<string>, encs: seq<string>)
    requires ParseTemplate(tmpl).Some? && DistinctFields(ParseTemplate(tmpl).value.vars)
    requires Fits(ParseTemplate(tmpl).value.segments, segs) && EncodesAll(encs, segs)
    ensures
      var t := ParseTemplate(tmpl).value;
      SplitRequest(Expand(encs, t.verb)) == (segs, t.verb) && SpansIn(t.vars, |t.segments|)
    ensures
      var t := ParseTemplate(tmpl).value;
      var bound := Match(Route(httpMethod, t), httpMethod, segs, t.verb);
      && bound.Some?
      && (forall f :: f in bound.value <==> Bound(t.vars, f))
      && (forall k | 0 <= k < |t.vars| ::
            t.vars[k].field in bound.value && bound.value[t.vars[k].field] == Join(segs[t.vars[k].start..t.vars[k].end], '/'))
  {
    AcceptedTemplate(tmpl);
    var t := ParseTemplate(tmpl).value;
    SplitExpanded(encs, segs, t.verb);
    forall f ensures f in Bindings(t.vars, segs) <==> Bound(t.vars, f) {
      BindingsKeys(t.vars, segs, f);
    }
    forall k | 0 <= k < |t.vars|
      ensures t.vars[k].field in Bindings(t.vars, segs)
              && Bindings(t.vars, segs)[t.vars[k].field] == Join(segs[t.vars[k].start..t.vars[k].end], '/')
    {
      BindingsValue(t.vars, segs, k);
    }
  }

  // ---- matching loses nothing ----

  predicate SlashFree(segs: seq<string>) {
    forall i | 0 <= i < |segs| :: '/' !in segs[i]
  }

  lemma SameCapture(v: Variable, a: seq<string>, b: seq<string>)
    requires v.start < v.end <= |a| == |b| && SlashFree(a) && SlashFree(b)
    requires Captured(v, a) == Captured(v, b)
    ensures a[v.start..v.end] == b[v.start..v.end]
  {
    JoinInjective(a[v.start..v.end], b[v.start..v.end], '/');
  }

  /** Every wildcard is captured by a variable that no later variable shadows. */
  ghost predicate Faithful(t: Template) {
    forall i | 0 <= i < |t.segments| && t.segments[i].wildcard ::
      exists k :: 0 <= k < |t.vars| && InSpan(t.vars[k], i) && !Shadowed(t.vars, k)
  }

  /** No literal of the template contains a slash. */
  predicate PlainLiterals(t: Template) {
    forall i | 0 <= i < |t.segments| && !t.segments[i].wildcard :: '/' !in t.segments[i].literal
  }

  /** A request whose segments contain no slash and that the template matches. */
  predicate PlainRequest(t: Template, segs: seq<string>) {
    Fits(t.segments, segs) && SlashFree(segs)
  }

  /** No two different plain requests have the same bindings. */
  ghost predicate LosesNothing(t: Template)
    requires SpansIn(t.vars, |t.segments|)
  {
    forall a, b | PlainRequest(t, a) && PlainRequest(t, b) && Bindings(t.vars, a) == Bindings(t.vars, b) :: a == b
  }

  lemma FaithfulLosesNothing(t: Template, a: seq<string>, b: seq<string>)
    requires Ordered(t.vars, |t.segments|) && Faithful(t)
    requires PlainRequest(t, a) && PlainRequest(t, b) && Bindings(t.vars, a) == Bindings(t.vars, b)
    ensures a == b
  {
    forall i | 0 <= i < |a| ensures a[i] == b[i] {
      assert SegmentFits(t.segments[i], a[i]) && SegmentFits(t.segments[i], b[i]);
      if t.segments[i].wildcard {
        var k :| 0 <= k < |t.vars| && InSpan(t.vars[k], i) && !Shadowed(t.vars, k);
        BindingsValue(t.vars, a, k);
        BindingsValue(t.vars, b, k);
        SameCaptureAt(t.vars[k], a, b, i);
      }
    }
  }

  lemma SameCaptureAt(v: Variable, a: seq<string>, b: seq<string>, i: int)
    requires v.start < v.end <= |a| == |b| && SlashFree(a) && SlashFree(b)
    requires Captured(v, a) == Captured(v, b) && InSpan(v, i)
    ensures a[i] == b[i]
  {
    SameCapture(v, a, b);
    assert a[v.start..v.end][i - v.start] == a[i];
    assert b[v.start..v.end][i - v.start] == b[i];
  }

  /** The request that fills every wildcard with the same value. */
  function Filled(segments: seq<Segment>, value: string): seq<string> {
    seq(|segments|, i requires 0 <= i < |segments| => if segments[i].wildcard then value else segments[i].literal)
  }

  /** A wildcard captured only under a shadowed field can change without changing the bindings. */
  lemma ShadowHides(t: Template, i: int, a: seq<string>, b: seq<string>)
    requires Ordered(t.vars, |t.segments|) && 0 <= i < |t.segments| && |a| == |b| == |t.segments|
    requires forall k | 0 <= k < |t.vars| && InSpan(t.vars[k], i) :: Shadowed(t.vars, k)
    requires forall j | 0 <= j < |a| && j != i :: a[j] == b[j]
    ensures SpansIn(t.vars, |a|) && Bindings(t.vars, a) == Bindings(t.vars, b)
  {
    var ba, bb := Bindings(t.vars, a), Bindings(t.vars, b);
    forall f ensures f in ba <==> f in bb {
      BindingsKeys(t.vars, a, f);
      BindingsKeys(t.vars, b, f);
    }
    forall f | f in ba ensures ba[f] == bb[f] {
      BindingsKeys(t.vars, a, f);
      var k := LastBinder(t.vars, f);
      BindingsValue(t.vars, a, k);
      BindingsValue(t.vars, b, k);
      assert !InSpan(t.vars[k], i);
      var v := t.vars[k];
      assert a[v.start..v.end] == b[v.start..v.end];
    }
  }

  lemma UnfaithfulLoses(t: Template)
    requires Ordered(t.vars, |t.segments|) && PlainLiterals(t) && !Faithful(t)
    ensures SpansIn(t.vars, |t.segments|) && !LosesNothing(t)
  {
    var i :| 0 <= i < |t.segments| && t.segments[i].wildcard
      && !exists k :: 0 <= k < |t.vars| && InSpan(t.vars[k], i) && !Shadowed(t.vars, k);
    var a := Filled(t.segments, "x");
    var b := a[i := "y"];
    ShadowHides(t, i, a, b);
    assert PlainRequest(t, a) && PlainRequest(t, b);
    assert a[i] != b[i];
  }

  lemma SlashInLiteral(t: Template, i: int, a: seq<string>)
    requires 0 <= i < |t.segments| && !t.segments[i].wildcard && '/' in t.segments[i].literal
    ensures !PlainRequest(t, a)
  {
    if Fits(t.segments, a) {
      assert SegmentFits(t.segments[i], a[i]);
    }
  }

  /**
   Matching loses nothing exactly when it should: for every accepted template, two different
   requests without slashes inside a segment never share their bindings if and only if every
   wildcard is captured by a variable whose field no later variable repeats (or a literal
   contains a slash, and no such request matches at all).
   */
  lemma MatchLosesNothingIff(tmpl: string)
    requires ParseTemplate(tmpl).Some?
    ensures SpansIn(ParseTemplate(tmpl).value.vars, |ParseTemplate(tmpl).value.segments|)
    ensures
      var t := ParseTemplate(tmpl).value;
      LosesNothing(t) <==> (!PlainLiterals(t) || Faithful(t))
  {
    AcceptedTemplate(tmpl);
    var t := ParseTemplate(tmpl).value;
    if Faithful(t) {
      forall a, b | PlainRequest(t, a) && PlainRequest(t, b) && Bindings(t.vars, a) == Bindings(t.vars, b)
        ensures a == b
      {
        FaithfulLosesNothing(t, a, b);
      }
    } else if PlainLiterals(t) {
      UnfaithfulLoses(t);
    } else {
      var i :| 0 <= i < |t.segments| && !t.segments[i].wildcard && '/' in t.segments[i].literal;
      forall a ensures !PlainRequest(t, a) {
        SlashInLiteral(t, i, a);
      }
    }
  }

  /** Distinct fields are enough. */
  lemma DistinctFieldsLoseNothing(tmpl: string)
    requires ParseTemplate(tmpl).Some? && DistinctFields(ParseTemplate(tmpl).value.vars)
    ensures Faithful(ParseTemplate(tmpl).value)
  {
    AcceptedTemplate(tmpl);
    var t := ParseTemplate(tmpl).value;
    forall i | 0 <= i < |t.segments| && t.segments[i].wildcard
      ensures exists k :: 0 <= k < |t.vars| && InSpan(t.vars[k], i) && !Shadowed(t.vars, k)
    {
      assert CapturedBy(t.vars, i);
      var k :| 0 <= k < |t.vars| && InSpan(t.vars[k], i);
      assert !Shadowed(t.vars, k);
    }
  }

  /** What the compiler makes of "/{a}/{a}". */
  function TwiceA(): Template {
    Template([Segment("*", true), Segment("*", true)], [Variable("a", 0, 1), Variable("a", 1, 2)], "")
  }

  /** A character that does not cut extends the first piece. */
  lemma PieceExtends(s: string, tail: string, depth: int, head: string, whole: string, rest: seq<string>)
    requires s != [] && s[1..] == tail && !(s[0] == '/' && depth == 0) && whole == [s[0]] + head
    requires Pieces(tail, DepthAfter(s[0], depth)) == [head] + rest
    ensures Pieces(s, depth) == [whole] + rest
  {
  }

  lemma TwicePieces()
    ensures Pieces("{a}/{a}", 0) == ["{a}", "{a}"]
  {
    PieceExtends("}", "", 1, "", "}", []);
    PieceExtends("a}", "}", 1, "}", "a}", []);
    PieceExtends("{a}", "a}", 0, "a}", "{a}", []);
    assert "/{a}"[1..] == "{a}";
    assert Pieces("/{a}", 0) == [""] + ["{a}"];
    PieceExtends("}/{a}", "/{a}", 1, "", "}", ["{a}"]);
    PieceExtends("a}/{a}", "}/{a}", 1, "}", "a}", ["{a}"]);
    PieceExtends("{a}/{a}", "a}/{a}", 0, "a}", "{a}", ["{a}"]);
  }

  lemma StarAlone()
    ensures Split("*", '/') == ["*"] && SegmentsOf(["*"]) == [Segment("*", true)]
  {
    assert Split("", '/') == [""];
    assert "*"[1..] == "" && ['*'] + "" == "*";
    assert ["*"][1..] == [];
  }

  lemma OneVariable(c: Compiled)
    requires c.Compiled?
    ensures AddPiece(c, "{a}") ==
            Compiled(c.segments + [Segment("*", true)], c.vars + [Variable("a", |c.segments|, |c.segments| + 1)])
  {
    assert "{a}"[1..2] == "a";
    assert Index("a", '=') == -1;
    StarAlone();
  }

  lemma TwiceCompiled()
    ensures CompilePieces(["{a}", "{a}"]) == Compiled(TwiceA().segments, TwiceA().vars)
  {
    var one, two := ["{a}"], ["{a}", "{a}"];
    var none := CompilePieces([]);
    assert one[..0] == [] && two[..1] == one;
    OneVariable(none);
    assert CompilePieces(one) == AddPiece(none, "{a}");
    OneVariable(CompilePieces(one));
    assert CompilePieces(two) == AddPiece(CompilePieces(one), "{a}");
    assert [Segment("*", true)] + [Segment("*", true)] == TwiceA().segments;
    assert [Variable("a", 0, 1)] + [Variable("a", 1, 2)] == TwiceA().vars;
  }

  lemma TwiceCompiles()
    ensures ParseTemplate("/{a}/{a}") == Some(TwiceA())
  {
    var tmpl := "/{a}/{a}";
    LastIndexAbsent(tmpl, ':');
    assert tmpl[1..] == "{a}/{a}";
    TwicePieces();
    TwiceCompiled();
  }

  /** A field used twice loses the first value: "/{a}/{a}" is accepted and cannot tell "/x/z" from "/y/z". */
  lemma RepeatedFieldLosesRequest()
    ensures ParseTemplate("/{a}/{a}") == Some(TwiceA()) && SpansIn(TwiceA().vars, 2) && !LosesNothing(TwiceA())
    ensures
      var rt := Route("GET", TwiceA());
      && Match(rt, "GET", ["x", "z"], "").Some?
      && Match(rt, "GET", ["x", "z"], "") == Match(rt, "GET", ["y", "z"], "")
  {
    TwiceCompiles();
    TwiceLoses();
  }

  lemma TwiceLoses()
    ensures SpansIn(TwiceA().vars, 2) && !LosesNothing(TwiceA())
    ensures PlainRequest(TwiceA(), ["x", "z"]) && PlainRequest(TwiceA(), ["y", "z"])
    ensures Bindings(TwiceA().vars, ["x", "z"]) == Bindings(TwiceA().vars, ["y", "z"])
  {
    var t := TwiceA();
    forall k | 0 <= k < 2 && InSpan(t.vars[k], 0) ensures Shadowed(t.vars, k) {
      assert t.vars[1].field == t.vars[0].field;
    }
    ShadowHides(t, 0, ["x", "z"], ["y", "z"]);
    assert PlainRequest(t, ["x", "z"]) && PlainRequest(t, ["y", "z"]);
  }
}

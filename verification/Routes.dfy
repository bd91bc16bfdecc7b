/**
 REST path templates (rest/route.go): "Path template syntax" of google/api/http.proto, with
 percent-encoding per section 2.1 of RFC 3986. Strings are byte strings.
 */
module Routes {
  import opened Wrappers
  import opened Text

  datatype Segment = Segment(literal: string, wildcard: bool)

  /** A request field bound to the half-open range of segments it captures. */
  datatype Variable = Variable(field: string, start: nat, end: nat)

  datatype Template = Template(segments: seq<Segment>, vars: seq<Variable>, verb: string)

  datatype Route = Route(httpMethod: string, template: Template)

  // ---- templates ----

  function DepthAfter(c: char, depth: int): int {
    if c == '{' then depth + 1 else if c == '}' then depth - 1 else depth
  }

  /** Puts a prefix in front of the first piece. */
  function Prepend(prefix: string, pieces: seq<string>): seq<string>
    requires |pieces| >= 1
  {
    [prefix + pieces[0]] + pieces[1..]
  }

  /** A template split on the '/' that stand outside braces. */
  function Pieces(s: string, depth: int): (r: seq<string>)
    ensures |r| >= 1
    decreases |s|
  {
    if s == [] then [[]]
    else if s[0] == '/' && depth == 0 then [[]] + Pieces(s[1..], depth)
    else Prepend([s[0]], Pieces(s[1..], DepthAfter(s[0], depth)))
  }

  function HasPrefix(s: string, c: char): bool {
    s != [] && s[0] == c
  }

  function HasSuffix(s: string, c: char): bool {
    s != [] && s[|s| - 1] == c
  }

  /** The custom-method suffix: a last ':' with no '/' or brace after it. */
  function VerbIndex(tmpl: string): (i: int)
    ensures -1 <= i < |tmpl|
    ensures i >= 0 ==> tmpl[i] == ':'
  {
    var i := LastIndex(tmpl, ':');
    if i >= 0 && '/' !in tmpl[i..] && '{' !in tmpl[i..] && '}' !in tmpl[i..] then i else -1
  }

  /** Field and pattern of the text between braces: cut at the first '='; no pattern means "*". */
  function FieldOf(inner: string): string {
    var i := Index(inner, '=');
    if i < 0 then inner else inner[..i]
  }

  function PatternOf(inner: string): string {
    var i := Index(inner, '=');
    if i < 0 then "*" else inner[i + 1..]
  }

  function SegmentOf(sub: string): Segment {
    Segment(sub, sub == "*")
  }

  function SegmentsOf(subs: seq<string>): (r: seq<Segment>)
    ensures |r| == |subs|
    ensures forall i | 0 <= i < |subs| :: r[i] == SegmentOf(subs[i])
  {
    if subs == [] then [] else [SegmentOf(subs[0])] + SegmentsOf(subs[1..])
  }

  /** A template compiled so far, or refused. */
  datatype Compiled = Refused | Compiled(segments: seq<Segment>, vars: seq<Variable>)

  function AddPiece(c: Compiled, raw: string): Compiled
    requires c.Compiled?
  {
    if !HasPrefix(raw, '{') then Compiled(c.segments + [Segment(raw, false)], c.vars)
    else if !HasSuffix(raw, '}') then Refused
    else
      var inner := raw[1..|raw| - 1];
      var subs := Split(PatternOf(inner), '/');
      if "**" in subs then Refused
      else Compiled(c.segments + SegmentsOf(subs),
                    c.vars + [Variable(FieldOf(inner), |c.segments|, |c.segments| + |subs|)])
  }

  /** The pieces compiled in order; the first refused piece refuses the template. */
  function CompilePieces(pieces: seq<string>): Compiled {
    if pieces == [] then Compiled([], [])
    else
      match CompilePieces(pieces[..|pieces| - 1])
      case Refused => Refused
      case Compiled(segments, vars) => AddPiece(Compiled(segments, vars), pieces[|pieces| - 1])
  }

  function ParseTemplate(tmpl: string): Option<Template> {
    if !HasPrefix(tmpl, '/') then None
    else
      var i := VerbIndex(tmpl);
      var body := if i >= 0 then tmpl[..i] else tmpl;
      var verb := if i >= 0 then tmpl[i + 1..] else "";
      match CompilePieces(Pieces(body[1..], 0))
      case Refused => None
      case Compiled(segments, vars) => Some(Template(segments, vars, verb))
  }

  // ---- requests ----

  function HexValue(c: char): Option<int> {
    if '0' <= c <= '9' then Some(c as int - '0' as int)
    else if 'a' <= c <= 'f' then Some(c as int - 'a' as int + 10)
    else if 'A' <= c <= 'F' then Some(c as int - 'A' as int + 10)
    else None
  }

  /** url.PathUnescape: None is its error. */
  function Unescape(s: string): Option<string>
    decreases |s|
  {
    if s == [] then Some([])
    else if s[0] == '%' then
      if |s| < 3 || HexValue(s[1]).None? || HexValue(s[2]).None? then None
      else
        (match Unescape(s[3..])
         case None => None
         case Some(rest) => Some([(16 * HexValue(s[1]).value + HexValue(s[2]).value) as char] + rest))
    else
      match Unescape(s[1..])
      case None => None
      case Some(rest) => Some([s[0]] + rest)
  }

  /** A segment that does not unescape is kept as it stands. */
  function UnescapedOrRaw(s: string): string {
    match Unescape(s)
    case Some(u) => u
    case None => s
  }

  function UnescapeAll(segs: seq<string>): (r: seq<string>)
    ensures |r| == |segs|
    ensures forall i | 0 <= i < |segs| :: r[i] == UnescapedOrRaw(segs[i])
  {
    seq(|segs|, i requires 0 <= i < |segs| => UnescapedOrRaw(segs[i]))
  }

  function TrimSlash(path: string): string {
    if HasPrefix(path, '/') then path[1..] else path
  }

  function RequestVerbIndex(path: string): (i: int)
    ensures -1 <= i < |path|
  {
    var i := LastIndex(path, ':');
    if i >= 0 && '/' !in path[i..] then i else -1
  }

  /** The unescaped segments of a request path and its custom-method verb. */
  function SplitRequest(path: string): (seq<string>, string) {
    var p := TrimSlash(path);
    var i := RequestVerbIndex(p);
    var body := if i >= 0 then p[..i] else p;
    (UnescapeAll(Split(body, '/')), if i >= 0 then p[i + 1..] else "")
  }

  // ---- matching ----

  predicate SegmentFits(s: Segment, value: string) {
    if s.wildcard then value != "" else value == s.literal
  }

  predicate Fits(segments: seq<Segment>, segs: seq<string>) {
    |segs| == |segments| && forall i | 0 <= i < |segs| :: SegmentFits(segments[i], segs[i])
  }

  predicate SpansIn(vars: seq<Variable>, n: nat) {
    forall k | 0 <= k < |vars| :: vars[k].start <= vars[k].end <= n
  }

  function Captured(v: Variable, segs: seq<string>): string
    requires v.start <= v.end <= |segs|
  {
    Join(segs[v.start..v.end], '/')
  }

  /** The variables bound in order, a later one overwriting an earlier one of the same field. */
  function Bindings(vars: seq<Variable>, segs: seq<string>): map<string, string>
    requires SpansIn(vars, |segs|)
  {
    if vars == [] then map[]
    else
      var v := vars[|vars| - 1];
      Bindings(vars[..|vars| - 1], segs)[v.field := Captured(v, segs)]
  }

  function Match(rt: Route, httpMethod: string, segs: seq<string>, verb: string): Option<map<string, string>>
    requires SpansIn(rt.template.vars, |rt.template.segments|)
  {
    if httpMethod == rt.httpMethod && verb == rt.template.verb && Fits(rt.template.segments, segs)
    then Some(Bindings(rt.template.vars, segs)) else None
  }

  // ---- the source's loops ----

  lemma PrependNothing(pieces: seq<string>)
    requires |pieces| >= 1
    ensures Prepend([], pieces) == pieces
  {
    assert [] + pieces[0] == pieces[0];
  }

  /** One character of the pass: it ends the current piece or extends it. */
  lemma PieceStep(current: string, s: string, depth: int)
    requires s != []
    ensures Prepend(current, Pieces(s, depth)) ==
            if s[0] == '/' && depth == 0 then [current] + Prepend([], Pieces(s[1..], depth))
            else Prepend(current + [s[0]], Pieces(s[1..], DepthAfter(s[0], depth)))
  {
    var rest := Pieces(s[1..], DepthAfter(s[0], depth));
    if s[0] == '/' && depth == 0 {
      PrependNothing(rest);
      assert current + [] == current;
    } else {
      assert current + ([s[0]] + rest[0]) == current + [s[0]] + rest[0];
    }
  }

  /** The pieces still to come while the pass stands at i in a piece that began at start. */
  ghost function ToCome(s: string, start: nat, i: nat, depth: int): seq<string>
    requires start <= i <= |s|
  {
    Prepend(s[start..i], Pieces(s[i..], depth))
  }

  lemma ToComeAtFirst(s: string)
    ensures ToCome(s, 0, 0, 0) == Pieces(s, 0)
  {
    assert s[0..0] == [] && s[0..] == s;
    PrependNothing(Pieces(s, 0));
  }

  lemma ToComeNext(s: string, start: nat, i: nat, depth: int)
    requires start <= i < |s|
    ensures ToCome(s, start, i, depth) ==
            if s[i] == '/' && depth == 0 then [s[start..i]] + ToCome(s, i + 1, i + 1, depth)
            else ToCome(s, start, i + 1, DepthAfter(s[i], depth))
  {
    var rest := s[i..];
    assert rest[0] == s[i] && rest[1..] == s[i + 1..];
    PieceStep(s[start..i], rest, depth);
    if s[i] == '/' && depth == 0 {
      assert s[i + 1..i + 1] == [];
    } else {
      assert s[start..i] + [s[i]] == s[start..i + 1];
    }
  }

  lemma ToComeAtLast(s: string, start: nat, depth: int)
    requires start <= |s|
    ensures ToCome(s, start, |s|, depth) == [s[start..]]
  {
    assert s[|s|..] == [];
    assert s[start..|s|] + [] == s[start..];
  }

  /** splitTemplate: one pass with a brace depth and the start of the current piece. */
  method SplitTemplate(s: string) returns (out: seq<string>)
    ensures out == Pieces(s, 0)
  {
    out := [];
    var depth, start := 0, 0;
    ToComeAtFirst(s);
    for i := 0 to |s|
      invariant 0 <= start <= i
      invariant out + ToCome(s, start, i, depth) == Pieces(s, 0)
    {
      ToComeNext(s, start, i, depth);
      if s[i] == '{' {
        depth := depth + 1;
      } else if s[i] == '}' {
        depth := depth - 1;
      } else if s[i] == '/' && depth == 0 {
        Reassociate(out, s[start..i], ToCome(s, i + 1, i + 1, depth));
        out := out + [s[start..i]];
        start := i + 1;
      }
    }
    ToComeAtLast(s, start, depth);
    out := out + [s[start..]];
  }

  lemma Reassociate(out: seq<string>, piece: string, rest: seq<string>)
    ensures out + ([piece] + rest) == out + [piece] + rest
  {
  }

  /** The loop of parseTemplate over the sub-patterns of one variable. */
  method AppendPattern(segments: seq<Segment>, subs: seq<string>) returns (ok: bool, out: seq<Segment>)
    ensures ok == ("**" !in subs)
    ensures ok ==> out == segments + SegmentsOf(subs)
  {
    ok, out := true, segments;
    for i := 0 to |subs|
      invariant "**" !in subs[..i]
      invariant out == segments + SegmentsOf(subs)[..i]
    {
      if subs[i] == "**" {
        assert subs[i] in subs;
        return false, out;
      }
      out := out + [Segment(subs[i], subs[i] == "*")];
      assert subs[..i + 1] == subs[..i] + [subs[i]];
      assert SegmentsOf(subs)[..i + 1] == SegmentsOf(subs)[..i] + [SegmentOf(subs[i])];
    }
    assert subs[..|subs|] == subs;
  }

  lemma {:induction false} RefusedStays(pieces: seq<string>, k: nat)
    requires k <= |pieces| && CompilePieces(pieces[..k]).Refused?
    ensures CompilePieces(pieces).Refused?
    decreases |pieces| - k
  {
    if k < |pieces| {
      assert pieces[..k + 1][..k] == pieces[..k];
      RefusedStays(pieces, k + 1);
    } else {
      assert pieces[..k] == pieces;
    }
  }

  /** The loop of parseTemplate over the pieces. */
  method CompileLoop(pieces: seq<string>) returns (c: Compiled)
    ensures c == CompilePieces(pieces)
  {
    var segments: seq<Segment>, vars: seq<Variable> := [], [];
    for k := 0 to |pieces|
      invariant CompilePieces(pieces[..k]) == Compiled(segments, vars)
    {
      var raw := pieces[k];
      assert pieces[..k + 1][..k] == pieces[..k] && pieces[..k + 1][k] == raw;
      assert CompilePieces(pieces[..k + 1]) == AddPiece(Compiled(segments, vars), raw);
      if !HasPrefix(raw, '{') {
        segments := segments + [Segment(raw, false)];
      } else if !HasSuffix(raw, '}') {
        RefusedStays(pieces, k + 1);
        return Refused;
      } else {
        var inner := raw[1..|raw| - 1];
        var start := |segments|;
        var ok, out := AppendPattern(segments, Split(PatternOf(inner), '/'));
        if !ok {
          RefusedStays(pieces, k + 1);
          return Refused;
        }
        segments := out;
        vars := vars + [Variable(FieldOf(inner), start, |segments|)];
      }
    }
    assert pieces[..|pieces|] == pieces;
    c := Compiled(segments, vars);
  }

  /** parseTemplate. */
  method Parse(tmpl: string) returns (r: Option<Template>)
    ensures r == ParseTemplate(tmpl)
  {
    if !HasPrefix(tmpl, '/') {
      return None;
    }
    var i := VerbIndex(tmpl);
    var body := if i >= 0 then tmpl[..i] else tmpl;
    var verb := if i >= 0 then tmpl[i + 1..] else "";
    var pieces := SplitTemplate(body[1..]);
    var compiled := CompileLoop(pieces);
    match compiled {
      case Refused => r := None;
      case Compiled(segments, vars) => r := Some(Template(segments, vars, verb));
    }
  }

  /** The loop of splitRequestPath, which rewrites the segments in place. */
  method UnescapeInPlace(segs: array<string>)
    modifies segs
    ensures segs[..] == UnescapeAll(old(segs[..]))
  {
    for i := 0 to segs.Length
      invariant forall j | 0 <= j < i :: segs[j] == UnescapedOrRaw(old(segs[j]))
      invariant forall j | i <= j < segs.Length :: segs[j] == old(segs[j])
    {
      match Unescape(segs[i]) {
        case Some(u) => segs[i] := u;
        case None =>
      }
    }
  }

  method SplitRequestPath(path: string) returns (segs: array<string>, verb: string)
    ensures fresh(segs) && (segs[..], verb) == SplitRequest(path)
  {
    var p := TrimSlash(path);
    var i := RequestVerbIndex(p);
    verb := if i >= 0 then p[i + 1..] else "";
    var parts := Split(if i >= 0 then p[..i] else p, '/');
    segs := new string[|parts|](j requires 0 <= j < |parts| => parts[j]);
    assert segs[..] == parts;
    UnescapeInPlace(segs);
  }

  /** route.match, with its two loops. */
  method MatchRoute(rt: Route, httpMethod: string, segs: seq<string>, verb: string) returns (r: Option<map<string, string>>)
    requires SpansIn(rt.template.vars, |rt.template.segments|)
    ensures r == Match(rt, httpMethod, segs, verb)
  {
    var t := rt.template;
    if httpMethod != rt.httpMethod || verb != t.verb || |segs| != |t.segments| {
      return None;
    }
    for i := 0 to |segs|
      invariant forall j | 0 <= j < i :: SegmentFits(t.segments[j], segs[j])
    {
      if t.segments[i].wildcard {
        if segs[i] == "" {
          assert !SegmentFits(t.segments[i], segs[i]);
          return None;
        }
      } else if segs[i] != t.segments[i].literal {
        assert !SegmentFits(t.segments[i], segs[i]);
        return None;
      }
    }
    var bound: map<string, string> := map[];
    for k := 0 to |t.vars|
      invariant bound == Bindings(t.vars[..k], segs)
    {
      var v := t.vars[k];
      assert t.vars[..k + 1][..k] == t.vars[..k];
      bound := bound[v.field := Join(segs[v.start..v.end], '/')];
    }
    assert t.vars[..|t.vars|] == t.vars;
    r := Some(bound);
  }
}

/**
 What the text of a path template means: compiling undoes printing, for every template that
 section "Path template syntax" of google/api/http.proto can describe with single-segment
 wildcards, and the compiled route matches exactly the requests the description fits.
 */
module Templates {
  import opened Wrappers
  import opened Text
  import opened Routes
  import opened RouteLaws

  /** One piece between the outer slashes: text, {field} or {field=sub/sub/...}. */
  datatype Piece = Literal(text: string) | Bare(field: string) | Pattern(field: string, subs: seq<string>)

  predicate NoneOf(s: string, chars: set<char>) {
    forall i | 0 <= i < |s| :: s[i] !in chars
  }

  predicate WellFormedPiece(p: Piece) {
    match p
    case Literal(text) => NoneOf(text, {'/', '{', '}'})
    case Bare(field) => NoneOf(field, {'{', '}', '='})
    case Pattern(field, subs) =>
      && NoneOf(field, {'{', '}', '='}) && subs != []
      && forall i | 0 <= i < |subs| :: NoneOf(subs[i], {'/', '{', '}'})
  }

  /** Pieces and verb as they can be written; without a verb the last text must not end in one. */
  predicate WellFormedTemplate(pieces: seq<Piece>, verb: string) {
    && pieces != []
    && (forall i | 0 <= i < |pieces| :: WellFormedPiece(pieces[i]))
    && NoneOf(verb, {'/', '{', '}', ':'})
    && (verb == "" && pieces[|pieces| - 1].Literal? ==> ':' !in pieces[|pieces| - 1].text)
  }

  function PrintPiece(p: Piece): string {
    match p
    case Literal(text) => text
    case Bare(field) => "{" + field + "}"
    case Pattern(field, subs) => "{" + field + "=" + Join(subs, '/') + "}"
  }

  function PrintAll(pieces: seq<Piece>): (r: seq<string>)
    ensures |r| == |pieces|
  {
    if pieces == [] then [] else PrintAll(pieces[..|pieces| - 1]) + [PrintPiece(pieces[|pieces| - 1])]
  }

  function Print(pieces: seq<Piece>, verb: string): string {
    "/" + Join(PrintAll(pieces), '/') + if verb == "" then "" else ":" + verb
  }

  // ---- what the description stands for ----

  function SubSegments(subs: seq<string>): (r: seq<Segment>)
    ensures |r| == |subs|
    ensures forall i | 0 <= i < |subs| :: r[i] == Segment(subs[i], subs[i] == "*")
  {
    seq(|subs|, i requires 0 <= i < |subs| => Segment(subs[i], subs[i] == "*"))
  }

  /** The segments of a piece; text is never a wildcard, not even "*". */
  function PieceSegments(p: Piece): seq<Segment> {
    match p
    case Literal(text) => [Segment(text, false)]
    case Bare(_) => [Segment("*", true)]
    case Pattern(_, subs) => SubSegments(subs)
  }

  function AllSegments(pieces: seq<Piece>): seq<Segment> {
    if pieces == [] then []
    else AllSegments(pieces[..|pieces| - 1]) + PieceSegments(pieces[|pieces| - 1])
  }

  /** Each {...} binds its field to the segments of its own pattern. */
  function AllVariables(pieces: seq<Piece>): seq<Variable> {
    if pieces == [] then []
    else
      var init := pieces[..|pieces| - 1];
      var last := pieces[|pieces| - 1];
      var start := |AllSegments(init)|;
      AllVariables(init) +
      if last.Literal? then [] else [Variable(last.field, start, start + |PieceSegments(last)|)]
  }

  function Stars(p: Piece): bool {
    p.Pattern? && "**" in p.subs
  }

  // ---- cutting at the outer slashes ----

  /** The depth after reading a text that is not cut, or None if a slash cuts it. */
  function Scan(s: string, depth: int): Option<int>
    decreases |s|
  {
    if s == [] then Some(depth)
    else if s[0] == '/' && depth == 0 then None
    else Scan(s[1..], DepthAfter(s[0], depth))
  }

  lemma {:induction false} ScanPieces(p: string, s: string, depth: int)
    requires Scan(p, depth).Some?
    ensures Pieces(p + s, depth) == Prepend(p, Pieces(s, Scan(p, depth).value))
    decreases |p|
  {
    if p == [] {
      assert p + s == s;
      PrependNothing(Pieces(s, depth));
    } else {
      ScanPieces(p[1..], s, DepthAfter(p[0], depth));
      assert (p + s)[1..] == p[1..] + s && (p + s)[0] == p[0];
      var rest := Pieces(s, Scan(p, depth).value);
      assert [p[0]] + (p[1..] + rest[0]) == p + rest[0];
    }
  }

  lemma {:induction false} ScanPlain(s: string, depth: int)
    requires NoneOf(s, {'{', '}'}) && (depth == 0 ==> '/' !in s)
    ensures Scan(s, depth) == Some(depth)
    decreases |s|
  {
    if s != [] {
      assert s[0] in s;
      ScanPlain(s[1..], depth);
    }
  }

  lemma {:induction false} ScanAppend(a: string, b: string, depth: int)
    requires Scan(a, depth).Some?
    ensures Scan(a + b, depth) == Scan(b, Scan(a, depth).value)
    decreases |a|
  {
    if a == [] {
      assert a + b == b;
    } else {
      assert (a + b)[1..] == a[1..] + b && (a + b)[0] == a[0];
      ScanAppend(a[1..], b, DepthAfter(a[0], depth));
    }
  }

  lemma ScanBraced(inner: string)
    requires NoneOf(inner, {'{', '}'})
    ensures Scan("{" + inner + "}", 0) == Some(0)
  {
    var s := "{" + inner + "}";
    assert s[1..] == inner + "}";
    ScanPlain(inner, 1);
    ScanAppend(inner, "}", 1);
    assert "}"[1..] == "";
    assert Scan("}", 1) == Some(0);
  }

  lemma {:induction false} JoinNone(parts: seq<string>, sep: char, chars: set<char>)
    requires sep !in chars && forall i | 0 <= i < |parts| :: NoneOf(parts[i], chars)
    ensures NoneOf(Join(parts, sep), chars)
  {
    if |parts| > 1 {
      JoinNone(parts[1..], sep, chars);
    }
  }

  /** What stands between the braces of a variable. */
  function Inner(p: Piece): string
    requires !p.Literal?
  {
    match p
    case Bare(field) => field
    case Pattern(field, subs) => field + "=" + Join(subs, '/')
  }

  lemma PrintedVariable(p: Piece)
    requires WellFormedPiece(p) && !p.Literal?
    ensures PrintPiece(p) == "{" + Inner(p) + "}" && NoneOf(Inner(p), {'{', '}'})
  {
    if p.Pattern? {
      JoinNone(p.subs, '/', {'{', '}'});
      assert "{" + p.field + "=" + Join(p.subs, '/') + "}" == "{" + (p.field + "=" + Join(p.subs, '/')) + "}";
    }
  }

  lemma ScanPiece(p: Piece)
    requires WellFormedPiece(p)
    ensures Scan(PrintPiece(p), 0) == Some(0)
  {
    if p.Literal? {
      ScanPlain(p.text, 0);
    } else {
      PrintedVariable(p);
      ScanBraced(Inner(p));
    }
  }

  /** Texts that are not cut, joined by slashes, are cut exactly there. */
  lemma {:induction false} PiecesOfJoin(parts: seq<string>)
    requires parts != [] && forall i | 0 <= i < |parts| :: Scan(parts[i], 0) == Some(0)
    ensures Pieces(Join(parts, '/'), 0) == parts
  {
    var p := parts[0];
    if |parts| == 1 {
      ScanPieces(p, "", 0);
      assert p + "" == p;
      assert parts == [p];
    } else {
      var rest := Join(parts[1..], '/');
      PiecesOfJoin(parts[1..]);
      ScanPieces(p, "/" + rest, 0);
      assert ("/" + rest)[1..] == rest;
      assert Pieces("/" + rest, 0) == [[]] + parts[1..];
      assert p + [] == p;
      assert Join(parts, '/') == p + ("/" + rest);
      assert parts == [p] + parts[1..];
    }
  }

  lemma {:induction false} PrintedAt(pieces: seq<Piece>, i: nat)
    requires i < |pieces|
    ensures PrintAll(pieces)[i] == PrintPiece(pieces[i])
  {
    if i < |pieces| - 1 {
      PrintedAt(pieces[..|pieces| - 1], i);
    }
  }

  lemma PiecesOfPrint(pieces: seq<Piece>)
    requires pieces != [] && forall i | 0 <= i < |pieces| :: WellFormedPiece(pieces[i])
    ensures Pieces(Join(PrintAll(pieces), '/'), 0) == PrintAll(pieces)
  {
    var parts := PrintAll(pieces);
    forall i | 0 <= i < |parts| ensures Scan(parts[i], 0) == Some(0) {
      PrintedAt(pieces, i);
      ScanPiece(pieces[i]);
    }
    PiecesOfJoin(parts);
  }

  // ---- the variables ----

  lemma IndexOfFirst(a: string, c: char, b: string)
    requires c !in a
    ensures Index(a + [c] + b, c) == |a|
  {
    var s := a + [c] + b;
    assert s[|a|] == c;
    assert forall j | 0 <= j < |a| :: s[j] == a[j] && s[j] != c;
  }

  lemma NoneOfAbsent(s: string, chars: set<char>, c: char)
    requires NoneOf(s, chars) && c in chars
    ensures c !in s
  {
  }

  /** Field and pattern are read back from between the braces. */
  lemma InnerParts(p: Piece)
    requires WellFormedPiece(p) && !p.Literal?
    ensures FieldOf(Inner(p)) == p.field
    ensures Split(PatternOf(Inner(p)), '/') == if p.Bare? then ["*"] else p.subs
  {
    NoneOfAbsent(p.field, {'{', '}', '='}, '=');
    if p.Bare? {
      StarAlone();
    } else {
      var pattern := Join(p.subs, '/');
      IndexOfFirst(p.field, '=', pattern);
      var inner := p.field + ['='] + pattern;
      assert Inner(p) == inner;
      assert inner[..|p.field|] == p.field && inner[|p.field| + 1..] == pattern;
      forall i | 0 <= i < |p.subs| ensures '/' !in p.subs[i] {
        NoneOfAbsent(p.subs[i], {'/', '{', '}'}, '/');
      }
      SplitJoin(p.subs, '/');
    }
  }

  lemma SegmentsAgree(subs: seq<string>)
    ensures SegmentsOf(subs) == SubSegments(subs)
  {
  }

  lemma Braced(inner: string)
    ensures
      var raw := "{" + inner + "}";
      HasPrefix(raw, '{') && HasSuffix(raw, '}') && raw[1..|raw| - 1] == inner
  {
  }

  lemma AddBraced(segments: seq<Segment>, vars: seq<Variable>, inner: string, field: string, subs: seq<string>)
    requires FieldOf(inner) == field && Split(PatternOf(inner), '/') == subs
    ensures
      AddPiece(Compiled(segments, vars), "{" + inner + "}") ==
      if "**" in subs then Refused
      else Compiled(segments + SubSegments(subs), vars + [Variable(field, |segments|, |segments| + |subs|)])
  {
    Braced(inner);
    SegmentsAgree(subs);
  }

  /** What a piece adds to a compiled template, or that it is refused for a "**". */
  function Added(c: Compiled, p: Piece): Compiled {
    if c.Refused? || Stars(p) then Refused
    else Compiled(c.segments + PieceSegments(p),
                  c.vars + if p.Literal? then [] else [Variable(p.field, |c.segments|, |c.segments| + |PieceSegments(p)|)])
  }

  lemma AddText(c: Compiled, text: string)
    requires c.Compiled? && NoneOf(text, {'/', '{', '}'})
    ensures AddPiece(c, text) == Compiled(c.segments + [Segment(text, false)], c.vars)
  {
    assert text != "" ==> text[0] !in {'/', '{', '}'};
  }

  lemma AddVariable(c: Compiled, p: Piece)
    requires c.Compiled? && WellFormedPiece(p) && !p.Literal?
    ensures AddPiece(c, PrintPiece(p)) == Added(c, p)
  {
    PrintedVariable(p);
    InnerParts(p);
    var subs := if p.Bare? then ["*"] else p.subs;
    SegmentsOfPiece(p, subs);
    AddBracedText(c, p, PrintPiece(p), Inner(p), subs);
  }

  lemma SegmentsOfPiece(p: Piece, subs: seq<string>)
    requires !p.Literal? && subs == if p.Bare? then ["*"] else p.subs
    ensures PieceSegments(p) == SubSegments(subs) && (Stars(p) <==> "**" in subs)
  {
    if p.Bare? {
      assert subs[0] == "*";
    }
  }

  lemma AddBracedText(c: Compiled, p: Piece, text: string, inner: string, subs: seq<string>)
    requires c.Compiled? && !p.Literal? && text == "{" + inner + "}"
    requires FieldOf(inner) == p.field && Split(PatternOf(inner), '/') == subs
    requires PieceSegments(p) == SubSegments(subs) && (Stars(p) <==> "**" in subs)
    ensures AddPiece(c, text) == Added(c, p)
  {
    AddBraced(c.segments, c.vars, inner, p.field, subs);
  }

  lemma AddPrinted(c: Compiled, p: Piece)
    requires c.Compiled? && WellFormedPiece(p)
    ensures AddPiece(c, PrintPiece(p)) == Added(c, p)
  {
    if p.Literal? {
      AddText(c, p.text);
      assert c.vars + [] == c.vars;
    } else {
      AddVariable(c, p);
    }
  }

  lemma CompileOneMore(parts: seq<string>, last: string)
    ensures CompilePieces(parts + [last]) ==
            match CompilePieces(parts)
            case Refused => Refused
            case Compiled(segments, vars) => AddPiece(Compiled(segments, vars), last)
  {
    var all := parts + [last];
    assert all[..|all| - 1] == parts && all[|all| - 1] == last;
  }

  ghost predicate SomeStars(pieces: seq<Piece>) {
    exists i :: 0 <= i < |pieces| && Stars(pieces[i])
  }

  /** What the whole description compiles to. */
  ghost function Described(pieces: seq<Piece>): Compiled {
    if SomeStars(pieces) then Refused else Compiled(AllSegments(pieces), AllVariables(pieces))
  }

  lemma StarsOneMore(pieces: seq<Piece>)
    requires pieces != []
    ensures SomeStars(pieces) <==> SomeStars(pieces[..|pieces| - 1]) || Stars(pieces[|pieces| - 1])
  {
    var init := pieces[..|pieces| - 1];
    if SomeStars(init) {
      var i :| 0 <= i < |init| && Stars(init[i]);
      assert Stars(pieces[i]);
    }
    if SomeStars(pieces) {
      var i :| 0 <= i < |pieces| && Stars(pieces[i]);
      assert i < |init| ==> Stars(init[i]);
    }
  }

  /** One more piece adds to what the others compile to. */
  lemma DescribedOneMore(segments: seq<Segment>, vars: seq<Variable>, pieces: seq<Piece>)
    requires pieces != []
    requires segments == AllSegments(pieces[..|pieces| - 1]) && vars == AllVariables(pieces[..|pieces| - 1])
    ensures !SomeStars(pieces) ==> Described(pieces) == Added(Compiled(segments, vars), pieces[|pieces| - 1])
  {
    StarsOneMore(pieces);
  }

  lemma CompileStep(pieces: seq<Piece>)
    requires pieces != [] && WellFormedPiece(pieces[|pieces| - 1])
    requires CompilePieces(PrintAll(pieces[..|pieces| - 1])) == Described(pieces[..|pieces| - 1])
    ensures CompilePieces(PrintAll(pieces)) == Described(pieces)
  {
    var init, last := pieces[..|pieces| - 1], pieces[|pieces| - 1];
    StarsOneMore(pieces);
    CompileOneMore(PrintAll(init), PrintPiece(last));
    if !SomeStars(init) {
      AddPrinted(Described(init), last);
      DescribedOneMore(AllSegments(init), AllVariables(init), pieces);
    }
  }

  lemma {:induction false} CompilePrinted(pieces: seq<Piece>)
    requires forall i | 0 <= i < |pieces| :: WellFormedPiece(pieces[i])
    ensures CompilePieces(PrintAll(pieces)) == Described(pieces)
  {
    if pieces != [] {
      CompilePrinted(pieces[..|pieces| - 1]);
      CompileStep(pieces);
    }
  }

  // ---- the verb ----

  /** The text after the last slash or brace of a body contains no colon. */
  predicate NoVerbAtEnd(body: string) {
    forall i | 0 <= i < |body| && body[i] == ':' :: exists j :: i < j < |body| && body[j] in {'/', '{', '}'}
  }

  lemma VerbFound(body: string, verb: string)
    requires NoneOf(verb, {'/', '{', '}', ':'})
    ensures VerbIndex(body + [':'] + verb) == |body|
  {
    var tmpl := body + [':'] + verb;
    NoneOfAbsent(verb, {'/', '{', '}', ':'}, ':');
    LastIndexOfSuffix(body, ':', verb);
    assert tmpl[|body|..] == [':'] + verb;
  }

  lemma NoVerbFound(body: string)
    requires NoVerbAtEnd(body)
    ensures VerbIndex(body) == -1
  {
    var i := LastIndex(body, ':');
    if i >= 0 {
      var j :| i < j < |body| && body[j] in {'/', '{', '}'};
      assert body[i..][j - i] == body[j];
    }
  }

  lemma {:induction false} JoinEnds(parts: seq<string>)
    requires parts != []
    ensures
      var last := parts[|parts| - 1];
      exists before :: Join(parts, '/') == before + last && (before == "" || before[|before| - 1] == '/')
  {
    if |parts| == 1 {
      assert parts[0] == "" + parts[0];
    } else {
      var init, last := parts[..|parts| - 1], parts[|parts| - 1];
      JoinAppend(init, last, '/');
      assert init + [last] == parts;
      var before := Join(init, '/') + ['/'];
      assert Join(parts, '/') == before + last;
    }
  }

  lemma ColonBefore(before: string, last: string, i: int)
    requires ':' !in last && 0 <= i < 1 + |before| + |last| && ("/" + (before + last))[i] == ':'
    ensures 0 < i <= |before|
  {
    var body := "/" + (before + last);
    assert forall k | 1 + |before| <= k < |body| :: body[k] == last[k - 1 - |before|] && body[k] in last;
  }

  /** A body whose last piece is a variable, or text without a colon, ends in no verb. */
  lemma BodyEnds(before: string, last: string)
    requires before == "" || before[|before| - 1] == '/'
    requires ':' !in last || (last != "" && last[|last| - 1] == '}')
    ensures NoVerbAtEnd("/" + (before + last))
  {
    var body := "/" + (before + last);
    assert forall k | 0 <= k < |last| :: body[1 + |before| + k] == last[k];
    forall i | 0 <= i < |body| && body[i] == ':' ensures exists j :: i < j < |body| && body[j] in {'/', '{', '}'} {
      if ':' in last {
        assert body[|body| - 1] == '}';
      } else {
        ColonBefore(before, last, i);
        assert body[|before|] == before[|before| - 1] == '/';
      }
    }
  }

  lemma JoinedBodyEnds(parts: seq<string>)
    requires parts != []
    requires
      var last := parts[|parts| - 1];
      ':' !in last || (last != "" && last[|last| - 1] == '}')
    ensures NoVerbAtEnd("/" + Join(parts, '/'))
  {
    JoinEnds(parts);
    var last := parts[|parts| - 1];
    var before :| Join(parts, '/') == before + last && (before == "" || before[|before| - 1] == '/');
    BodyEnds(before, last);
  }

  lemma PieceEnds(p: Piece)
    requires p.Literal? ==> ':' !in p.text
    ensures ':' !in PrintPiece(p) || (PrintPiece(p) != "" && PrintPiece(p)[|PrintPiece(p)| - 1] == '}')
  {
  }

  lemma PrintedBodyEnds(pieces: seq<Piece>)
    requires WellFormedTemplate(pieces, "")
    ensures NoVerbAtEnd("/" + Join(PrintAll(pieces), '/'))
  {
    PrintedAt(pieces, |pieces| - 1);
    PieceEnds(pieces[|pieces| - 1]);
    JoinedBodyEnds(PrintAll(pieces));
  }

  // ---- the main result ----

  /** Parsing separates body and verb of a printed template. */
  lemma ParsedParts(body: string, verb: string)
    requires NoneOf(verb, {'/', '{', '}', ':'}) && (verb == "" ==> NoVerbAtEnd("/" + body))
    ensures
      ParseTemplate("/" + body + if verb == "" then "" else ":" + verb) ==
      match CompilePieces(Pieces(body, 0))
      case Refused => None
      case Compiled(segments, vars) => Some(Template(segments, vars, verb))
  {
    var whole := "/" + body;
    assert whole[1..] == body;
    if verb == "" {
      NoVerbFound(whole);
      assert whole + "" == whole;
    } else {
      VerbFound(whole, verb);
      var tmpl := whole + [':'] + verb;
      assert whole + (":" + verb) == tmpl;
      assert tmpl[..|whole|] == whole && tmpl[|whole| + 1..] == verb;
    }
  }

  /**
   Compiling undoes printing: the text of every well-formed template compiles to exactly the
   segments, the variables with their spans and fields, and the verb that it was printed from,
   and is refused if and only if some pattern contains "**".
   */
  lemma ParseUndoesPrint(pieces: seq<Piece>, verb: string)
    requires WellFormedTemplate(pieces, verb)
    ensures
      ParseTemplate(Print(pieces, verb)) ==
      if SomeStars(pieces) then None
      else Some(Template(AllSegments(pieces), AllVariables(pieces), verb))
  {
    var body := Join(PrintAll(pieces), '/');
    if verb == "" {
      PrintedBodyEnds(pieces);
    }
    ParsedParts(body, verb);
    PiecesOfPrint(pieces);
    CompilePrinted(pieces);
  }

  // ---- requests ----

  /** The request segments that fit a piece: its text, or anything but nothing for a "*". */
  predicate FitsPiece(p: Piece, segs: seq<string>) {
    match p
    case Literal(text) => segs == [text]
    case Bare(_) => |segs| == 1 && segs[0] != ""
    case Pattern(_, subs) =>
      |segs| == |subs| && forall i | 0 <= i < |subs| :: if subs[i] == "*" then segs[i] != "" else segs[i] == subs[i]
  }

  function Width(p: Piece): nat {
    if p.Pattern? then |p.subs| else 1
  }

  /** The segments of a request fit the pieces one after the other. */
  predicate FitsAll(pieces: seq<Piece>, segs: seq<string>) {
    if pieces == [] then segs == []
    else
      var last := pieces[|pieces| - 1];
      Width(last) <= |segs|
      && FitsAll(pieces[..|pieces| - 1], segs[..|segs| - Width(last)]) && FitsPiece(last, segs[|segs| - Width(last)..])
  }

  lemma FitsPieceIff(p: Piece, segs: seq<string>)
    ensures FitsPiece(p, segs) <==> Fits(PieceSegments(p), segs)
  {
    if Fits(PieceSegments(p), segs) {
      assert forall i | 0 <= i < |segs| :: SegmentFits(PieceSegments(p)[i], segs[i]);
      assert p.Literal? ==> SegmentFits(PieceSegments(p)[0], segs[0]);
    }
  }

  lemma FitsConcat(a: seq<Segment>, b: seq<Segment>, segs: seq<string>)
    ensures Fits(a + b, segs) <==>
            |segs| == |a| + |b| && Fits(a, segs[..|a|]) && Fits(b, segs[|a|..])
  {
    if Fits(a + b, segs) {
      forall i | 0 <= i < |a| ensures SegmentFits(a[i], segs[..|a|][i]) {
        assert SegmentFits((a + b)[i], segs[i]);
      }
      forall i | 0 <= i < |b| ensures SegmentFits(b[i], segs[|a|..][i]) {
        assert SegmentFits((a + b)[|a| + i], segs[|a| + i]);
      }
    }
    if |segs| == |a| + |b| && Fits(a, segs[..|a|]) && Fits(b, segs[|a|..]) {
      forall i | 0 <= i < |segs| ensures SegmentFits((a + b)[i], segs[i]) {
        if i < |a| {
          assert SegmentFits(a[i], segs[..|a|][i]);
        } else {
          assert SegmentFits(b[i - |a|], segs[|a|..][i - |a|]);
        }
      }
    }
  }

  lemma FitsLast(segments: seq<Segment>, last: Piece, segs: seq<string>)
    ensures Fits(segments + PieceSegments(last), segs) <==>
            && Width(last) <= |segs|
            && Fits(segments, segs[..|segs| - Width(last)])
            && FitsPiece(last, segs[|segs| - Width(last)..])
  {
    FitsConcat(segments, PieceSegments(last), segs);
    if Width(last) <= |segs| {
      FitsPieceIff(last, segs[|segs| - Width(last)..]);
    }
  }

  lemma {:induction false} FitsAllIff(pieces: seq<Piece>, segs: seq<string>)
    ensures FitsAll(pieces, segs) <==> Fits(AllSegments(pieces), segs)
    decreases |pieces|
  {
    if pieces != [] {
      var init, last := pieces[..|pieces| - 1], pieces[|pieces| - 1];
      FitsLast(AllSegments(init), last, segs);
      if Width(last) <= |segs| {
        FitsAllIff(init, segs[..|segs| - Width(last)]);
      }
    }
  }

  /**
   A route matches exactly the requests its text describes: the method and the verb are its own
   and the segments fit the pieces, text for text and anything non-empty for each "*".
   */
  lemma RouteMatchesIff(pieces: seq<Piece>, verb: string, httpMethod: string, requested: string, segs: seq<string>, v: string)
    requires WellFormedTemplate(pieces, verb) && !SomeStars(pieces)
    ensures ParseTemplate(Print(pieces, verb)).Some?
    ensures
      var t := ParseTemplate(Print(pieces, verb)).value;
      && SpansIn(t.vars, |t.segments|)
      && (Match(Route(httpMethod, t), requested, segs, v).Some? <==>
            requested == httpMethod && v == verb && FitsAll(pieces, segs))
  {
    ParseUndoesPrint(pieces, verb);
    AcceptedTemplate(Print(pieces, verb));
    FitsAllIff(pieces, segs);
  }
}

/** The parts of Go's strings package the emulator uses, on strings whose characters are bytes. */
module Text {

  /** strings.Split(s, sep) for a one-character separator. */
  function Split(s: string, sep: char): (r: seq<string>)
    ensures |r| >= 1
    ensures forall i | 0 <= i < |r| :: sep !in r[i]
  {
    if s == [] then [[]]
    else if s[0] == sep then [[]] + Split(s[1..], sep)
    else
      var rest := Split(s[1..], sep);
      [[s[0]] + rest[0]] + rest[1..]
  }

  /** strings.Join(parts, sep) for a one-character separator. */
  function Join(parts: seq<string>, sep: char): string {
    if parts == [] then []
    else if |parts| == 1 then parts[0]
    else parts[0] + [sep] + Join(parts[1..], sep)
  }

  lemma {:induction false} JoinSplit(s: string, sep: char)
    ensures Join(Split(s, sep), sep) == s
  {
    if s == [] {
    } else if s[0] == sep {
      JoinSplit(s[1..], sep);
      var r := Split(s, sep);
      assert r[1..] == Split(s[1..], sep);
    } else {
      JoinSplit(s[1..], sep);
      var rest := Split(s[1..], sep);
      var r := Split(s, sep);
      assert r[1..] == rest[1..];
      if |rest| > 1 {
        assert Join(r, sep) == r[0] + [sep] + Join(rest[1..], sep);
      }
    }
  }

  /** Splitting undoes joining when no part contains the separator. */
  lemma {:induction false} SplitJoin(parts: seq<string>, sep: char)
    requires |parts| >= 1
    requires forall i | 0 <= i < |parts| :: sep !in parts[i]
    ensures Split(Join(parts, sep), sep) == parts
    decreases |parts|, |parts[0]|
  {
    if parts[0] != [] {
      var shorter := parts[0 := parts[0][1..]];
      SplitJoin(shorter, sep);
      JoinConsHead(parts, sep);
      assert parts[0][0] in parts[0];
      assert [parts[0][0]] + shorter[0] == parts[0];
      assert parts == [parts[0]] + shorter[1..];
    } else if |parts| > 1 {
      SplitJoin(parts[1..], sep);
      assert Join(parts, sep) == [sep] + Join(parts[1..], sep);
      assert parts == [[]] + parts[1..];
    }
  }

  lemma JoinConsHead(parts: seq<string>, sep: char)
    requires |parts| >= 1 && parts[0] != []
    ensures Join(parts, sep) == [parts[0][0]] + Join(parts[0 := parts[0][1..]], sep)
  {
    var shorter := parts[0 := parts[0][1..]];
    assert parts[0] == [parts[0][0]] + shorter[0];
    if |parts| > 1 {
      assert shorter[1..] == parts[1..];
      assert Join(parts, sep) == parts[0] + [sep] + Join(parts[1..], sep);
      assert Join(shorter, sep) == shorter[0] + [sep] + Join(parts[1..], sep);
    }
  }

  /** Joining is injective on lists of the same length without the separator. */
  lemma JoinInjective(a: seq<string>, b: seq<string>, sep: char)
    requires |a| == |b| >= 1
    requires (forall i | 0 <= i < |a| :: sep !in a[i]) && (forall i | 0 <= i < |b| :: sep !in b[i])
    requires Join(a, sep) == Join(b, sep)
    ensures a == b
  {
    SplitJoin(a, sep);
    SplitJoin(b, sep);
  }

  lemma {:induction false} JoinAppend(parts: seq<string>, last: string, sep: char)
    requires |parts| >= 1
    ensures Join(parts + [last], sep) == Join(parts, sep) + [sep] + last
  {
    if |parts| == 1 {
      assert parts + [last] == [parts[0], last];
      assert (parts + [last])[1..] == [last];
    } else {
      JoinAppend(parts[1..], last, sep);
      assert (parts + [last])[1..] == parts[1..] + [last];
    }
  }

  /** strings.LastIndex(s, c): the last position of a character, -1 if absent. */
  function LastIndex(s: string, c: char): (i: int)
    ensures -1 <= i < |s|
    ensures i >= 0 ==> s[i] == c
    ensures forall j | i < j < |s| :: s[j] != c
  {
    if s == [] then -1
    else if s[|s| - 1] == c then |s| - 1
    else LastIndex(s[..|s| - 1], c)
  }

  /** strings.Index(s, c): the first position of a character, -1 if absent. */
  function Index(s: string, c: char): (i: int)
    ensures -1 <= i < |s|
    ensures i >= 0 ==> s[i] == c
    ensures forall j | 0 <= j < if i < 0 then |s| else i :: s[j] != c
  {
    if s == [] then -1
    else if s[0] == c then 0
    else
      var i := Index(s[1..], c);
      if i < 0 then -1 else i + 1
  }

  lemma {:induction false} LastIndexOfSuffix(s: string, c: char, t: string)
    requires c !in t
    ensures LastIndex(s + [c] + t, c) == |s|
  {
    var w := s + [c] + t;
    if t != [] {
      var init := t[..|t| - 1];
      LastIndexOfSuffix(s, c, init);
      assert w[..|w| - 1] == s + [c] + init;
      assert w[|w| - 1] == t[|t| - 1];
    }
  }

  lemma LastIndexAbsent(s: string, c: char)
    requires c !in s
    ensures LastIndex(s, c) == -1
  {
  }
}

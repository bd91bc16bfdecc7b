/** Pages of a sorted name list (core/engine.go): following tokens yields the whole list, once. */
module Pagination {
  import opened Wrappers
  import opened FixedWidth
  import Decimal
  import Base64Url

  const MAX_LIST_QUEUES_PAGE_SIZE: int := 9800
  const MAX_LIST_TASKS_PAGE_SIZE: int := 1000

  lemma DecimalIsBytes(n: int)
    ensures Base64Url.IsBytes(Decimal.FormatInt(n))
  {
    var s := Decimal.FormatNat(if n < 0 then -n else n);
    assert forall i | 0 <= i < |s| :: Decimal.IsDigit(s[i]);
  }

  /** The token that points at a position of the list. */
  function Token(position: int): string {
    DecimalIsBytes(position);
    Base64Url.Encode(Decimal.FormatInt(position))
  }

  /** The position a token points at; the empty token is the start. */
  function Position(token: string): Option<int> {
    if token == "" then Some(0)
    else
      match Base64Url.Decode(token)
      case None => None
      case Some(raw) =>
        match Decimal.ParseInt(raw)
        case Some(p) => if p < 0 then None else Some(p)
        case None => None
  }

  function Size(pageSize: int, max: int): int {
    if pageSize <= 0 || pageSize > max then max else pageSize
  }

  function Paginate(names: seq<string>, pageSize: int, pageToken: string, max: int): Result<(seq<string>, string)>
    requires max >= 1
  {
    match Position(pageToken)
    case None => Err(InvalidArgument)
    case Some(p) =>
      var start := Min(p, |names|);
      var end := start + Size(pageSize, max);
      if end >= |names| then Ok((names[start..], "")) else Ok((names[start..end], Token(end)))
  }

  /** A page holds only names of the list. */
  lemma PageOfNames(names: seq<string>, pageSize: int, pageToken: string, max: int)
    requires max >= 1
    ensures
      var r := Paginate(names, pageSize, pageToken, max);
      r.Ok? ==> |r.value.0| <= max && forall n | n in r.value.0 :: n in names
  {
  }

  /** A token points back at the position it was made for, and is never the empty token. */
  lemma TokenRoundTrip(position: int)
    requires 0 <= position < TWO_63
    ensures Token(position) != "" && Position(Token(position)) == Some(position)
  {
    DecimalIsBytes(position);
    Base64Url.RoundTrip(Decimal.FormatInt(position));
    Decimal.FormatParseRoundTrip(position);
  }

  function Flatten(pages: seq<seq<string>>): seq<string> {
    if pages == [] then [] else Flatten(pages[..|pages| - 1]) + pages[|pages| - 1]
  }

  /** Page i was the answer to token i, and the token handed out with it is token i + 1. */
  ghost predicate LinkAt(names: seq<string>, pageSize: int, max: int, tokens: seq<string>, pages: seq<seq<string>>, i: nat)
    requires max >= 1 && |tokens| == |pages| + 1 && i < |pages|
  {
    && (i > 0 ==> tokens[i] != "")
    && Paginate(names, pageSize, tokens[i], max) == Ok((pages[i], tokens[i + 1]))
  }

  /** The pages a client reads by following tokens from the empty one. */
  ghost predicate Followed(names: seq<string>, pageSize: int, max: int, tokens: seq<string>, pages: seq<seq<string>>)
    requires max >= 1
  {
    && |tokens| == |pages| + 1
    && tokens[0] == ""
    && (forall i | 0 <= i < |pages| :: LinkAt(names, pageSize, max, tokens, pages, i))
  }

  /** Where the client stands: all read, or exactly the names before the position of its token. */
  ghost predicate Covers(names: seq<string>, pages: seq<seq<string>>, next: string) {
    var read := Flatten(pages);
    if pages != [] && next == "" then read == names
    else
      && |pages| <= |read| <= |names|
      && read == names[..|read|]
      && (pages != [] ==> |read| < |names| && next == Token(|read|))
  }

  lemma PrefixExtends(names: seq<string>, start: nat, end: nat)
    requires start <= end <= |names|
    ensures names[..start] + names[start..end] == names[..end]
    ensures names[..start] + names[start..] == names
  {
  }

  lemma NothingRead(names: seq<string>, next: string)
    ensures Covers(names, [], next)
  {
  }

  /** One more page, read with the token for the position reached so far. */
  lemma NextPageCovers(names: seq<string>, pageSize: int, max: int, before: seq<seq<string>>, prev: string, page: seq<string>, next: string)
    requires max >= 1 && |names| < TWO_63
    requires Covers(names, before, prev) && (before == [] ==> prev == "") && (before == [] || prev != "")
    requires Paginate(names, pageSize, prev, max) == Ok((page, next))
    ensures Covers(names, before + [page], next)
  {
    var read := Flatten(before);
    var start := |read|;
    TokenRoundTrip(start);
    assert Position(prev) == Some(start);
    var end := start + Size(pageSize, max);
    var pages := before + [page];
    assert pages[..|before|] == before;
    assert Flatten(pages) == read + page;
    if end >= |names| {
      PrefixExtends(names, start, |names|);
    } else {
      TokenRoundTrip(end);
      PrefixExtends(names, start, end);
    }
  }

  /**
   Following tokens never skips, repeats or stalls: after any number of pages the client has
   read exactly a prefix of the list, longer by at least one name per page, and once it is
   handed no further token it has read the whole list.
   */
  lemma {:induction false} PagesCoverList(names: seq<string>, pageSize: int, max: int, tokens: seq<string>, pages: seq<seq<string>>, k: nat)
    requires max >= 1 && |names| < TWO_63
    requires Followed(names, pageSize, max, tokens, pages) && k <= |pages|
    ensures Covers(names, pages[..k], tokens[k])
  {
    if k == 0 {
      NothingRead(names, tokens[0]);
      assert pages[..0] == [];
    } else {
      var before, page := pages[..k - 1], pages[k - 1];
      PagesCoverList(names, pageSize, max, tokens, pages, k - 1);
      assert LinkAt(names, pageSize, max, tokens, pages, k - 1);
      assert pages[..k] == before + [page];
      NextPageCovers(names, pageSize, max, before, tokens[k - 1], page, tokens[k]);
    }
  }

  /** A client that has been handed no further token has read the whole list. */
  lemma AllPagesRead(names: seq<string>, pageSize: int, max: int, tokens: seq<string>, pages: seq<seq<string>>)
    requires max >= 1 && |names| < TWO_63
    requires Followed(names, pageSize, max, tokens, pages) && pages != [] && tokens[|pages|] == ""
    ensures Flatten(pages) == names
  {
    PagesCoverList(names, pageSize, max, tokens, pages, |pages|);
    assert pages[..|pages|] == pages;
  }

  /** Following tokens always ends, with the whole list read, after at most one page more than there are names. */
  lemma FollowingEnds(names: seq<string>, pageSize: int, max: int) returns (tokens: seq<string>, pages: seq<seq<string>>)
    requires max >= 1 && |names| < TWO_63
    ensures Followed(names, pageSize, max, tokens, pages) && pages != [] && tokens[|pages|] == ""
    ensures Flatten(pages) == names && |pages| <= |names| + 1
  {
    tokens, pages := FollowOn(names, pageSize, max, [""], []);
    AllPagesRead(names, pageSize, max, tokens, pages);
  }

  /** A client that may go on holds a token the server accepts. */
  lemma NextAccepted(names: seq<string>, pageSize: int, max: int, tokens: seq<string>, pages: seq<seq<string>>)
    requires max >= 1 && |names| < TWO_63
    requires Followed(names, pageSize, max, tokens, pages) && (pages == [] || tokens[|pages|] != "")
    ensures Paginate(names, pageSize, tokens[|pages|], max).Ok?
  {
    PagesCoverList(names, pageSize, max, tokens, pages, |pages|);
    assert pages[..|pages|] == pages;
    TokenRoundTrip(|Flatten(pages)|);
    assert Position(tokens[|pages|]).Some?;
  }

  lemma FollowedExtends(names: seq<string>, pageSize: int, max: int, tokens: seq<string>, pages: seq<seq<string>>,
                        page: seq<string>, next: string)
    requires max >= 1 && Followed(names, pageSize, max, tokens, pages) && (pages == [] || tokens[|pages|] != "")
    requires Paginate(names, pageSize, tokens[|pages|], max) == Ok((page, next))
    ensures Followed(names, pageSize, max, tokens + [next], pages + [page])
  {
    forall i | 0 <= i < |pages| + 1 ensures LinkAt(names, pageSize, max, tokens + [next], pages + [page], i) {
      if i < |pages| {
        assert LinkAt(names, pageSize, max, tokens, pages, i);
      }
    }
  }

  lemma ReadNext(names: seq<string>, pageSize: int, max: int, tokens: seq<string>, pages: seq<seq<string>>)
    returns (tokens': seq<string>, pages': seq<seq<string>>)
    requires max >= 1 && |names| < TWO_63
    requires Followed(names, pageSize, max, tokens, pages) && (pages == [] || tokens[|pages|] != "")
    ensures Followed(names, pageSize, max, tokens', pages') && |pages'| == |pages| + 1
  {
    NextAccepted(names, pageSize, max, tokens, pages);
    var (page, next) := Paginate(names, pageSize, tokens[|pages|], max).value;
    tokens', pages' := tokens + [next], pages + [page];
    FollowedExtends(names, pageSize, max, tokens, pages, page, next);
  }

  lemma {:induction false} FollowOn(names: seq<string>, pageSize: int, max: int, tokens: seq<string>, pages: seq<seq<string>>)
    returns (tokens': seq<string>, pages': seq<seq<string>>)
    requires max >= 1 && |names| < TWO_63
    requires Followed(names, pageSize, max, tokens, pages) && (pages == [] || tokens[|pages|] != "")
    ensures Followed(names, pageSize, max, tokens', pages') && pages' != [] && tokens'[|pages'|] == ""
    ensures |pages'| <= |names| + 1
    decreases |names| - |pages|
  {
    PagesCoverList(names, pageSize, max, tokens, pages, |pages|);
    assert pages[..|pages|] == pages;
    tokens', pages' := ReadNext(names, pageSize, max, tokens, pages);
    if tokens'[|pages'|] != "" {
      PagesCoverList(names, pageSize, max, tokens', pages', |pages'|);
      assert pages'[..|pages'|] == pages';
      tokens', pages' := FollowOn(names, pageSize, max, tokens', pages');
    }
  }

  // ---- the list being paged ----

  /** Byte-wise string order. */
  predicate Less(a: string, b: string) {
    b != [] && (a == [] || a[0] < b[0] || (a[0] == b[0] && Less(a[1..], b[1..])))
  }

  /** What sort.Strings makes of the keys of a map. */
  ghost predicate SortedKeys(names: seq<string>, keys: set<string>) {
    && (forall i | 0 <= i < |names| - 1 :: Less(names[i], names[i + 1]))
    && (forall n :: n in names <==> n in keys)
  }

  lemma {:induction false} LessTransitive(a: string, b: string, c: string)
    requires Less(a, b) && Less(b, c)
    ensures Less(a, c)
  {
    if a != [] && a[0] == b[0] && b[0] == c[0] {
      LessTransitive(a[1..], b[1..], c[1..]);
    }
  }

  lemma {:induction false} SortedApart(names: seq<string>, keys: set<string>, i: nat, j: nat)
    requires SortedKeys(names, keys) && i < j < |names|
    ensures Less(names[i], names[j])
    decreases j
  {
    if i + 1 < j {
      SortedApart(names, keys, i, j - 1);
      LessTransitive(names[i], names[j - 1], names[j]);
    }
  }

  lemma {:induction false} LessIrreflexive(a: string)
    ensures !Less(a, a)
  {
    if a != [] {
      LessIrreflexive(a[1..]);
    }
  }

  /** Reading all pages of a map's sorted keys yields every key exactly once, in ascending order. */
  lemma EveryKeyOnce(keys: set<string>, names: seq<string>, pageSize: int, max: int, tokens: seq<string>, pages: seq<seq<string>>, key: string)
    requires max >= 1 && |names| < TWO_63 && SortedKeys(names, keys) && key in keys
    requires Followed(names, pageSize, max, tokens, pages) && pages != [] && tokens[|pages|] == ""
    ensures exists i :: 0 <= i < |Flatten(pages)| && Flatten(pages)[i] == key
    ensures forall i, j | 0 <= i < j < |Flatten(pages)| :: Less(Flatten(pages)[i], Flatten(pages)[j])
    ensures forall i, j | 0 <= i < j < |Flatten(pages)| :: Flatten(pages)[i] != Flatten(pages)[j]
  {
    AllPagesRead(names, pageSize, max, tokens, pages);
    assert key in names;
    forall i, j | 0 <= i < j < |names| ensures Less(names[i], names[j]) && names[i] != names[j] {
      SortedApart(names, keys, i, j);
      LessIrreflexive(names[i]);
    }
  }
}

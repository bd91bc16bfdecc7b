/** The sorted key lists that ListQueues and ListTasks page through (core/engine.go). */
module Listing {
  import opened Wrappers
  import opened FixedWidth
  import opened Pagination

  lemma {:induction false} LessTotal(a: string, b: string)
    ensures a == b || Less(a, b) || Less(b, a)
  {
    if a != [] && b != [] && a[0] == b[0] {
      LessTotal(a[1..], b[1..]);
      assert a == [a[0]] + a[1..] && b == [b[0]] + b[1..];
    }
  }

  ghost predicate Ascending(names: seq<string>) {
    forall i | 0 <= i < |names| - 1 :: Less(names[i], names[i + 1])
  }

  ghost predicate SameElements(names: seq<string>, keys: set<string>) {
    forall n :: n in names <==> n in keys
  }

  lemma {:induction false} FirstIsLeast(names: seq<string>, i: nat)
    requires Ascending(names) && 0 < i < |names|
    ensures Less(names[0], names[i])
  {
    if i > 1 {
      FirstIsLeast(names, i - 1);
      LessTransitive(names[0], names[i - 1], names[i]);
    }
  }

  lemma SameFirst(a: seq<string>, b: seq<string>, keys: set<string>)
    requires Ascending(a) && Ascending(b) && SameElements(a, keys) && SameElements(b, keys) && a != [] && b != []
    ensures a[0] == b[0]
  {
    assert a[0] in b && b[0] in a;
    if a[0] != b[0] {
      var i :| 0 <= i < |a| && a[i] == b[0];
      var j :| 0 <= j < |b| && b[j] == a[0];
      FirstIsLeast(a, i);
      FirstIsLeast(b, j);
      LessTransitive(a[0], b[0], a[0]);
      LessIrreflexive(a[0]);
    }
  }

  lemma TailElements(names: seq<string>, keys: set<string>)
    requires Ascending(names) && SameElements(names, keys) && names != []
    ensures Ascending(names[1..]) && SameElements(names[1..], keys - {names[0]})
  {
    assert names == [names[0]] + names[1..];
    forall n ensures n in names[1..] <==> n in keys - {names[0]} {
      if n in names[1..] {
        var i :| 0 <= i < |names| - 1 && names[1..][i] == n;
        FirstIsLeast(names, i + 1);
        LessIrreflexive(n);
      }
    }
  }

  lemma EmptyKeys(names: seq<string>, keys: set<string>)
    requires SameElements(names, keys)
    ensures names == [] <==> keys == {}
  {
    if names != [] {
      assert names[0] in keys;
    }
  }

  /** There is only one sorted list of a set of names: a listing does not depend on the order of a map. */
  lemma {:induction false} SortedUnique(a: seq<string>, b: seq<string>, keys: set<string>)
    requires SortedKeys(a, keys) && SortedKeys(b, keys)
    ensures a == b
    decreases |a|
  {
    assert SameElements(a, keys) && SameElements(b, keys);
    EmptyKeys(a, keys);
    EmptyKeys(b, keys);
    if a != [] {
      SameFirst(a, b, keys);
      TailElements(a, keys);
      TailElements(b, keys);
      SortedUnique(a[1..], b[1..], keys - {a[0]});
      assert a == [a[0]] + a[1..] && b == [b[0]] + b[1..];
    }
  }

  /** A name inserted between the smaller and the larger ones. */
  lemma InsertSorted(names: seq<string>, p: nat, n: string)
    requires Ascending(names) && p <= |names|
    requires p > 0 ==> Less(names[p - 1], n)
    requires p < |names| ==> Less(n, names[p])
    ensures Ascending(names[..p] + [n] + names[p..])
  {
    var all := names[..p] + [n] + names[p..];
    forall i | 0 <= i < |all| - 1 ensures Less(all[i], all[i + 1]) {
      if i < p - 1 {
        assert all[i] == names[i] && all[i + 1] == names[i + 1];
      } else if i > p {
        assert all[i] == names[i - 1] && all[i + 1] == names[i];
      }
    }
  }

  lemma InsertElements(names: seq<string>, p: nat, n: string, keys: set<string>)
    requires SameElements(names, keys) && p <= |names|
    ensures SameElements(names[..p] + [n] + names[p..], keys + {n})
  {
    assert names == names[..p] + names[p..];
    forall m ensures m in names <==> m in names[..p] || m in names[p..] {
      assert m in names[..p] + names[p..] <==> m in names[..p] || m in names[p..];
    }
  }

  /** Inserts a new name at its place in a sorted list. */
  method Insert(names: seq<string>, n: string, ghost keys: set<string>) returns (r: seq<string>)
    requires SortedKeys(names, keys) && n !in keys
    ensures SortedKeys(r, keys + {n})
  {
    assert SameElements(names, keys);
    var p := 0;
    while p < |names| && Less(names[p], n)
      invariant 0 <= p <= |names|
      invariant p > 0 ==> Less(names[p - 1], n)
    {
      p := p + 1;
    }
    if p < |names| {
      assert names[p] in keys;
      LessTotal(names[p], n);
    }
    InsertSorted(names, p, n);
    InsertElements(names, p, n, keys);
    r := names[..p] + [n] + names[p..];
  }

  /** Collects the keys of a map and sorts them. */
  method SortedNames(keys: set<string>) returns (names: seq<string>)
    ensures SortedKeys(names, keys)
  {
    names := [];
    var todo := keys;
    ghost var done: set<string> := {};
    while todo != {}
      invariant done + todo == keys && done !! todo
      invariant SortedKeys(names, done)
      decreases todo
    {
      var n :| n in todo;
      names := Insert(names, n, done);
      todo, done := todo - {n}, done + {n};
    }
    assert done == keys;
  }

  // ---- what the order and the page size are ----

  /** The strings agree before i, where the first ends or has the smaller character. */
  predicate DiffersAt(a: string, b: string, i: int) {
    0 <= i <= |a| && i < |b| && a[..i] == b[..i] && (i == |a| || a[i] < b[i])
  }

  lemma DiffersLater(a: string, b: string, i: int)
    requires a != [] && b != [] && a[0] == b[0] && i > 0
    ensures DiffersAt(a, b, i) <==> DiffersAt(a[1..], b[1..], i - 1)
  {
    if i <= |a| && i < |b| {
      assert a[..i] == [a[0]] + a[1..][..i - 1] && b[..i] == [b[0]] + b[1..][..i - 1];
      assert a[..i][1..] == a[1..][..i - 1] && b[..i][1..] == b[1..][..i - 1];
    }
  }

  lemma DiffersFirst(a: string, b: string, i: int)
    requires DiffersAt(a, b, i) && i > 0
    ensures a[0] == b[0]
  {
    assert a[..i][0] == b[..i][0];
  }

  /** Byte-wise order: a proper prefix comes first, else the first difference decides. */
  lemma {:induction false} LessIff(a: string, b: string)
    ensures Less(a, b) <==> exists i :: DiffersAt(a, b, i)
  {
    if a != [] && b != [] && a[0] == b[0] {
      LessIff(a[1..], b[1..]);
      if i :| DiffersAt(a[1..], b[1..], i) {
        DiffersLater(a, b, i + 1);
      }
      if i :| DiffersAt(a, b, i) {
        DiffersLater(a, b, i);
      }
    } else {
      if Less(a, b) {
        assert DiffersAt(a, b, 0);
      }
      if i :| DiffersAt(a, b, i) {
        if i > 0 {
          DiffersFirst(a, b, i);
        }
      }
    }
  }

  lemma PageFrom(names: seq<string>, pageSize: int, pageToken: string, max: int, p: nat)
    requires max >= 1 && Position(pageToken) == Some(p)
    ensures
      var asked := if 1 <= pageSize <= max then pageSize else max;
      Paginate(names, pageSize, pageToken, max)
      == if p + asked < |names| then Ok((names[p..p + asked], Token(p + asked)))
         else Ok((names[Min(p, |names|)..], ""))
  {
  }

  lemma PositionOf(token: string, p: nat)
    requires p < TWO_63 && (token == Token(p) || (token == "" && p == 0))
    ensures Position(token) == Some(p)
  {
    TokenRoundTrip(p);
  }

  /**
   A page is the stretch of the list that starts where its token points, as long as was asked for,
   and the maximum when the request names no size or too large a one; only the last page, the one
   without a next token, may be shorter.
   */
  lemma PageIs(names: seq<string>, pageSize: int, pageToken: string, max: int, p: nat)
    requires max >= 1 && p < TWO_63 && (pageToken == Token(p) || (pageToken == "" && p == 0))
    ensures
      var asked := if 1 <= pageSize <= max then pageSize else max;
      Paginate(names, pageSize, pageToken, max)
      == if p + asked < |names| then Ok((names[p..p + asked], Token(p + asked)))
         else Ok((names[Min(p, |names|)..], ""))
  {
    PositionOf(pageToken, p);
    PageFrom(names, pageSize, pageToken, max, p);
  }
}

/**
 The canonical text of a collection's artifact digests, hashed into the
 collection digest (e2e/visual/003Evidence.ts): entries in path order, each a
 path, a NUL and a SHA-256 in hex, joined by line feeds.
 */
module Digest {
  const NUL: char := 0 as char
  const LF: char := 10 as char

  datatype Artifact = Artifact(path: string, sha256: string)

  predicate IsHex(c: char) {
    '0' <= c <= '9' || 'a' <= c <= 'f'
  }

  predicate HexDigits(s: string, count: nat) {
    |s| == count && forall i :: 0 <= i < |s| ==> IsHex(s[i])
  }

  predicate Hashed(a: seq<Artifact>) {
    forall i :: 0 <= i < |a| ==> HexDigits(a[i].sha256, 64)
  }

  // ---------------------------------------------------------------- the text of a list

  function Line(x: Artifact): string {
    x.path + [NUL] + x.sha256
  }

  function Joined(a: seq<Artifact>): string
    decreases |a|, 1
  {
    if a == [] then [] else Before(a) + Line(a[|a| - 1])
  }

  /** What stands before the last line. */
  function Before(a: seq<Artifact>): string
    requires a != []
    decreases |a|, 0
  {
    if |a| == 1 then [] else Joined(a[..|a| - 1]) + [LF]
  }

  /** At `i` the path holds what ends one line and starts the next. */
  predicate BoundaryAt(path: string, i: int) {
    0 <= i && i + 65 < |path| && path[i] == NUL && HexDigits(path[i + 1..i + 65], 64) && path[i + 65] == LF
  }

  predicate Clean(path: string) {
    forall i :: 0 <= i < |path| ==> !BoundaryAt(path, i)
  }

  predicate AllClean(a: seq<Artifact>) {
    forall i :: 0 <= i < |a| ==> Clean(a[i].path)
  }

  /** What stands before the last hash and its NUL. */
  function Body(a: seq<Artifact>): string
    requires a != []
  {
    Before(a) + a[|a| - 1].path
  }

  lemma Regroup(a: string, b: string, c: string, d: string)
    ensures a + (b + c + d) == (a + b) + c + d
  {
  }

  lemma TextEndsWithHash(a: seq<Artifact>)
    requires a != []
    ensures Joined(a) == Body(a) + [NUL] + a[|a| - 1].sha256
  {
    Regroup(Before(a), a[|a| - 1].path, [NUL], a[|a| - 1].sha256);
  }

  lemma SameTail(body: string, hash: string, body': string, hash': string)
    requires |hash| == |hash'| && body + [NUL] + hash == body' + [NUL] + hash'
    ensures body == body' && hash == hash'
  {
    var t, n := body + [NUL] + hash, |body|;
    assert t == body' + [NUL] + hash';
    assert body == t[..n] == body';
    assert hash == t[n + 1..] == hash';
  }

  /** A path that reaches back over the end of a line holds a boundary. */
  lemma LongTailHasBoundary(start: string, hash: string, p: string, head: string, q: string)
    requires HexDigits(hash, 64) && start + [NUL] + hash + [LF] + p == head + q
    requires |q| > |p| && (head == [] || head[|head| - 1] == LF)
    ensures !Clean(q)
  {
    HeadIsShort(start, hash, p, head, q);
    var i := |start| - |head|;
    BoundaryInTail(start, hash, p, head, q);
    assert BoundaryAt(q, i);
  }

  /** A line feed stands neither at the NUL nor inside the hash. */
  lemma HeadIsShort(start: string, hash: string, p: string, head: string, q: string)
    requires HexDigits(hash, 64) && start + [NUL] + hash + [LF] + p == head + q
    requires |q| > |p| && (head == [] || head[|head| - 1] == LF)
    ensures |head| <= |start|
  {
    var t, n := head + q, |start|;
    assert t[n] == NUL;
    assert forall j :: 0 <= j < 64 ==> t[n + 1 + j] == hash[j];
    assert forall j :: 0 <= j < |head| ==> t[j] == head[j];
  }

  lemma BoundaryInTail(start: string, hash: string, p: string, head: string, q: string)
    requires HexDigits(hash, 64) && start + [NUL] + hash + [LF] + p == head + q && |head| <= |start|
    ensures BoundaryAt(q, |start| - |head|)
  {
    var t, n, i := head + q, |start|, |start| - |head|;
    assert forall k :: 0 <= k < |q| ==> q[k] == t[|head| + k];
    assert t[n] == NUL && t[n + 65] == LF;
    assert t[n + 1..n + 65] == hash;
    assert q[i + 1..i + 65] == hash;
  }

  /** Of two clean lists with one text, neither ends in a longer path. */
  lemma LastPathNotLonger(a: seq<Artifact>, b: seq<Artifact>)
    requires a != [] && b != [] && Hashed(a) && Clean(b[|b| - 1].path) && Body(a) == Body(b)
    ensures |b[|b| - 1].path| <= |a[|a| - 1].path|
  {
    var p, q := a[|a| - 1].path, b[|b| - 1].path;
    if |q| > |p| && |a| > 1 {
      var before := a[..|a| - 1];
      TextEndsWithHash(before);
      LongTailHasBoundary(Body(before), before[|before| - 1].sha256, p, Before(b), q);
    }
  }

  /** On clean paths and well-formed hashes the text determines the list. */
  lemma {:induction false} CleanTextIsInjective(a: seq<Artifact>, b: seq<Artifact>)
    requires Hashed(a) && Hashed(b) && AllClean(a) && AllClean(b)
    requires Joined(a) == Joined(b)
    ensures a == b
  {
    if a == [] || b == [] {
      if a != [] {
        TextEndsWithHash(a);
      }
      if b != [] {
        TextEndsWithHash(b);
      }
    } else {
      var x, y := a[|a| - 1], b[|b| - 1];
      var a', b' := a[..|a| - 1], b[..|b| - 1];
      TextEndsWithHash(a);
      TextEndsWithHash(b);
      SameTail(Body(a), x.sha256, Body(b), y.sha256);
      LastPathNotLonger(a, b);
      LastPathNotLonger(b, a);
      SameEnds(Before(a), x.path, Before(b), y.path);
      assert a == a' + [x] && b == b' + [y];
      if |a| > 1 {
        SameEnds(Joined(a'), [LF], Joined(b'), [LF]);
        CleanTextIsInjective(a', b');
      }
    }
  }

  lemma SameEnds(head: string, tail: string, head': string, tail': string)
    requires head + tail == head' + tail' && |tail| == |tail'|
    ensures head == head' && tail == tail'
  {
    var t, n := head + tail, |head|;
    assert t == head' + tail';
    assert head == t[..n] == head' && tail == t[n..] == tail';
  }

  // ---------------------------------------------------------------- every list has one clean form

  /** The first boundary at or after `from`, or the length of the path. */
  function FirstBoundary(path: string, from: nat): (i: nat)
    requires from <= |path|
    ensures from <= i <= |path| && (i < |path| ==> BoundaryAt(path, i))
    ensures forall j :: from <= j < i ==> !BoundaryAt(path, j)
    decreases |path| - from
  {
    if from == |path| || BoundaryAt(path, from) then from else FirstBoundary(path, from + 1)
  }

  /** The entry before a boundary, and the one behind it. */
  function First(x: Artifact, i: nat): Artifact
    requires BoundaryAt(x.path, i)
  {
    Artifact(x.path[..i], x.path[i + 1..i + 65])
  }

  function Rest(x: Artifact, i: nat): (r: Artifact)
    requires BoundaryAt(x.path, i)
    ensures |r.path| < |x.path|
  {
    Artifact(x.path[i + 66..], x.sha256)
  }

  /** What stands before the first boundary is clean. */
  lemma FirstIsClean(x: Artifact, i: nat)
    requires BoundaryAt(x.path, i) && forall j :: 0 <= j < i ==> !BoundaryAt(x.path, j)
    ensures Clean(First(x, i).path)
  {
    var p := x.path[..i];
    forall j | 0 <= j < |p|
      ensures !BoundaryAt(p, j)
    {
      if BoundaryAt(p, j) {
        BoundaryOfPrefix(x.path, i, j);
      }
    }
  }

  lemma BoundaryOfPrefix(path: string, i: nat, j: nat)
    requires i <= |path| && BoundaryAt(path[..i], j)
    ensures BoundaryAt(path, j)
  {
    assert path[..i][j + 1..j + 65] == path[j + 1..j + 65];
  }

  /** One entry read line by line: its path cut at every boundary. */
  function Split(x: Artifact): (r: seq<Artifact>)
    ensures r != [] && (HexDigits(x.sha256, 64) ==> Hashed(r))
    ensures AllClean(r)
    ensures Clean(x.path) ==> r == [x]
    decreases |x.path|
  {
    var i := FirstBoundary(x.path, 0);
    if i == |x.path| then [x]
    else
      FirstIsClean(x, i);
      [First(x, i)] + Split(Rest(x, i))
  }

  function CleanForm(a: seq<Artifact>): (r: seq<Artifact>)
    ensures AllClean(r) && (Hashed(a) ==> Hashed(r))
    ensures r == [] <==> a == []
  {
    if a == [] then [] else CleanForm(a[..|a| - 1]) + Split(a[|a| - 1])
  }

  lemma {:induction false} JoinedAppends(a: seq<Artifact>, b: seq<Artifact>)
    requires a != [] && b != []
    ensures Joined(a + b) == Joined(a) + [LF] + Joined(b)
    decreases |b|
  {
    var all, x := a + b, b[|b| - 1];
    var b' := b[..|b| - 1];
    assert all[|all| - 1] == x && all[..|all| - 1] == a + b';
    if b' == [] {
      assert a + b' == a;
      assert Joined(b) == Line(x);
    } else {
      JoinedAppends(a, b');
      Regroup(Joined(a) + [LF], Joined(b'), [LF], Line(x));
    }
  }

  lemma CutLine(x: Artifact, i: nat)
    requires BoundaryAt(x.path, i)
    ensures Line(x) == Line(First(x, i)) + [LF] + Line(Rest(x, i))
  {
    var p := x.path;
    assert p == p[..i] + [NUL] + p[i + 1..i + 65] + [LF] + p[i + 66..];
  }

  lemma {:induction false} SplitKeepsText(x: Artifact)
    ensures Joined(Split(x)) == Line(x)
    decreases |x.path|
  {
    var i := FirstBoundary(x.path, 0);
    if i < |x.path| {
      SplitKeepsText(Rest(x, i));
      JoinedAppends([First(x, i)], Split(Rest(x, i)));
      JoinedOne(First(x, i));
      CutLine(x, i);
    } else {
      JoinedOne(x);
    }
  }

  lemma JoinedOne(x: Artifact)
    ensures Joined([x]) == Line(x)
  {
    assert Before([x]) + Line(x) == Line(x);
  }

  lemma {:induction false} CleanFormKeepsText(a: seq<Artifact>)
    ensures Joined(CleanForm(a)) == Joined(a)
  {
    if a != [] {
      var before, x := a[..|a| - 1], a[|a| - 1];
      CleanFormKeepsText(before);
      SplitKeepsText(x);
      ExtendForm(CleanForm(before), Split(x), before, x);
      assert a == before + [x];
    }
  }

  lemma ExtendForm(form: seq<Artifact>, lines: seq<Artifact>, before: seq<Artifact>, x: Artifact)
    requires Joined(form) == Joined(before) && Joined(lines) == Line(x) && lines != [] && (form == [] <==> before == [])
    ensures Joined(form + lines) == Joined(before + [x])
  {
    JoinedOne(x);
    if form == [] {
      assert form + lines == lines && before + [x] == [x];
    } else {
      JoinedAppends(form, lines);
      JoinedAppends(before, [x]);
    }
  }

  /** Exactly when two lists have one text: when they read as the same lines. */
  lemma SameTextIffSameLines(a: seq<Artifact>, b: seq<Artifact>)
    requires Hashed(a) && Hashed(b)
    ensures Joined(a) == Joined(b) <==> CleanForm(a) == CleanForm(b)
  {
    CleanFormKeepsText(a);
    CleanFormKeepsText(b);
    if Joined(a) == Joined(b) {
      CleanTextIsInjective(CleanForm(a), CleanForm(b));
    }
  }

  // ---------------------------------------------------------------- path order

  type Order = (string, string) -> bool

  ghost predicate TotalOrder(le: Order) {
    && (forall p, q :: le(p, q) || le(q, p))
    && (forall p, q :: le(p, q) && le(q, p) ==> p == q)
    && (forall p, q, r :: le(p, q) && le(q, r) ==> le(p, r))
  }

  predicate InOrder(a: seq<Artifact>, le: Order) {
    forall i, j :: 0 <= i < j < |a| ==> le(a[i].path, a[j].path)
  }

  /** The entries of one path, in list order. */
  function Of(a: seq<Artifact>, path: string): seq<Artifact> {
    if a == [] then []
    else Of(a[..|a| - 1], path) + if a[|a| - 1].path == path then [a[|a| - 1]] else []
  }

  /** `x` behind every entry that may stand before it. */
  function Insert(a: seq<Artifact>, x: Artifact, le: Order): (r: seq<Artifact>)
    ensures multiset(r) == multiset(a) + multiset{x}
  {
    if a == [] || le(a[|a| - 1].path, x.path) then a + [x]
    else
      assert a == a[..|a| - 1] + [a[|a| - 1]];
      Insert(a[..|a| - 1], x, le) + [a[|a| - 1]]
  }

  /** The stable sort by path. */
  function Sorted(a: seq<Artifact>, le: Order): (r: seq<Artifact>)
    ensures multiset(r) == multiset(a)
  {
    if a == [] then []
    else
      assert a == a[..|a| - 1] + [a[|a| - 1]];
      Insert(Sorted(a[..|a| - 1], le), a[|a| - 1], le)
  }

  function Preimage(a: seq<Artifact>, le: Order): string {
    Joined(Sorted(a, le))
  }

  lemma OfAppends(a: seq<Artifact>, x: Artifact, path: string)
    ensures Of(a + [x], path) == Of(a, path) + if x.path == path then [x] else []
  {
    assert (a + [x])[..|a + [x]| - 1] == a;
  }

  lemma InOrderAppends(a: seq<Artifact>, x: Artifact, le: Order)
    requires TotalOrder(le) && InOrder(a, le) && forall y :: y in a ==> le(y.path, x.path)
    ensures InOrder(a + [x], le)
  {
    assert forall i :: 0 <= i < |a| ==> (a + [x])[i] in a;
  }

  lemma InsertedFrom(a: seq<Artifact>, x: Artifact, le: Order, y: Artifact)
    requires y in Insert(a, x, le)
    ensures y in a || y == x
  {
    assert y in multiset(Insert(a, x, le));
    assert y in multiset(a) + multiset{x};
  }

  lemma {:induction false} InsertIsStable(a: seq<Artifact>, x: Artifact, le: Order, path: string)
    requires TotalOrder(le) && InOrder(a, le)
    ensures InOrder(Insert(a, x, le), le)
    ensures Of(Insert(a, x, le), path) == Of(a, path) + if x.path == path then [x] else []
  {
    if a == [] || le(a[|a| - 1].path, x.path) {
      forall y | y in a
        ensures le(y.path, x.path)
      {
        var i :| 0 <= i < |a| && a[i] == y;
        assert i == |a| - 1 || le(a[i].path, a[|a| - 1].path);
      }
      InOrderAppends(a, x, le);
      OfAppends(a, x, path);
    } else {
      var before, last := a[..|a| - 1], a[|a| - 1];
      assert a == before + [last];
      InsertIsStable(before, x, le, path);
      var s := Insert(before, x, le);
      forall y | y in s
        ensures le(y.path, last.path)
      {
        InsertedFrom(before, x, le, y);
      }
      InOrderAppends(s, last, le);
      OfAppends(s, last, path);
      OfAppends(before, last, path);
    }
  }

  lemma {:induction false} SortedIsStable(a: seq<Artifact>, le: Order, path: string)
    requires TotalOrder(le)
    ensures InOrder(Sorted(a, le), le) && Of(Sorted(a, le), path) == Of(a, path)
  {
    if a != [] {
      SortedIsStable(a[..|a| - 1], le, path);
      InsertIsStable(Sorted(a[..|a| - 1], le), a[|a| - 1], le, path);
    }
  }

  lemma {:induction false} OfHasAll(a: seq<Artifact>, x: Artifact)
    ensures x in a <==> x in Of(a, x.path)
  {
    if a != [] {
      assert a == a[..|a| - 1] + [a[|a| - 1]];
      OfHasAll(a[..|a| - 1], x);
    }
  }

  lemma LastIsGreatest(a: seq<Artifact>, b: seq<Artifact>, le: Order)
    requires TotalOrder(le) && InOrder(a, le) && InOrder(b, le)
    requires a != [] && b != [] && forall path :: Of(a, path) == Of(b, path)
    ensures a[|a| - 1] == b[|b| - 1]
  {
    var x, y := a[|a| - 1], b[|b| - 1];
    OfHasAll(a, y);
    OfHasAll(b, y);
    LastIsAbove(a, y, le);
    OfHasAll(a, x);
    OfHasAll(b, x);
    LastIsAbove(b, x, le);
    LastOf(a);
    LastOf(b);
  }

  lemma LastIsAbove(a: seq<Artifact>, y: Artifact, le: Order)
    requires TotalOrder(le) && InOrder(a, le) && y in a
    ensures le(y.path, a[|a| - 1].path)
  {
    var i :| 0 <= i < |a| && a[i] == y;
    assert i < |a| - 1 ==> le(a[i].path, a[|a| - 1].path);
  }

  lemma LastOf(a: seq<Artifact>)
    requires a != []
    ensures
      var of := Of(a, a[|a| - 1].path);
      of != [] && of[|of| - 1] == a[|a| - 1]
  {
  }

  /** An ordered list is determined by its entries of each path: any stable sort gives `Sorted`. */
  lemma {:induction false} OrderedListsAgree(a: seq<Artifact>, b: seq<Artifact>, le: Order)
    requires TotalOrder(le) && InOrder(a, le) && InOrder(b, le)
    requires forall path :: Of(a, path) == Of(b, path)
    ensures a == b
  {
    if a == [] || b == [] {
      if a != [] {
        OfHasAll(a, a[0]);
      }
      if b != [] {
        OfHasAll(b, b[0]);
      }
    } else {
      LastIsGreatest(a, b, le);
      var x := a[|a| - 1];
      var a', b' := a[..|a| - 1], b[..|b| - 1];
      forall path
        ensures Of(a', path) == Of(b', path)
      {
        assert Of(a, path) == Of(a', path) + if x.path == path then [x] else [];
        assert Of(b, path) == Of(b', path) + if x.path == path then [x] else [];
        assert Of(a', path) == Of(a, path)[..|Of(a', path)|];
        assert Of(b', path) == Of(b, path)[..|Of(b', path)|];
      }
      OrderedListsAgree(a', b', le);
      assert a == a' + [x] && b == b' + [x];
    }
  }

  /** Whatever algorithm sorts, if it is stable and a permutation it yields the modelled list. */
  lemma AnyStableSortIsSorted(a: seq<Artifact>, r: seq<Artifact>, le: Order)
    requires TotalOrder(le) && InOrder(r, le) && forall path :: Of(r, path) == Of(a, path)
    ensures r == Sorted(a, le)
  {
    forall path
      ensures InOrder(Sorted(a, le), le) && Of(Sorted(a, le), path) == Of(a, path)
    {
      SortedIsStable(a, le, path);
    }
    SortedIsStable(a, le, "");
    OrderedListsAgree(r, Sorted(a, le), le);
  }

  // ---------------------------------------------------------------- main results

  /** No path has two hashes. */
  predicate Consistent(a: seq<Artifact>) {
    forall i, j :: 0 <= i < |a| && 0 <= j < |a| && a[i].path == a[j].path ==> a[i] == a[j]
  }

  predicate DistinctPaths(a: seq<Artifact>) {
    forall i, j :: 0 <= i < j < |a| ==> a[i].path != a[j].path
  }

  /** The entries of a path of a consistent list are copies of one entry. */
  lemma {:induction false} OfCopies(a: seq<Artifact>, x: Artifact)
    requires forall y :: y in a && y.path == x.path ==> y == x
    ensures |Of(a, x.path)| == multiset(a)[x]
    ensures forall k :: 0 <= k < |Of(a, x.path)| ==> Of(a, x.path)[k] == x
  {
    if a != [] {
      assert a == a[..|a| - 1] + [a[|a| - 1]];
      OfCopies(a[..|a| - 1], x);
    }
  }

  lemma {:induction false} OfNothing(a: seq<Artifact>, path: string)
    requires forall y :: y in a ==> y.path != path
    ensures Of(a, path) == []
  {
    if a != [] {
      OfNothing(a[..|a| - 1], path);
    }
  }

  lemma ConsistentListsSortAlike(a: seq<Artifact>, b: seq<Artifact>, le: Order)
    requires TotalOrder(le) && Consistent(a) && multiset(a) == multiset(b)
    ensures Sorted(a, le) == Sorted(b, le)
  {
    assert forall y :: y in b ==> y in multiset(b);
    assert forall y :: y in b ==> y in a;
    forall path
      ensures Of(a, path) == Of(b, path)
    {
      if x :| x in a && x.path == path {
        OfCopies(a, x);
        OfCopies(b, x);
      } else {
        OfNothing(a, path);
        OfNothing(b, path);
      }
    }
    forall path
      ensures Of(Sorted(b, le), path) == Of(a, path)
    {
      SortedIsStable(b, le, path);
    }
    SortedIsStable(b, le, "");
    AnyStableSortIsSorted(a, Sorted(b, le), le);
  }

  /** On clean paths the text says which entries there are, and how often. */
  lemma PreimageIdentifiesEntries(a: seq<Artifact>, b: seq<Artifact>, le: Order)
    requires Hashed(a) && Hashed(b) && AllClean(a) && AllClean(b)
    requires Preimage(a, le) == Preimage(b, le)
    ensures multiset(a) == multiset(b)
  {
    EntriesOfSorted(a, le);
    EntriesOfSorted(b, le);
    CleanTextIsInjective(Sorted(a, le), Sorted(b, le));
  }

  lemma EntriesOfSorted(a: seq<Artifact>, le: Order)
    ensures Hashed(a) ==> Hashed(Sorted(a, le))
    ensures AllClean(a) ==> AllClean(Sorted(a, le))
  {
    var r := Sorted(a, le);
    forall i | 0 <= i < |r|
      ensures r[i] in a
    {
      assert r[i] in multiset(r);
      assert r[i] in multiset(a);
    }
  }

  /**
   For distinct clean paths and well-formed hashes the text is the same exactly for
   lists of the same entries, in any order.
   */
  lemma PreimageIsCanonical(a: seq<Artifact>, b: seq<Artifact>, le: Order)
    requires TotalOrder(le) && Hashed(a) && Hashed(b) && AllClean(a) && AllClean(b)
    requires DistinctPaths(a) && DistinctPaths(b)
    ensures Preimage(a, le) == Preimage(b, le) <==> multiset(a) == multiset(b)
  {
    if multiset(a) == multiset(b) {
      ConsistentListsSortAlike(a, b, le);
    }
    if Preimage(a, le) == Preimage(b, le) {
      PreimageIdentifiesEntries(a, b, le);
    }
  }

  /** With any hash that separates the two texts, the digest is as good as the entries. */
  lemma DigestIdentifiesEntries(a: seq<Artifact>, b: seq<Artifact>, le: Order, hash: string -> string)
    requires TotalOrder(le) && Hashed(a) && Hashed(b) && AllClean(a) && AllClean(b)
    requires DistinctPaths(a) && DistinctPaths(b)
    requires hash(Preimage(a, le)) == hash(Preimage(b, le)) ==> Preimage(a, le) == Preimage(b, le)
    ensures hash(Preimage(a, le)) == hash(Preimage(b, le)) <==> multiset(a) == multiset(b)
  {
    PreimageIsCanonical(a, b, le);
  }

  predicate SamePaths(a: seq<Artifact>, b: seq<Artifact>) {
    |a| == |b| && forall i :: 0 <= i < |a| ==> a[i].path == b[i].path
  }

  /** Where an entry is inserted depends on paths only. */
  lemma {:induction false} InsertSeesPaths(a: seq<Artifact>, x: Artifact, b: seq<Artifact>, y: Artifact, le: Order)
    requires SamePaths(a, b) && x.path == y.path
    ensures SamePaths(Insert(a, x, le), Insert(b, y, le))
  {
    if a != [] && !le(a[|a| - 1].path, x.path) {
      InsertSeesPaths(a[..|a| - 1], x, b[..|b| - 1], y, le);
    }
  }

  lemma {:induction false} SortSeesPaths(a: seq<Artifact>, b: seq<Artifact>, le: Order)
    requires SamePaths(a, b)
    ensures SamePaths(Sorted(a, le), Sorted(b, le))
  {
    if a != [] {
      SortSeesPaths(a[..|a| - 1], b[..|b| - 1], le);
      InsertSeesPaths(Sorted(a[..|a| - 1], le), a[|a| - 1], Sorted(b[..|b| - 1], le), b[|b| - 1], le);
    }
  }

  /** On lists with the same paths, clean or not, the text determines the hashes. */
  lemma {:induction false} SamePathsTextIsInjective(a: seq<Artifact>, b: seq<Artifact>)
    requires SamePaths(a, b) && Hashed(a) && Hashed(b) && Joined(a) == Joined(b)
    ensures a == b
  {
    if a != [] {
      var x, y := a[|a| - 1], b[|b| - 1];
      var a', b' := a[..|a| - 1], b[..|b| - 1];
      TextEndsWithHash(a);
      TextEndsWithHash(b);
      SameTail(Body(a), x.sha256, Body(b), y.sha256);
      SameEnds(Before(a), x.path, Before(b), y.path);
      assert a == a' + [x] && b == b' + [y];
      if |a| > 1 {
        SameEnds(Joined(a'), [LF], Joined(b'), [LF]);
        SamePathsTextIsInjective(a', b');
      }
    }
  }

  /** The list order is immaterial exactly when no path has two hashes. */
  lemma OrderImmaterialIff(a: seq<Artifact>, le: Order)
    requires TotalOrder(le) && Hashed(a)
    ensures
      (forall b :: multiset(b) == multiset(a) ==> Preimage(b, le) == Preimage(a, le)) <==> Consistent(a)
  {
    if Consistent(a) {
      forall b | multiset(b) == multiset(a)
        ensures Preimage(b, le) == Preimage(a, le)
      {
        ConsistentListsSortAlike(a, b, le);
      }
    } else {
      var i, j :| 0 <= i < |a| && 0 <= j < |a| && a[i].path == a[j].path && a[i] != a[j];
      SwapMatters(a, if i < j then i else j, if i < j then j else i, le);
    }
  }

  lemma SwapMatters(a: seq<Artifact>, i: nat, j: nat, le: Order)
    requires TotalOrder(le) && Hashed(a)
    requires i < j < |a| && a[i].path == a[j].path && a[i] != a[j]
    ensures Preimage(Swapped(a, i, j), le) != Preimage(a, le)
  {
    var b := Swapped(a, i, j);
    assert forall k :: 0 <= k < |b| ==> b[k] in b;
    assert Hashed(b);
    ExchangeShows(a, b, i, j);
    DifferentHashesShow(a, b, le, a[i].path);
  }

  lemma DifferentHashesShow(a: seq<Artifact>, b: seq<Artifact>, le: Order, path: string)
    requires TotalOrder(le) && Hashed(a) && Hashed(b) && SamePaths(a, b)
    requires Of(a, path) != Of(b, path)
    ensures Preimage(a, le) != Preimage(b, le)
  {
    EntriesOfSorted(a, le);
    EntriesOfSorted(b, le);
    SortedIsStable(a, le, path);
    SortedIsStable(b, le, path);
    SortSeesPaths(a, b, le);
    if Preimage(a, le) == Preimage(b, le) {
      SamePathsTextIsInjective(Sorted(a, le), Sorted(b, le));
    }
  }

  function Swapped(a: seq<Artifact>, i: nat, j: nat): (b: seq<Artifact>)
    requires i < j < |a|
    ensures multiset(b) == multiset(a) && |b| == |a|
    ensures b[i] == a[j] && b[j] == a[i] && forall k :: 0 <= k < |a| && k != i && k != j ==> b[k] == a[k]
    ensures forall y :: y in b ==> y in a
  {
    var b := a[i := a[j]][j := a[i]];
    assert forall y :: y in b ==> y in a by {
      forall y | y in b
        ensures y in a
      {
        var k :| 0 <= k < |b| && b[k] == y;
        assert k != i && k != j ==> b[k] == a[k];
      }
    }
    b
  }

  lemma CancelRight<T>(a: seq<T>, b: seq<T>, end: seq<T>)
    requires a + end == b + end
    ensures a == b
  {
    assert |a + end| == |b + end|;
    assert a == (a + end)[..|a|] == (b + end)[..|b|] == b;
  }

  /** `b` is `a` with the entries at `i` and `j` exchanged. */
  predicate Exchanged(a: seq<Artifact>, b: seq<Artifact>, i: nat, j: nat)
    requires i < j < |a|
  {
    && |b| == |a| && b[i] == a[j] && b[j] == a[i]
    && forall k :: 0 <= k < |a| && k != i && k != j ==> b[k] == a[k]
  }

  /** Exchanging two different entries of one path changes the entries of that path. */
  lemma {:induction false} ExchangeShows(a: seq<Artifact>, b: seq<Artifact>, i: nat, j: nat)
    requires i < j < |a| && Exchanged(a, b, i, j) && a[i].path == a[j].path && a[i] != a[j]
    ensures Of(b, a[i].path) != Of(a, a[i].path)
  {
    if j == |a| - 1 {
      LastOf(a);
      LastOf(b);
    } else {
      var a', b', x, p := a[..|a| - 1], b[..|b| - 1], a[|a| - 1], a[i].path;
      ExchangeShows(a', b', i, j);
      assert a == a' + [x] && b == b' + [x];
      OfAppends(a', x, p);
      OfAppends(b', x, p);
      AppendKeepsDifference(Of(a', p), Of(b', p), if x.path == p then [x] else []);
    }
  }

  lemma AppendKeepsDifference<T>(a: seq<T>, b: seq<T>, end: seq<T>)
    requires a != b
    ensures a + end != b + end
  {
    if a + end == b + end {
      CancelRight(a, b, end);
    }
  }

  /**
   Without clean paths two different collections share a digest: a path that holds a
   boundary reads as two entries, when its halves stand in path order.
   */
  lemma BoundaryPathsCollide(p: string, h: string, q: string, hash: string, le: Order)
    requires HexDigits(h, 64) && HexDigits(hash, 64) && le(p, q)
    ensures
      var one := [Artifact(p + [NUL] + h + [LF] + q, hash)];
      var two := [Artifact(p, h), Artifact(q, hash)];
      Hashed(one) && Hashed(two) && Preimage(one, le) == Preimage(two, le)
  {
    var x := Artifact(p + [NUL] + h + [LF] + q, hash);
    var y, z := Artifact(p, h), Artifact(q, hash);
    SortedOne(x, le);
    SortedOne(y, le);
    SortedTwo(y, z, le);
    JoinedOne(x);
    JoinedOne(y);
    JoinedOne(z);
    JoinedAppends([y], [z]);
    assert [y] + [z] == [y, z];
    RegroupLines(p, h, q, hash);
  }

  lemma RegroupLines(p: string, h: string, q: string, hash: string)
    ensures (p + [NUL] + h + [LF] + q) + [NUL] + hash == (p + [NUL] + h) + [LF] + (q + [NUL] + hash)
  {
  }

  lemma SortedTwo(y: Artifact, z: Artifact, le: Order)
    requires le(y.path, z.path)
    ensures Sorted([y, z], le) == [y, z]
  {
    SortedOne(y, le);
    assert [y, z][..1] == [y] && [y] + [z] == [y, z];
  }

  lemma SortedOne(x: Artifact, le: Order)
    ensures Sorted([x], le) == [x]
  {
    assert [x][..0] == [] && Sorted([], le) == [];
  }
}

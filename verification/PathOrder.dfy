/** Guest paths as text, and the order in which snapshot entries are sorted. */
module PathOrder {
  import opened Rootfs

  /** Code-point order on text. */
  predicate Less(a: string, b: string) {
    b != "" && (a == "" || a[0] < b[0] || (a[0] == b[0] && Less(a[1..], b[1..])))
  }

  predicate AtMost(a: string, b: string) {
    a == b || Less(a, b)
  }

  /** The texts agree up to k, where a ends or has the smaller character. */
  predicate FirstDifference(a: string, b: string, k: int) {
    0 <= k < |b| && k <= |a| && a[..k] == b[..k] && (k == |a| || a[k] < b[k])
  }

  /** Less is the dictionary order. */
  lemma {:induction false} LessExactly(a: string, b: string)
    ensures Less(a, b) <==> exists k :: FirstDifference(a, b, k)
  {
    if a != "" && b != "" && a[0] == b[0] {
      LessExactly(a[1..], b[1..]);
      if k :| FirstDifference(a[1..], b[1..], k) {
        assert a[..k + 1] == [a[0]] + a[1..][..k] && b[..k + 1] == [b[0]] + b[1..][..k];
        assert FirstDifference(a, b, k + 1);
      }
      if k :| FirstDifference(a, b, k) {
        assert k > 0;
        assert a[1..][..k - 1] == a[..k][1..] == b[..k][1..] == b[1..][..k - 1];
        assert FirstDifference(a[1..], b[1..], k - 1);
      }
    } else if Less(a, b) {
      assert FirstDifference(a, b, 0);
    } else {
      forall k ensures !FirstDifference(a, b, k) {
        assert 0 < k < |b| && k <= |a| ==> a[..k][0] == a[0] && b[..k][0] == b[0];
      }
    }
  }

  lemma {:induction false} LessTotal(a: string, b: string)
    ensures a == b || Less(a, b) || Less(b, a)
    ensures !(Less(a, b) && Less(b, a)) && !Less(a, a)
    decreases |a| + |b|
  {
    if a != "" {
      LessIrreflexive(a);
      if b != "" && a[0] == b[0] {
        LessTotal(a[1..], b[1..]);
        assert a == [a[0]] + a[1..] && b == [b[0]] + b[1..];
      }
    }
  }

  lemma {:induction false} LessIrreflexive(a: string)
    ensures !Less(a, a)
  {
    if a != "" {
      LessIrreflexive(a[1..]);
    }
  }

  lemma {:induction false} LessTransitive(a: string, b: string, c: string)
    requires Less(a, b) && Less(b, c)
    ensures Less(a, c)
  {
    if a != "" && a[0] == b[0] == c[0] {
      LessTransitive(a[1..], b[1..], c[1..]);
    }
  }

  lemma {:induction false} PrefixLess(a: string, b: string)
    requires a <= b && a != b
    ensures Less(a, b)
  {
    if a != "" {
      assert b[1..][..|a| - 1] == b[..|a|][1..] == a[1..];
      assert a == [a[0]] + a[1..] && b == [b[0]] + b[1..];
      PrefixLess(a[1..], b[1..]);
    }
  }

  predicate IsName(name: string) {
    name != "" && '/' !in name
  }

  predicate Named(p: Path) {
    forall i | 0 <= i < |p| :: IsName(p[i])
  }

  /** "/a/b"; the root directory is "/". */
  function Render(p: Path): string {
    if p == [] then "/" else Body(p)
  }

  function Body(p: Path): string {
    if p == [] then "" else Body(Parent(p)) + "/" + p[|p| - 1]
  }

  lemma {:induction false} BodyInjective(p: Path, q: Path)
    requires Named(p) && Named(q) && Body(p) == Body(q)
    ensures p == q
  {
    if p != [] && q != [] {
      var x, y := p[|p| - 1], q[|q| - 1];
      LastName(Body(Parent(p)), x, Body(Parent(q)), y);
      assert Named(Parent(p)) && Named(Parent(q));
      BodyInjective(Parent(p), Parent(q));
      assert p == Parent(p) + [x] && q == Parent(q) + [y];
    }
  }

  lemma {:induction false} LastName(a: string, x: string, b: string, y: string)
    requires IsName(x) && IsName(y) && a + "/" + x == b + "/" + y
    ensures a == b && x == y
  {
    var s := a + "/" + x;
    NoLaterSlash(a, x);
    NoLaterSlash(b, y);
    assert |a| == |b|;
    assert s[..|a|] == a && s[..|b|] == b && s[|a| + 1..] == x && s[|b| + 1..] == y;
  }

  lemma {:induction false} NoLaterSlash(a: string, x: string)
    requires IsName(x)
    ensures (a + "/" + x)[|a|] == '/'
    ensures forall k | |a| < k <= |a| + |x| :: (a + "/" + x)[k] != '/'
  {
    var s := a + "/" + x;
    forall k | |a| < k <= |a| + |x| ensures s[k] != '/' {
      assert s[k] == x[k - |a| - 1];
    }
  }

  lemma {:induction false} LongBody(p: Path)
    requires Named(p)
    ensures p != [] ==> |Body(p)| >= 2
  {
    if p != [] {
      assert IsName(p[|p| - 1]);
    }
  }

  lemma {:induction false} RenderInjective(p: Path, q: Path)
    requires Named(p) && Named(q) && Render(p) == Render(q)
    ensures p == q
  {
    LongBody(p);
    LongBody(q);
    if p != [] && q != [] {
      BodyInjective(p, q);
    }
  }

  /** A directory sorts before everything in it, whatever its siblings are called. */
  lemma {:induction false} ParentFirst(p: Path)
    requires p != [] && Named(p)
    ensures Less(Render(Parent(p)), Render(p))
  {
    var q := Parent(p);
    assert IsName(p[|p| - 1]);
    if q == [] {
      assert Body(p) == "/" + p[|p| - 1];
      PrefixLess("/", Body(p));
    } else {
      assert Body(p)[..|Body(q)|] == Body(q);
      PrefixLess(Body(q), Body(p));
    }
  }

  predicate Before(p: Path, q: Path) {
    Less(Render(p), Render(q))
  }

  /** Strictly ascending by rendered path. */
  ghost predicate Sorted(paths: seq<Path>) {
    forall i, j | 0 <= i < j < |paths| :: Before(paths[i], paths[j])
  }

  function Elements(paths: seq<Path>): set<Path> {
    set p | p in paths
  }

  lemma {:induction false} SortedLast(a: seq<Path>, p: Path)
    requires Sorted(a) && p in a
    ensures p == a[|a| - 1] || Before(p, a[|a| - 1])
  {
    var i :| 0 <= i < |a| && a[i] == p;
  }

  lemma {:induction false} SortedInit(a: seq<Path>)
    requires Sorted(a) && a != []
    ensures Sorted(a[..|a| - 1]) && Elements(a[..|a| - 1]) == Elements(a) - {a[|a| - 1]}
  {
    var init, last := a[..|a| - 1], a[|a| - 1];
    LessIrreflexive(Render(last));
    assert last !in init;
    assert a == init + [last];
  }

  lemma {:induction false} NoElements(a: seq<Path>)
    ensures Elements(a) == {} <==> a == []
  {
    if a != [] {
      assert a[0] in Elements(a);
    }
  }

  /** A set of paths has one sorted list. */
  lemma {:induction false} SortedOnce(a: seq<Path>, b: seq<Path>)
    requires Sorted(a) && Sorted(b) && Elements(a) == Elements(b)
    ensures a == b
    decreases |a|
  {
    NoElements(a);
    NoElements(b);
    if a != [] {
      var x, y := a[|a| - 1], b[|b| - 1];
      assert x in Elements(a) && y in Elements(b);
      SortedLast(a, y);
      SortedLast(b, x);
      LessTotal(Render(x), Render(y));
      SortedInit(a);
      SortedInit(b);
      SortedOnce(a[..|a| - 1], b[..|b| - 1]);
      assert a == a[..|a| - 1] + [x] && b == b[..|b| - 1] + [y];
    }
  }

  /** Where a path belongs in a sorted list: the result keeps it sorted and adds only that path. */
  method Insert(paths: seq<Path>, p: Path) returns (r: seq<Path>)
    requires Sorted(paths) && p !in paths && Named(p) && forall q | q in paths :: Named(q)
    ensures Sorted(r) && |r| == |paths| + 1
    ensures forall q :: q in r <==> q in paths || q == p
  {
    var at := 0;
    while at < |paths| && Before(paths[at], p)
      invariant 0 <= at <= |paths|
      invariant forall i | 0 <= i < at :: Before(paths[i], p)
    {
      at := at + 1;
    }
    r := paths[..at] + [p] + paths[at..];
    forall i | at <= i < |paths| ensures Before(p, paths[i]) {
      AfterInsertion(paths, p, at, i);
    }
    StaysSorted(paths, p, at);
    assert paths == paths[..at] + paths[at..];
  }

  lemma {:induction false} StaysSorted(paths: seq<Path>, p: Path, at: nat)
    requires Sorted(paths) && at <= |paths|
    requires forall i | 0 <= i < at :: Before(paths[i], p)
    requires forall i | at <= i < |paths| :: Before(p, paths[i])
    ensures Sorted(paths[..at] + [p] + paths[at..])
  {
    var r := paths[..at] + [p] + paths[at..];
    forall i, j | 0 <= i < j < |r| ensures Before(r[i], r[j]) {
      if i < at < j {
        LessTransitive(Render(paths[i]), Render(p), Render(paths[j - 1]));
      }
    }
  }

  lemma {:induction false} AfterInsertion(paths: seq<Path>, p: Path, at: nat, i: nat)
    requires Sorted(paths) && p !in paths && Named(p) && forall q | q in paths :: Named(q)
    requires at <= i < |paths| && !Before(paths[at], p)
    ensures Before(p, paths[i])
  {
    assert paths[at] in paths;
    LessTotal(Render(p), Render(paths[at]));
    if Render(p) == Render(paths[at]) {
      RenderInjective(p, paths[at]);
    }
    if at < i {
      LessTransitive(Render(p), Render(paths[at]), Render(paths[i]));
    }
  }

  method SortPaths(paths: set<Path>) returns (r: seq<Path>)
    requires forall p | p in paths :: Named(p)
    ensures Sorted(r) && Elements(r) == paths
  {
    r := [];
    var left := paths;
    while left != {}
      invariant left <= paths && Sorted(r) && Elements(r) == paths - left
    {
      var p :| p in left;
      assert p !in Elements(r) && forall q | q in r :: q in Elements(r);
      ghost var before := r;
      r := Insert(r, p);
      assert Elements(r) == Elements(before) + {p};
      left := left - {p};
    }
  }
}

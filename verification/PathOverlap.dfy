/** Exactly which configurations let two overlapping mutations pass the overlap check of
    packages/core/src/path-policy.js. */
module PathOverlap {
  import opened PathPolicy
  import opened Results
  import opened Text

  /** Where a mutation takes effect. */
  function Location(m: Mutation): Segments { m.root + m.segments }

  lemma YieldedIsAdmitted(r: Roots, p: Segments, m: Mutation)
    requires ValidRoots(r) && AllPlain(p) && Yields(r, p, m)
    ensures Admitted(m)
  {
    var at :| YieldsAt(r, p, m, at);
    assert m.segments == p[|at.base|..];
  }

  lemma SameNameSameRoot(r: Roots, a: Match, b: Match)
    requires ValidRoots(r) && Names(r, a) && Names(r, b) && a.base == b.base
    ensures r.canonical[a.index] == r.canonical[b.index]
  {
  }

  /** What Mutate returns for a path is determined. */
  lemma YieldsUnique(r: Roots, p: Segments, a: Mutation, b: Mutation)
    requires ValidRoots(r) && Yields(r, p, a) && Yields(r, p, b)
    ensures a == b
  {
    var x :| YieldsAt(r, p, a, x);
    var y :| YieldsAt(r, p, b, y);
    assert x.base <= y.base && y.base <= x.base;
    SameNameSameRoot(r, x, y);
    assert a.segments == p[|x.base|..] && b.segments == p[|y.base|..];
  }

  lemma {:induction false} DeepestExists(r: Roots, p: Segments, m: Match) returns (at: Match)
    requires Matches(r, p, m)
    ensures Deepest(r, p, at) && m.base <= at.base
    decreases |p| - |m.base|
  {
    if forall other :: Matches(r, p, other) ==> other.base <= m.base {
      at := m;
    } else {
      var other :| Matches(r, p, other) && !(other.base <= m.base);
      assert m.base == p[..|m.base|] && other.base == p[..|other.base|];
      at := DeepestExists(r, p, other);
    }
  }

  /** A path yields a mutation when a name of a root is its deepest and does not end it. */
  lemma YieldsBelow(r: Roots, base: Segments, segments: Segments, at: Match) returns (m: Mutation)
    requires Deepest(r, base + segments, at) && at.base == base && segments != []
    ensures Yields(r, base + segments, m) && m == Mutation(r.canonical[at.index], Join(segments, '/'), segments)
  {
    m := Mutation(r.canonical[at.index], Join(segments, '/'), segments);
    assert YieldsAt(r, base + segments, m, at);
  }

  // ---------- candidates ----------

  lemma {:induction false} NormalizedPath(p: Segments, rest: Segments)
    requires AllPlain(rest)
    ensures Normalized(p, rest) == p + rest
    decreases |rest|
  {
    if rest == [] {
      assert p + rest == p;
    } else {
      assert Plain(rest[0]);
      NormalizedPath(p + [rest[0]], rest[1..]);
      assert p + [rest[0]] + rest[1..] == p + rest;
    }
  }

  /** The text of a normalised path resolves to it, so what Yields says of a path is what
      Mutate returns for its text. */
  lemma ResolvesToItself(first: Segments, p: Segments)
    requires AllPlain(p)
    ensures PathText(p) != "" && Resolve(first, PathText(p)) == p
  {
    var raw := if p == [] then ["", ""] else [""] + p;
    PlainFree(p);
    forall i | 0 <= i < |raw| ensures Free(raw[i], '/') {
      assert p != [] && i > 0 ==> Free(p[i - 1], '/');
    }
    assert raw[1..] == if p == [] then [""] else p;
    assert Join(raw, '/') == [] + ['/'] + Join(raw[1..], '/');
    assert PathText(p) == Join(raw, '/');
    SplitOfJoin(raw, '/');
    NormalizedPath([], p);
    assert Normalized([], raw) == Normalized([], raw[1..]);
    assert p == [] ==> raw[1..][1..] == [] && Normalized([], raw[1..]) == Normalized([], []);
  }

  // ---------- escapes ----------

  /** Two paths whose mutations are one inside the other and are not refused. */
  ghost predicate Escapes(r: Roots, p: Segments, q: Segments, outer: Mutation, inner: Mutation) {
    && AllPlain(p) && AllPlain(q) && Yields(r, p, outer) && Yields(r, q, inner)
    && Location(outer) < Location(inner) && AssertNoDangerousOverlap(outer, inner).Ok?
  }

  /** A root lies inside another, and on the way to it, at most as far as it, there is a
      path that a name of the outer root still is the deepest for. */
  ghost predicate Gap(r: Roots, name: Match, inner: nat, k: nat) {
    && Names(r, name) && name.base != [] && inner < |r.canonical|
    && r.canonical[name.index] < r.canonical[inner]
    && 1 <= k <= |r.canonical[inner]| - |r.canonical[name.index]|
    && forall other :: Matches(r, name.base + Way(r, name, inner)[..k], other) ==> other.base <= name.base
  }

  /** The way from an outer root to an inner one. */
  function Way(r: Roots, name: Match, inner: nat): Segments
    requires name.index < |r.canonical| && inner < |r.canonical| && |r.canonical[name.index]| <= |r.canonical[inner]|
  {
    r.canonical[inner][|r.canonical[name.index]|..]
  }

  /** Below the deepest name of a path, it is the deepest name of every path on the way. */
  lemma DeepestOnTheWay(r: Roots, p: Segments, at: Match, shorter: Segments)
    requires Deepest(r, p, at) && at.base != [] && at.base < shorter <= p
    ensures Deepest(r, shorter, at)
  {
    forall other | Matches(r, shorter, other) ensures other.base <= at.base {
      assert other.base <= p;
      assert Matches(r, p, other) by {
        assert other.base == shorter || (other.base != [] && other.base < shorter);
      }
    }
  }

  lemma OnTheWay(a: Segments, b: Segments, s: Segments, t: Segments)
    requires a < b && a + s <= b + t
    ensures var d := b[|a|..]; if |s| <= |d| then s == d[..|s|] else d <= s
  {
    var d := b[|a|..];
    assert b == a + d;
    assert (a + s)[|a|..] == s && (b + t)[|a|..] == d + t;
    assert s <= d + t;
  }

  lemma InnerBelow(outer: Mutation, inner: Mutation)
    requires Location(outer) < Location(inner) && inner.root < outer.root
    ensures var d := outer.root[|inner.root|..]; d != [] && d <= inner.segments
  {
    var d := outer.root[|inner.root|..];
    assert outer.root == inner.root + d;
    assert Location(outer)[|inner.root|..] == d + outer.segments;
    assert Location(inner)[|inner.root|..] == inner.segments;
    assert d + outer.segments <= inner.segments;
  }

  lemma SameRootNested(a: Mutation, b: Mutation)
    requires Location(a) < Location(b)
    ensures a.root == b.root ==> a.segments < b.segments
  {
    if a.root == b.root {
      assert Location(a)[|a.root|..] == a.segments && Location(b)[|a.root|..] == b.segments;
    }
  }

  /** An unrefused pair is under two roots, one inside the other. */
  lemma EscapeUnderTwoRoots(r: Roots, p: Segments, q: Segments, outer: Mutation, inner: Mutation)
    requires ValidRoots(r) && Escapes(r, p, q, outer, inner)
    ensures outer.root < inner.root || inner.root < outer.root
  {
    YieldedIsAdmitted(r, p, outer);
    YieldedIsAdmitted(r, q, inner);
    OverlapExactly(outer, inner);
    SameRootNested(outer, inner);
    assert Location(outer)[..|outer.root|] == outer.root && Location(inner)[..|inner.root|] == inner.root;
  }

  /** The path that a mutation comes from passes every prefix of its segments below its name. */
  lemma GapOnPath(r: Roots, p: Segments, m: Mutation, at: Match, j: nat, k: nat)
    requires ValidRoots(r) && YieldsAt(r, p, m, at) && j < |r.canonical| && m.root < r.canonical[j]
    requires 1 <= k <= |m.segments| && k <= |Way(r, at, j)| && Way(r, at, j)[..k] == m.segments[..k]
    ensures Gap(r, at, j, k)
  {
    DeepestOnTheWay(r, p, at, at.base + m.segments[..k]);
  }

  lemma EscapeMakesGap(r: Roots, p: Segments, q: Segments, outer: Mutation, inner: Mutation)
    returns (name: Match, j: nat, k: nat)
    requires ValidRoots(r) && Escapes(r, p, q, outer, inner)
    ensures Gap(r, name, j, k)
  {
    hide Gap, AssertNoDangerousOverlap, ValidRoots;
    EscapeUnderTwoRoots(r, p, q, outer, inner);
    var x :| YieldsAt(r, p, outer, x);
    var y :| YieldsAt(r, q, inner, y);
    if outer.root < inner.root {
      OnTheWay(outer.root, inner.root, outer.segments, inner.segments);
      name, j := x, y.index;
      k := if |outer.segments| <= |Way(r, x, j)| then |outer.segments| else |Way(r, x, j)|;
      GapOnPath(r, p, outer, x, j, k);
    } else {
      InnerBelow(outer, inner);
      name, j, k := y, x.index, |Way(r, y, x.index)|;
      GapOnPath(r, q, inner, y, j, k);
    }
  }

  // ---------- from a gap to an escape ----------

  /** At least the length of every last segment. */
  function LastSize(names: seq<Segments>): nat {
    if names == [] then 0
    else
      var name := names[|names| - 1];
      LastSize(names[..|names| - 1]) + if name == [] then 0 else |name[|name| - 1]|
  }

  lemma {:induction false} LastSizeBounds(names: seq<Segments>, i: nat)
    requires i < |names| && names[i] != []
    ensures |names[i][|names[i]| - 1]| <= LastSize(names)
  {
    if i < |names| - 1 {
      LastSizeBounds(names[..|names| - 1], i);
    }
  }

  /** A name that no configured name ends with. */
  function Unused(r: Roots): string { seq(LastSize(r.given) + LastSize(r.canonical) + 1, i => 'x') }

  lemma UnusedEndsNoName(r: Roots, base: Segments, m: Match)
    requires Names(r, m)
    ensures Plain(Unused(r)) && m.base != base + [Unused(r)]
  {
    var x := Unused(r);
    assert x[0] == 'x';
    if m.base == base + [x] {
      assert m.base[|m.base| - 1] == x;
      if m.base == r.given[m.index] {
        LastSizeBounds(r.given, m.index);
      } else {
        LastSizeBounds(r.canonical, m.index);
      }
    }
  }

  lemma OuterYields(r: Roots, name: Match, j: nat, k: nat) returns (outer: Mutation)
    requires ValidRoots(r) && Gap(r, name, j, k)
    ensures var d := Way(r, name, j)[..k];
            && AllPlain(name.base + d) && AllPlain(d) && Yields(r, name.base + d, outer)
            && outer == Mutation(r.canonical[name.index], Join(d, '/'), d)
  {
    var d := Way(r, name, j)[..k];
    assert Matches(r, name.base + d, name);
    outer := YieldsBelow(r, name.base, d, name);
  }

  lemma InnerYields(r: Roots, j: nat) returns (inner: Mutation)
    requires ValidRoots(r) && j < |r.canonical| && r.canonical[j] != []
    ensures var q := r.canonical[j] + [Unused(r)];
            AllPlain(q) && Yields(r, q, inner) && inner.root == r.canonical[j] && inner.segments == [Unused(r)]
  {
    var c, x := r.canonical[j], Unused(r);
    var q, at := c + [x], Match(j, c);
    assert Matches(r, q, at);
    forall other | Matches(r, q, other) ensures other.base <= at.base {
      UnusedEndsNoName(r, c, other);
      assert other.base < q && q[..|c|] == c;
    }
    inner := YieldsBelow(r, c, [x], at);
    UnusedEndsNoName(r, c, at);
  }

  lemma GapMakesEscape(r: Roots, name: Match, j: nat, k: nat)
    returns (p: Segments, q: Segments, outer: Mutation, inner: Mutation)
    requires ValidRoots(r) && Gap(r, name, j, k)
    ensures Escapes(r, p, q, outer, inner)
    ensures p == name.base + Way(r, name, j)[..k] && q == r.canonical[j] + [Unused(r)]
  {
    p, q := name.base + Way(r, name, j)[..k], r.canonical[j] + [Unused(r)];
    outer := OuterYields(r, name, j, k);
    inner := InnerYields(r, j);
    var c := r.canonical[j];
    assert c == r.canonical[name.index] + Way(r, name, j);
    assert Location(outer) <= c < Location(inner);
    PathTextInjective(outer.root, inner.root);
  }

  /** Exactly the configurations with a gap let an overlapping pair through. */
  lemma EscapesExactly(r: Roots)
    requires ValidRoots(r)
    ensures (exists p, q, outer, inner :: Escapes(r, p, q, outer, inner)) <==>
            (exists name, j: nat, k: nat :: Gap(r, name, j, k))
  {
    hide Escapes, Gap, ValidRoots;
    if p, q, outer, inner :| Escapes(r, p, q, outer, inner) {
      var name, j, k := EscapeMakesGap(r, p, q, outer, inner);
    }
    if name, j: nat, k: nat :| Gap(r, name, j, k) {
      var p, q, outer, inner := GapMakesEscape(r, name, j, k);
    }
  }

  // ---------- roots without a second name ----------

  /** A path strictly between two configured roots that is not a root itself. */
  ghost predicate Between(r: Roots, i: nat, p: Segments, j: nat) {
    && i < |r.given| && j < |r.given| && r.given[i] != [] && r.given[i] < p < r.given[j]
    && p !in r.given
  }

  lemma BetweenMakesGap(r: Roots, i: nat, p: Segments, j: nat) returns (name: Match, k: nat)
    requires ValidRoots(r) && r.given == r.canonical && Between(r, i, p, j)
    ensures Gap(r, name, j, k)
  {
    var start := Match(i, r.given[i]);
    assert Matches(r, p, start);
    name := DeepestExists(r, p, start);
    k := |p| - |name.base|;
    var c := r.given[j];
    assert name.base < p && name.base == r.canonical[name.index];
    assert c[..|p|] == p && c[..|name.base|] == name.base;
    assert p == name.base + Way(r, name, j)[..k];
  }

  lemma GapMakesBetween(r: Roots, name: Match, j: nat, k: nat)
    requires ValidRoots(r) && r.given == r.canonical && Gap(r, name, j, k)
    ensures Between(r, name.index, name.base + Way(r, name, j)[..k], j)
  {
    var b, c := name.base, r.given[j];
    var d := Way(r, name, j);
    var p := b + d[..k];
    assert c == b + d;
    forall i | 0 <= i < |r.given| ensures r.given[i] != p {
      assert r.given[i] == p ==> Matches(r, p, Match(i, p));
    }
    assert r.given[j] != p;
    assert p <= c;
  }

  /** When no root has a second name: an overlap escapes if and only if some path that is
      not a root lies strictly between two of them. Roots one level apart are safe. */
  lemma EscapesExactlyBetween(r: Roots)
    requires ValidRoots(r) && r.given == r.canonical
    ensures (exists p, q, outer, inner :: Escapes(r, p, q, outer, inner)) <==>
            (exists i: nat, p, j: nat :: Between(r, i, p, j))
  {
    hide Escapes, Gap, ValidRoots, Between;
    EscapesExactly(r);
    if i: nat, p, j: nat :| Between(r, i, p, j) {
      var name, k := BetweenMakesGap(r, i, p, j);
    }
    if name, j: nat, k: nat :| Gap(r, name, j, k) {
      GapMakesBetween(r, name, j, k);
    }
  }

  // ---------- an escaping pair, as Mutate returns it ----------

  lemma YieldedNotBase(r: Roots, p: Segments, m: Mutation, n: Match)
    requires Yields(r, p, m) && Matches(r, p, n)
    ensures n.base != p
  {
    var at :| YieldsAt(r, p, m, at);
    assert n.base <= at.base && |p| == |at.base| + |m.segments|;
  }

  /** What Mutate returns for the text of a path that yields a mutation is that mutation. */
  method MutatePath(policy: Policy, p: Segments, ghost m: Mutation) returns (r: Result<Mutation, PathError>)
    requires ValidRoots(policy.roots) && AllPlain(p) && Yields(policy.roots, p, m)
    ensures r == Ok(m)
  {
    ResolvesToItself(policy.roots.given[0], p);
    r := policy.Mutate(PathText(p));
    ghost var at :| YieldsAt(policy.roots, p, m, at);
    assert Matches(policy.roots, p, at);
    forall n | Matches(policy.roots, p, n) ensures n.base != p {
      YieldedNotBase(policy.roots, p, m, n);
    }
    YieldsUnique(policy.roots, p, m, r.value);
  }

  /** For any configuration with a gap: the paths, and what Mutate makes of them, is one
      inside the other, and the overlap check lets them pass. */
  method EscapingPair(policy: Policy, ghost name: Match, ghost j: nat, ghost k: nat, p: Segments, q: Segments)
    returns (outer: Result<Mutation, PathError>, inner: Result<Mutation, PathError>)
    requires ValidRoots(policy.roots) && Gap(policy.roots, name, j, k)
    requires p == name.base + Way(policy.roots, name, j)[..k] && q == policy.roots.canonical[j] + [Unused(policy.roots)]
    ensures outer.Ok? && inner.Ok? && Location(outer.value) < Location(inner.value)
    ensures AssertNoDangerousOverlap(outer.value, inner.value).Ok?
  {
    hide ValidRoots, Gap, Yields, AssertNoDangerousOverlap;
    ghost var x, y, m, n := GapMakesEscape(policy.roots, name, j, k);
    outer := MutatePath(policy, p, m);
    inner := MutatePath(policy, q, n);
  }
}

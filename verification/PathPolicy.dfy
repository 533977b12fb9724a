/** Which workspace paths may be mutated: packages/core/src/path-policy.js. A normalised
    absolute path is the list of its segments; the comparisons are made on its text, as the
    policy makes them. */
module PathPolicy {
  import opened Results
  import opened Text

  type Segments = seq<string>

  predicate Plain(s: string) { s != "" && s != "." && s != ".." && Free(s, '/') }

  predicate AllPlain(p: Segments) { forall i | 0 <= i < |p| :: Plain(p[i]) }

  /** The absolute path as text. */
  function PathText(p: Segments): string { if p == [] then "/" else "/" + Join(p, '/') }

  // ---------- path.resolve ----------

  /** One segment of an unnormalised path after the normalised `p`. */
  function Enter(p: Segments, s: string): Segments {
    if s == "" || s == "." then p
    else if s == ".." then (if p == [] then p else p[..|p| - 1])
    else p + [s]
  }

  function Normalized(p: Segments, raw: seq<string>): Segments
    decreases |raw|
  {
    if raw == [] then p else Normalized(Enter(p, raw[0]), raw[1..])
  }

  /** path.resolve of a candidate, from the first root when it is relative. */
  function Resolve(first: Segments, candidate: string): Segments {
    Normalized(if candidate != "" && candidate[0] == '/' then [] else first, Split(candidate, '/'))
  }

  lemma {:induction false} NormalizedPlain(p: Segments, raw: seq<string>)
    requires AllPlain(p) && AllFree(raw, '/')
    ensures AllPlain(Normalized(p, raw))
    decreases |raw|
  {
    if raw != [] {
      assert Free(raw[0], '/');
      NormalizedPlain(Enter(p, raw[0]), raw[1..]);
    }
  }

  lemma ResolvedPlain(first: Segments, candidate: string)
    requires AllPlain(first)
    ensures AllPlain(Resolve(first, candidate))
  {
    JoinOfSplit(candidate, '/');
    NormalizedPlain(if candidate != "" && candidate[0] == '/' then [] else first, Split(candidate, '/'));
  }

  // ---------- containment ----------

  predicate IsWithin(candidate: string, root: string) {
    candidate == root || root + "/" <= candidate
  }

  lemma PlainFree(p: Segments)
    requires AllPlain(p)
    ensures AllFree(p, '/')
  {
    forall i | 0 <= i < |p| ensures Free(p[i], '/') {
      assert Plain(p[i]);
    }
  }

  /** A separator-terminated prefix of a joined text is a prefix of its parts. */
  lemma {:induction false} SeparatedPrefix(a: seq<string>, b: seq<string>)
    requires a != [] && b != [] && AllFree(a, '/') && AllFree(b, '/')
    ensures Join(a, '/') + "/" <= Join(b, '/') <==> a < b
  {
    var text, whole := Join(a, '/') + "/", Join(b, '/');
    if a < b {
      JoinAppend(a, b[|a|..], '/');
      assert b == a + b[|a|..];
      assert whole == text + Join(b[|a|..], '/');
    }
    if text <= whole {
      var rest := whole[|text|..];
      JoinOfSplit(rest, '/');
      JoinAppend(a, Split(rest, '/'), '/');
      assert whole == text + rest;
      forall i | 0 <= i < |a + Split(rest, '/')| ensures Free((a + Split(rest, '/'))[i], '/') {
        assert i < |a| ==> Free(a[i], '/');
        assert i >= |a| ==> Free(Split(rest, '/')[i - |a|], '/');
      }
      JoinInjective(a + Split(rest, '/'), b, '/');
    }
  }

  lemma PathTextInjective(a: Segments, b: Segments)
    requires AllPlain(a) && AllPlain(b)
    ensures PathText(a) == PathText(b) <==> a == b
  {
    PlainFree(a);
    PlainFree(b);
    if a != [] {
      NonemptyJoin(a);
    }
    if b != [] {
      NonemptyJoin(b);
    }
    if a != [] && b != [] {
      JoinInjective(a, b, '/');
      assert PathText(a)[1..] == Join(a, '/') && PathText(b)[1..] == Join(b, '/');
    }
  }

  lemma NonemptyJoin(a: Segments)
    requires AllPlain(a) && a != []
    ensures Join(a, '/') != "" && Join(a, '/')[0] != '/'
  {
    assert Plain(a[0]);
    assert Join(a, '/')[0] == a[0][0];
  }

  /** The text test is containment of segment lists, except that nothing but itself is
      within the root directory "/". */
  lemma WithinExactly(p: Segments, root: Segments)
    requires AllPlain(p) && AllPlain(root)
    ensures IsWithin(PathText(p), PathText(root)) <==> p == root || (root != [] && root < p)
  {
    PathTextInjective(p, root);
    if p != [] {
      NonemptyJoin(p);
      assert PathText(p)[1] == Join(p, '/')[0];
    }
    if root == [] {
      assert PathText(root) + "/" == "//";
    } else if p != [] {
      PlainFree(p);
      PlainFree(root);
      SeparatedPrefix(root, p);
      var start, text := PathText(root) + "/", PathText(p);
      assert start == "/" + (Join(root, '/') + "/");
      assert start[1..] == Join(root, '/') + "/" && text[1..] == Join(p, '/');
      PrefixTail(start, text);
    } else {
      NonemptyJoin(root);
    }
  }

  lemma PrefixTail(a: string, b: string)
    requires a != "" && b != "" && a[0] == b[0]
    ensures a <= b <==> a[1..] <= b[1..]
  {
    assert a == [a[0]] + a[1..] && b == [b[0]] + b[1..];
  }

  // ---------- mutation ----------

  datatype Mutation = Mutation(root: Segments, relative: string, segments: Segments)

  function DisplayPath(m: Mutation): string { PathText(m.root + m.segments) }

  datatype PathError = InvalidPath | PathNotAllowed | ProtectedRoot | DangerousOverlap

  datatype Match = Match(index: nat, base: Segments)

  /** path.relative(base, p) for a path within the base. */
  function Relative(base: Segments, p: Segments): string
    requires |base| <= |p|
  {
    if p[|base|..] == [] then "" else Join(p[|base|..], '/')
  }

  lemma PrefixShorter(a: Segments, b: Segments)
    requires AllPlain(b) && a < b
    ensures |PathText(a)| < |PathText(b)|
  {
    var rest := b[|a|..];
    NonemptyJoin(rest);
    assert b == a + rest;
    if a != [] {
      JoinAppend(a, rest, '/');
    }
  }

  /** Of two directories that contain a path, the one with the shorter text contains the
      other. */
  lemma Nested(a: Segments, b: Segments, p: Segments)
    requires AllPlain(p) && a <= p && b <= p && |PathText(a)| <= |PathText(b)|
    ensures a <= b
  {
    if |a| > |b| {
      assert b == a[..|b|] && AllPlain(a);
      PrefixShorter(b, a);
    }
  }

  /** The configured roots, and what realpath made of each. */
  datatype Roots = Roots(given: seq<Segments>, canonical: seq<Segments>)

  /** realpath is a function, and a canonical path is its own. */
  ghost predicate ValidRoots(r: Roots) {
    && |r.given| == |r.canonical| >= 1
    && (forall i | 0 <= i < |r.given| :: AllPlain(r.given[i]))
    && (forall i | 0 <= i < |r.canonical| :: AllPlain(r.canonical[i]))
    && (forall i, j | 0 <= i < |r.given| && 0 <= j < |r.given| && r.given[i] == r.given[j] ::
          r.canonical[i] == r.canonical[j])
    && (forall i, j | 0 <= i < |r.given| && 0 <= j < |r.given| && r.given[i] == r.canonical[j] ::
          r.canonical[i] == r.canonical[j])
  }

  /** One name of a root. */
  predicate Names(r: Roots, m: Match) {
    m.index < |r.given| == |r.canonical| && (m.base == r.given[m.index] || m.base == r.canonical[m.index])
  }

  /** A configured root, under either of its names, that the path is within. */
  ghost predicate Matches(r: Roots, p: Segments, m: Match) {
    Names(r, m) && (p == m.base || (m.base != [] && m.base < p))
  }

  /** No configured root within which the path lies is deeper. */
  ghost predicate Deepest(r: Roots, p: Segments, m: Match) {
    Matches(r, p, m) && forall other :: Matches(r, p, other) ==> other.base <= m.base
  }

  /** The mutation of a path: its root's canonical name and the segments below the deepest
      name that contains it. */
  ghost predicate YieldsAt(r: Roots, p: Segments, m: Mutation, at: Match) {
    && Deepest(r, p, at) && m.segments != [] && at.base + m.segments == p
    && m.root == r.canonical[at.index] && m.relative == Join(m.segments, '/')
  }

  ghost predicate Yields(r: Roots, p: Segments, m: Mutation) { exists at :: YieldsAt(r, p, m, at) }

  function TextLength(m: Match): nat { |PathText(m.base)| }

  // ---------- collecting the matches ----------

  predicate Covers(base: Segments, p: Segments) { p == base || (base != [] && base < p) }

  /** The matches among the first roots. */
  ghost predicate Collected(r: Roots, p: Segments, matches: seq<Match>, index: nat) {
    forall m :: m in matches <==> Matches(r, p, m) && m.index < index
  }

  function MatchIf(holds: bool, m: Match): seq<Match> { if holds then [m] else [] }

  lemma NoneCollected(r: Roots, p: Segments)
    ensures Collected(r, p, [], 0)
  {
  }

  lemma CollectNext(r: Roots, p: Segments, before: seq<Match>, after: seq<Match>, index: nat)
    requires Collected(r, p, before, index) && index < |r.given| == |r.canonical|
    requires var given, canonical := r.given[index], r.canonical[index];
             after == before + MatchIf(Covers(given, p), Match(index, given)) +
                      MatchIf(canonical != given && Covers(canonical, p), Match(index, canonical))
    ensures Collected(r, p, after, index + 1)
  {
    forall m ensures m in after <==> Matches(r, p, m) && m.index < index + 1 {
      assert m in before <==> Matches(r, p, m) && m.index < index;
    }
  }

  lemma AllCollected(r: Roots, p: Segments, matches: seq<Match>)
    requires Collected(r, p, matches, |r.given|)
    ensures forall m :: m in matches <==> Matches(r, p, m)
  {
  }

  class Policy {
    const roots: Roots

    constructor (roots: Roots)
      ensures this.roots == roots
    {
      this.roots := roots;
    }

    method MatchesOf(p: Segments) returns (matches: seq<Match>)
      requires ValidRoots(roots) && AllPlain(p)
      ensures forall m :: m in matches <==> Matches(roots, p, m)
    {
      hide Matches, Collected;
      matches := [];
      NoneCollected(roots, p);
      for index := 0 to |roots.given|
        invariant Collected(roots, p, matches, index)
      {
        ghost var before := matches;
        var given, canonical := roots.given[index], roots.canonical[index];
        WithinExactly(p, given);
        WithinExactly(p, canonical);
        if IsWithin(PathText(p), PathText(given)) {
          matches := matches + [Match(index, given)];
        }
        if canonical != given && IsWithin(PathText(p), PathText(canonical)) {
          matches := matches + [Match(index, canonical)];
        }
        CollectNext(roots, p, before, matches, index);
      }
      AllCollected(roots, p, matches);
    }

    /** The head of the matches sorted by descending length of the base's text. */
    method Longest(matches: seq<Match>) returns (deepest: nat)
      requires matches != []
      ensures deepest < |matches|
      ensures forall k | 0 <= k < |matches| :: TextLength(matches[k]) <= TextLength(matches[deepest])
    {
      hide TextLength;
      deepest := 0;
      for i := 1 to |matches|
        invariant deepest < |matches|
        invariant forall k | 0 <= k < i :: TextLength(matches[k]) <= TextLength(matches[deepest])
      {
        if TextLength(matches[i]) > TextLength(matches[deepest]) {
          deepest := i;
        }
      }
    }

    /** A mutation names plain segments strictly below the deepest configured root that
        contains the path; a root itself is protected. */
    method Mutate(candidate: string) returns (r: Result<Mutation, PathError>)
      requires ValidRoots(roots)
      ensures candidate == "" <==> r == Err(InvalidPath)
      ensures var p := Resolve(roots.given[0], candidate);
              r.Ok? <==>
              candidate != "" && (exists m :: Matches(roots, p, m)) && forall m :: Matches(roots, p, m) ==> m.base != p
      ensures var p := Resolve(roots.given[0], candidate);
              candidate != "" ==>
                && (r == Err(PathNotAllowed) <==> !exists m :: Matches(roots, p, m))
                && (r == Err(ProtectedRoot) <==> exists m :: Matches(roots, p, m) && m.base == p)
                && (r.Ok? ==> Yields(roots, p, r.value) && AllPlain(r.value.segments))
    {
      if candidate == "" {
        return Err(InvalidPath);
      }
      var resolved := Resolve(roots.given[0], candidate);
      ResolvedPlain(roots.given[0], candidate);
      var matches := MatchesOf(resolved);
      if matches == [] {
        assert forall m :: Matches(roots, resolved, m) ==> m in matches;
        return Err(PathNotAllowed);
      }
      var longest := Longest(matches);
      var deepest := matches[longest];
      assert Matches(roots, resolved, deepest);
      assert forall m :: m in matches ==> TextLength(m) <= TextLength(deepest);
      forall other | Matches(roots, resolved, other) ensures other.base <= deepest.base {
        assert other in matches;
        Nested(other.base, deepest.base, resolved);
      }
      var relative := Relative(deepest.base, resolved);
      var rest := resolved[|deepest.base|..];
      if rest != [] {
        NonemptyJoin(rest);
        PlainFree(rest);
        SplitOfJoin(rest, '/');
        assert Plain(rest[0]);
        SplitOfFree(".", '/');
      }
      if relative == "" || relative == "." {
        return Err(ProtectedRoot);
      }
      var segments := Split(relative, '/');
      if exists i | 0 <= i < |segments| :: segments[i] in {"", ".", ".."} {
        return Err(InvalidPath);
      }
      r := Ok(Mutation(roots.canonical[deepest.index], relative, segments));
      assert YieldsAt(roots, resolved, r.value, deepest);
    }
  }

  // ---------- overlap ----------

  /** assertNoDangerousOverlap, on the texts it compares. */
  function AssertNoDangerousOverlap(source: Mutation, destination: Mutation): Result<(), PathError> {
    if PathText(source.root) != PathText(destination.root) then Ok(())
    else if source.relative == destination.relative then Ok(())
    else if source.relative + "/" <= destination.relative || destination.relative + "/" <= source.relative then
      Err(DangerousOverlap)
    else Ok(())
  }

  /** What Mutate returns. */
  predicate Admitted(m: Mutation) {
    AllPlain(m.root) && AllPlain(m.segments) && m.segments != [] && m.relative == Join(m.segments, '/')
  }

  /** Two mutations overlap exactly when, under one root, one is an ancestor of the other:
      a shared beginning of a name is not an overlap. */
  lemma OverlapExactly(source: Mutation, destination: Mutation)
    requires Admitted(source) && Admitted(destination)
    ensures AssertNoDangerousOverlap(source, destination).Err? <==>
              source.root == destination.root
              && (source.segments < destination.segments || destination.segments < source.segments)
  {
    PathTextInjective(source.root, destination.root);
    PlainFree(source.segments);
    PlainFree(destination.segments);
    JoinInjective(source.segments, destination.segments, '/');
    SeparatedPrefix(source.segments, destination.segments);
    SeparatedPrefix(destination.segments, source.segments);
  }
}

/** The loops of the path matcher, and where expansion looks: below the part of the pattern before
    its first wildcard lies every path that matches, exactly when that part can only match
    itself. */
module GlobExpand {
  import opened Prelude
  import opened Text
  import opened Glob

  // ---- Matching, as it runs ----

  method Match(m: SegmentMatch, ps: seq<Segment>, ss: seq<Segment>) returns (r: Option<bool>)
    ensures r == MatchSegments(m, ps, ss)
    decreases |ps|
  {
    if |ps| == 0 {
      return Some(|ss| == 0);
    }
    if ps[0] == STARS {
      var rest := ps;
      while |rest| > 1 && rest[1] == STARS
        invariant 0 < |rest| <= |ps| && rest[0] == STARS
        invariant SkipStars(rest) == SkipStars(ps)
        decreases |rest|
      {
        rest := rest[1..];
      }
      if |rest| == 1 {
        return Some(true);
      }
      for consumed := 0 to |ss| + 1
        invariant TryFrom(m, rest[1..], ss, 0) == TryFrom(m, rest[1..], ss, consumed)
      {
        r := Match(m, rest[1..], ss[consumed..]);
        if r != Some(false) {
          return;
        }
      }
      return Some(false);
    }
    if |ss| == 0 {
      return Some(false);
    }
    var first := m(ps[0], ss[0]);
    if first != Some(true) {
      return first;
    }
    r := Match(m, ps[1..], ss[1..]);
  }

  /** A path as an absolute flag and its segments; slashes at both ends are trimmed. */
  datatype Path = Path(absolute: bool, segments: seq<Segment>)

  function TrimSlashes(s: string): (r: string)
    ensures r == "" || (r[0] != '/' && r[|r| - 1] != '/')
    decreases |s|
  {
    if s == "" then s
    else if s[0] == '/' then TrimSlashes(s[1..])
    else if s[|s| - 1] == '/' then TrimSlashes(s[..|s| - 1])
    else s
  }

  function SplitPath(value: string): (p: Path) {
    var trimmed := TrimSlashes(value);
    Path(HasPrefix(value, "/"), if trimmed == "" || trimmed == "." then [] else Split(trimmed, '/'))
  }

  /** What is trimmed are slashes at both ends. */
  lemma {:induction false} TrimsOnlySlashes(s: string) returns (a: nat, b: nat)
    ensures var r := TrimSlashes(s);
      && a + |r| + b == |s| && r == s[a..a + |r|]
      && (forall i :: 0 <= i < a || |s| - b <= i < |s| ==> s[i] == '/')
  {
    a, b := 0, 0;
    if s != "" && s[0] == '/' {
      a, b := TrimsOnlySlashes(s[1..]);
      a := a + 1;
      assert forall i :: 1 <= i < |s| ==> s[i] == s[1..][i - 1];
    } else if s != "" && s[|s| - 1] == '/' {
      a, b := TrimsOnlySlashes(s[..|s| - 1]);
      b := b + 1;
    }
  }

  /** The segments hold no slash, and joined again they are the trimmed path; there are none when
      that is empty or a dot. */
  lemma SplitPathJoins(value: string)
    ensures var p := SplitPath(value); var trimmed := TrimSlashes(value);
      && (p.absolute <==> |value| > 0 && value[0] == '/')
      && (forall s :: s in p.segments ==> '/' !in s)
      && if trimmed == "" || trimmed == "." then |p.segments| == 0
         else |p.segments| > 0 && Join(p.segments, "/") == trimmed
  {
    JoinOfSplit(TrimSlashes(value), '/');
  }

  /** Both paths are cleaned. An absolute pattern matches only absolute paths. */
  function MatchRecursive(m: SegmentMatch, pattern: string, path: string): (r: Option<bool>) {
    var p, s := SplitPath(pattern), SplitPath(path);
    if p.absolute && !s.absolute then Some(false) else MatchSegments(m, p.segments, s.segments)
  }

  lemma MatchRecursiveMeansAligns(m: SegmentMatch, pattern: string, path: string)
    requires MatchRecursive(m, pattern, path).Some?
    ensures MatchRecursive(m, pattern, path).value <==>
      (SplitPath(pattern).absolute ==> SplitPath(path).absolute)
      && Aligns(m, SplitPath(pattern).segments, SplitPath(path).segments)
  {
    var p, s := SplitPath(pattern), SplitPath(path);
    if !p.absolute || s.absolute {
      MatchMeansAligns(m, p.segments, s.segments);
    }
  }

  // ---- The directory to walk ----

  predicate Wildcard(segment: Segment) {
    exists i :: 0 <= i < |segment| && segment[i] in {'*', '?', '['}
  }

  /** The segments before the first one with a wildcard. */
  function BaseSegments(ps: seq<Segment>): (r: seq<Segment>)
    ensures r <= ps && forall i :: 0 <= i < |r| ==> !Wildcard(r[i])
    ensures |r| < |ps| ==> Wildcard(ps[|r|])
  {
    if |ps| == 0 || Wildcard(ps[0]) then [] else [ps[0]] + BaseSegments(ps[1..])
  }

  lemma StarsAreWild()
    ensures Wildcard(STARS)
  {
    assert STARS[0] == '*';
  }

  lemma BaseTurn(ps: seq<Segment>, i: nat)
    requires i < |ps|
    ensures Wildcard(ps[i]) ==> ps[..i] + BaseSegments(ps[i..]) == ps[..i]
    ensures !Wildcard(ps[i]) ==> ps[..i] + BaseSegments(ps[i..]) == ps[..i + 1] + BaseSegments(ps[i + 1..])
  {
    assert ps[i..][1..] == ps[i + 1..];
    if Wildcard(ps[i]) {
      assert |BaseSegments(ps[i..])| == 0;
    } else {
      assert BaseSegments(ps[i..]) == [ps[i]] + BaseSegments(ps[i + 1..]);
    }
  }

  method RecursiveBaseDir(ps: seq<Segment>) returns (base: seq<Segment>)
    ensures base == BaseSegments(ps)
  {
    base := [];
    assert ps[0..] == ps;
    for i := 0 to |ps|
      invariant base == ps[..i] && BaseSegments(ps) == ps[..i] + BaseSegments(ps[i..])
    {
      BaseTurn(ps, i);
      if ps[i] == STARS || Wildcard(ps[i]) {
        StarsAreWild();
        break;
      }
      base := base + [ps[i]];
    }
  }

  /** Segments that are matched by nothing but themselves. */
  ghost predicate OnlyItself(m: SegmentMatch, p: Segment) {
    forall s :: m(p, s) == Some(true) ==> s == p
  }

  /** Every path that matches lies below the base. */
  ghost predicate BelowBase(m: SegmentMatch, ps: seq<Segment>) {
    forall ss :: MatchSegments(m, ps, ss) == Some(true) ==> BaseSegments(ps) <= ss
  }

  lemma BaseStep(m: SegmentMatch, ps: seq<Segment>, ss: seq<Segment>)
    requires |BaseSegments(ps)| > 0 && MatchSegments(m, ps, ss) == Some(true)
    ensures |ss| > 0 && m(ps[0], ss[0]) == Some(true)
    ensures MatchSegments(m, ps[1..], ss[1..]) == Some(true) && BaseSegments(ps)[1..] == BaseSegments(ps[1..])
  {
    StarsAreWild();
  }

  lemma {:induction false} MatchesBelow(m: SegmentMatch, ps: seq<Segment>, ss: seq<Segment>)
    requires MatchSegments(m, ps, ss) == Some(true)
    requires forall i :: 0 <= i < |BaseSegments(ps)| ==> OnlyItself(m, BaseSegments(ps)[i])
    ensures BaseSegments(ps) <= ss
  {
    var base := BaseSegments(ps);
    if |base| > 0 {
      BaseStep(m, ps, ss);
      assert base[0] == ps[0] && OnlyItself(m, base[0]);
      forall i | 0 <= i < |BaseSegments(ps[1..])| ensures OnlyItself(m, BaseSegments(ps[1..])[i]) {
        assert base[i + 1] == BaseSegments(ps[1..])[i];
      }
      MatchesBelow(m, ps[1..], ss[1..]);
      assert base == [ss[0]] + BaseSegments(ps[1..]) && ss == [ss[0]] + ss[1..];
    }
  }

  /** In a matching path, any other segment that a base segment matches can be put in. */
  lemma {:induction false} Substitutes(m: SegmentMatch, ps: seq<Segment>, ss: seq<Segment>, i: nat, s: Segment)
    requires MatchSegments(m, ps, ss) == Some(true) && i < |BaseSegments(ps)| && m(ps[i], s) == Some(true)
    ensures i < |ss| && MatchSegments(m, ps, ss[i := s]) == Some(true)
    decreases i
  {
    BaseStep(m, ps, ss);
    StarsAreWild();
    assert ps[0] != STARS;
    if i == 0 {
      assert ss[0 := s][1..] == ss[1..];
    } else {
      Substitutes(m, ps[1..], ss[1..], i - 1, s);
      assert ss[i := s][1..] == ss[1..][i - 1 := s];
    }
  }

  /** Walking below the base misses nothing exactly when nothing matches at all, or every base
      segment is matched only by itself. */
  lemma WalkIsCompleteIff(m: SegmentMatch, ps: seq<Segment>)
    ensures BelowBase(m, ps) <==>
      || (forall ss :: MatchSegments(m, ps, ss) != Some(true))
      || (forall i :: 0 <= i < |BaseSegments(ps)| ==> OnlyItself(m, BaseSegments(ps)[i]))
  {
    var base := BaseSegments(ps);
    if forall i :: 0 <= i < |base| ==> OnlyItself(m, base[i]) {
      forall ss | MatchSegments(m, ps, ss) == Some(true) ensures base <= ss {
        MatchesBelow(m, ps, ss);
      }
    } else if ss :| MatchSegments(m, ps, ss) == Some(true) {
      var i :| 0 <= i < |base| && !OnlyItself(m, base[i]);
      var s :| m(base[i], s) == Some(true) && s != base[i];
      assert base[i] == ps[i];
      Substitutes(m, ps, ss, i, s);
      var other := ss[i := s];
      assert MatchSegments(m, ps, other) == Some(true) && other[i] != base[i];
    }
  }

  /** Nothing in the segment has a meaning of its own for filepath.Match. */
  predicate Plain(p: Segment) {
    '*' !in p && '?' !in p && '[' !in p && '\\' !in p
  }

  /** How filepath.Match treats such a segment: it matches itself. */
  ghost predicate Literal(m: SegmentMatch) {
    forall p, s :: Plain(p) ==> m(p, s) == Some(p == s)
  }

  /** So a pattern without a backslash before its first wildcard is expanded completely. */
  lemma NoEscapesIsComplete(m: SegmentMatch, ps: seq<Segment>)
    requires Literal(m) && forall i :: 0 <= i < |BaseSegments(ps)| ==> '\\' !in BaseSegments(ps)[i]
    ensures BelowBase(m, ps)
  {
    var base := BaseSegments(ps);
    forall i | 0 <= i < |base| ensures OnlyItself(m, base[i]) {
      assert !Wildcard(base[i]);
      assert Plain(base[i]);
    }
    WalkIsCompleteIff(m, ps);
  }

  /** With one it need not be: an escaped letter matches the letter, but the walk looks for
      the backslash. */
  lemma EscapeIsMissed(m: SegmentMatch)
    requires m("a\\b", "ab") == Some(true)
    ensures !BelowBase(m, ["a\\b", "**"])
  {
    var ps, ss := ["a\\b", "**"], ["ab", "f"];
    assert MatchSegments(m, ps[1..], ss[1..]) == Some(true);
    assert MatchSegments(m, ps, ss) == Some(true);
    assert BaseSegments(ps) == [ps[0]] + BaseSegments(ps[1..]);
    assert BaseSegments(ps)[0] != ss[0];
  }
}

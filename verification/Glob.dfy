/** Path patterns with "**": matching segment by segment, the directory below which all matches
    lie, and expansion to the matching files. Matching of one segment is a parameter; None
    stands for a malformed pattern. */
module Glob {
  import opened Prelude

  type Segment = string
  type SegmentMatch = (Segment, Segment) -> Option<bool>

  const STARS := "**"

  /** A run of "**" at the front, reduced to its last one. */
  function SkipStars(ps: seq<Segment>): (r: seq<Segment>)
    ensures |r| <= |ps| && (ps != [] ==> r != [] && r[0] == ps[0])
  {
    if |ps| > 1 && ps[0] == STARS && ps[1] == STARS then SkipStars(ps[1..]) else ps
  }

  /** The first answer other than a plain mismatch, with ever more segments absorbed. */
  function TryFrom(m: SegmentMatch, rest: seq<Segment>, ss: seq<Segment>, consumed: nat): (r: Option<bool>)
    decreases |rest|, |ss| + 2 - consumed
  {
    if consumed > |ss| then Some(false)
    else
      var r := MatchSegments(m, rest, ss[consumed..]);
      if r == Some(false) then TryFrom(m, rest, ss, consumed + 1) else r
  }

  function MatchSegments(m: SegmentMatch, ps: seq<Segment>, ss: seq<Segment>): (r: Option<bool>)
    decreases |ps|, 0
  {
    if |ps| == 0 then Some(|ss| == 0)
    else if ps[0] == STARS then
      var rest := SkipStars(ps)[1..];
      if |rest| == 0 then Some(true) else TryFrom(m, rest, ss, 0)
    else if |ss| == 0 then Some(false)
    else match m(ps[0], ss[0])
      case None => None
      case Some(false) => Some(false)
      case Some(true) => MatchSegments(m, ps[1..], ss[1..])
  }

  // ---- What matching means ----

  /** Pattern segment `i` stands for the path segments between its two cuts: any number of
      them for "**", and otherwise exactly one that matches it. */
  ghost predicate Fits(m: SegmentMatch, ps: seq<Segment>, ss: seq<Segment>, cuts: seq<nat>, i: nat)
    requires i < |ps| && |cuts| == |ps| + 1
  {
    && cuts[i] <= cuts[i + 1] <= |ss|
    && (ps[i] != STARS ==> cuts[i + 1] == cuts[i] + 1 && m(ps[i], ss[cuts[i]]) == Some(true))
  }

  ghost predicate IsAlignment(m: SegmentMatch, ps: seq<Segment>, ss: seq<Segment>, cuts: seq<nat>) {
    && |cuts| == |ps| + 1 && cuts[0] == 0 && cuts[|ps|] == |ss|
    && forall i {:trigger Fits(m, ps, ss, cuts, i)} :: 0 <= i < |ps| ==> Fits(m, ps, ss, cuts, i)
  }

  ghost predicate Aligns(m: SegmentMatch, ps: seq<Segment>, ss: seq<Segment>) {
    exists cuts :: IsAlignment(m, ps, ss, cuts)
  }

  /** An alignment of the tail of a pattern, after the first pattern segment took `k`. */
  function Shifted(cuts: seq<nat>, k: nat): (r: seq<nat>)
    ensures |r| == |cuts| + 1 && r[0] == 0
    ensures forall i :: 0 <= i < |cuts| ==> r[i + 1] == cuts[i] + k
  {
    [0] + seq(|cuts|, i requires 0 <= i < |cuts| => cuts[i] + k)
  }

  lemma ShiftedAligns(m: SegmentMatch, ps: seq<Segment>, ss: seq<Segment>, cuts: seq<nat>, k: nat)
    requires |ps| > 0 && k <= |ss| && IsAlignment(m, ps[1..], ss[k..], cuts)
    requires ps[0] != STARS ==> k == 1 && m(ps[0], ss[0]) == Some(true)
    ensures IsAlignment(m, ps, ss, Shifted(cuts, k))
  {
    var all := Shifted(cuts, k);
    forall i | 0 <= i < |ps| ensures Fits(m, ps, ss, all, i) {
      if i > 0 {
        assert Fits(m, ps[1..], ss[k..], cuts, i - 1);
        assert all[i] == cuts[i - 1] + k && all[i + 1] == cuts[i] + k;
      } else {
        assert all[1] == cuts[0] + k;
      }
    }
    assert all[|ps|] == cuts[|ps| - 1] + k;
  }

  lemma {:induction false} Increasing(m: SegmentMatch, ps: seq<Segment>, ss: seq<Segment>, cuts: seq<nat>, j: nat)
    requires IsAlignment(m, ps, ss, cuts) && j <= |ps|
    ensures forall i :: j <= i <= |ps| ==> cuts[j] <= cuts[i]
    decreases |ps| - j
  {
    if j < |ps| {
      Increasing(m, ps, ss, cuts, j + 1);
      assert Fits(m, ps, ss, cuts, j);
    }
  }

  /** The converse: the tail of an alignment aligns the tails. */
  lemma TailAligns(m: SegmentMatch, ps: seq<Segment>, ss: seq<Segment>, cuts: seq<nat>)
    requires |ps| > 0 && IsAlignment(m, ps, ss, cuts)
    ensures cuts[1] <= |ss| && Aligns(m, ps[1..], ss[cuts[1]..])
    ensures ps[0] != STARS ==> cuts[1] == 1 && m(ps[0], ss[0]) == Some(true)
  {
    assert Fits(m, ps, ss, cuts, 0);
    var k := cuts[1];
    Increasing(m, ps, ss, cuts, 1);
    var tail := seq(|ps|, i requires 0 <= i < |ps| => (cuts[i + 1] - k) as nat);
    forall i | 0 <= i < |ps| - 1 ensures Fits(m, ps[1..], ss[k..], tail, i) {
      assert Fits(m, ps, ss, cuts, i + 1);
    }
    assert IsAlignment(m, ps[1..], ss[k..], tail);
  }

  /** Runs of "**" act as one, errors included. */
  lemma StarsCollapse(m: SegmentMatch, ps: seq<Segment>, ss: seq<Segment>)
    requires |ps| > 1 && ps[0] == STARS && ps[1] == STARS
    ensures MatchSegments(m, ps, ss) == MatchSegments(m, ps[1..], ss)
  {
  }

  lemma {:induction false} TryFinds(m: SegmentMatch, rest: seq<Segment>, ss: seq<Segment>,
                                    consumed: nat) returns (k: nat)
    requires TryFrom(m, rest, ss, consumed) == Some(true)
    ensures consumed <= k <= |ss| && MatchSegments(m, rest, ss[k..]) == Some(true)
    decreases |ss| + 1 - consumed
  {
    k := consumed;
    if MatchSegments(m, rest, ss[k..]) == Some(false) {
      k := TryFinds(m, rest, ss, consumed + 1);
    }
  }

  lemma {:induction false} TryMisses(m: SegmentMatch, rest: seq<Segment>, ss: seq<Segment>, consumed: nat, k: nat)
    requires TryFrom(m, rest, ss, consumed) == Some(false) && consumed <= k <= |ss|
    ensures MatchSegments(m, rest, ss[k..]) == Some(false)
    decreases |ss| + 1 - consumed
  {
    if consumed < k {
      TryMisses(m, rest, ss, consumed + 1, k);
    }
  }

  lemma {:induction false} MatchedAligns(m: SegmentMatch, ps: seq<Segment>, ss: seq<Segment>)
    requires MatchSegments(m, ps, ss) == Some(true)
    ensures Aligns(m, ps, ss)
    decreases |ps|
  {
    if |ps| == 0 {
      assert IsAlignment(m, ps, ss, [0]);
    } else {
      var k := 1;
      if ps == [STARS] {
        assert Fits(m, ps, ss, [0, |ss|], 0);
        assert IsAlignment(m, ps, ss, [0, |ss|]);
        return;
      } else if ps[0] == STARS && ps[1] == STARS {
        StarsCollapse(m, ps, ss);
        k := 0;
        assert ss[0..] == ss;
      } else if ps[0] == STARS {
        k := TryFinds(m, ps[1..], ss, 0);
      }
      MatchedAligns(m, ps[1..], ss[k..]);
      var cuts :| IsAlignment(m, ps[1..], ss[k..], cuts);
      ShiftedAligns(m, ps, ss, cuts, k);
    }
  }

  /** A second "**" can take what the first one took. */
  lemma StarsTakeAll(m: SegmentMatch, ps: seq<Segment>, ss: seq<Segment>)
    requires |ps| > 1 && ps[0] == STARS && ps[1] == STARS && Aligns(m, ps, ss)
    ensures Aligns(m, ps[1..], ss)
  {
    var cuts :| IsAlignment(m, ps, ss, cuts);
    assert Fits(m, ps, ss, cuts, 0) && Fits(m, ps, ss, cuts, 1);
    var merged := [0] + cuts[2..];
    forall i | 0 <= i < |ps| - 1 ensures Fits(m, ps[1..], ss, merged, i) {
      assert Fits(m, ps, ss, cuts, i + 1);
    }
    assert IsAlignment(m, ps[1..], ss, merged);
  }

  lemma {:induction false} AlignedMatches(m: SegmentMatch, ps: seq<Segment>, ss: seq<Segment>)
    requires Aligns(m, ps, ss)
    ensures MatchSegments(m, ps, ss) != Some(false)
    decreases |ps|
  {
    var cuts :| IsAlignment(m, ps, ss, cuts);
    if |ps| > 1 && ps[0] == STARS && ps[1] == STARS {
      StarsTakeAll(m, ps, ss);
      StarsCollapse(m, ps, ss);
      AlignedMatches(m, ps[1..], ss);
    } else if |ps| > 0 && ps != [STARS] {
      TailAligns(m, ps, ss, cuts);
      AlignedMatches(m, ps[1..], ss[cuts[1]..]);
      if ps[0] == STARS && MatchSegments(m, ps, ss) == Some(false) {
        TryMisses(m, ps[1..], ss, 0, cuts[1]);
      }
    }
  }

  /** Whenever the answer is not an error, it says exactly whether the path aligns. */
  lemma MatchMeansAligns(m: SegmentMatch, ps: seq<Segment>, ss: seq<Segment>)
    requires MatchSegments(m, ps, ss).Some?
    ensures MatchSegments(m, ps, ss) == Some(Aligns(m, ps, ss))
  {
    if MatchSegments(m, ps, ss).value {
      MatchedAligns(m, ps, ss);
    } else if Aligns(m, ps, ss) {
      AlignedMatches(m, ps, ss);
    }
  }

  /** An error comes from a malformed pattern segment, tried on a segment of the path. */
  ghost predicate Malformed(m: SegmentMatch, ps: seq<Segment>, ss: seq<Segment>) {
    exists p, s :: p in ps && s in ss && p != STARS && m(p, s) == None
  }

  lemma {:induction false} TryErrors(m: SegmentMatch, rest: seq<Segment>, ss: seq<Segment>, consumed: nat)
    requires TryFrom(m, rest, ss, consumed) == None
    ensures Malformed(m, rest, ss)
    decreases |rest|, |ss| + 2 - consumed
  {
    if MatchSegments(m, rest, ss[consumed..]) == Some(false) {
      TryErrors(m, rest, ss, consumed + 1);
    } else {
      ErrorsAreMalformed(m, rest, ss[consumed..]);
    }
  }

  lemma {:induction false} ErrorsAreMalformed(m: SegmentMatch, ps: seq<Segment>, ss: seq<Segment>)
    requires MatchSegments(m, ps, ss) == None
    ensures Malformed(m, ps, ss)
    decreases |ps|, 0
  {
    if ps[0] == STARS && |ps| > 1 && ps[1] == STARS {
      StarsCollapse(m, ps, ss);
      ErrorsAreMalformed(m, ps[1..], ss);
    } else if ps[0] == STARS {
      TryErrors(m, ps[1..], ss, 0);
    } else if m(ps[0], ss[0]) == Some(true) {
      ErrorsAreMalformed(m, ps[1..], ss[1..]);
    } else {
      assert ps[0] in ps && ss[0] in ss;
    }
  }
}

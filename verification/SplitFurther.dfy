/** A batch that is split inside a run, with more runs after it: the lines after that run find
    the buffer as they would have in one batch, if it was left the same with the same index. */
module SplitFurther {
  import opened Normalize
  import opened PullV1
  import opened PullV1Index
  import opened LateLines
  import opened Landings
  import opened LateChains
  import opened GroupedRuns
  import opened SplitBatches

  /** The same for whatever is added next. */
  ghost predicate AlikeStates(s: State, t: State) {
    Alike(s.records, t.records) && s.index == t.index && s.nextSeq == t.nextSeq
  }

  lemma AlikeContinues(x: Record, y: Record, r: Record)
    requires AlikeOne(x, y)
    ensures ShouldContinue(x, r) <==> ShouldContinue(y, r)
  {
    SameLastLine(x.data, y.data);
  }

  lemma LastWhereAlike<T>(s: seq<T>, t: seq<T>, p: T -> bool)
    requires |s| == |t| && forall i :: 0 <= i < |s| ==> p(s[i]) == p(t[i])
    ensures LastWhere(s, p) == LastWhere(t, p)
  {
  }

  lemma ContinuedAlike(s: seq<Record>, t: seq<Record>, r: Record)
    requires Alike(s, t)
    ensures Continued(s, r) == Continued(t, r)
  {
    forall i | 0 <= i < |s| ensures ShouldContinue(s[i], r) == ShouldContinue(t[i], r) {
      AlikeContinues(s[i], t[i], r);
    }
    LastWhereAlike(s, t, (x: Record) => ShouldContinue(x, r));
  }

  lemma FindAlike(s: seq<Record>, t: seq<Record>, seqNo: int)
    requires Alike(s, t)
    ensures Find(s, seqNo) == Find(t, seqNo)
  {
    forall i | 0 <= i < |s| ensures s[i].seqNo == t[i].seqNo {
      assert AlikeOne(s[i], t[i]);
    }
  }

  lemma FateAlike(s: State, t: State, r: Record)
    requires AlikeStates(s, t)
    ensures Fate(s, r) == Fate(t, r)
  {
    ContinuedAlike(s.records, t.records, r);
    if r.fingerprint in s.index {
      FindAlike(s.records, t.records, s.index[r.fingerprint].seqNo);
    }
  }

  lemma AlikeEdited(s: seq<Record>, t: seq<Record>, i: nat, x: Record, y: Record)
    requires Alike(s, t) && i < |s| && AlikeOne(x, y)
    ensures Alike(s[i := x], t[i := y])
  {
  }

  lemma MergeLineAlike(digest: string -> string, s: State, t: State, i: nat, r: Record)
    requires AlikeStates(s, t) && i < |s.records| && Settled(s.records[i]) && Settled(r)
    ensures AlikeStates(MergeLine(digest, s, i, r), MergeLine(digest, t, i, r))
  {
    var x, y := s.records[i], t.records[i];
    assert AlikeOne(x, y);
    AppendedAlike(digest, x, y, r);
    AlikeEdited(s.records, t.records, i, Finalize(digest, Appended(x, r)), Finalize(digest, Appended(y, r)));
  }

  lemma MergeDuplicateAlike(s: State, t: State, i: nat, r: Record)
    requires AlikeStates(s, t) && i < |s.records|
    ensures AlikeStates(MergeDuplicate(s, i, r), MergeDuplicate(t, i, r))
  {
    var x, y := s.records[i], t.records[i];
    assert AlikeOne(x, y);
    AlikeEdited(s.records, t.records, i, Repeated(x, r), Repeated(y, r));
  }

  lemma PushAlike(s: State, t: State, r: Record)
    requires AlikeStates(s, t)
    ensures AlikeStates(Push(s, r), Push(t, r))
  {
    forall i | 0 <= i <= |s.records| ensures AlikeOne(Push(s, r).records[i], Push(t, r).records[i]) {
      if i < |s.records| {
        assert AlikeOne(s.records[i], t.records[i]);
      }
    }
  }

  lemma ContinuedOneAlike(digest: string -> string, s: State, t: State, r: Record, i: nat)
    requires AlikeStates(s, t) && AllSettled(s.records) && Settled(r)
    requires Fate(s, r) == Fate(t, r) == Continuation(i)
    ensures AlikeStates(AddOne(digest, s, r), AddOne(digest, t, r))
  {
    assert Settled(s.records[i]);
    MergeLineAlike(digest, s, t, i, r);
  }

  lemma CountedOneAlike(digest: string -> string, s: State, t: State, r: Record, i: nat)
    requires AlikeStates(s, t) && Fate(s, r) == Fate(t, r) == Again(i)
    ensures AlikeStates(AddOne(digest, s, r), AddOne(digest, t, r))
  {
    var n := s.nextSeq + 1;
    MergeDuplicateAlike(s.(nextSeq := n), t.(nextSeq := n), i, r.(seqNo := n));
  }

  lemma FreshOneAlike(digest: string -> string, s: State, t: State, r: Record)
    requires AlikeStates(s, t) && Fate(s, r) == Fate(t, r) == Fresh
    ensures AlikeStates(AddOne(digest, s, r), AddOne(digest, t, r))
  {
    var n := s.nextSeq + 1;
    PushAlike(s.(nextSeq := n), t.(nextSeq := n), r.(seqNo := n));
  }

  lemma AddOneAlike(digest: string -> string, s: State, t: State, r: Record)
    requires AlikeStates(s, t) && AllSettled(s.records) && Settled(r)
    ensures AlikeStates(AddOne(digest, s, r), AddOne(digest, t, r))
  {
    FateAlike(s, t, r);
    match Fate(s, r)
    case Continuation(i) => ContinuedOneAlike(digest, s, t, r, i);
    case Again(i) => CountedOneAlike(digest, s, t, r, i);
    case Fresh => FreshOneAlike(digest, s, t, r);
  }

  /** What is alike stays alike. */
  lemma {:induction false} AddAllAlike(digest: string -> string, s: State, t: State, rs: seq<Record>)
    requires AlikeStates(s, t) && AllSettled(s.records) && AllSettled(rs)
    ensures AlikeStates(AddAll(digest, s, rs), AddAll(digest, t, rs))
  {
    if |rs| > 0 {
      var front := rs[..|rs| - 1];
      AddAllAlike(digest, s, t, front);
      AddAllSettled(digest, s, front);
      AddOneAlike(digest, AddAll(digest, s, front), AddAll(digest, t, front), rs[|rs| - 1]);
    }
  }

  lemma {:induction false} ReindexedAlike(a: seq<Record>, b: seq<Record>)
    requires Alike(a, b)
    ensures Reindexed(a) == Reindexed(b)
  {
    if |a| > 0 {
      ReindexedAlike(a[..|a| - 1], b[..|b| - 1]);
      assert AlikeOne(a[|a| - 1], b[|b| - 1]);
    }
  }

  lemma AlikeSuffix(a: seq<Record>, b: seq<Record>, n: nat)
    requires Alike(a, b) && n <= |a|
    ensures Alike(a[n..], b[n..])
  {
    forall i | 0 <= i < |a| - n ensures AlikeOne(a[n..][i], b[n..][i]) {
      assert AlikeOne(a[n + i], b[n + i]);
    }
  }

  lemma TrimmedIs(s: State, n: nat, a: seq<Record>)
    requires n > 0 && |s.records| == n + MAX_BUFFERED && a == s.records[n..]
    ensures Trimmed(s) == s.(records := a, index := Reindexed(a))
  {
  }

  lemma DroppedAlike(s: State, t: State, n: nat, a: seq<Record>, b: seq<Record>)
    requires AlikeStates(s, t) && n <= |s.records| && a == s.records[n..] && b == t.records[n..]
    ensures AlikeStates(s.(records := a, index := Reindexed(a)), t.(records := b, index := Reindexed(b)))
  {
    AlikeSuffix(s.records, t.records, n);
    ReindexedAlike(a, b);
  }

  lemma TrimmedAlike(s: State, t: State)
    requires AlikeStates(s, t)
    ensures AlikeStates(Trimmed(s), Trimmed(t))
  {
    if |s.records| > MAX_BUFFERED {
      var n := |s.records| - MAX_BUFFERED;
      var a, b := s.records[n..], t.records[n..];
      TrimmedIs(s, n, a);
      TrimmedIs(t, n, b);
      DroppedAlike(s, t, n, a, b);
    }
  }

  /** Every later batch leaves alike what it finds alike, overflow included. */
  lemma BatchAlike(digest: string -> string, s: State, t: State, lines: seq<Line>)
    requires AlikeStates(s, t) && AllSettled(s.records) && AllAccepted(lines)
    ensures AlikeStates(AddStep(digest, s, lines), AddStep(digest, t, lines))
  {
    if |lines| > 0 {
      var rs := Grouped(digest, lines, |lines|);
      GroupedSettled(digest, lines, |lines|);
      AddAllAlike(digest, s, t, rs);
      TrimmedAlike(AddAll(digest, s, rs), AddAll(digest, t, rs));
    }
  }

  // ---- The numbers drawn ----

  /** Records that all continue one draw no numbers. */
  lemma {:induction false} AllContinueSeq(digest: string -> string, st: State, rs: seq<Record>, p: nat)
    requires AllContinue(digest, st, rs, p)
    ensures AddAll(digest, st, rs).nextSeq == st.nextSeq
  {
    if |rs| > 0 {
      AllContinueSeq(digest, st, rs[..|rs| - 1], p);
    }
  }

  lemma SameWaySeq(digest: string -> string, st: State, first: Record, whole: Record, rest: seq<Record>)
    requires SameWay(digest, st, first, whole, rest)
    ensures AddAll(digest, AddOne(digest, st, first), rest).nextSeq == AddOne(digest, st, whole).nextSeq
  {
    match Fate(st, first)
    case Continuation(i) => AllContinueSeq(digest, AddOne(digest, st, first), rest, i);
    case Fresh => AllContinueSeq(digest, AddOne(digest, st, first), rest, |st.records|);
  }

  // ---- The index ----

  /** A key was indexed before and is not gone, or is not indexed. */
  predicate KeptKey(now: map<string, Entry>, was: map<string, Entry>, gone: set<string>, k: string) {
    (k in now <==> k in was && k !in gone) && (k in now ==> now[k] == was[k])
  }

  /** Only the keys in `gone` went, but for the record's own. */
  ghost predicate IndexAfter(now: map<string, Entry>, was: map<string, Entry>, gone: set<string>, r: Record) {
    && r.fingerprint in now && now[r.fingerprint] == Entry(r.seqNo, r.timestamp)
    && forall k :: k != r.fingerprint ==> KeptKey(now, was, gone, k)
  }

  lemma IndexOn(a: map<string, Entry>, b: map<string, Entry>, c: map<string, Entry>, p: set<string>, q: set<string>,
                x: Record, y: Record)
    requires IndexAfter(b, a, p, x) && IndexAfter(c, b, q, y) && x.fingerprint in q
    ensures IndexAfter(c, a, p + q, y)
  {
    forall k | k != y.fingerprint ensures KeptKey(c, a, p + q, k) {
      assert KeptKey(c, b, q, k);
      if k != x.fingerprint {
        assert KeptKey(b, a, p, k);
      }
    }
  }

  lemma MergedIndex(digest: string -> string, st: State, r: Record, i: nat)
    requires AllNormal(st.records) && Fate(st, r) == Continuation(i)
    ensures var after := AddOne(digest, st, r);
      |after.records| == |st.records| &&
      IndexAfter(after.index, st.index, {st.records[i].fingerprint}, after.records[i])
  {
    assert Normal(st.records[i]);
    var after := AddOne(digest, st, r);
    forall k | k != after.records[i].fingerprint
      ensures KeptKey(after.index, st.index, {st.records[i].fingerprint}, k)
    {
    }
  }

  lemma PushedIndex(digest: string -> string, st: State, r: Record)
    requires Fate(st, r).Fresh?
    ensures var after := AddOne(digest, st, r);
      |after.records| == |st.records| + 1 && IndexAfter(after.index, st.index, {}, after.records[|st.records|])
  {
    var after := AddOne(digest, st, r);
    forall k | k != after.records[|st.records|].fingerprint ensures KeptKey(after.index, st.index, {}, k) {
    }
  }

  /** The fingerprints that the record at `p` had before each of the others continued it. */
  function Passed(digest: string -> string, st: State, rs: seq<Record>, p: nat): set<string> {
    if |rs| == 0 then {}
    else
      var front := rs[..|rs| - 1];
      var before := AddAll(digest, st, front).records;
      Passed(digest, st, front, p) + if p < |before| then {before[p].fingerprint} else {}
  }

  lemma PassedFirst(digest: string -> string, st: State, rs: seq<Record>, p: nat)
    requires |rs| > 0 && p < |st.records|
    ensures st.records[p].fingerprint in Passed(digest, st, rs, p)
  {
    if |rs| > 1 {
      PassedFirst(digest, st, rs[..|rs| - 1], p);
    }
  }

  lemma ContinuedFate(st: State, r: Record, p: nat)
    requires Continued(st.records, r) == p
    ensures Fate(st, r) == Continuation(p)
  {
  }

  lemma ChainIndexStep(digest: string -> string, before: State, was: map<string, Entry>, gone: set<string>, r: Record,
                       p: nat)
    requires AllNormal(before.records) && p < |before.records| && Continued(before.records, r) == p
    requires IndexAfter(before.index, was, gone, before.records[p])
    ensures var after := AddOne(digest, before, r);
      |after.records| == |before.records| &&
      IndexAfter(after.index, was, gone + {before.records[p].fingerprint}, after.records[p])
  {
    ContinuedFate(before, r, p);
    MergedIndex(digest, before, r, p);
    IndexOn(was, before.index, AddOne(digest, before, r).index, gone, {before.records[p].fingerprint},
            before.records[p], AddOne(digest, before, r).records[p]);
  }

  lemma PassedSnoc(digest: string -> string, st: State, rs: seq<Record>, p: nat, gone: set<string>, before: State)
    requires |rs| > 0 && before == AddAll(digest, st, rs[..|rs| - 1]) && p < |before.records|
    ensures gone + Passed(digest, st, rs[..|rs| - 1], p) + {before.records[p].fingerprint} ==
      gone + Passed(digest, st, rs, p)
  {
  }

  lemma FrontSound(digest: string -> string, st: State, rs: seq<Record>, p: nat)
    requires Sound(st) && AllPlain(rs) && |rs| > 0 && AllContinue(digest, st, rs, p)
    ensures AllPlain(rs[..|rs| - 1]) && AllContinue(digest, st, rs[..|rs| - 1], p)
    ensures AllNormal(AddAll(digest, st, rs[..|rs| - 1]).records)
  {
    AddAllSound(digest, st, rs[..|rs| - 1]);
  }

  lemma {:induction false} ChainIndex(digest: string -> string, st: State, was: map<string, Entry>, gone: set<string>,
                                      rs: seq<Record>, p: nat)
    requires Sound(st) && AllPlain(rs) && p < |st.records| && AllContinue(digest, st, rs, p)
    requires IndexAfter(st.index, was, gone, st.records[p])
    ensures var after := AddAll(digest, st, rs);
      && |after.records| == |st.records|
      && IndexAfter(after.index, was, gone + Passed(digest, st, rs, p), after.records[p])
  {
    if |rs| == 0 {
      assert gone + Passed(digest, st, rs, p) == gone;
    } else {
      var front, last := rs[..|rs| - 1], rs[|rs| - 1];
      var before := AddAll(digest, st, front);
      FrontSound(digest, st, rs, p);
      ChainIndex(digest, st, was, gone, front, p);
      ChainIndexStep(digest, before, was, gone + Passed(digest, st, front, p), last, p);
      PassedSnoc(digest, st, rs, p, gone, before);
    }
  }

  /** No key that went was indexed, but for these. */
  predicate NoneStale(was: map<string, Entry>, kept: string, gone: set<string>, passed: set<string>) {
    forall k :: k in passed ==> k == kept || k in gone || k !in was
  }

  lemma SameKeyIff(one: map<string, Entry>, two: map<string, Entry>, was: map<string, Entry>, gone: set<string>,
                   passed: set<string>, k: string)
    requires KeptKey(one, was, gone, k) && KeptKey(two, was, gone + passed, k)
    ensures (k in one <==> k in two) <==> (k in passed ==> k in gone || k !in was)
    ensures k in one && k in two ==> one[k] == two[k]
  {
  }

  lemma SameIndexIff(one: map<string, Entry>, two: map<string, Entry>, was: map<string, Entry>, gone: set<string>,
                     passed: set<string>, x: Record, y: Record)
    requires IndexAfter(one, was, gone, x) && IndexAfter(two, was, gone + passed, y) && AlikeOne(x, y)
    ensures two == one <==> NoneStale(was, x.fingerprint, gone, passed)
  {
    forall k | k != x.fingerprint
      ensures (k in one <==> k in two) <==> (k in passed ==> k in gone || k !in was)
      ensures k in one && k in two ==> one[k] == two[k]
    {
      assert KeptKey(one, was, gone, k) && KeptKey(two, was, gone + passed, k);
      SameKeyIff(one, two, was, gone, passed, k);
    }
    assert one[x.fingerprint] == two[x.fingerprint];
    if NoneStale(was, x.fingerprint, gone, passed) {
      assert one.Keys == two.Keys;
    }
  }

  /** The index keys that adding the record replaces in either case. */
  function Replaces(st: State, r: Record): set<string> {
    match Fate(st, r)
    case Continuation(i) => {st.records[i].fingerprint}
    case _ => {}
  }

  /** Where the record is, or what it continues. */
  function Landing(st: State, r: Record): nat {
    match Fate(st, r)
    case Continuation(i) => i
    case Again(i) => i
    case Fresh => |st.records|
  }

  lemma LandedIndex(digest: string -> string, st: State, r: Record)
    requires AllNormal(st.records) && !Fate(st, r).Again?
    ensures var after := AddOne(digest, st, r);
      Landing(st, r) < |after.records| &&
      IndexAfter(after.index, st.index, Replaces(st, r), after.records[Landing(st, r)])
  {
    match Fate(st, r)
    case Continuation(i) => MergedIndex(digest, st, r, i);
    case Fresh => PushedIndex(digest, st, r);
  }

  /** No fingerprint that the growing record had in between is one of an older record. */
  predicate LeavesIndex(digest: string -> string, st: State, first: Record, whole: Record, rest: seq<Record>) {
    var p, one := Landing(st, first), AddOne(digest, st, whole).records;
    p < |one| ==>
      NoneStale(st.index, one[p].fingerprint, Replaces(st, first), Passed(digest, AddOne(digest, st, first), rest, p))
  }

  lemma SameWayIndexIff(digest: string -> string, st: State, first: Record, whole: Record, rest: seq<Record>)
    requires Sound(st) && Plain(first) && Plain(whole) && AllPlain(rest) && SameWay(digest, st, first, whole, rest)
    requires Alike(AddAll(digest, AddOne(digest, st, first), rest).records, AddOne(digest, st, whole).records)
    ensures AddAll(digest, AddOne(digest, st, first), rest).index == AddOne(digest, st, whole).index
      <==> LeavesIndex(digest, st, first, whole, rest)
  {
    var p, gone := Landing(st, first), Replaces(st, first);
    var mid := AddOne(digest, st, first);
    var one, two := AddOne(digest, st, whole), AddAll(digest, mid, rest);
    LandedIndex(digest, st, first);
    LandedIndex(digest, st, whole);
    AddOneSound(digest, st, first);
    ChainIndex(digest, mid, st.index, gone, rest, p);
    assert AlikeOne(two.records[p], one.records[p]);
    SameIndexIff(one.index, two.index, st.index, gone, Passed(digest, mid, rest, p), one.records[p], two.records[p]);
  }

  /** No fingerprint that the last run's record has while the lines of `b` are merged into it is
      one of an older record. */
  predicate KeepsIndex(digest: string -> string, st: State, a: seq<Line>, b: seq<Line>)
    requires |a| > 0 && |b| > 0
  {
    LeavesIndex(digest, BeforeLast(digest, st, a), Finalize(digest, Merged(LastRun(a))),
                Finalize(digest, Merged(LastRun(a) + b)), Grouped(digest, b, |b|))
  }

  lemma JoinedStateIff(digest: string -> string, st: State, run: seq<Line>, b: seq<Line>)
    requires Sound(st) && AllSettled(st.records) && Usable(run) && Usable(b)
    ensures var first, whole := Finalize(digest, Merged(run)), Finalize(digest, Merged(run + b));
      var rest := Grouped(digest, b, |b|);
      AlikeStates(AddAll(digest, AddOne(digest, st, first), rest), AddOne(digest, st, whole))
      <==> SameWay(digest, st, first, whole, rest) && LeavesIndex(digest, st, first, whole, rest)
  {
    var first, whole := Finalize(digest, Merged(run)), Finalize(digest, Merged(run + b));
    var rest := Grouped(digest, b, |b|);
    JoinedIff(digest, st, run, b);
    if SameWay(digest, st, first, whole, rest) {
      BothPlain(digest, run, b);
      SameWaySeq(digest, st, first, whole, rest);
      SameWayIndexIff(digest, st, first, whole, rest);
    }
  }

  /** Exactly when a split inside a run leaves the same for everything that is added later. */
  lemma SplitStateIff(digest: string -> string, st: State, a: seq<Line>, b: seq<Line>, more: seq<Line>)
    requires Sound(st) && AllSettled(st.records) && Usable(a) && Usable(b) && more == a + b
    requires |st.records| + |a| + |b| <= MAX_BUFFERED && AllJoin(a, more)
    ensures AlikeStates(AddStep(digest, AddStep(digest, st, a), b), AddStep(digest, st, more))
      <==> FollowsRun(digest, st, a, b) && KeepsIndex(digest, st, a, b)
  {
    FirstBatch(digest, st, a);
    TwoBatches(digest, st, a, b);
    JoinedBatch(digest, st, a, more, LastRun(a) + b);
    LastUsable(a);
    BeforeLastKept(digest, st, a);
    JoinedStateIff(digest, BeforeLast(digest, st, a), LastRun(a), b);
  }

  // ---- A split with more runs after it ----

  /** The part `b` of the second batch joins the last run of the first, and the part `c` starts a
      run with it and without the first batch. */
  predicate GoesOn(a: seq<Line>, b: seq<Line>, c: seq<Line>, both: seq<Line>, rest: seq<Line>, more: seq<Line>) {
    && Usable(a) && Usable(b) && Usable(c) && both == a + b && rest == b + c && more == both + c
    && AllJoin(a, both) && StartsRun(both, more) && StartsRun(b, rest)
  }

  lemma RestFollows(digest: string -> string, st: State, a: seq<Line>, b: seq<Line>, c: seq<Line>, both: seq<Line>,
                    rest: seq<Line>, more: seq<Line>)
    requires GoesOn(a, b, c, both, rest, more) && |st.records| + |more| <= MAX_BUFFERED
    ensures AddStep(digest, st, more) == AddStep(digest, AddStep(digest, st, both), c)
    ensures AddStep(digest, AddStep(digest, st, a), rest) ==
      AddStep(digest, AddStep(digest, AddStep(digest, st, a), b), c)
  {
    AddStepIs(digest, st, a);
    StartedBatch(digest, st, both, c, more);
    StartedBatch(digest, AddStep(digest, st, a), b, c, rest);
  }

  /** The later lines find what the part that joins has left, so the split leaves the same when
      that part does. */
  lemma SplitGoesOn(digest: string -> string, st: State, a: seq<Line>, b: seq<Line>, c: seq<Line>, both: seq<Line>,
                    rest: seq<Line>, more: seq<Line>)
    requires Sound(st) && AllSettled(st.records) && |st.records| + |more| <= MAX_BUFFERED
    requires GoesOn(a, b, c, both, rest, more)
    ensures AddStep(digest, st, more) == AddStep(digest, AddStep(digest, st, both), c)
    ensures AddStep(digest, AddStep(digest, st, a), rest) ==
      AddStep(digest, AddStep(digest, AddStep(digest, st, a), b), c)
    ensures FollowsRun(digest, st, a, b) && KeepsIndex(digest, st, a, b) ==>
      AlikeStates(AddStep(digest, AddStep(digest, st, a), rest), AddStep(digest, st, more))
  {
    RestFollows(digest, st, a, b, c, both, rest, more);
    SplitStateIff(digest, st, a, b, both);
    if FollowsRun(digest, st, a, b) && KeepsIndex(digest, st, a, b) {
      AddStepSettled(digest, st, a);
      AddStepSettled(digest, AddStep(digest, st, a), b);
      BatchAlike(digest, AddStep(digest, AddStep(digest, st, a), b), AddStep(digest, st, both), c);
    }
  }
}

/** Which records count as duplicates: those with the same source, service, instance, severity and
    lines of text, if the digest is injective and no vertical bar is in the first four. */
module Fingerprints {
  import opened Runs
  import opened Text
  import opened Normalize
  import opened PullV1
  import opened PullV1Index
  import opened PullV1Runs
  import opened LateLines

  ghost predicate Injective(digest: string -> string) {
    forall s, t :: digest(s) == digest(t) ==> s == t
  }

  /** The same text but for blank lines and white space around lines, and the same keys but for
      white space around them. */
  predicate SameContent(a: Record, b: Record) {
    && Clean(a.data) == Clean(b.data)
    && Trim(Go, a.source) == Trim(Go, b.source) && Trim(Go, a.service) == Trim(Go, b.service)
    && Trim(Go, a.instance) == Trim(Go, b.instance) && Trim(Go, a.severity.text) == Trim(Go, b.severity.text)
  }

  predicate Barless(source: string, service: string, instance: string, severity: string) {
    '|' !in source && '|' !in service && '|' !in instance && '|' !in severity
  }

  // ---- The lines of a text ----

  /** `lines` are the lines of the text that are not blank, trimmed, in order. */
  predicate AreLines(parts: seq<string>, lines: seq<string>, places: seq<nat>) {
    && |places| == |lines|
    && (forall k, l :: 0 <= k < l < |places| ==> places[k] < places[l])
    && (forall k :: 0 <= k < |places| ==> places[k] < |parts| && lines[k] == Trim(Go, parts[places[k]]))
    && forall i :: 0 <= i < |parts| ==> (i in places <==> !Blank(Go, parts[i]))
  }

  lemma KeptSnoc(front: seq<string>, last: string)
    ensures NonEmptyTrimmed(front + [last]) ==
      if Blank(Go, last) then NonEmptyTrimmed(front) else NonEmptyTrimmed(front) + [Trim(Go, last)]
  {
    CleanConcat(front, [last]);
    CleanOne(last);
    BlankIsTrimmedEmpty(Go, last);
  }

  lemma AreLinesSnoc(front: seq<string>, last: string, lines: seq<string>, places: seq<nat>)
    requires AreLines(front, lines, places)
    ensures if Blank(Go, last) then AreLines(front + [last], lines, places)
            else AreLines(front + [last], lines + [Trim(Go, last)], places + [|front|])
  {
    assert |front| !in places;
    if !Blank(Go, last) {
      var more := places + [|front|];
      assert more[|places|] == |front|;
      assert forall i :: i in more <==> i in places || i == |front|;
    }
  }

  lemma {:induction false} KeptAre(parts: seq<string>) returns (places: seq<nat>)
    ensures AreLines(parts, NonEmptyTrimmed(parts), places)
  {
    if |parts| == 0 {
      places := [];
    } else {
      var n := |parts| - 1;
      places := KeptAre(parts[..n]);
      assert parts == parts[..n] + [parts[n]];
      KeptSnoc(parts[..n], parts[n]);
      AreLinesSnoc(parts[..n], parts[n], NonEmptyTrimmed(parts[..n]), places);
      if !Blank(Go, parts[n]) {
        places := places + [n];
      }
    }
  }

  /** What the fingerprint sees of a text. */
  lemma CleanIs(s: string) returns (places: seq<nat>)
    ensures AreLines(Split(s, '\n'), Clean(s), places)
  {
    places := KeptAre(Split(s, '\n'));
  }

  lemma {:induction false} TrimLeftHas(s: string, c: char)
    requires c in TrimLeft(Go, s)
    ensures c in s
  {
    if s != "" && Space(Go, s[0]) {
      TrimLeftHas(s[1..], c);
    }
  }

  lemma {:induction false} TrimRightHas(s: string, c: char)
    requires c in TrimRight(Go, s)
    ensures c in s
  {
    if s != "" && Space(Go, s[|s| - 1]) {
      TrimRightHas(s[..|s| - 1], c);
    }
  }

  lemma TrimHas(s: string, c: char)
    requires c in Trim(Go, s)
    ensures c in s
  {
    TrimRightHas(TrimLeft(Go, s), c);
    TrimLeftHas(s, c);
  }

  lemma CleanParts(s: string)
    ensures forall l :: l in Clean(s) ==> l != "" && '\n' !in l
  {
    var places := CleanIs(s);
    forall l | l in Clean(s) ensures l != "" && '\n' !in l {
      var k :| 0 <= k < |places| && Clean(s)[k] == l;
      var part := Split(s, '\n')[places[k]];
      assert places[k] in places && part in Split(s, '\n');
      BlankIsTrimmedEmpty(Go, part);
      if '\n' in l {
        TrimHas(part, '\n');
      }
    }
  }

  lemma JoinedNotEmpty(lines: seq<string>)
    requires |lines| > 0 && forall l :: l in lines ==> l != ""
    ensures Join(lines, "\n") != ""
  {
    assert lines[|lines| - 1] in lines;
  }

  /** Lines that are joined can be told apart. */
  lemma JoinedOnce(a: seq<string>, b: seq<string>)
    requires forall l :: l in a ==> l != "" && '\n' !in l
    requires forall l :: l in b ==> l != "" && '\n' !in l
    requires Join(a, "\n") == Join(b, "\n")
    ensures a == b
  {
    if |a| > 0 && |b| > 0 {
      SplitOfJoin(a, '\n');
      SplitOfJoin(b, '\n');
    } else if |a| > 0 {
      JoinedNotEmpty(a);
    } else if |b| > 0 {
      JoinedNotEmpty(b);
    }
  }

  // ---- The fingerprint ----

  lemma CutAtBar(a: string, b: string, x: string, y: string)
    requires '|' !in a && '|' !in b && a + "|" + x == b + "|" + y
    ensures a == b && x == y
  {
    var s, t := a + "|" + x, b + "|" + y;
    assert s[|a|] == '|' && t[|b|] == '|';
    assert a == s[..|a|] == t[..|b|] == b;
    assert x == s[|a| + 1..] == t[|b| + 1..] == y;
  }

  lemma TrimBarless(s: string)
    requires '|' !in s
    ensures '|' !in Trim(Go, s)
  {
    if '|' in Trim(Go, s) {
      TrimHas(s, '|');
    }
  }

  lemma CutFour(a: seq<string>, b: seq<string>, x: string, y: string)
    requires |a| == |b| == 4 && (forall i :: 0 <= i < 4 ==> '|' !in a[i] && '|' !in b[i])
    requires a[0] + "|" + a[1] + "|" + a[2] + "|" + a[3] + "|" + x ==
             b[0] + "|" + b[1] + "|" + b[2] + "|" + b[3] + "|" + y
    ensures a == b && x == y
  {
    var a3, b3 := a[3] + "|" + x, b[3] + "|" + y;
    var a2, b2 := a[2] + "|" + a3, b[2] + "|" + b3;
    var a1, b1 := a[1] + "|" + a2, b[1] + "|" + b2;
    assert a[0] + "|" + a1 == a[0] + "|" + a[1] + "|" + a[2] + "|" + a[3] + "|" + x;
    assert b[0] + "|" + b1 == b[0] + "|" + b[1] + "|" + b[2] + "|" + b[3] + "|" + y;
    CutAtBar(a[0], b[0], a1, b1);
    CutAtBar(a[1], b[1], a2, b2);
    CutAtBar(a[2], b[2], a3, b3);
    CutAtBar(a[3], b[3], x, y);
  }

  predicate BarlessRecord(r: Record) {
    Barless(r.source, r.service, r.instance, r.severity.text)
  }

  function Keys(r: Record): (k: seq<string>)
    ensures |k| == 4
  {
    [Trim(Go, r.source), Trim(Go, r.service), Trim(Go, r.instance), Trim(Go, r.severity.text)]
  }

  lemma KeysBarless(r: Record)
    requires BarlessRecord(r)
    ensures forall i :: 0 <= i < 4 ==> '|' !in Keys(r)[i]
  {
    TrimBarless(r.source);
    TrimBarless(r.service);
    TrimBarless(r.instance);
    TrimBarless(r.severity.text);
  }

  /** Two records have one fingerprint exactly when they have the same content. */
  lemma FingerprintIff(digest: string -> string, a: Record, b: Record)
    requires Injective(digest) && BarlessRecord(a) && BarlessRecord(b)
    ensures Fingerprint(digest, a) == Fingerprint(digest, b) <==> SameContent(a, b)
  {
    if Fingerprint(digest, a) == Fingerprint(digest, b) {
      assert digest(FingerprintText(a)) == Fingerprint(digest, a)[7..];
      assert digest(FingerprintText(b)) == Fingerprint(digest, b)[7..];
      KeysBarless(a);
      KeysBarless(b);
      CutFour(Keys(a), Keys(b), Join(Clean(a.data), "\n"), Join(Clean(b.data), "\n"));
      assert Keys(a)[0] == Keys(b)[0] && Keys(a)[1] == Keys(b)[1] && Keys(a)[2] == Keys(b)[2];
      assert Keys(a)[3] == Keys(b)[3];
      CleanParts(a.data);
      CleanParts(b.data);
      JoinedOnce(Clean(a.data), Clean(b.data));
    }
  }

  /** With a bar in a source that need not be so. */
  lemma BarsCollide(digest: string -> string, a: Record, b: Record)
    requires a.source == "x|y" && a.service == "z" && b.source == "x" && b.service == "y|z"
    requires a == b.(source := a.source, service := a.service)
    ensures Fingerprint(digest, a) == Fingerprint(digest, b) && !SameContent(a, b)
  {
    TrimTight(Go, a.source);
    TrimTight(Go, a.service);
    TrimTight(Go, b.source);
    TrimTight(Go, b.service);
    assert a.source + "|" + a.service == b.source + "|" + b.service;
    assert FingerprintText(a) == FingerprintText(b);
  }

  // ---- Every record carries its own ----

  /** Its fingerprint is that of its content, which has no bars. */
  predicate Genuine(digest: string -> string, r: Record) {
    r.fingerprint == Fingerprint(digest, r) && BarlessRecord(r)
  }

  predicate AllGenuine(digest: string -> string, records: seq<Record>) {
    forall i :: 0 <= i < |records| ==> Genuine(digest, records[i])
  }

  predicate BarlessLines(lines: seq<Line>) {
    forall i :: 0 <= i < |lines| ==>
      Barless(lines[i].source, lines[i].service, lines[i].instance, lines[i].severity.text)
  }

  lemma FinalGenuine(digest: string -> string, r: Record)
    requires BarlessRecord(r)
    ensures Genuine(digest, Finalize(digest, r))
  {
  }

  lemma MergedGenuine(digest: string -> string, run: seq<Line>)
    requires |run| > 0 && BarlessLines(run)
    ensures Genuine(digest, Finalize(digest, Merged(run)))
  {
    var k := Extremes(run);
    FinalGenuine(digest, Merged(run));
  }

  lemma OneMoreGenuine(digest: string -> string, lines: seq<Line>, a: nat, n: nat, front: seq<Record>, rs: seq<Record>)
    requires a < n <= |lines| && BarlessLines(lines) && AllGenuine(digest, front)
    requires rs == front + [Finalize(digest, Merged(lines[a..n]))]
    ensures AllGenuine(digest, rs)
  {
    MergedGenuine(digest, lines[a..n]);
  }

  lemma {:induction false} GroupedGenuine(digest: string -> string, lines: seq<Line>, n: nat)
    requires n <= |lines| && BarlessLines(lines)
    ensures AllGenuine(digest, Grouped(digest, lines, n))
    decreases n
  {
    if n > 0 {
      var a: nat := StartOf(lines, n - 1);
      GroupedGenuine(digest, lines, a);
      GroupedAt(digest, lines, n, a, lines[a..n]);
      OneMoreGenuine(digest, lines, a, n, Grouped(digest, lines, a), Grouped(digest, lines, n));
    }
  }

  lemma GenuineBut(digest: string -> string, records: seq<Record>, i: nat, x: Record)
    requires AllGenuine(digest, records) && i < |records| && Genuine(digest, x)
    ensures AllGenuine(digest, records[i := x])
  {
  }

  lemma AppendedGenuine(digest: string -> string, x: Record, r: Record)
    requires BarlessRecord(x) && BarlessRecord(r)
    ensures Genuine(digest, Finalize(digest, Appended(x, r)))
  {
    FinalGenuine(digest, Appended(x, r));
  }

  lemma RepeatedGenuine(digest: string -> string, x: Record, r: Record)
    requires Genuine(digest, x)
    ensures Genuine(digest, Repeated(x, r))
  {
  }

  lemma NumberedGenuine(digest: string -> string, r: Record, n: int)
    requires Genuine(digest, r)
    ensures Genuine(digest, r.(seqNo := n))
  {
  }

  lemma AddOneRecords(digest: string -> string, st: State, r: Record)
    ensures AddOne(digest, st, r).records ==
      match Fate(st, r)
      case Continuation(i) => st.records[i := Finalize(digest, Appended(st.records[i], r))]
      case Again(i) => st.records[i := Repeated(st.records[i], r.(seqNo := st.nextSeq + 1))]
      case Fresh => st.records + [r.(seqNo := st.nextSeq + 1)]
  {
  }

  lemma AddOneGenuine(digest: string -> string, st: State, r: Record)
    requires AllGenuine(digest, st.records) && Genuine(digest, r)
    ensures AllGenuine(digest, AddOne(digest, st, r).records)
  {
    AddOneRecords(digest, st, r);
    var numbered := r.(seqNo := st.nextSeq + 1);
    match Fate(st, r)
    case Continuation(i) =>
      AppendedGenuine(digest, st.records[i], r);
      GenuineBut(digest, st.records, i, Finalize(digest, Appended(st.records[i], r)));
    case Again(i) =>
      RepeatedGenuine(digest, st.records[i], numbered);
      GenuineBut(digest, st.records, i, Repeated(st.records[i], numbered));
    case Fresh => NumberedGenuine(digest, r, st.nextSeq + 1);
  }

  lemma {:induction false} AddAllGenuine(digest: string -> string, st: State, rs: seq<Record>)
    requires AllGenuine(digest, st.records) && AllGenuine(digest, rs)
    ensures AllGenuine(digest, AddAll(digest, st, rs).records)
  {
    if |rs| > 0 {
      AddAllGenuine(digest, st, rs[..|rs| - 1]);
      AddOneGenuine(digest, AddAll(digest, st, rs[..|rs| - 1]), rs[|rs| - 1]);
    }
  }

  lemma AddStepGenuine(digest: string -> string, st: State, lines: seq<Line>)
    requires AllGenuine(digest, st.records) && BarlessLines(lines)
    ensures AllGenuine(digest, AddStep(digest, st, lines).records)
  {
    if |lines| > 0 {
      GroupedGenuine(digest, lines, |lines|);
      AddAllGenuine(digest, st, Grouped(digest, lines, |lines|));
    }
  }

  // ---- What counts as a duplicate ----

  /** The record of this index entry, which was seen within the window, has the content of `r`. */
  predicate Repeats(st: State, r: Record, f: string) {
    && f in st.index && r.timestamp - st.index[f].lastSeen <= WINDOW
    && var i := Find(st.records, st.index[f].seqNo);
       i >= 0 && SameContent(r, st.records[i])
  }

  lemma EntryIs(digest: string -> string, st: State, r: Record, f: string)
    requires Injective(digest) && Sound(st) && AllGenuine(digest, st.records) && Genuine(digest, r) && f in st.index
    ensures var i := Find(st.records, st.index[f].seqNo);
      i >= 0 && (SameContent(r, st.records[i]) <==> r.fingerprint == f)
  {
    LookupSucceeds(st, f);
    var i := Find(st.records, st.index[f].seqNo);
    assert Genuine(digest, st.records[i]);
    FingerprintIff(digest, r, st.records[i]);
  }

  /** The index has the record's fingerprint, seen within the window. */
  predicate SeenAgain(st: State, r: Record) {
    r.fingerprint in st.index && r.timestamp - st.index[r.fingerprint].lastSeen <= WINDOW
  }

  lemma SeenRepeats(digest: string -> string, st: State, r: Record)
    requires Injective(digest) && Sound(st) && AllGenuine(digest, st.records) && Genuine(digest, r)
    ensures SeenAgain(st, r) <==> exists f :: Repeats(st, r, f)
  {
    if SeenAgain(st, r) {
      EntryIs(digest, st, r, r.fingerprint);
      assert Repeats(st, r, r.fingerprint);
    }
    if f :| Repeats(st, r, f) {
      EntryIs(digest, st, r, f);
    }
  }

  lemma AgainIsSeen(st: State, r: Record)
    requires Sound(st) && r.fingerprint != ""
    ensures !Fate(st, r).Continuation? ==> (Fate(st, r).Again? <==> SeenAgain(st, r))
    ensures Fate(st, r).Again? ==> SeenAgain(st, r) && Fate(st, r).i == Find(st.records, st.index[r.fingerprint].seqNo)
  {
    if r.fingerprint in st.index {
      LookupSucceeds(st, r.fingerprint);
    }
  }

  /** A record is counted as a duplicate only of one with the same content, and unless it continues
      a record it is counted exactly when such a one was seen within the window. */
  lemma DuplicateIff(digest: string -> string, st: State, r: Record)
    requires Injective(digest) && Sound(st) && AllGenuine(digest, st.records) && Genuine(digest, r)
    ensures Fate(st, r).Again? ==> SameContent(r, st.records[Fate(st, r).i])
    ensures !Fate(st, r).Continuation? ==> (Fate(st, r).Again? <==> exists f :: Repeats(st, r, f))
  {
    AgainIsSeen(st, r);
    SeenRepeats(digest, st, r);
    if SeenAgain(st, r) {
      EntryIs(digest, st, r, r.fingerprint);
    }
  }

  /** Every line that is added is without bars. */
  ghost predicate BarlessRun(es: seq<Event>) {
    forall k :: 0 <= k < |es| && es[k].Add? ==> BarlessLines(es[k].lines)
  }

  ghost predicate Good(env: Env, w: World) {
    Kept(w) && AllGenuine(env.digest, w.st.records)
  }

  lemma StepGood(env: Env, w: World, e: Event, w': World)
    requires Good(env, w) && Next(env, w, e, w') && (e.Add? ==> BarlessLines(e.lines))
    ensures Good(env, w')
  {
    StepKeeps(env, w, e, w');
    match e
    case Add(lines) => AddStepGenuine(env.digest, w.st, lines);
    case Pull(path, cursor, limits, id) => PullV1Runs.PullEffect(env, w.st, path, cursor, limits, id);
    case Acknowledge(id, verdict, claim) => PullV1Runs.AckEffect(w.st, id, verdict, claim);
  }

  lemma GoodThroughout(env: Env, ws: seq<World>, es: seq<Event>)
    requires Run(env, ws, es) && BarlessRun(es)
    ensures forall k :: 0 <= k < |ws| ==> Good(env, ws[k])
  {
    var next := (w: World, e: Event, w': World) => Next(env, w, e, w') && (e.Add? ==> BarlessLines(e.lines));
    var good := (w: World) => Good(env, w);
    forall w, e, w' | good(w) && next(w, e, w') ensures good(w') {
      StepGood(env, w, e, w');
    }
    InitialKept(ws[0]);
    Invariant(next, ws, es, good);
    assert forall k :: 0 <= k < |ws| ==> good(ws[k]);
  }

  /** Whatever has been added before of a batch. */
  lemma MidGood(digest: string -> string, st: State, lines: seq<Line>, rs: seq<Record>, n: nat)
    requires Sound(st) && AllGenuine(digest, st.records) && BarlessLines(lines)
    requires rs == Grouped(digest, lines, |lines|) && n < |rs|
    ensures Sound(AddAll(digest, st, rs[..n])) && AllGenuine(digest, AddAll(digest, st, rs[..n]).records)
    ensures Genuine(digest, rs[n])
  {
    GroupedGenuine(digest, lines, |lines|);
    GroupedPlain(digest, lines, |lines|);
    AddAllSound(digest, st, rs[..n]);
    AddAllGenuine(digest, st, rs[..n]);
  }

  /** In every run, whatever record of whatever batch comes next is counted as a duplicate only of
      one with its own content, and when it does not continue one, exactly if one of those was
      seen within the window. */
  lemma OnlyRepeatsAreDropped(env: Env, ws: seq<World>, es: seq<Event>, k: nat, rs: seq<Record>, n: nat, mid: State)
    requires Run(env, ws, es) && BarlessRun(es) && Injective(env.digest) && k < |es| && es[k].Add?
    requires rs == Grouped(env.digest, es[k].lines, |es[k].lines|) && n < |rs|
    requires mid == AddAll(env.digest, ws[k].st, rs[..n])
    ensures Fate(mid, rs[n]).Again? ==> SameContent(rs[n], mid.records[Fate(mid, rs[n]).i])
    ensures !Fate(mid, rs[n]).Continuation? ==> (Fate(mid, rs[n]).Again? <==> exists f :: Repeats(mid, rs[n], f))
  {
    GoodThroughout(env, ws, es);
    assert Good(env, ws[k]);
    MidGood(env.digest, ws[k].st, es[k].lines, rs, n);
    DuplicateIff(env.digest, mid, rs[n]);
  }
}

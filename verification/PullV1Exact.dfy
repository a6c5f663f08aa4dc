/** What the first pull version does with requests, acknowledgements and late lines, said of these
    themselves; and that a client acknowledges nothing it was not sent. */
module PullV1Exact {
  import opened Prelude
  import opened Runs
  import opened Text
  import opened Numerals
  import opened Normalize
  import opened PullV1
  import opened PullV1Index
  import opened PullV1Runs
  import Fingerprints

  // ---- Requests ----

  /** A limit as it is asked for, if it is neither zero, which asks for the default, nor more than
      the most that is allowed. */
  predicate Honours(asked: int, limit: int, default: int, most: int) {
    && (0 < asked <= most ==> limit == asked)
    && (asked == 0 ==> limit == default)
    && (asked > most ==> limit == most)
  }

  lemma LimitsAreRead(maxRecords: int, maxBytes: int, timeout: int)
    ensures var r := ReadLimits(maxRecords, maxBytes, timeout);
      && (r.None? <==> maxRecords < 0 || maxBytes < 0 || timeout < 0)
      && (r.Some? ==>
            Honours(maxRecords, r.value.maxRecords, 200, 1000) && Honours(maxBytes, r.value.maxBytes, 1048576, 5242880))
  {
  }

  /** A blank cursor asks for the committed one; any other is read as `n` exactly when its trimmed
      text is that number and fits 64 bits. */
  lemma CursorIsRead(raw: string, n: nat)
    ensures ReadCursor(raw).Committed? <==> Blank(Go, raw)
    ensures !Blank(Go, raw) ==> (ReadCursor(raw) == At(n) <==> n <= MAX_INT64 && Numeral(Trim(Go, raw), n))
  {
    BlankIsTrimmedEmpty(Go, raw);
    ParsesIff(Trim(Go, raw), n);
  }

  /** An acknowledgement names a batch and says ack or, with a reason, nack. */
  lemma VerdictIsRead(batchId: string, status: string, reason: string)
    ensures var v, s := ReadVerdict(batchId, status, reason), Lower(Trim(Go, status));
      && (v.Ack? <==> !Blank(Go, batchId) && s == "ack")
      && (v.Nack? <==> !Blank(Go, batchId) && s == "nack" && !Blank(Go, reason))
  {
    BlankIsTrimmedEmpty(Go, batchId);
    BlankIsTrimmedEmpty(Go, reason);
  }

  // ---- Sizes ----

  /** A text takes the bytes of its parts, and a character one to four. */
  lemma {:induction false} BytesAreCounted(a: string, b: string, c: char)
    ensures ByteLen(a + b) == ByteLen(a) + ByteLen(b)
    ensures ByteLen([c]) ==
      if c as int < 128 then 1 else if c as int < 2048 then 2 else if c as int < 65536 then 3 else 4
  {
    assert [c][..0] == "";
    if |b| == 0 {
      assert a + b == a;
    } else {
      BytesAreCounted(a, b[..|b| - 1], c);
      assert (a + b)[..|a| + |b| - 1] == a + b[..|b| - 1];
    }
  }

  // ---- Paths ----

  lemma PatternIff(path: string, p: string)
    ensures p in Patterns(path) <==> exists part :: part in Split(path, ',') && !Blank(Go, part) && Trim(Go, part) == p
  {
    var parts := Split(path, ',');
    var places := Fingerprints.KeptAre(parts);
    if p in Patterns(path) {
      var k :| 0 <= k < |places| && Patterns(path)[k] == p;
      assert places[k] in places && parts[places[k]] in parts;
    }
    if part :| part in parts && !Blank(Go, part) && Trim(Go, part) == p {
      var i :| 0 <= i < |parts| && parts[i] == part;
      var k :| 0 <= k < |places| && places[k] == i;
      assert Patterns(path)[k] == p;
    }
  }

  /** One of the parts of a path, which commas separate, asks for this source. */
  predicate AsksFor(glob: (string, string) -> bool, source: string, part: string) {
    && !Blank(Go, source) && !Blank(Go, part)
    && (Trim(Go, part) == Trim(Go, source) || glob(Trim(Go, part), Trim(Go, source)))
  }

  lemma NoPatternIff(path: string)
    ensures Patterns(path) == [] <==> forall part :: part in Split(path, ',') ==> Blank(Go, part)
  {
    if Patterns(path) != [] {
      PatternIff(path, Patterns(path)[0]);
      assert Patterns(path)[0] in Patterns(path);
    } else if part :| part in Split(path, ',') && !Blank(Go, part) {
      PatternIff(path, Trim(Go, part));
    }
  }

  lemma SomePatternIff(glob: (string, string) -> bool, source: string, path: string, s: string)
    requires s == Trim(Go, source) && s != ""
    ensures (exists p :: p in Patterns(path) && (glob(p, s) || p == s)) <==>
      exists part :: part in Split(path, ',') && AsksFor(glob, source, part)
  {
    BlankIsTrimmedEmpty(Go, source);
    if p :| p in Patterns(path) && (glob(p, s) || p == s) {
      PatternIff(path, p);
    }
    if part :| part in Split(path, ',') && AsksFor(glob, source, part) {
      PatternIff(path, Trim(Go, part));
    }
  }

  /** A record is asked for when the path names no pattern, or one that is its source's path or
      matches it. */
  lemma MatchesIff(glob: (string, string) -> bool, source: string, path: string)
    ensures Matches(glob, source, path) <==>
      || (forall part :: part in Split(path, ',') ==> Blank(Go, part))
      || (exists part :: part in Split(path, ',') && AsksFor(glob, source, part))
  {
    BlankIsTrimmedEmpty(Go, source);
    NoPatternIff(path);
    if Trim(Go, source) != "" {
      SomePatternIff(glob, source, path, Trim(Go, source));
    }
  }

  // ---- Acknowledgements ----

  /** The cursor that an acknowledgement asks to commit: the batch's, or a larger claim. */
  function Committing(b: Batch, claim: Cursor): int {
    if claim.At? && claim.n > b.next then claim.n else b.next
  }

  predicate Knows(st: State, id: string, verdict: Verdict) {
    !verdict.Invalid? && id in st.pending
  }

  /** Only this batch is no longer pending. */
  ghost predicate Released(st: State, id: string, st': State) {
    && st'.records == st.records && st'.index == st.index && st'.nextSeq == st.nextSeq
    && (forall i :: i in st'.pending <==> i in st.pending && i != id)
    && (forall i :: i in st'.pending ==> st'.pending[i] == st.pending[i])
  }

  /** What an acknowledgement answers, that it drops its batch even if its cursor cannot be read,
      and that it raises the committed cursor of the batch's scope and no other. */
  lemma AckIsExact(st: State, id: string, verdict: Verdict, claim: Cursor)
    ensures var (st', out) := AckStep(st, id, verdict, claim);
      && (!Knows(st, id, verdict) ==> st' == st && out == if verdict.Invalid? then InvalidAck else BatchNotFound)
      && (Knows(st, id, verdict) ==>
            && Released(st, id, st')
            && var b := st.pending[id]; var key := if b.path == "" then "*" else b.path;
               && (forall k :: k != key ==> Num(st'.committed, k) == Num(st.committed, k))
               && if verdict.Nack? || claim.Unreadable? then
                    && Num(st'.committed, key) == Num(st.committed, key)
                    && out == if verdict.Nack? then Done(false) else BadCommittedCursor
                  else
                    && out == Done(false)
                    && Num(st'.committed, key) == Max(Num(st.committed, key), Committing(b, claim)))
  {
  }

  // ---- Late lines ----

  /** A record goes to another one only if they are of one source and not of two known instances,
      it is not older and at most ten seconds newer; and to the last of those it continues. */
  lemma ContinuesOnlyItsOwn(st: State, r: Record)
    ensures Fate(st, r).Continuation? ==> var x := st.records[Fate(st, r).i];
      && x.source == r.source && (x.instance == r.instance || x.instance == "" || r.instance == "")
      && x.timestamp <= r.timestamp <= x.timestamp + 10_000_000_000
      && Continues(LastLine(x.data), x.multiline.enabled, r.data)
    ensures forall j :: (if Fate(st, r).Continuation? then Fate(st, r).i else -1) < j < |st.records| ==>
      !ShouldContinue(st.records[j], r)
  {
  }

  /** It becomes the end of that record, whose other particulars stay, and changes no other one. A
      blank original text is left out. */
  lemma ContinuationIsExact(digest: string -> string, st: State, r: Record)
    requires Fate(st, r).Continuation?
    ensures var i := Fate(st, r).i;
      var st', was := AddOne(digest, st, r), st.records[i];
      && st'.nextSeq == st.nextSeq && |st'.records| == |st.records|
      && (forall j :: 0 <= j < |st.records| && j != i ==> st'.records[j] == st.records[j])
      && var now := st'.records[i];
         && now.data == Trim(Go, was.data + "\n" + r.data) && now.timestamp == Max(was.timestamp, r.timestamp)
         && now.original == (if Blank(Go, r.original) then was.original
                             else if Blank(Go, was.original) then r.original
                             else was.original + "\n" + r.original)
         && now.seqNo == was.seqNo && now.source == was.source && now.service == was.service
         && now.instance == was.instance
         && (r.offset > 0 ==> now.offset == r.offset)
         && now.multiline.enabled
         && now.multiline.lineCount == Max(1, was.multiline.lineCount) + Max(1, r.multiline.lineCount)
  {
  }

  // ---- What a client acknowledges it was sent ----

  function AnswerOf(env: Env, w: World, e: Event): PullOutcome
    requires e.Pull? && (e.limits.Some? ==> e.limits.value.maxRecords > 0)
  {
    PullStep(env.glob, w.st, e.path, e.cursor, e.limits, e.batchId).1
  }

  /** The pull was for the batch's path, and its answer was exactly this batch. */
  ghost predicate Answered(env: Env, w: World, e: Event, id: string, b: Batch) {
    && e.Pull? && e.batchId == id && e.path == b.path && (e.limits.Some? ==> e.limits.value.maxRecords > 0)
    && var out := AnswerOf(env, w, e);
       out.Page? && out.batchId == id && out.next == b.next && out.records == b.records
  }

  ghost predicate AllAnswered(env: Env, ws: seq<World>, es: seq<Event>, j: nat)
    requires j <= |es| && |ws| == |es| + 1
  {
    forall id :: id in ws[j].st.pending ==>
      exists i :: 0 <= i < j && Answered(env, ws[i], es[i], id, ws[j].st.pending[id])
  }

  lemma {:induction false} AddAllLeavesPending(digest: string -> string, st: State, rs: seq<Record>)
    ensures AddAll(digest, st, rs).pending == st.pending
  {
    if |rs| > 0 {
      AddAllLeavesPending(digest, st, rs[..|rs| - 1]);
    }
  }

  lemma AddLeavesPending(digest: string -> string, st: State, lines: seq<Line>)
    ensures AddStep(digest, st, lines).pending == st.pending
  {
    if |lines| > 0 {
      AddAllLeavesPending(digest, st, Grouped(digest, lines, |lines|));
    }
  }

  lemma StepAnswers(env: Env, w: World, e: Event, w': World, id: string)
    requires Next(env, w, e, w') && id in w'.st.pending
    ensures (id in w.st.pending && w'.st.pending[id] == w.st.pending[id])
      || Answered(env, w, e, id, w'.st.pending[id])
  {
    match e
    case Add(lines) => AddLeavesPending(env.digest, w.st, lines);
    case Pull(_, _, _, _) =>
    case Acknowledge(_, verdict, claim) => AckIsExact(w.st, e.batchId, verdict, claim);
  }

  ghost predicate StepAt(env: Env, ws: seq<World>, es: seq<Event>, j: nat) {
    j < |es| && |ws| == |es| + 1 && Next(env, ws[j], es[j], ws[j + 1])
  }

  /** A run of a new service, step by step. */
  ghost predicate Stepwise(env: Env, ws: seq<World>, es: seq<Event>) {
    && |ws| == |es| + 1 && ws[0].st.pending == map[] && ws[0].acked == {}
    && forall j: nat {:trigger StepAt(env, ws, es, j)} :: j < |es| ==> StepAt(env, ws, es, j)
  }

  lemma RunIsStepwise(env: Env, ws: seq<World>, es: seq<Event>)
    requires Run(env, ws, es)
    ensures Stepwise(env, ws, es)
  {
    var next := (w: World, e: Event, w': World) => Next(env, w, e, w');
    forall j: nat | j < |es| ensures StepAt(env, ws, es, j) {
      assert next(ws[j], es[j], ws[j + 1]);
    }
  }

  lemma AnsweredOn(env: Env, ws: seq<World>, es: seq<Event>, j: nat)
    requires StepAt(env, ws, es, j) && AllAnswered(env, ws, es, j)
    ensures AllAnswered(env, ws, es, j + 1)
  {
    var w' := ws[j + 1];
    forall id | id in w'.st.pending
      ensures exists i :: 0 <= i < j + 1 && Answered(env, ws[i], es[i], id, w'.st.pending[id])
    {
      StepAnswers(env, ws[j], es[j], w', id);
    }
  }

  /** The answer to this pull of the path held a record of this number. */
  ghost predicate Told(env: Env, w: World, e: Event, path: string, n: int) {
    && e.Pull? && e.path == path && (e.limits.Some? ==> e.limits.value.maxRecords > 0)
    && var out := AnswerOf(env, w, e);
       out.Page? && exists r :: r in out.records && r.seqNo == n
  }

  ghost predicate AllTold(env: Env, ws: seq<World>, es: seq<Event>, j: nat)
    requires j <= |es| && |ws| == |es| + 1
  {
    forall path, n {:trigger (path, n) in ws[j].acked} :: (path, n) in ws[j].acked ==>
      exists i :: 0 <= i < j && Told(env, ws[i], es[i], path, n)
  }

  lemma NoneAtFirst(env: Env, ws: seq<World>, es: seq<Event>, j: nat)
    requires |ws| == |es| + 1 && ws[0].st.pending == map[] && ws[0].acked == {} && j == 0
    ensures AllAnswered(env, ws, es, j) && AllTold(env, ws, es, j)
  {
  }

  lemma ToldOn(env: Env, ws: seq<World>, es: seq<Event>, j: nat)
    requires StepAt(env, ws, es, j) && AllAnswered(env, ws, es, j) && AllTold(env, ws, es, j)
    ensures AllTold(env, ws, es, j + 1)
  {
    var w, e, w' := ws[j], es[j], ws[j + 1];
    forall path, n | (path, n) in w'.acked ensures exists i :: 0 <= i < j + 1 && Told(env, ws[i], es[i], path, n) {
      if (path, n) in w.acked {
        assert exists i :: 0 <= i < j && Told(env, ws[i], es[i], path, n);
      } else {
        var b := w.st.pending[e.batchId];
        var x :| x in b.records && x.seqNo == n;
        var i :| 0 <= i < j && Answered(env, ws[i], es[i], e.batchId, b);
        assert x in AnswerOf(env, ws[i], es[i]).records;
      }
    }
  }

  /** Both, in the state that `j` steps lead to. */
  ghost predicate SentSoFar(env: Env, ws: seq<World>, es: seq<Event>, j: nat) {
    j <= |es| && |ws| == |es| + 1 && AllAnswered(env, ws, es, j) && AllTold(env, ws, es, j)
  }

  lemma SentOn(env: Env, ws: seq<World>, es: seq<Event>, i: nat, j: nat)
    requires SentSoFar(env, ws, es, i) && StepAt(env, ws, es, i) && j == i + 1
    ensures SentSoFar(env, ws, es, j)
  {
    AnsweredOn(env, ws, es, i);
    ToldOn(env, ws, es, i);
  }

  lemma SentThroughout(env: Env, ws: seq<World>, es: seq<Event>, sent: nat -> bool, n: nat)
    requires Stepwise(env, ws, es) && n <= |es| && sent(0)
    requires forall j: nat :: sent(j) <==> SentSoFar(env, ws, es, j)
    ensures sent(n)
  {
    forall i: nat, j: nat {:trigger sent(i), sent(j)} | 0 <= i < n && j == i + 1 && sent(i) ensures sent(j) {
      assert StepAt(env, ws, es, i);
      SentOn(env, ws, es, i, j);
    }
    Upwards(sent, 0, n);
  }

  /** In every run, with any cursors, limits and claims, a record that was acknowledged for a path
      was in an answer to a pull of that path before. */
  lemma AckedWasSent(env: Env, ws: seq<World>, es: seq<Event>, j: nat, path: string, n: int)
    requires Run(env, ws, es) && j <= |es| && (path, n) in ws[j].acked
    ensures exists i :: 0 <= i < j && Told(env, ws[i], es[i], path, n)
  {
    RunIsStepwise(env, ws, es);
    NoneAtFirst(env, ws, es, 0);
    var sent := (i: nat) => SentSoFar(env, ws, es, i);
    SentThroughout(env, ws, es, sent, j);
    assert SentSoFar(env, ws, es, j);
  }
}

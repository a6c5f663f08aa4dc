/** What holds over whole runs of the version 1 pull service: conservation, committed cursors
    that never move back and, for the scopes that allow it, skip nothing. */
module PullV1Runs {
  import opened Prelude
  import opened Runs
  import opened Normalize
  import opened PullV1
  import opened PullV1Index

  /** What the service gets from outside: the digest of a text and the path matcher. */
  datatype Env = Env(digest: string -> string, glob: (string, string) -> bool)

  /** The service with its history: the ledger, and the path and number of every record that
      was in a batch whose acknowledgement was accepted. */
  datatype World = World(st: State, ledger: Ledger, acked: set<(string, int)>)

  datatype Event =
    | Add(lines: seq<Line>)
    | Pull(path: string, cursor: Cursor, limits: Option<Limits>, batchId: string)
    | Acknowledge(batchId: string, verdict: Verdict, claim: Cursor)

  function Tags(b: Batch): (r: set<(string, int)>) {
    set x | x in b.records :: (b.path, x.seqNo)
  }

  ghost predicate Next(env: Env, w: World, e: Event, w': World) {
    match e
    case Add(lines) =>
      && (forall i :: 0 <= i < |lines| ==> Accepted(lines[i]))
      && w' == w.(st := AddStep(env.digest, w.st, lines), ledger := NoteAdd(env.digest, w.st, w.ledger, lines))
    case Pull(path, cursor, limits, id) =>
      && (limits.Some? ==> limits.value.maxRecords > 0)
      && w' == w.(st := PullStep(env.glob, w.st, path, cursor, limits, id).0)
    case Acknowledge(id, verdict, claim) =>
      var (st, out) := AckStep(w.st, id, verdict, claim);
      w' == w.(st := st, acked := if verdict.Ack? && out.Done? then w.acked + Tags(w.st.pending[id]) else w.acked)
  }

  ghost predicate Initial(w: World) {
    && Init(w.st) && w.acked == {}
    && |w.ledger.evicted| == 0 && |w.ledger.duplicates| == 0
    && w.ledger.continuations == w.ledger.lines == w.ledger.records == 0
  }

  ghost predicate Run(env: Env, ws: seq<World>, es: seq<Event>) {
    Steps((w: World, e: Event, w': World) => Next(env, w, e, w'), ws, es) && Initial(ws[0])
  }

  // ---- Soundness and conservation ----

  ghost predicate Kept(w: World) {
    Sound(w.st) && Conserved(w.st, w.ledger)
  }

  lemma PullEffect(env: Env, st: State, path: string, cursor: Cursor, limits: Option<Limits>, id: string)
    requires limits.Some? ==> limits.value.maxRecords > 0
    ensures var st' := PullStep(env.glob, st, path, cursor, limits, id).0;
      st' == st.(pending := st'.pending)
  {
  }

  lemma AckEffect(st: State, id: string, verdict: Verdict, claim: Cursor)
    ensures var st' := AckStep(st, id, verdict, claim).0;
      st' == st.(pending := st'.pending, committed := st'.committed)
    ensures var st' := AckStep(st, id, verdict, claim).0;
      forall k :: Num(st.committed, k) <= Num(st'.committed, k)
  {
  }

  lemma AddKept(env: Env, w: World, lines: seq<Line>, w': World)
    requires Kept(w) && Next(env, w, Add(lines), w')
    ensures Kept(w')
  {
    AddKeepsSound(env.digest, w.st, lines);
    AddConserves(env.digest, w.st, w.ledger, lines);
  }

  /** Whatever else happens leaves the buffer, the index and the ledger alone. */
  lemma RestKept(w: World, w': World)
    requires Kept(w) && w'.ledger == w.ledger
    requires w'.st == w.st.(pending := w'.st.pending, committed := w'.st.committed)
    ensures Kept(w')
  {
  }

  lemma StepKeeps(env: Env, w: World, e: Event, w': World)
    requires Kept(w) && Next(env, w, e, w')
    ensures Kept(w')
  {
    match e
    case Add(lines) => AddKept(env, w, lines, w');
    case Pull(path, cursor, limits, id) =>
      PullEffect(env, w.st, path, cursor, limits, id);
      RestKept(w, w');
    case Acknowledge(id, verdict, claim) =>
      AckEffect(w.st, id, verdict, claim);
      RestKept(w, w');
  }

  lemma InitialKept(w: World)
    requires Initial(w)
    ensures Kept(w)
  {
  }

  /** In every reachable state the index agrees with the buffer and every line and record is
      accounted for once. */
  lemma RunKeeps(env: Env, ws: seq<World>, es: seq<Event>)
    requires Run(env, ws, es)
    ensures forall i :: 0 <= i < |ws| ==> Kept(ws[i])
  {
    var next := (w: World, e: Event, w': World) => Next(env, w, e, w');
    forall w, e, w' | Kept(w) && next(w, e, w') ensures Kept(w') {
      StepKeeps(env, w, e, w');
    }
    InitialKept(ws[0]);
    Invariant(next, ws, es, Kept);
  }

  // ---- Committed cursors ----

  ghost predicate CommitsUpTo(a: World, b: World) {
    forall k :: Num(a.st.committed, k) <= Num(b.st.committed, k)
  }

  lemma {:induction false} AddAllLeavesRest(digest: string -> string, st: State, rs: seq<Record>)
    ensures var st' := AddAll(digest, st, rs); st'.committed == st.committed && st'.pending == st.pending
  {
    if rs != [] {
      AddAllLeavesRest(digest, st, rs[..|rs| - 1]);
    }
  }

  lemma AddLeavesRest(digest: string -> string, st: State, lines: seq<Line>)
    ensures var st' := AddStep(digest, st, lines); st'.committed == st.committed && st'.pending == st.pending
  {
    if lines != [] {
      AddAllLeavesRest(digest, st, Grouped(digest, lines, |lines|));
    }
  }

  lemma StepCommits(env: Env, w: World, e: Event, w': World)
    requires Next(env, w, e, w')
    ensures CommitsUpTo(w, w')
  {
    match e
    case Add(lines) => AddLeavesRest(env.digest, w.st, lines);
    case Pull(path, cursor, limits, id) => PullEffect(env, w.st, path, cursor, limits, id);
    case Acknowledge(id, verdict, claim) => AckEffect(w.st, id, verdict, claim);
  }

  /** In any run, no scope's committed cursor ever decreases. */
  lemma CommitsNeverMoveBack(env: Env, ws: seq<World>, es: seq<Event>)
    requires Run(env, ws, es)
    ensures forall i, j, k :: 0 <= i <= j < |ws| ==> Num(ws[i].st.committed, k) <= Num(ws[j].st.committed, k)
  {
    var next := (w: World, e: Event, w': World) => Next(env, w, e, w');
    forall i | 0 <= i < |es| ensures CommitsUpTo(ws[i], ws[i + 1]) {
      assert next(ws[i], es[i], ws[i + 1]);
      StepCommits(env, ws[i], es[i], ws[i + 1]);
    }
    Monotone(next, ws, es, CommitsUpTo);
    assert forall i, j :: 0 <= i <= j < |ws| ==> CommitsUpTo(ws[i], ws[j]);
  }
}
